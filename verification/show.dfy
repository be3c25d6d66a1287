/** `print_count_table` of the `cubedash-view` command
    (`cubedash/summary/show.py`): a grid of dataset counts, one row per
    tile row, one fixed-width column per tile column, zeros left blank. */
module Show {
  import opened Wrappers
  import opened Strings
  import opened Counters
  import Aggregate

  type Cell = Aggregate.GridCell

  // ---------------------------------------------------------------------
  // Least and greatest elements

  lemma {:induction false} HasLeast(s: set<int>)
    requires s != {}
    ensures exists m :: m in s && forall e :: e in s ==> m <= e
    decreases |s|
  {
    assert (forall y :: y !in s) ==> s == {};
    var x :| x in s;
    var rest := s - {x};
    if rest == {} {
      forall e | e in s
        ensures x <= e
      {
        assert e !in rest;
      }
    } else {
      HasLeast(rest);
      var m :| m in rest && forall e :: e in rest ==> m <= e;
      var least := if x < m then x else m;
      forall e | e in s
        ensures least <= e
      {
        if e != x {
          assert e in rest;
        }
      }
      assert least in s;
    }
  }

  lemma {:induction false} HasGreatest(s: set<int>)
    requires s != {}
    ensures exists m :: m in s && forall e :: e in s ==> e <= m
    decreases |s|
  {
    assert (forall y :: y !in s) ==> s == {};
    var x :| x in s;
    var rest := s - {x};
    if rest == {} {
      forall e | e in s
        ensures e <= x
      {
        assert e !in rest;
      }
    } else {
      HasGreatest(rest);
      var m :| m in rest && forall e :: e in rest ==> e <= m;
      var greatest := if m < x then x else m;
      forall e | e in s
        ensures e <= greatest
      {
        if e != x {
          assert e in rest;
        }
      }
      assert greatest in s;
    }
  }

  /** `min` of a non-empty collection. */
  function Least(s: set<int>): (m: int)
    requires s != {}
    ensures m in s && forall e :: e in s ==> m <= e
  {
    HasLeast(s);
    var m :| m in s && forall e :: e in s ==> m <= e;
    m
  }

  /** `max` of a non-empty collection. */
  function Greatest(s: set<int>): (m: int)
    requires s != {}
    ensures m in s && forall e :: e in s ==> e <= m
  {
    HasGreatest(s);
    var m :| m in s && forall e :: e in s ==> e <= m;
    m
  }

  // ---------------------------------------------------------------------
  // The ranges and the width

  function Xs(cs: Counter<Cell>): set<int> {
    set c | c in cs :: c.x
  }

  function Ys(cs: Counter<Cell>): set<int> {
    set c | c in cs :: c.y
  }

  function Counts(cs: Counter<Cell>): set<int> {
    set c | c in cs :: cs[c] as int
  }

  /** `x_range`, `y_range` and `count_range`: half-open coordinate ranges
      and the smallest and largest count. */
  datatype Ranges = Ranges(x0: int, x1: int, y0: int, y1: int, c0: int, c1: int)

  function RangesOf(cs: Counter<Cell>): (r: Ranges)
    requires cs != map[]
  {
    assert (forall c :: c !in cs) ==> cs == map[];
    var c :| c in cs;
    assert c.x in Xs(cs) && c.y in Ys(cs) && cs[c] as int in Counts(cs);
    Ranges(Least(Xs(cs)), Greatest(Xs(cs)) + 1, Least(Ys(cs)), Greatest(Ys(cs)) + 1,
           Least(Counts(cs)), Greatest(Counts(cs)))
  }

  /** Every tile lies within the ranges, and every count between the
      smallest and the largest. */
  lemma RangesContain(cs: Counter<Cell>, c: Cell)
    requires c in cs
    ensures var r := RangesOf(cs);
            r.x0 <= c.x < r.x1 && r.y0 <= c.y < r.y1 && r.c0 <= cs[c] <= r.c1
  {
    assert c.x in Xs(cs) && c.y in Ys(cs) && cs[c] as int in Counts(cs);
  }

  /** The ranges are not empty, and their ends are taken from actual
      tiles and counts. */
  lemma RangesAttained(cs: Counter<Cell>)
    requires cs != map[]
    ensures var r := RangesOf(cs);
            && r.x0 < r.x1 && r.y0 < r.y1 && 0 <= r.c0 <= r.c1
            && (exists c :: c in cs && c.x == r.x0) && (exists c :: c in cs && c.x == r.x1 - 1)
            && (exists c :: c in cs && c.y == r.y0) && (exists c :: c in cs && c.y == r.y1 - 1)
            && (exists c :: c in cs && cs[c] == r.c0) && (exists c :: c in cs && cs[c] == r.c1)
  {
    var r := RangesOf(cs);
    assert r.x0 in Xs(cs) && r.x1 - 1 in Xs(cs) && r.y0 in Ys(cs) && r.y1 - 1 in Ys(cs);
    assert r.c0 in Counts(cs) && r.c1 in Counts(cs);
  }

  function Len(v: int): nat {
    |IntToString(v)|
  }

  /** `max(len(str(i)) for i in x_range + y_range + count_range)`. */
  function WidthOf(r: Ranges): (w: nat)
    ensures w >= Len(r.x0) && w >= Len(r.x1) && w >= Len(r.y0) && w >= Len(r.y1)
    ensures w >= Len(r.c0) && w >= Len(r.c1)
    ensures w == Len(r.x0) || w == Len(r.x1) || w == Len(r.y0) || w == Len(r.y1) || w == Len(r.c0) || w == Len(r.c1)
  {
    var a := if Len(r.x0) < Len(r.x1) then Len(r.x1) else Len(r.x0);
    var b := if Len(r.y0) < Len(r.y1) then Len(r.y1) else Len(r.y0);
    var c := if Len(r.c0) < Len(r.c1) then Len(r.c1) else Len(r.c0);
    var ab := if a < b then b else a;
    if ab < c then c else ab
  }

  /** `str(v)` is the digits of `|v|`, after a minus sign when negative. */
  lemma LenOf(v: int)
    ensures v < 0 ==> Len(v) == 1 + |NatToString(-v)|
    ensures v >= 0 ==> Len(v) == |NatToString(v)|
  {
  }

  /** A number between two others is no wider than the wider of them. */
  lemma LenBetween(lo: int, v: int, hi: int)
    requires lo <= v <= hi
    ensures Len(v) <= Len(lo) || Len(v) <= Len(hi)
  {
    LenOf(lo);
    LenOf(v);
    LenOf(hi);
    hide Len, NatToString;
    if v < 0 {
      NatToStringLengthMonotone(-v, -lo);
    } else {
      NatToStringLengthMonotone(v, hi);
    }
  }

  // ---------------------------------------------------------------------
  // Cells and lines

  /** `"%{w}d " % n`: right-aligned to `w`, then a space. */
  function HeadCell(n: int, w: nat): (s: string)
    ensures Len(n) <= w ==> |s| == w + 1
  {
    var digits := IntToString(n);
    Repeat(' ', if |digits| < w then w - |digits| else 0) + digits + " "
  }

  /** `echo_cell`: a count, or `w + 1` spaces for zero. */
  function CountCell(n: nat, w: nat): (s: string)
    ensures n == 0 || Len(n) <= w ==> |s| == w + 1
  {
    if n != 0 then HeadCell(n, w) else Repeat(' ', w + 1)
  }

  /** The pieces one after another. */
  function Concat(parts: seq<string>): string {
    if parts == [] then "" else parts[0] + Concat(parts[1..])
  }

  lemma {:induction false} ConcatLength(parts: seq<string>, w: nat)
    requires forall k :: 0 <= k < |parts| ==> |parts[k]| == w
    ensures |Concat(parts)| == |parts| * w
  {
    if parts != [] {
      ConcatLength(parts[1..], w);
      assert |parts| * w == w + (|parts| - 1) * w;
    }
  }

  /** The `k`-th piece of width `cw` of a line. */
  function CellAt(line: string, k: nat, cw: nat): string {
    if |line| < cw then ""
    else if k == 0 then line[..cw]
    else CellAt(line[cw..], k - 1, cw)
  }

  /** Pieces of one width can be cut back out of their concatenation. */
  lemma {:induction false} ConcatFixed(parts: seq<string>, w: nat, i: nat)
    requires forall k :: 0 <= k < |parts| ==> |parts[k]| == w
    requires i < |parts|
    ensures CellAt(Concat(parts), i, w) == parts[i]
  {
    ConcatLength(parts, w);
    var rest := parts[1..];
    var c := Concat(parts);
    assert c == parts[0] + Concat(rest);
    assert c[..w] == parts[0] && c[w..] == Concat(rest);
    if i > 0 {
      ConcatFixed(rest, w, i - 1);
    }
  }

  /** The header: a blank corner, then each column's x value. */
  function Header(r: Ranges, w: nat): string
    requires r.x0 <= r.x1
  {
    Concat([Repeat(' ', w + 1)] + seq(r.x1 - r.x0, i requires 0 <= i < r.x1 - r.x0 => HeadCell(r.x0 + i, w)))
  }

  /** The pieces of row `y`: its y value, then one cell per column. */
  function RowParts(cs: Counter<Cell>, r: Ranges, w: nat, y: int): (p: seq<string>)
    requires r.x0 <= r.x1
    ensures |p| == r.x1 - r.x0 + 1
  {
    [HeadCell(y, w)] + seq(r.x1 - r.x0, i requires 0 <= i < r.x1 - r.x0 => CountCell(Get(cs, Aggregate.GridCell(r.x0 + i, y)), w))
  }

  /** The header line, then the line of every row. */
  function Lines(cs: Counter<Cell>, r: Ranges, w: nat): seq<string>
    requires r.x0 <= r.x1 && r.y0 <= r.y1
  {
    [Header(r, w)] + seq(r.y1 - r.y0, j requires 0 <= j < r.y1 - r.y0 => Concat(RowParts(cs, r, w, r.y0 + j)))
  }

  /** `print_count_table`: the header line, then one line per tile row; an
      empty counter has no `min` (`ValueError`). */
  function PrintCountTable(cs: Counter<Cell>): (lines: Result<seq<string>>)
    ensures lines.Err? <==> cs == map[]
    ensures lines.Ok? ==> |lines.value| == RangesOf(cs).y1 - RangesOf(cs).y0 + 1
  {
    if cs == map[] then Err(ValueError("min() arg is an empty sequence"))
    else
      var r := RangesOf(cs);
      RangesAttained(cs);
      var w := WidthOf(r);
      Ok(Lines(cs, r, w))
  }

  /** The lines of a table with given ranges and width. */
  lemma LinesAt(cs: Counter<Cell>, r: Ranges, w: nat, j: int)
    requires r.x0 <= r.x1 && r.y0 <= r.y1
    requires 0 <= j <= r.y1 - r.y0
    ensures |Lines(cs, r, w)| == r.y1 - r.y0 + 1
    ensures Lines(cs, r, w)[j] == if j == 0 then Header(r, w) else Concat(RowParts(cs, r, w, r.y0 + j - 1))
  {
    hide Header, RowParts, Concat;
  }

  // ---------------------------------------------------------------------
  // Properties of the table

  /** Every value the table prints fits the width. */
  lemma Fits(cs: Counter<Cell>, v: int, n: nat)
    requires cs != map[]
    ensures var r := RangesOf(cs);
            && (r.x0 <= v <= r.x1 ==> Len(v) <= WidthOf(r))
            && (r.y0 <= v <= r.y1 ==> Len(v) <= WidthOf(r))
            && (n <= r.c1 ==> Len(n) <= WidthOf(r))
  {
    var r := RangesOf(cs);
    if r.x0 <= v <= r.x1 {
      LenBetween(r.x0, v, r.x1);
    }
    if r.y0 <= v <= r.y1 {
      LenBetween(r.y0, v, r.y1);
    }
    if n <= r.c1 {
      NatToStringLengthMonotone(n, r.c1);
    }
  }

  /** Every count of the table fits the width. */
  lemma CountsFit(cs: Counter<Cell>)
    requires cs != map[]
    ensures forall c :: c in cs ==> Len(cs[c]) <= WidthOf(RangesOf(cs))
  {
    forall c | c in cs
      ensures Len(cs[c]) <= WidthOf(RangesOf(cs))
    {
      RangesContain(cs, c);
      Fits(cs, 0, cs[c]);
    }
  }

  /** A row whose y value and counts fit `w` has cells `w + 1` wide. */
  lemma PartsWidth(cs: Counter<Cell>, r: Ranges, w: nat, y: int)
    requires r.x0 <= r.x1
    requires Len(y) <= w
    requires forall c :: c in cs ==> Len(cs[c]) <= w
    ensures var p := RowParts(cs, r, w, y);
            forall k :: 0 <= k < |p| ==> |p[k]| == w + 1
  {
    var p := RowParts(cs, r, w, y);
    hide HeadCell, CountCell, Len;
    forall k | 0 <= k < |p|
      ensures |p[k]| == w + 1
    {
      if k == 0 {
        assert p[0] == HeadCell(y, w);
      } else {
        var c := Aggregate.GridCell(r.x0 + k - 1, y);
        assert p[k] == CountCell(Get(cs, c), w);
      }
    }
  }

  /** Every cell of every row is `w + 1` wide. */
  lemma RowPartsWidth(cs: Counter<Cell>, y: int)
    requires cs != map[]
    requires RangesOf(cs).y0 <= y < RangesOf(cs).y1
    ensures var r := RangesOf(cs);
            RangesOf(cs).x0 <= RangesOf(cs).x1
            && var p := RowParts(cs, r, WidthOf(r), y);
               forall k :: 0 <= k < |p| ==> |p[k]| == WidthOf(r) + 1
  {
    RangesAttained(cs);
    Fits(cs, y, 0);
    CountsFit(cs);
    PartsWidth(cs, RangesOf(cs), WidthOf(RangesOf(cs)), y);
  }

  /** The lines of a non-empty table. */
  lemma TableLines(cs: Counter<Cell>, j: int)
    requires cs != map[]
    requires 0 <= j <= RangesOf(cs).y1 - RangesOf(cs).y0
    ensures var r := RangesOf(cs);
            var w := WidthOf(r);
            PrintCountTable(cs).Ok? && |PrintCountTable(cs).value| == r.y1 - r.y0 + 1
            && PrintCountTable(cs).value[j] == if j == 0 then Header(r, w) else Concat(RowParts(cs, r, w, r.y0 + j - 1))
  {
    hide *;
    TableIsLines(cs);
    LinesAt(cs, RangesOf(cs), WidthOf(RangesOf(cs)), j);
  }

  /** A non-empty table is its lines at the counter's ranges and width. */
  lemma TableIsLines(cs: Counter<Cell>)
    requires cs != map[]
    ensures RangesOf(cs).x0 <= RangesOf(cs).x1 && RangesOf(cs).y0 <= RangesOf(cs).y1
    ensures PrintCountTable(cs) == Ok(Lines(cs, RangesOf(cs), WidthOf(RangesOf(cs))))
  {
    RangesAttained(cs);
  }

  /** The grid has one line per tile row after the header, every line as
      wide as a cell times one more than the number of columns, and the
      cell of tile `(x, y)` shows its count, blank for zero or a missing
      tile. */
  lemma TableCell(cs: Counter<Cell>, x: int, y: int)
    requires cs != map[]
    requires RangesOf(cs).x0 <= x < RangesOf(cs).x1 && RangesOf(cs).y0 <= y < RangesOf(cs).y1
    ensures var r, lines := RangesOf(cs), PrintCountTable(cs).value;
            var cw, j := WidthOf(r) + 1, y - r.y0 + 1;
            && |lines[j]| == (r.x1 - r.x0 + 1) * cw
            && CellAt(lines[j], x - r.x0 + 1, cw) == CountCell(Get(cs, Aggregate.GridCell(x, y)), WidthOf(r))
  {
    hide RangesOf, WidthOf, PrintCountTable, CountCell, HeadCell, Least, Greatest, Xs, Ys, Counts, IntToString, NatToString, Repeat, Len;
    var r := RangesOf(cs);
    var w := WidthOf(r);
    var p := RowParts(cs, r, w, y);
    TableLines(cs, y - r.y0 + 1);
    RowPartsWidth(cs, y);
    ConcatLength(p, w + 1);
    ConcatFixed(p, w + 1, x - r.x0 + 1);
  }

  /** The header starts with a blank corner and shows column `x` above the
      cells of that column. */
  lemma TableHeader(cs: Counter<Cell>, x: int)
    requires cs != map[]
    requires RangesOf(cs).x0 <= x < RangesOf(cs).x1
    ensures var r, lines := RangesOf(cs), PrintCountTable(cs).value;
            var cw := WidthOf(r) + 1;
            && |lines[0]| == (r.x1 - r.x0 + 1) * cw
            && CellAt(lines[0], 0, cw) == Repeat(' ', cw)
            && CellAt(lines[0], x - r.x0 + 1, cw) == HeadCell(x, WidthOf(r))
  {
    hide RangesOf, WidthOf, PrintCountTable, CountCell, HeadCell, Least, Greatest, Xs, Ys, Counts, IntToString, NatToString, Repeat, Len;
    var r := RangesOf(cs);
    RangesAttained(cs);
    var w := WidthOf(r);
    var p := [Repeat(' ', w + 1)] + seq(r.x1 - r.x0, i requires 0 <= i < r.x1 - r.x0 => HeadCell(r.x0 + i, w));
    TableLines(cs, 0);
    assert Header(r, w) == Concat(p);
    forall k | 0 <= k < |p|
      ensures |p[k]| == w + 1
    {
      if k > 0 {
        Fits(cs, r.x0 + k - 1, 0);
        assert p[k] == HeadCell(r.x0 + k - 1, w);
      }
    }
    hide Header;
    ConcatLength(p, w + 1);
    ConcatFixed(p, w + 1, 0);
    ConcatFixed(p, w + 1, x - r.x0 + 1);
  }

  /** A non-zero count is shown right-aligned and reads back as the count;
      zero is all blanks. */
  lemma CountCellReadsBack(n: nat, w: nat)
    requires Len(n) <= w
    ensures n == 0 ==> forall k :: 0 <= k < |CountCell(n, w)| ==> CountCell(n, w)[k] == ' '
    ensures n != 0 ==> var s := CountCell(n, w);
                       && s[w] == ' '
                       && (forall k :: 0 <= k < w - Len(n) ==> s[k] == ' ')
                       && AllDigits(s[w - Len(n)..w]) && ParseDigits(s[w - Len(n)..w]) == n
  {
    if n != 0 {
      var digits := IntToString(n);
      var s := CountCell(n, w);
      assert s == Repeat(' ', w - |digits|) + digits + " ";
      assert s[w - Len(n)..w] == digits;
      ParseNatToString(n);
    }
  }
}
