/** The animation frames of the candlestick chart: for every prefix of the
    table from ten rows up to the whole of it, the candles of that prefix,
    a shaded support band, a shaded resistance band and three groups of
    direction markers. Only the x/y data of each trace is modelled; styling
    belongs to the charting library. */
module FrameBuilder {
  import opened Table

  /** The first frame shows this many rows. */
  const MinFrameRows: nat := 10

  /** The candlestick trace: five aligned arrays, one entry per row. */
  datatype Candles = Candles(x: seq<int>, open: seq<real>, high: seq<real>, low: seq<real>, close: seq<real>)

  /** A scatter trace: the x and y arrays it is drawn from. */
  datatype Trace = Trace(x: seq<int>, y: seq<real>)

  /** One frame: its name (the prefix length) and its six traces, in the
      order the chart declares them. */
  datatype Frame = Frame(
    name: nat,
    candle: Candles,
    support: Trace,
    resistance: Trace,
    longs: Trace,
    shorts: Trace,
    others: Trace)

  /** The points a band is drawn through before it is closed: the timestamps
      of the contributing rows and their lower and upper edges. */
  datatype Outline = Outline(xs: seq<int>, lower: seq<real>, upper: seq<real>)

  // ---------------------------------------------------------------------
  // Specification: each frame as a function of the table and the prefix
  // ---------------------------------------------------------------------

  function CandlesOf(rows: seq<Row>): Candles
  {
    Candles(
      seq(|rows|, k requires 0 <= k < |rows| => rows[k].timestamp),
      seq(|rows|, k requires 0 <= k < |rows| => rows[k].open),
      seq(|rows|, k requires 0 <= k < |rows| => rows[k].high),
      seq(|rows|, k requires 0 <= k < |rows| => rows[k].low),
      seq(|rows|, k requires 0 <= k < |rows| => rows[k].close))
  }

  /** A row contributes to the band of `f` when that cell is a non-empty list. */
  function HasBand(f: Field): Row -> bool
  {
    (r: Row) => CellRange(CellOf(r, f)).Some?
  }

  /** A row belongs to the marker group of `d` when its direction is `d`. */
  function InGroup(d: Direction): Row -> bool
  {
    (r: Row) => r.direction == d
  }

  /** The outline of the band of `f`: one point per contributing row, in
      table order, at the least and greatest level of its list. */
  function BandOutline(rows: seq<Row>, f: Field): Outline
  {
    if rows == [] then Outline([], [], [])
    else
      var init := BandOutline(rows[..|rows| - 1], f);
      var last := rows[|rows| - 1];
      match CellRange(CellOf(last, f))
      case Some(b) => Outline(init.xs + [last.timestamp], init.lower + [b.lower], init.upper + [b.upper])
      case None => init
  }

  /** The closed polygon of an outline: forward along the upper edge, back
      along the lower edge; no points at all when the outline is empty. */
  function Polygon(o: Outline): Trace
  {
    if o.xs == [] then Trace([], [])
    else Trace(o.xs + Reverse(o.xs), o.upper + Reverse(o.lower))
  }

  function Band(rows: seq<Row>, f: Field): Trace
  {
    Polygon(BandOutline(rows, f))
  }

  /** The markers of the group of `d`: one point per row of that direction,
      in table order, at that row's marker position. */
  function MarkerPoints(rows: seq<Row>, d: Direction): Trace
  {
    if rows == [] then Trace([], [])
    else
      var init := MarkerPoints(rows[..|rows| - 1], d);
      var last := rows[|rows| - 1];
      if last.direction == d then Trace(init.x + [last.timestamp], init.y + [MarkerOf(last).position])
      else init
  }

  /** The frame that shows the first `i` rows of the table. */
  function FrameOf(df: seq<Row>, i: nat): Frame
    requires i <= |df|
  {
    var rows := df[..i];
    Frame(i, CandlesOf(rows), Band(rows, SupportField), Band(rows, ResistanceField),
          MarkerPoints(rows, Long), MarkerPoints(rows, Short), MarkerPoints(rows, Other))
  }

  // ---------------------------------------------------------------------
  // The frame loop, accumulator by accumulator
  // ---------------------------------------------------------------------

  /** Walks the rows once, collecting the timestamp and the least and
      greatest level of every row whose cell of `f` is a non-empty list,
      then closes the polygon. */
  method BuildBand(rows: seq<Row>, f: Field) returns (band: Trace)
    ensures band == Band(rows, f)
  {
    var xs: seq<int> := [];
    var lower: seq<real> := [];
    var upper: seq<real> := [];
    for k := 0 to |rows|
      invariant Outline(xs, lower, upper) == BandOutline(rows[..k], f)
    {
      var cell := CellOf(rows[k], f);
      if cell.ListCell? && |cell.items| > 0 {
        xs := xs + [rows[k].timestamp];
        lower := lower + [SeqMin(cell.items)];
        upper := upper + [SeqMax(cell.items)];
      }
      assert rows[..k + 1][..k] == rows[..k];
    }
    assert rows[..|rows|] == rows;
    if xs != [] {
      band := Trace(xs + Reverse(xs), upper + Reverse(lower));
    } else {
      band := Trace([], []);
    }
  }

  /** Walks the rows once, sending each to the LONG, the SHORT or the other
      group by its direction. */
  method BuildMarkers(rows: seq<Row>) returns (longs: Trace, shorts: Trace, others: Trace)
    ensures longs == MarkerPoints(rows, Long)
    ensures shorts == MarkerPoints(rows, Short)
    ensures others == MarkerPoints(rows, Other)
  {
    var longsX: seq<int>, longsY: seq<real> := [], [];
    var shortsX: seq<int>, shortsY: seq<real> := [], [];
    var noneX: seq<int>, noneY: seq<real> := [], [];
    for k := 0 to |rows|
      invariant Trace(longsX, longsY) == MarkerPoints(rows[..k], Long)
      invariant Trace(shortsX, shortsY) == MarkerPoints(rows[..k], Short)
      invariant Trace(noneX, noneY) == MarkerPoints(rows[..k], Other)
    {
      var row := rows[k];
      MarkerPointsStep(rows, k, Long);
      MarkerPointsStep(rows, k, Short);
      MarkerPointsStep(rows, k, Other);
      if row.direction == Long {
        longsX := longsX + [row.timestamp];
        longsY := longsY + [row.low * 0.99];
      } else if row.direction == Short {
        shortsX := shortsX + [row.timestamp];
        shortsY := shortsY + [row.high * 1.01];
      } else {
        noneX := noneX + [row.timestamp];
        noneY := noneY + [row.close];
      }
    }
    assert rows[..|rows|] == rows;
    longs, shorts, others := Trace(longsX, longsY), Trace(shortsX, shortsY), Trace(noneX, noneY);
  }

  /** One more row extends its own group by one point and leaves the others alone. */
  lemma MarkerPointsStep(rows: seq<Row>, k: nat, d: Direction)
    requires k < |rows|
    ensures var init := MarkerPoints(rows[..k], d);
      MarkerPoints(rows[..k + 1], d)
        == if rows[k].direction == d then Trace(init.x + [rows[k].timestamp], init.y + [MarkerOf(rows[k]).position])
           else init
  {
    assert rows[..k + 1][..k] == rows[..k];
  }

  /** The frames of the animation: one per prefix length from ten rows to
      the whole table, in increasing order, none for a shorter table. */
  method CreateCandlestickAnimation(df: seq<Row>) returns (frames: seq<Frame>)
    ensures |frames| == if |df| < MinFrameRows then 0 else |df| - MinFrameRows + 1
    ensures forall k :: 0 <= k < |frames| ==> frames[k] == FrameOf(df, MinFrameRows + k)
  {
    frames := [];
    var i := MinFrameRows;
    while i <= |df|
      invariant MinFrameRows <= i <= if |df| < MinFrameRows then MinFrameRows else |df| + 1
      invariant |frames| == i - MinFrameRows
      invariant forall k :: 0 <= k < |frames| ==> frames[k] == FrameOf(df, MinFrameRows + k)
    {
      var slice := df[..i];
      var candle := CandlesOf(slice);
      var supBand := BuildBand(slice, SupportField);
      var resBand := BuildBand(slice, ResistanceField);
      var longs, shorts, others := BuildMarkers(slice);
      frames := frames + [Frame(i, candle, supBand, resBand, longs, shorts, others)];
      i := i + 1;
    }
  }

  // ---------------------------------------------------------------------
  // What a frame promises
  // ---------------------------------------------------------------------

  /** The candles of frame `i` are the first `i` rows, field by field, in
      table order; the last frame shows every row of the table. */
  lemma CandlesArePrefix(df: seq<Row>, i: nat)
    requires i <= |df|
    ensures var c := FrameOf(df, i).candle;
      && |c.x| == i && |c.open| == i && |c.high| == i && |c.low| == i && |c.close| == i
      && forall k :: 0 <= k < i ==>
           c.x[k] == df[k].timestamp && c.open[k] == df[k].open && c.high[k] == df[k].high
           && c.low[k] == df[k].low && c.close[k] == df[k].close
  {
  }

  /** The outline has one point per contributing row, in table order: its
      timestamp, and the least and greatest level of its list. */
  lemma {:induction false} OutlineFollowsContributingRows(rows: seq<Row>, f: Field)
    ensures var g := Filter(rows, HasBand(f)); var o := BandOutline(rows, f);
      && |o.xs| == |g| && |o.lower| == |g| && |o.upper| == |g|
      && forall j :: 0 <= j < |g| ==>
           o.xs[j] == g[j].timestamp && CellRange(CellOf(g[j], f)) == Some(Range(o.lower[j], o.upper[j]))
  {
    if rows != [] {
      OutlineFollowsContributingRows(rows[..|rows| - 1], f);
    }
  }

  /** A marker group has one point per row of its direction, in table order,
      at that row's marker position. */
  lemma {:induction false} MarkersFollowGroup(rows: seq<Row>, d: Direction)
    ensures var g := Filter(rows, InGroup(d)); var t := MarkerPoints(rows, d);
      && |t.x| == |g| && |t.y| == |g|
      && forall j :: 0 <= j < |g| ==> t.x[j] == g[j].timestamp && t.y[j] == MarkerOf(g[j]).position
  {
    if rows != [] {
      MarkersFollowGroup(rows[..|rows| - 1], d);
    }
  }

  /** A row contributes to a band exactly when its cell is a non-empty list. */
  lemma ContributesIff(rows: seq<Row>, f: Field, r: Row)
    requires r in rows
    ensures r in Filter(rows, HasBand(f)) <==> CellOf(r, f).ListCell? && |CellOf(r, f).items| > 0
  {
  }

  /** The shape of a band: no points when no row contributes; otherwise a
      closed polygon of twice as many points as contributing rows, whose x
      array reads the same backwards, running forward along the upper edges
      and back along the lower edges, and never with a lower edge above the
      upper one. */
  lemma {:induction false} BandShape(rows: seq<Row>, f: Field)
    ensures var g := Filter(rows, HasBand(f)); var t := Band(rows, f);
      && (g == [] <==> t.x == [] && t.y == [])
      && |t.x| == 2 * |g| && |t.y| == 2 * |g|
      && Reverse(t.x) == t.x
      && forall j :: 0 <= j < |g| ==>
           && t.x[j] == g[j].timestamp
           && t.x[2 * |g| - 1 - j] == g[j].timestamp
           && CellRange(CellOf(g[j], f)) == Some(Range(t.y[2 * |g| - 1 - j], t.y[j]))
           && t.y[2 * |g| - 1 - j] <= t.y[j]
  {
    OutlineFollowsContributingRows(rows, f);
    PolygonShape(BandOutline(rows, f));
  }

  /** The polygon of an outline of n points has 2n vertices: the points
      forward at their upper edge, then the same points backward at their
      lower edge, so its x array reads the same in both directions. */
  lemma PolygonShape(o: Outline)
    requires |o.lower| == |o.xs| && |o.upper| == |o.xs|
    ensures var t := Polygon(o); var n := |o.xs|;
      && (n == 0 <==> t.x == [] && t.y == [])
      && |t.x| == 2 * n && |t.y| == 2 * n
      && Reverse(t.x) == t.x
      && forall j :: 0 <= j < n ==>
           && t.x[j] == o.xs[j] && t.x[2 * n - 1 - j] == o.xs[j]
           && t.y[j] == o.upper[j] && t.y[2 * n - 1 - j] == o.lower[j]
  {
  }

  /** The band of one list column is determined by the timestamps and that
      column alone: in particular the resistance band does not depend on the
      Support values, nor the support band on the Resistance values. */
  lemma {:induction false} BandDependsOnlyOnItsColumn(rows: seq<Row>, rows': seq<Row>, f: Field)
    requires |rows| == |rows'|
    requires forall k :: 0 <= k < |rows| ==>
      rows[k].timestamp == rows'[k].timestamp && CellOf(rows[k], f) == CellOf(rows'[k], f)
    ensures Band(rows, f) == Band(rows', f)
  {
    OutlineDependsOnlyOnItsColumn(rows, rows', f);
  }

  lemma {:induction false} OutlineDependsOnlyOnItsColumn(rows: seq<Row>, rows': seq<Row>, f: Field)
    requires |rows| == |rows'|
    requires forall k :: 0 <= k < |rows| ==>
      rows[k].timestamp == rows'[k].timestamp && CellOf(rows[k], f) == CellOf(rows'[k], f)
    ensures BandOutline(rows, f) == BandOutline(rows', f)
  {
    if rows != [] {
      OutlineDependsOnlyOnItsColumn(rows[..|rows| - 1], rows'[..|rows'| - 1], f);
    }
  }

  /** The three marker groups partition the rows: together they hold every
      row exactly as often as the table does. */
  lemma {:induction false} MarkerGroupsPartition(rows: seq<Row>)
    ensures multiset(Filter(rows, InGroup(Long))) + multiset(Filter(rows, InGroup(Short)))
            + multiset(Filter(rows, InGroup(Other))) == multiset(rows)
  {
    if rows != [] {
      var init, last := rows[..|rows| - 1], rows[|rows| - 1];
      MarkerGroupsPartition(init);
      assert rows == init + [last];
      assert multiset(rows) == multiset(init) + multiset{last};
    }
  }

  /** So the three groups' sizes add up to the number of rows. */
  lemma MarkerGroupSizes(rows: seq<Row>)
    ensures |MarkerPoints(rows, Long).x| + |MarkerPoints(rows, Short).x| + |MarkerPoints(rows, Other).x| == |rows|
  {
    var l, s, o := Filter(rows, InGroup(Long)), Filter(rows, InGroup(Short)), Filter(rows, InGroup(Other));
    MarkerGroupsPartition(rows);
    assert |multiset(l) + multiset(s) + multiset(o)| == |l| + |s| + |o|;
    MarkersFollowGroup(rows, Long);
    MarkersFollowGroup(rows, Short);
    MarkersFollowGroup(rows, Other);
  }

  /** Every row lands in the group of its own direction and in no other. */
  lemma ExactlyOneGroup(rows: seq<Row>, r: Row, d: Direction)
    requires r in rows
    ensures r in Filter(rows, InGroup(d)) <==> r.direction == d
  {
  }

  /** Each marker group keeps table order: the group of a longer table
      extends the group of its prefix by the group of the rows added. */
  lemma GroupsKeepTableOrder(df: seq<Row>, i: nat, d: Direction)
    requires i <= |df|
    ensures Filter(df, InGroup(d)) == Filter(df[..i], InGroup(d)) + Filter(df[i..], InGroup(d))
  {
    assert df == df[..i] + df[i..];
    FilterAppend(df[..i], df[i..], InGroup(d));
  }
}
