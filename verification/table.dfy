/** The price table shared by the chart and the loader: one row per trading
    period, with its Support and Resistance lists, its direction marker and
    the small sequence helpers both consumers rely on. */
module Table {

  datatype Option<T> = None | Some(value: T)

  /** The `direction` column: the text LONG, the text SHORT, or any other
      value (a missing one included). */
  datatype Direction = Long | Short | Other

  /** A Support or Resistance cell once loaded: a list of price levels, or a
      value that is not a list at all. */
  datatype Cell = ListCell(items: seq<real>) | NonList

  /** One row of the table. The timestamp is an abstract, totally ordered key. */
  datatype Row = Row(
    timestamp: int,
    open: real,
    high: real,
    low: real,
    close: real,
    volume: int,
    direction: Direction,
    support: Cell,
    resistance: Cell)

  /** Which of the two list columns a band is drawn from. */
  datatype Field = SupportField | ResistanceField

  function CellOf(r: Row, f: Field): Cell
  {
    match f
    case SupportField => r.support
    case ResistanceField => r.resistance
  }

  /** Python's `min` over a non-empty list of numbers. */
  function SeqMin(s: seq<real>): (m: real)
    requires |s| > 0
    ensures m in s
    ensures forall x :: x in s ==> m <= x
  {
    if |s| == 1 then s[0]
    else
      var rest := SeqMin(s[1..]);
      assert s == [s[0]] + s[1..];
      if s[0] <= rest then s[0] else rest
  }

  /** Python's `max` over a non-empty list of numbers. */
  function SeqMax(s: seq<real>): (m: real)
    requires |s| > 0
    ensures m in s
    ensures forall x :: x in s ==> x <= m
  {
    if |s| == 1 then s[0]
    else
      var rest := SeqMax(s[1..]);
      assert s == [s[0]] + s[1..];
      if rest <= s[0] then s[0] else rest
  }

  /** The lower and upper edge of a band at one row. */
  datatype Range = Range(lower: real, upper: real)

  /** The band bounds of one cell: present exactly when the cell is a
      non-empty list, and then its least and greatest level. */
  function CellRange(c: Cell): (r: Option<Range>)
    ensures r.Some? <==> c.ListCell? && |c.items| > 0
    ensures r.Some? ==> r.value.lower in c.items && r.value.upper in c.items
    ensures r.Some? ==> r.value.lower <= r.value.upper
    ensures r.Some? ==> forall x :: x in c.items ==> r.value.lower <= x <= r.value.upper
  {
    if c.ListCell? && |c.items| > 0 then Some(Range(SeqMin(c.items), SeqMax(c.items)))
    else None
  }

  /** A direction marker: where it is drawn on the price axis, its colour and its glyph. */
  datatype Marker = Marker(position: real, color: string, symbol: string)

  /** The marker of one row: a green up-triangle just below the low of a LONG
      row, a red down-triangle just above the high of a SHORT row, and a
      yellow circle at the close of any other row. */
  function MarkerOf(r: Row): (m: Marker)
    ensures r.direction == Long ==> m.color == "green" && m.symbol == "triangle-up"
    ensures r.direction == Short ==> m.color == "red" && m.symbol == "triangle-down"
    ensures r.direction == Other ==> m.color == "yellow" && m.symbol == "circle" && m.position == r.close
    ensures r.direction == Long && r.low > 0.0 ==> m.position < r.low
    ensures r.direction == Short && r.high > 0.0 ==> m.position > r.high
  {
    match r.direction
    case Long => Marker(r.low * 0.99, "green", "triangle-up")
    case Short => Marker(r.high * 1.01, "red", "triangle-down")
    case Other => Marker(r.close, "yellow", "circle")
  }

  /** The elements of `s` that `keep` accepts, in their original order. */
  function Filter<T>(s: seq<T>, keep: T -> bool): (r: seq<T>)
    ensures |r| <= |s|
    ensures forall x :: x in r ==> x in s && keep(x)
    ensures forall x :: x in s && keep(x) ==> x in r
  {
    if s == [] then []
    else
      var init := Filter(s[..|s| - 1], keep);
      var last := s[|s| - 1];
      assert s == s[..|s| - 1] + [last];
      if keep(last) then init + [last] else init
  }

  /** Filtering a concatenation filters each part: kept elements stay in the
      order they had. */
  lemma {:induction false} FilterAppend<T>(a: seq<T>, b: seq<T>, keep: T -> bool)
    ensures Filter(a + b, keep) == Filter(a, keep) + Filter(b, keep)
  {
    if b == [] {
      assert a + b == a;
    } else {
      var b' := b[..|b| - 1];
      assert (a + b)[..|a + b| - 1] == a + b';
      FilterAppend(a, b', keep);
    }
  }

  /** Python's `s[::-1]`. */
  function Reverse<T>(s: seq<T>): seq<T>
  {
    seq(|s|, k requires 0 <= k < |s| => s[|s| - 1 - k])
  }
}
