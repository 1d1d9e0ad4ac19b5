/** Loading the price table: normalising the textual Support and Resistance
    lists, deriving the band-bound columns, ordering the rows by date, and
    the per-row direction markers and prefix frames computed from the result.
    Reading the file and parsing dates are outside the model: a raw row
    arrives with its timestamp already an ordered key. */
module DataProcessor {
  import opened Table

  /** A Support or Resistance cell as it arrives: missing (NaN), text, or a
      value that is already something else. */
  datatype RawCell = Missing | Text(s: string) | Value(v: Cell)

  /** The library's literal parser: the value a text denotes, or None when
      parsing it raises. */
  type Evaluator = string -> Option<Cell>

  datatype RawRow = RawRow(
    timestamp: int,
    open: real,
    high: real,
    low: real,
    close: real,
    volume: int,
    direction: Direction,
    support: RawCell,
    resistance: RawCell)

  /** A loaded row: the row itself and its four band-bound columns, each
      None where the source holds NaN. */
  datatype LoadedRow = LoadedRow(
    row: Row,
    supportLower: Option<real>,
    supportUpper: Option<real>,
    resistanceLower: Option<real>,
    resistanceUpper: Option<real>)

  // ---------------------------------------------------------------------
  // The list-cell normaliser
  // ---------------------------------------------------------------------

  /** The text with every space character deleted. */
  function RemoveSpaces(s: string): (r: string)
    ensures ' ' !in r
    ensures forall c :: c in r <==> c in s && c != ' '
    ensures |r| <= |s|
  {
    if s == [] then []
    else (if s[0] == ' ' then [] else [s[0]]) + RemoveSpaces(s[1..])
  }

  /** Deleting spaces works piece by piece: what remains keeps its order. */
  lemma {:induction false} RemoveSpacesAppend(a: string, b: string)
    ensures RemoveSpaces(a + b) == RemoveSpaces(a) + RemoveSpaces(b)
  {
    if a == [] {
      assert a + b == b;
    } else {
      var head := if a[0] == ' ' then [] else [a[0]];
      assert (a + b)[0] == a[0] && (a + b)[1..] == a[1..] + b;
      calc {
        RemoveSpaces(a + b);
        head + RemoveSpaces(a[1..] + b);
        { RemoveSpacesAppend(a[1..], b); }
        head + (RemoveSpaces(a[1..]) + RemoveSpaces(b));
        (head + RemoveSpaces(a[1..])) + RemoveSpaces(b);
      }
    }
  }

  /** A text without spaces is left as it is. */
  lemma {:induction false} RemoveSpacesKeepsSpaceFree(s: string)
    requires ' ' !in s
    ensures RemoveSpaces(s) == s
  {
    if s != [] {
      RemoveSpacesKeepsSpaceFree(s[1..]);
    }
  }

  /** A text cell: "[]" is the empty list; anything else has its spaces
      removed and is parsed, and a failed parse is the empty list. */
  function ParseText(s: string, eval: Evaluator): Cell
  {
    if s == "[]" then ListCell([])
    else
      match eval(RemoveSpaces(s))
      case Some(v) => v
      case None => ListCell([])
  }

  /** The normalised cell, never an error: a missing cell and the text "[]"
      give the empty list; any other text gives what the parser makes of it
      once its spaces are gone, or the empty list when the parser fails; a
      value that is not text comes back unchanged. */
  function ProcessListString(x: RawCell, eval: Evaluator): (c: Cell)
    ensures x.Missing? || x == Text("[]") ==> c == ListCell([])
    ensures x.Text? && x.s != "[]" && eval(RemoveSpaces(x.s)).Some? ==> c == eval(RemoveSpaces(x.s)).value
    ensures x.Text? && eval(RemoveSpaces(x.s)).None? ==> c == ListCell([])
    ensures x.Value? ==> c == x.v
  {
    match x
    case Missing => ListCell([])
    case Text(s) => ParseText(s, eval)
    case Value(v) => v
  }

  /** The fallbacks to the empty list: a missing cell, the text "[]", and a
      text the parser rejects once its spaces are gone. */
  lemma EmptyListFallbacks(s: string, eval: Evaluator)
    requires eval(RemoveSpaces(s)) == None
    ensures ProcessListString(Missing, eval) == ListCell([])
    ensures ProcessListString(Text("[]"), eval) == ListCell([])
    ensures ProcessListString(Text(s), eval) == ListCell([])
  {
  }

  /** Spaces never matter: a text gives the same cell as its space-free
      form, given a parser that reads "[]" as the empty list, as the
      library's literal parser does. */
  lemma SpacesAreIgnored(s: string, eval: Evaluator)
    requires eval("[]") == Some(ListCell([]))
    ensures ProcessListString(Text(s), eval) == ProcessListString(Text(RemoveSpaces(s)), eval)
  {
    RemoveSpacesKeepsSpaceFree(RemoveSpaces(s));
  }

  /** What the normaliser does AS WRITTEN: the missing-value test runs
      before the type test and, given a list, yields one truth value per
      element, so a list of two or more elements raises instead of being
      returned. */
  datatype Outcome = Returned(cell: Cell) | RaisesValueError

  function ProcessListStringAsWritten(x: RawCell, eval: Evaluator): (r: Outcome)
    ensures r.RaisesValueError? <==> x.Value? && x.v.ListCell? && |x.v.items| >= 2
  {
    match x
    case Missing => Returned(ListCell([]))
    case Text(s) => Returned(ParseText(s, eval))
    case Value(v) => if v.ListCell? && |v.items| >= 2 then RaisesValueError else Returned(v)
  }

  /** The normaliser as written agrees with the corrected one everywhere
      except on lists of two or more elements. */
  lemma AsWrittenAgreesOtherwise(x: RawCell, eval: Evaluator)
    requires !(x.Value? && x.v.ListCell? && |x.v.items| >= 2)
    ensures ProcessListStringAsWritten(x, eval) == Returned(ProcessListString(x, eval))
  {
  }

  /** The input that shows the discrepancy: a two-element list, which the
      comment in the source says should be handled, raises as written and is
      returned unchanged by the corrected normaliser. */
  lemma TwoElementListRaises(eval: Evaluator)
    ensures ProcessListStringAsWritten(Value(ListCell([1.0, 2.0])), eval) == RaisesValueError
    ensures ProcessListString(Value(ListCell([1.0, 2.0])), eval) == ListCell([1.0, 2.0])
  {
  }

  // ---------------------------------------------------------------------
  // Band-bound columns and the loaded table
  // ---------------------------------------------------------------------

  /** The bound columns of a cell: both present exactly when the cell is a
      non-empty list, and then its least and greatest level. */
  predicate BoundsAgree(c: Cell, lower: Option<real>, upper: Option<real>)
  {
    && (lower.Some? <==> c.ListCell? && |c.items| > 0)
    && (upper.Some? <==> lower.Some?)
    && (lower.Some? ==>
          && lower.value in c.items && upper.value in c.items
          && forall x :: x in c.items ==> lower.value <= x <= upper.value)
  }

  function LowerOf(b: Option<Range>): Option<real>
  {
    match b
    case Some(r) => Some(r.lower)
    case None => None
  }

  function UpperOf(b: Option<Range>): Option<real>
  {
    match b
    case Some(r) => Some(r.upper)
    case None => None
  }

  /** One row as loaded: both list cells normalised and the four bound
      columns derived from them. */
  function ProcessRow(r: RawRow, eval: Evaluator): (l: LoadedRow)
    ensures l.row.support == ProcessListString(r.support, eval)
    ensures l.row.resistance == ProcessListString(r.resistance, eval)
    ensures BoundsAgree(l.row.support, l.supportLower, l.supportUpper)
    ensures BoundsAgree(l.row.resistance, l.resistanceLower, l.resistanceUpper)
    ensures l.supportLower.Some? ==> l.supportLower.value <= l.supportUpper.value
    ensures l.resistanceLower.Some? ==> l.resistanceLower.value <= l.resistanceUpper.value
    ensures l.row.timestamp == r.timestamp && l.row.direction == r.direction
    ensures l.row.open == r.open && l.row.high == r.high && l.row.low == r.low && l.row.close == r.close
    ensures l.row.volume == r.volume
  {
    var support := ProcessListString(r.support, eval);
    var resistance := ProcessListString(r.resistance, eval);
    var sb, rb := CellRange(support), CellRange(resistance);
    LoadedRow(
      Row(r.timestamp, r.open, r.high, r.low, r.close, r.volume, r.direction, support, resistance),
      LowerOf(sb), UpperOf(sb), LowerOf(rb), UpperOf(rb))
  }

  /** The rows are in ascending order of `key`. */
  predicate SortedBy<T>(t: seq<T>, key: T -> int)
  {
    forall j, k :: 0 <= j < k < |t| ==> key(t[j]) <= key(t[k])
  }

  function InsertBy<T>(x: T, t: seq<T>, key: T -> int): (r: seq<T>)
    requires SortedBy(t, key)
    ensures SortedBy(r, key)
    ensures multiset(r) == multiset(t) + multiset{x}
    ensures |r| == |t| + 1 && (r[0] == x || (t != [] && r[0] == t[0]))
  {
    if t == [] || key(x) <= key(t[0]) then [x] + t
    else
      var rest := InsertBy(x, t[1..], key);
      assert t == [t[0]] + t[1..];
      [t[0]] + rest
  }

  /** The rows in ascending order of `key`: sorted, and a permutation of
      the input. */
  function SortBy<T>(t: seq<T>, key: T -> int): (r: seq<T>)
    ensures SortedBy(r, key)
    ensures multiset(r) == multiset(t)
  {
    if t == [] then []
    else
      assert t == [t[0]] + t[1..];
      InsertBy(t[0], SortBy(t[1..], key), key)
  }

  /** The sort key of a loaded row: its Date. */
  function DateOf(l: LoadedRow): int
  {
    l.row.timestamp
  }

  function ProcessRows(raw: seq<RawRow>, eval: Evaluator): seq<LoadedRow>
  {
    seq(|raw|, k requires 0 <= k < |raw| => ProcessRow(raw[k], eval))
  }

  /** The loaded table: every raw row processed, then sorted by date. It
      holds exactly the processed rows, ascending by date, and the bound
      columns of every row agree with its lists. */
  function LoadTslaData(raw: seq<RawRow>, eval: Evaluator): (t: seq<LoadedRow>)
    ensures |t| == |raw|
    ensures SortedBy(t, DateOf)
    ensures multiset(t) == multiset(ProcessRows(raw, eval))
    ensures forall k :: 0 <= k < |t| ==>
      && BoundsAgree(t[k].row.support, t[k].supportLower, t[k].supportUpper)
      && BoundsAgree(t[k].row.resistance, t[k].resistanceLower, t[k].resistanceUpper)
  {
    var processed := ProcessRows(raw, eval);
    var t := SortBy(processed, DateOf);
    assert |t| == |multiset(t)| == |multiset(processed)| == |processed|;
    forall k | 0 <= k < |t|
      ensures BoundsAgree(t[k].row.support, t[k].supportLower, t[k].supportUpper)
      ensures BoundsAgree(t[k].row.resistance, t[k].resistanceLower, t[k].resistanceUpper)
    {
      assert t[k] in multiset(processed);
      var j :| 0 <= j < |processed| && processed[j] == t[k];
    }
    t
  }

  // ---------------------------------------------------------------------
  // Direction markers and prefix frames
  // ---------------------------------------------------------------------

  /** Three lists aligned with the table: each row's marker position, colour
      and glyph. */
  method CalculateDirectionMarkers(df: seq<LoadedRow>) returns (positions: seq<real>, colors: seq<string>, symbols: seq<string>)
    ensures |positions| == |df| && |colors| == |df| && |symbols| == |df|
    ensures forall k :: 0 <= k < |df| ==> Marker(positions[k], colors[k], symbols[k]) == MarkerOf(df[k].row)
  {
    positions, colors, symbols := [], [], [];
    for k := 0 to |df|
      invariant |positions| == k && |colors| == k && |symbols| == k
      invariant forall j :: 0 <= j < k ==> Marker(positions[j], colors[j], symbols[j]) == MarkerOf(df[j].row)
    {
      var row := df[k].row;
      if row.direction == Long {
        positions := positions + [row.low * 0.99];
        colors := colors + ["green"];
        symbols := symbols + ["triangle-up"];
      } else if row.direction == Short {
        positions := positions + [row.high * 1.01];
        colors := colors + ["red"];
        symbols := symbols + ["triangle-down"];
      } else {
        positions := positions + [row.close];
        colors := colors + ["yellow"];
        symbols := symbols + ["circle"];
      }
    }
  }

  /** A frame of records: the rows it shows and how long it stays on screen. */
  datatype RecordFrame = RecordFrame(data: seq<LoadedRow>, duration: int)

  /** One frame per row: frame k shows the first k + 1 rows, each frame adds
      exactly the next row to the one before, and the last shows the whole
      table. */
  method GetAnimationFrames(df: seq<LoadedRow>, frameDuration: int) returns (frames: seq<RecordFrame>)
    ensures |frames| == |df|
    ensures forall k :: 0 <= k < |frames| ==> frames[k] == RecordFrame(df[..k + 1], frameDuration)
    ensures forall k :: 0 <= k < |frames| - 1 ==> frames[k + 1].data == frames[k].data + [df[k + 1]]
    ensures |df| > 0 ==> frames[|df| - 1].data == df
  {
    frames := [];
    for i := 1 to |df| + 1
      invariant |frames| == i - 1
      invariant forall k :: 0 <= k < |frames| ==> frames[k] == RecordFrame(df[..k + 1], frameDuration)
    {
      frames := frames + [RecordFrame(df[..i], frameDuration)];
    }
    forall k | 0 <= k < |frames| - 1
      ensures frames[k + 1].data == frames[k].data + [df[k + 1]]
    {
      assert df[..k + 2] == df[..k + 1] + [df[k + 1]];
    }
    assert |df| > 0 ==> df[..|df|] == df;
  }
}
