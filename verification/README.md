# TSLA chart data: frames, bands and markers

A Dafny model of the data side of a stock dashboard. The dashboard loads a
table of TSLA price rows and animates it as a candlestick chart. Each row has
a timestamp, open/high/low/close prices, a volume, a direction (LONG, SHORT
or anything else) and two list-valued cells, Support and Resistance, which
hold watched price levels.

The model has three modules:

- `Table` (`table.dfy`) holds the shared row and cell types. It also holds
  Python's `min`/`max` over a non-empty list, the band bounds of one cell,
  the marker of one row, an order-keeping filter, and `[::-1]`.
- `FrameBuilder` (`frame_builder.dfy`) models the frame loop of
  `create_candlestick_animation` in `app.py`. There is one frame for every
  prefix length from 10 rows to the whole table. Each frame has:
  - the candles of that prefix;
  - a support band and a resistance band, each a closed polygon running
    forward along the per-row maxima and back along the per-row minima;
  - three marker groups: LONG, SHORT and the rest.

  The loops that fill the accumulators are methods with loop invariants.
  Each method is proved equal to a specification function. The properties of
  those functions are lemmas.
- `DataProcessor` (`data_processor.dfy`) models `data_processor.py`:
  - the Support/Resistance list normaliser and its fallbacks;
  - the four band-bound columns;
  - the sort by date;
  - `calculate_direction_markers`, a method with a loop;
  - `get_animation_frames`, a method with a loop.

The library's literal parser (`ast.literal_eval`) is a parameter
`eval: string -> Option<Cell>`. `None` stands for "the parser raised". The
model proves the normaliser's own rules around that parser.

Timestamps are abstract ordered keys (`int`). Prices are exact `real`s.

Two choices follow the code closely:

- Frames start at 10 rows (`app.py:76`), so a table shorter than 10 rows
  gets no frames.
- pandas' default `sort_values` does not promise stability
  (`data_processor.py:55`), so the model claims only "sorted and a
  permutation".

## Model

| member | source | states |
|---|---|---|
| `Table.SeqMin` | data_processor.py:49 | the minimum of a non-empty list is one of its elements and no element is below it |
| `Table.SeqMax` | data_processor.py:50 | the maximum of a non-empty list is one of its elements and no element is above it |
| `Table.CellRange` | app.py:94-97 | a cell has band bounds exactly when it is a non-empty list; lower and upper are levels of the list, every level lies between them, and lower <= upper |
| `Table.MarkerOf` | data_processor.py:74-85 | LONG gives a green up-triangle, SHORT a red down-triangle, anything else a yellow circle at the close; for positive prices LONG sits strictly below the low and SHORT strictly above the high |
| `Table.Filter` | app.py:93-97 | the kept elements are exactly the elements of the input that the test accepts, and there are no more of them than input elements |
| `Table.FilterAppend` | app.py:138-147 | filtering keeps order: the filter of a concatenation is the concatenation of the filters |
| `FrameBuilder.BuildBand` | app.py:89-131 | the accumulator loop plus closing gives the band of the rows: the polygon of their outline, or an empty trace when no row contributes |
| `FrameBuilder.BuildMarkers` | app.py:133-151 | the three accumulator pairs filled in one pass are the LONG, SHORT and other marker groups of the rows |
| `FrameBuilder.CreateCandlestickAnimation` | app.py:75-155 | the number of frames is max(0, rows - 9), and frame k is the frame of the first 10 + k rows (name, candles, two bands, three marker groups, in that order) |
| `FrameBuilder.CandlesArePrefix` | app.py:77-87 | the candle arrays of frame i have length i and hold the first i rows' timestamp/open/high/low/close in table order; frame N reproduces the whole table |
| `FrameBuilder.OutlineFollowsContributingRows` | app.py:93-97 | the band outline has one point per row whose cell is a non-empty list, in table order, at that row's timestamp, with that list's min as lower and max as upper |
| `FrameBuilder.ContributesIff` | app.py:94 | a row contributes to a band if and only if its cell is a non-empty list |
| `FrameBuilder.BandShape` | app.py:98-109 | the band has no points exactly when no row contributes; otherwise its x and y have length 2k, x reads the same reversed, the first half is the upper edge forward, the second half is the lower edge backward, and lower <= upper at mirrored points |
| `FrameBuilder.PolygonShape` | app.py:99-101 | xs ++ reverse(xs) with upper ++ reverse(lower) has 2n points, x is a palindrome, and point j and point 2n-1-j share a timestamp, at the upper and lower edge |
| `FrameBuilder.BandDependsOnlyOnItsColumn` | app.py:112-131 | a band depends only on the timestamps and its own list column, so changing Support never changes the resistance band (and the other way round) |
| `FrameBuilder.OutlineDependsOnlyOnItsColumn` | app.py:115-119 | the outline collected for one column is the same for two tables that agree on the timestamps and that column |
| `FrameBuilder.MarkersFollowGroup` | app.py:138-147 | a marker group has one point per row of its direction, in table order: x is the timestamp, y is low*0.99 for LONG, high*1.01 for SHORT, close otherwise |
| `FrameBuilder.MarkerGroupsPartition` | app.py:138-147 | the three groups together hold every row exactly as often as the prefix does |
| `FrameBuilder.MarkerGroupSizes` | app.py:134-147 | the three marker groups' point counts add up to the number of rows |
| `FrameBuilder.ExactlyOneGroup` | app.py:139-147 | a row is in the group of a direction if and only if that is its own direction |
| `FrameBuilder.GroupsKeepTableOrder` | app.py:138-147 | the group of the table is the group of any prefix followed by the group of the rest |
| `DataProcessor.RemoveSpaces` | data_processor.py:39 | the result has no space, and holds exactly the non-space characters of the text |
| `DataProcessor.RemoveSpacesAppend` | data_processor.py:39 | space removal works piece by piece, so the remaining characters keep their order |
| `DataProcessor.RemoveSpacesKeepsSpaceFree` | data_processor.py:39 | a text without spaces is unchanged |
| `DataProcessor.ProcessListString` | data_processor.py:32-43 | never fails; missing and "[]" give the empty list; any other text gives the parser's value for its space-free form, or the empty list when parsing fails; a non-text value comes back unchanged |
| `DataProcessor.EmptyListFallbacks` | data_processor.py:33-43 | a missing cell, the text "[]", and a text whose parse fails all become the empty list |
| `DataProcessor.SpacesAreIgnored` | data_processor.py:37-40 | a text and its space-free form normalise to the same cell, for any text, given that the parser reads "[]" as the empty list |
| `DataProcessor.ProcessListStringAsWritten` | data_processor.py:33-41 | as written, the normaliser raises exactly on a cell that already holds a list of two or more elements |
| `DataProcessor.AsWrittenAgreesOtherwise` | data_processor.py:33-41 | on every other cell, the as-written normaliser returns what the corrected one does |
| `DataProcessor.TwoElementListRaises` | data_processor.py:33-36 | the list [1.0, 2.0] raises as written and is returned unchanged by the corrected normaliser |
| `DataProcessor.ProcessRow` | data_processor.py:45-52 | timestamp, prices, volume and direction are copied; both cells are normalised; each Lower/Upper pair is present exactly when its list is non-empty, is then the list's min and max, and has Lower <= Upper |
| `DataProcessor.InsertBy` | data_processor.py:55 | inserting into a table sorted by a key keeps it sorted and adds exactly that row |
| `DataProcessor.SortBy` | data_processor.py:55 | the result is ascending by the key (the Date column when loading) and a permutation of the input |
| `DataProcessor.LoadTslaData` | data_processor.py:6-57 | the loaded table has one row per input row, is a permutation of the processed rows, is ascending by date, and every row's bound columns agree with its lists |
| `DataProcessor.CalculateDirectionMarkers` | data_processor.py:59-87 | three lists as long as the table, aligned row by row with each row's marker position, colour and symbol |
| `DataProcessor.GetAnimationFrames` | data_processor.py:89-109 | one frame per row; frame k holds the first k+1 rows with the given duration; each frame adds the next row to the one before; the last frame holds the whole table |

## Findings

| source | as written | input that shows it | evidently intended | confidence | as-written member | corrected member |
|---|---|---|---|---|---|---|
| data_processor.py:33 | the missing-value test runs before the type test; given a list it yields one flag per element, and taking the truth of that array raises ValueError, which is outside the `try` | a Support cell that already holds the list [1.0, 2.0] | a list cell is returned unchanged, as the comment at data_processor.py:36 says; the loader cannot reach this today, because it applies the normaliser only to values read from a CSV file (text, NaN or numbers), never to a list | medium; not executed | `DataProcessor.ProcessListStringAsWritten` | `DataProcessor.ProcessListString` |

## Left out

- Streamlit page layout, tabs, buttons, session state and the chat
  transcript (`app.py:11-30`, `app.py:157-214`). These are user-interface
  glue.
- Plotly figure and layout construction, and all trace styling (colours,
  sizes, fill, names). Only the x/y data of each trace is modelled. A frame's
  name is the number `i`, not the text `str(i)`.
- All of `chatbot.py`, which is context only and not part of this model:
  - the remote model client;
  - environment and key loading;
  - the fixed delay;
  - the 429 message mapping;
  - the `eval` over cells.

  The frame builder takes the table that code produces as its input.
- CSV reading, the column renaming, and date parsing (`data_processor.py:17-29`).
  A raw row arrives with its timestamp already an ordered `int` key, and the
  `Date` column is that key.
- `ast.literal_eval` is a parameter, not modelled. `NonList` stands for any
  value that is not a list of numbers.
- `DataProcessor.ProcessRow`: a non-list value gets no bounds. In Python a
  truthy non-list value would make `min` raise (a number) or compute a
  minimum (a tuple).
- `DataProcessor.ProcessListStringAsWritten`: an empty list returns
  unchanged. For that input the real behaviour depends on the NumPy version.
  The model also ignores the NaN-in-a-one-element-list case, because cells
  hold exact reals.
- `DataProcessor.LoadTslaData`: claims no sort stability, because pandas'
  default sort does not promise it.
- Floating-point rounding of `*0.99` and `*1.01`. The model uses exact
  reals.
- Volume is carried but never used by the modelled code.
- The default `frame_duration=100` of `get_animation_frames`
  (`data_processor.py:89`): the model always takes the duration as an
  argument.
