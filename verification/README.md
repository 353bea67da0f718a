# Drag-target engine of a kanban board, in Dafny

This project models `BoardTools`, the engine of a React Native kanban board
that works out drag targets. During a drag it decides four things:

- whether the board should auto-scroll (`getScrollingDirection`);
- which column the pointer is over (`findColumn`);
- which card slot the pointer targets (`findCardInColumn`, `getCardAtPosition`, `isItemWithinY`);
- which columns and cards are visible (`getVisibleCards`, `getVisibleColumns`).

It also asks the host layout to re-measure the board (`validateAndMeasureBoard`).

Files:

- `wrappers.dfy`: `Option`, which stands for JavaScript's `undefined` results.
- `sequences.dfy`: `Filter` and `Find`, the `Array.prototype.filter` and `find` that the engine is built from, with lemmas on what they select.
- `board_models.dfy`: `Rect`, `ColumnModel`, `CardModel`, an insertion-ordered `OrderedMap` standing for a JavaScript `Map`, and `BoardState`.
- `board_tools.dfy`: the engine, one Dafny member per `BoardTools` method.

Coordinates are `real`. Every function is pure except `ValidateAndMeasureBoard`.
That method is imperative: it calls the measurement callbacks on a `LayoutHost`.
The host records each call in a ghost log, `calls`, and the method's contract gives the log's new value.

The probe rectangle in `findCardInColumn` is the first visible card's rectangle moved to the pointer's `y`.
When that card is unmeasured, the source spreads `undefined` and gets a probe without a height.
Every claim-zone comparison on that probe is then false, which is exactly what an absent probe gives.
So the model passes `None` in that case (`ProbeAt`).

## Model

| member | source | states |
|---|---|---|
| `BoardTools.LayoutHost.Measure` | src/utils/board-tools.ts:18 | `column.measure()` appends one column-measure call to the host's log and changes nothing else |
| `BoardTools.LayoutHost.ValidateAndMeasure` | src/utils/board-tools.ts:26 | `card.validateAndMeasure()` appends one card-measure call to the host's log |
| `BoardTools.ValidateAndMeasureBoard` | src/utils/board-tools.ts:9-29 | The log grows by exactly the walk's calls: the given column alone, or every column in map order. Each column gets its measure call, then one call per card in its list, in order. A column with no card list gets only its own call and the walk goes on |
| `BoardTools.WalkCallsAppend` | src/utils/board-tools.ts:17-28 | A walk over two runs of columns makes the first run's calls, then the second's |
| `BoardTools.WalkColumnBlock` | src/utils/board-tools.ts:17-28 | Column i's calls form one contiguous block: after every earlier column's calls and before every later column's |
| `BoardTools.WalkMeasuresEachColumnOnce` | src/utils/board-tools.ts:13-18 | The column-measure calls name the visited columns exactly once each, in visiting order |
| `BoardTools.GetScrollingDirection` | src/utils/board-tools.ts:31-58 | Absent exactly when the column is unmeasured. Otherwise the offset is -1, 0 or 1 and `scrolling` is true iff the offset is non-zero. The offset is 1 iff the scroll offset is less than the threshold from the bottom edge. It is -1 iff it is not near the bottom but is near the top, so the bottom wins when the windows overlap. An absent scroll offset counts as 0 |
| `BoardTools.ScrollExamples` | src/utils/board-tools.ts:40-52 | For a column spanning 200..800, both windows are open intervals: 300, 700 and 900 do not scroll; 150 and 250 scroll back; 750 and 899 scroll forward. An absent offset behaves as 0 and an unmeasured column gives absent |
| `BoardTools.GetVisibleCards` | src/utils/board-tools.ts:159-170 | A column without a card list yields no cards. Otherwise a card is in the result iff it is in the column's list and visible |
| `BoardTools.VisibleCardsInOrder` | src/utils/board-tools.ts:168 | The result is the order-preserving subsequence of the column's list at exactly the positions of the visible cards |
| `BoardTools.GetVisibleColumns` | src/utils/board-tools.ts:172-176 | A column is in the result iff it is an entry of the columns map and visible |
| `BoardTools.VisibleColumnsInOrder` | src/utils/board-tools.ts:173-175 | The result is the order-preserving subsequence of the map's values at exactly the positions of the visible columns |
| `BoardTools.FindColumn` | src/utils/board-tools.ts:60-77 | Any column found is visible and measured, and its span `[x, x + width]` contains x with both ends inclusive |
| `BoardTools.FindColumnIsFirstHit` | src/utils/board-tools.ts:64-76 | The result is the earliest map entry that is visible and spans x. It is absent exactly when no entry is both |
| `BoardTools.IsItemWithinY` | src/utils/board-tools.ts:130-157 | False when the card or the probe is unmeasured. When true, y lies strictly inside the card's own vertical span in all three regimes. When the probe and the card are equally tall, the claim zone is the whole open span |
| `BoardTools.ProbeAtPointer` | src/utils/board-tools.ts:145-154 | With the probe's top at the pointer, the bottom-trimmed regime is never taken. The zone is the card's span with its top lowered by the height difference, or the whole span when the difference exceeds the card's height |
| `BoardTools.GetCardAtPosition` | src/utils/board-tools.ts:95-128 | Absent on no items, and any result is one of the items. If some item claims y, the result is the first such item. Otherwise it is the first item when that item is measured and y is at or above its top. Failing that, it is the last item when that item is measured and y is at or below its top. Otherwise it is absent |
| `BoardTools.ClampToFirst` | src/utils/board-tools.ts:105-114 | In a column of measured, stacked cards, a pointer at or above the first card's top selects the first card, whatever the probe |
| `BoardTools.ClampToLast` | src/utils/board-tools.ts:116-125 | In a column of measured, stacked cards of positive height, a pointer at or below the last card's top selects the last card, whatever the probe |
| `BoardTools.ClampExamples` | src/utils/board-tools.ts:103-125 | With cards at tops 0, 50 and 100, each 40 high, y = -10 selects the first card and y = 500 the last |
| `BoardTools.FindCardInColumn` | src/utils/board-tools.ts:79-93 | Absent when the column has no visible cards. Any card found is a visible card listed under that column |
| `BoardTools.FindCardIsFirstClaim` | src/utils/board-tools.ts:89-92 | When the first visible card is measured, the result is the first visible card whose downward claim zone contains y. That zone is sized by the first card's height. Failing such a card, the result is the top clamp, then the bottom clamp, then absent |
| `BoardTools.FindCardUnmeasuredTemplate` | src/utils/board-tools.ts:89-92 | When the first visible card is unmeasured, no card claims the pointer. The result is the last card when the bottom clamp applies, and absent otherwise |

## Left out

- The card and board components, the container component and the demo app: they render and forward presses and hold no engine logic.
- The effects of `measure()` and `validateAndMeasure()` on a model's `dimensions` and visibility: they are done by the host layout, outside this code. So the model cannot state that measuring twice leaves `dimensions` unchanged.
- JavaScript number semantics: NaN, infinities and floating-point rounding. Coordinates are exact reals. `!scrollY` also maps NaN to 0; only `undefined` and 0 are modelled.
- The generic payload `T` and the title, subtitle, description, tags, order and column id of a card, and the title and order of a column: the engine never reads them.
- `SCROLL_TRESHOLD` is a writable static field in the source. Here it is the constant 100, the value it is declared with (src/utils/board-tools.ts:7).
- The board invariants on a card's column id are not checked by the engine, so they are not modelled either. `columnCardsMap` is an unordered `map`, since the engine only looks entries up by key.
- The models in `src/models/rect.ts`, `src/models/column-model.ts` and `src/models/card-model.ts` are not part of this model. Their fields here are the ones the engine reads.
