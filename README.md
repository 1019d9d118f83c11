# Task board: the data side of `MainViewController`

This project models the data side of the main screen of an iOS task board
(ProjectManager). The screen shows three columns, TODO, DOING and DONE. Each
column is a table view over its own ordered list of records (`todoData`,
`doingData`, `doneData`).

- `distributeData` fills the three lists. It empties them, then walks a
  fetched list of records and appends each one to the list of its integer
  `state`: 0 is todo, 1 is doing, 2 is done. Any other state is silently
  skipped.
- `fetchData` asks the persistent store (`CoreDataManager`) for all records.
  On success it redistributes them. On failure it only logs and leaves the
  board alone. The refresh that runs when the create/edit form closes
  (`dismissModal`) is a fetch.
- Swipe-to-delete removes the swiped row from the list of the table that
  fired it. It then asks the store to delete the removed record's id, but
  only when the record has an id.
- The table callbacks read the lists: the row count, the header count, and
  the record a cell shows together with its overdue colouring
  (`todoDate < now`).

Files:

- `Records.dfy` (module `Records`): the record (`TodoModel`), `Option`,
  `Result` and the store error.
- `Seqs.dfy` (module `Seqs`): the order-preserving selection that the
  append loop builds (`Filter`, with the positions it keeps, `Kept`) and
  Swift's `remove(at:)` (`RemoveAt`).
- `Store.dfy` (module `Persistence`): the store, kept abstract. It holds a
  list of records and a flag saying whether the storage can be read. It
  offers a fetch and a delete by id.
- `Board.dfy` (module `Board`): the class `MainViewController` with the
  three lists as `seq` fields and the store as a constant field. It also
  holds the partition specification (`Select`, `Unclassified`), the lemmas
  about it, and the cell rendering.

The class keeps the invariant `Partitioned()`: every record sits in the
list of its own state. `DistributeData` establishes it. A successful
`FetchData` establishes it, and a failed one keeps it. `SwipeDelete` keeps it.

Which table fired a callback is a value of `Table` (`Todo`, `Doing`, `Done`,
`Other`). The source decides this by comparing the callback's table view
with its own three table views; `Other` stands for any other table view.
Times are integer timestamps.

## Model

| member | source | states |
|---|---|---|
| `Seqs.Filter` | ProjectManager/ProjectManager/View/MainViewController.swift:66-77 | the selection an append loop builds is no longer than its input and holds exactly the input elements that pass the test |
| `Seqs.Kept` | ProjectManager/ProjectManager/View/MainViewController.swift:66-77 | the positions the loop keeps lie inside the input, hold passing elements, and strictly increase |
| `Seqs.KeptMatchesFilter` | ProjectManager/ProjectManager/View/MainViewController.swift:66-77 | the selection has one element per kept position, and its k-th element is the input element at the k-th kept position |
| `Seqs.KeptIsComplete` | ProjectManager/ProjectManager/View/MainViewController.swift:66-77 | every input position whose element passes the test is kept |
| `Seqs.FilterIsStableSelection` | ProjectManager/ProjectManager/View/MainViewController.swift:66-77 | the selection is the input's elements at the passing positions, taken in strictly increasing order, and every passing position is taken |
| `Seqs.RemoveAt` | ProjectManager/ProjectManager/View/MainViewController.swift:159 | `remove(at:)` shortens the list by one, keeps the elements before the index in place and shifts those after it down by one, and loses exactly the removed element (multiset) |
| `Seqs.RemoveAtSubset` | ProjectManager/ProjectManager/View/MainViewController.swift:159 | a removal never introduces a record that was not in the list |
| `Board.Select` | ProjectManager/ProjectManager/View/MainViewController.swift:67-73 | a column holds exactly the input records whose state is the column's code, and is no longer than the input |
| `Board.Unclassified` | ProjectManager/ProjectManager/View/MainViewController.swift:74-75 | the dropped records are exactly the input records whose state is not 0, 1 or 2 |
| `Board.SelectIsStable` | ProjectManager/ProjectManager/View/MainViewController.swift:66-77 | the j-th record of a column is the input record at the j-th position holding that state; positions strictly increase; no such position is skipped |
| `Board.PartitionCount` | ProjectManager/ProjectManager/View/MainViewController.swift:62-77 | the three column lengths plus the number of dropped records equal the input length |
| `Board.PartitionTotal` | ProjectManager/ProjectManager/View/MainViewController.swift:62-77 | the columns together hold at most the input length, and exactly the input length iff every state is 0, 1 or 2 |
| `Board.CellContent` | ProjectManager/ProjectManager/View/MainViewController.swift:216-226 | a cell gets content iff its record has a date; it then shows the record's title, body and date, and is flagged overdue iff the date is before now |
| `Board.OverdueIsMonotone` | ProjectManager/ProjectManager/View/MainViewController.swift:224-226 | a record without a date is never overdue; an overdue record stays overdue, and is still shown so, at any later time |
| `Board.MainViewController.constructor` | ProjectManager/ProjectManager/View/MainViewController.swift:15-19 | the board starts with three empty lists over the given store |
| `Board.MainViewController.DistributeData` | ProjectManager/ProjectManager/View/MainViewController.swift:61-78 | afterwards each list is exactly the stable selection of the input by its state, whatever the board held before; records with other states are in no list, with no error; the board is partitioned |
| `Board.MainViewController.FetchData` | ProjectManager/ProjectManager/View/MainViewController.swift:51-58 | on a successful fetch the lists are the partition of the stored records; on a failure all three lists are unchanged; the partition invariant is kept |
| `Board.MainViewController.DismissModal` | ProjectManager/ProjectManager/View/MainViewController.swift:120-123 | the refresh after the form closes has the effect of a fetch: repartition on success, nothing changes on failure |
| `Board.MainViewController.SwipeDelete` | ProjectManager/ProjectManager/View/MainViewController.swift:153-174 | the swiped row is removed from its table's list, order kept, and the other lists are unchanged; the store deletes the removed record's id when it has one and is untouched otherwise; another table changes nothing; the partition invariant is kept; the record removed is the one the corrected lookup renders at that row (multiset), and its id is no longer in the store |
| `Board.MainViewController.NumberOfRows` | ProjectManager/ProjectManager/View/MainViewController.swift:186-196 | a table has as many rows as its list has records; any other table has 0 |
| `Board.MainViewController.HeaderCount` | ProjectManager/ProjectManager/View/MainViewController.swift:138-144 | each of the three headers shows its table's row count; no count is set for any other table |
| `Board.MainViewController.CellRecord` | ProjectManager/ProjectManager/View/MainViewController.swift:206-214 | as written: every one of the three tables renders the todo list's record at that row, and is defined only while the row is inside the todo list; another table renders a record with no date |
| `Board.MainViewController.RowRecord` | ProjectManager/ProjectManager/View/MainViewController.swift:208-213 | corrected lookup: a row stands for a record of its own table's list, and on a partitioned board that record has the table's state |
| `Board.MainViewController.Cell` | ProjectManager/ProjectManager/View/MainViewController.swift:216-226 | a row's cell has content iff its own record has a date, and is flagged overdue iff that date is before now |
| `Board.CellLookupOutOfRange` | ProjectManager/ProjectManager/View/MainViewController.swift:210-211 | with an empty todo list and one doing record, the doing table has a row 0 that the as-written lookup cannot read |
| `Board.CellLookupShowsTodoRecord` | ProjectManager/ProjectManager/View/MainViewController.swift:210-213 | on a partitioned board, every row the as-written lookup renders in the doing or done table is a todo record, never the row's own record |
| `Persistence.WithoutIdRemovesId` | ProjectManager/ProjectManager/View/MainViewController.swift:161 | deleting by id removes exactly that id from the stored ids and keeps every record with another id or none |
| `Persistence.Store.constructor` | ProjectManager/ProjectManager/View/MainViewController.swift:15 | a store holds the given records and readability |
| `Persistence.Store.Fetch` | ProjectManager/ProjectManager/View/MainViewController.swift:52-57 | a fetch succeeds iff the storage is readable, and then yields every stored record |
| `Persistence.Store.Delete` | ProjectManager/ProjectManager/View/MainViewController.swift:161 | after a delete no stored record carries the id, the other records stay in order, and readability is unchanged |

## Findings

| source | as written | input that shows it | evidently intended | confidence | as-written member | corrected member |
|---|---|---|---|---|---|---|
| ProjectManager/ProjectManager/View/MainViewController.swift:208-213 | the doing and done tables read `todoData[indexPath.row]` | `todoData == []`, `doingData == [r]`, row 0 of the doing table: the row count is 1 but the index is outside `todoData` (a trap); when both lists are long enough, the doing and done tables show todo records | each table reads its own list (`doingData`, `doneData`) | high, not executed | `Board.MainViewController.CellRecord` (with `Board.CellLookupOutOfRange` and `Board.CellLookupShowsTodoRecord`) | `Board.MainViewController.RowRecord` (used by `Board.MainViewController.Cell`) |

## Left out

- UIKit layout and appearance (`autoLayoutSetting`, `setupNavigationBar`, the stack view, header and cell views, colours): these are toolkit calls with no data logic. The red date colour is modelled as the `overdue` flag of a cell. Cells are dequeued for reuse (lines 199-204) and never cleared, so `overdue` means "this call colours the date red", not "the cell is red" (a reused cell keeps an earlier red colour, lines 224-226), and `None` means "this call sets nothing", not "the cell is blank" (line 216 returns the reused cell untouched).
- The header's title label and a failed header or cell dequeue (both return an empty view): these are view plumbing.
- `tapAddButton`, `setupLongPress` and `handleLongPress`: modal and popover presentation and gesture geometry.
- `registDismissNotification`: observer registration. Only its effect, a fetch, is modelled, as `DismissModal`.
- `viewDidLoad`: its only data effect is a fetch, which is `FetchData`.
- `reloadData` calls: rendering side effects with no data semantics.
- `DateFormatter`: the date text is not modelled. A cell carries the date as a timestamp, and `Date` (a floating-point interval) is an integer timestamp.
- `CoreDataManager` and `TodoModel` are not part of this model. The store is a list of records plus a readability flag. A fetch failure is any unreadable storage. `Persistence.Store.Delete` removes every record carrying the id; what `deleteDate(id:)` does with an unknown id is not known, and the controller ignores its outcome. `BlankRecord` assumes `TodoModel()` has no id and no date; only the missing date matters, since with no date the cell's content is not set.
- `Persistence.Store.constructor`: the source builds its own `CoreDataManager()`; here the store is passed in, so its contents are a parameter.
- `Board.MainViewController.SwipeDelete`: its precondition sits exactly where Swift's `remove(at:)` traps. The source can get there: when the removed record has no id, the `guard` at lines 160, 165 and 170 returns before the `reloadData()` at 162, 167 and 172, and `dismissModal` (lines 120-123) reloads only the todo table, so a table can keep showing more rows than its list holds; a later swipe on such a row traps, or removes the record shown one row further down and deletes its id.
- The row count a table view caches between reloads is not modelled: the model's tables always show their list, so the mismatch above (and the wrong-row delete it causes) is outside what the model captures.
- `Board.MainViewController.CellRecord`: its precondition `CellRowInRange` sits exactly where the `todoData[indexPath.row]` lookup traps.
- Swift's `Int` width: states are only compared with 0, 1 and 2, and counts stay far below any limit, so unbounded integers change nothing.
