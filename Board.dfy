/** The data side of the task board screen (`MainViewController`): three
    columns of records, filled by splitting a fetched list by state,
    emptied row by row by swipe-to-delete, and read by the table views. */
module Board {
  import opened Records
  import Seqs
  import Persistence

  /** Which table view fired a callback. The source compares the callback's
      table view with its three own ones; `Other` is any other table view. */
  datatype Table = Todo | Doing | Done | Other

  /** The state code a column shows; `Other` shows none. */
  function StateOf(t: Table): Option<int> {
    match t
    case Todo => Some(TodoState)
    case Doing => Some(DoingState)
    case Done => Some(DoneState)
    case Other => None
  }

  /** The test a column applies to a record. */
  function HasState(k: int): Record -> bool {
    (r: Record) => r.state == k
  }

  /** The records of `data` with state `k`, in their order in `data`. */
  function Select(data: seq<Record>, k: int): (bucket: seq<Record>)
    ensures |bucket| <= |data|
    ensures forall r :: r in bucket <==> r in data && r.state == k
  {
    Seqs.Filter(data, HasState(k))
  }

  /** The records of `data` that belong to no column. */
  function Unclassified(data: seq<Record>): (dropped: seq<Record>)
    ensures forall r :: r in dropped <==> r in data && !Classified(r)
  {
    Seqs.Filter(data, (r: Record) => !Classified(r))
  }

  /** The positions of `data` whose record has state `k`, in increasing order. */
  function Positions(data: seq<Record>, k: int): seq<nat> {
    Seqs.Kept(data, HasState(k))
  }

  /** Each column is stable: its j-th record is the input record at the
      j-th position holding its state, the positions increase, and every
      position holding that state is used. */
  lemma SelectIsStable(data: seq<Record>, k: int)
    ensures |Positions(data, k)| == |Select(data, k)|
    ensures forall j :: 0 <= j < |Select(data, k)| ==>
              Positions(data, k)[j] < |data| && Select(data, k)[j] == data[Positions(data, k)[j]]
    ensures forall j1, j2 :: 0 <= j1 < j2 < |Positions(data, k)| ==>
              Positions(data, k)[j1] < Positions(data, k)[j2]
    ensures forall i :: 0 <= i < |data| ==> (data[i].state == k <==> i in Positions(data, k))
  {
    Seqs.FilterIsStableSelection(data, HasState(k));
  }

  /** Every input record lands in exactly one column, or in none when its
      state is not a column code; nothing is lost and nothing is added. */
  lemma {:induction false} PartitionCount(data: seq<Record>)
    ensures |Select(data, TodoState)| + |Select(data, DoingState)| + |Select(data, DoneState)|
            + |Unclassified(data)| == |data|
  {
    if data != [] {
      var n := |data| - 1;
      PartitionCount(data[..n]);
    }
  }

  /** The columns together hold at most the input, and exactly all of it
      when every state is a column code. */
  lemma PartitionTotal(data: seq<Record>)
    ensures |Select(data, TodoState)| + |Select(data, DoingState)| + |Select(data, DoneState)| <= |data|
    ensures |Select(data, TodoState)| + |Select(data, DoingState)| + |Select(data, DoneState)| == |data|
            <==> forall r :: r in data ==> Classified(r)
  {
    PartitionCount(data);
    if forall r :: r in data ==> Classified(r) {
      if Unclassified(data) != [] {
        assert Unclassified(data)[0] in Unclassified(data);
      }
    } else {
      var r :| r in data && !Classified(r);
      assert r in Unclassified(data);
    }
  }

  /** The cell's content: nothing when the record has no date, otherwise
      its title, body and date, flagged overdue when the date has passed. */
  datatype CellView = CellView(title: string, body: string, date: Timestamp, overdue: bool)

  /** The overdue rule: the record has a date and it is before `now`. */
  predicate IsOverdue(r: Record, now: Timestamp) {
    r.todoDate.Some? && r.todoDate.value < now
  }

  function CellContent(r: Record, now: Timestamp): (c: Option<CellView>)
    ensures c.Some? <==> r.todoDate.Some?
    ensures c.Some? ==> c.value.title == r.title && c.value.body == r.body
                        && Some(c.value.date) == r.todoDate
    ensures c.Some? ==> (c.value.overdue <==> IsOverdue(r, now))
  {
    match r.todoDate
    case None => None
    case Some(date) => Some(CellView(r.title, r.body, date, date < now))
  }

  /** A record without a date is never shown overdue, and once overdue a
      record stays overdue as time goes on. */
  lemma OverdueIsMonotone(r: Record, now: Timestamp, later: Timestamp)
    requires now <= later
    ensures r.todoDate.None? ==> !IsOverdue(r, now)
    ensures IsOverdue(r, now) ==> IsOverdue(r, later)
    ensures IsOverdue(r, now) ==> CellContent(r, later).Some? && CellContent(r, later).value.overdue
  {
  }

  class MainViewController {
    var todoData: seq<Record>
    var doingData: seq<Record>
    var doneData: seq<Record>
    /** The controller's own `CoreDataManager`. */
    const store: Persistence.Store

    constructor (store: Persistence.Store)
      ensures todoData == [] && doingData == [] && doneData == []
      ensures this.store == store
    {
      todoData, doingData, doneData := [], [], [];
      this.store := store;
    }

    /** The column a table shows; `Other` shows nothing. */
    function BucketOf(t: Table): seq<Record>
      reads this
    {
      match t
      case Todo => todoData
      case Doing => doingData
      case Done => doneData
      case Other => []
    }

    /** Every record sits in the column of its state. */
    predicate Partitioned()
      reads this
    {
      && (forall r :: r in todoData ==> r.state == TodoState)
      && (forall r :: r in doingData ==> r.state == DoingState)
      && (forall r :: r in doneData ==> r.state == DoneState)
    }

    /** `distributeData(data:)`: empties the three columns, then appends
        each record to the column of its state, skipping other states. */
    method DistributeData(data: seq<Record>)
      modifies this
      ensures todoData == Select(data, TodoState)
      ensures doingData == Select(data, DoingState)
      ensures doneData == Select(data, DoneState)
      ensures forall r :: r in data && !Classified(r) ==>
                r !in todoData && r !in doingData && r !in doneData
      ensures Partitioned()
    {
      todoData, doingData, doneData := [], [], [];
      var i := 0;
      while i < |data|
        invariant 0 <= i <= |data|
        invariant todoData == Select(data[..i], TodoState)
        invariant doingData == Select(data[..i], DoingState)
        invariant doneData == Select(data[..i], DoneState)
      {
        var r := data[i];
        assert data[..i + 1][..i] == data[..i];
        if r.state == TodoState {
          todoData := todoData + [r];
        } else if r.state == DoingState {
          doingData := doingData + [r];
        } else if r.state == DoneState {
          doneData := doneData + [r];
        }
        i := i + 1;
      }
      assert data[..i] == data;
    }

    /** `fetchData()`: on a successful fetch the board is rebuilt from the
        stored records; on a failure it is left as it was. */
    method FetchData()
      modifies this
      ensures store.readable ==>
                && todoData == Select(store.records, TodoState)
                && doingData == Select(store.records, DoingState)
                && doneData == Select(store.records, DoneState)
      ensures !store.readable ==>
                todoData == old(todoData) && doingData == old(doingData) && doneData == old(doneData)
      ensures old(Partitioned()) || store.readable ==> Partitioned()
    {
      var result := store.Fetch();
      match result
      case Success(data) =>
        DistributeData(data);
      case Failure(_) =>
    }

    /** `dismissModal()`: the refresh raised when the create or edit form
        closes; its data effect is a fetch. */
    method DismissModal()
      modifies this
      ensures store.readable ==>
                && todoData == Select(store.records, TodoState)
                && doingData == Select(store.records, DoingState)
                && doneData == Select(store.records, DoneState)
      ensures !store.readable ==>
                todoData == old(todoData) && doingData == old(doingData) && doneData == old(doneData)
    {
      FetchData();
    }

    /** The swipe-to-delete action on row `row` of `table`: removes that
        row from the table's column, then asks the store to delete the
        removed record's id when it has one. */
    method SwipeDelete(table: Table, row: nat)
      requires row < |BucketOf(table)| || table == Other
      modifies this, store
      ensures forall t :: t != table ==> BucketOf(t) == old(BucketOf(t))
      ensures table != Other ==> BucketOf(table) == Seqs.RemoveAt(old(BucketOf(table)), row)
      ensures table != Other && old(BucketOf(table))[row].id.Some? ==>
                store.records == Persistence.WithoutId(old(store.records), old(BucketOf(table))[row].id.value)
      ensures table == Other || old(BucketOf(table))[row].id.None? ==>
                store.records == old(store.records)
      ensures store.readable == old(store.readable)
      ensures old(Partitioned()) ==> Partitioned()
      // The record removed is the one the row rendered (`RowRecord`), and
      // its id, when it has one, is gone from the store.
      ensures table != Other ==>
                multiset(BucketOf(table)) + multiset{old(RowRecord(table, row))}
                == multiset(old(BucketOf(table)))
      ensures table != Other && old(RowRecord(table, row)).id.Some? ==>
                old(RowRecord(table, row)).id.value !in Persistence.IdsOf(store.records)
    {
      if table == Other {
        return;
      }
      var removed := BucketOf(table)[row];
      if table == Todo {
        todoData := Seqs.RemoveAt(todoData, row);
      } else if table == Doing {
        doingData := Seqs.RemoveAt(doingData, row);
      } else {
        doneData := Seqs.RemoveAt(doneData, row);
      }
      forall x | x in BucketOf(table)
        ensures x in old(BucketOf(table))
      {
        Seqs.RemoveAtSubset(old(BucketOf(table)), row, x);
      }
      match removed.id
      case None =>
      case Some(id) =>
        store.Delete(id);
    }

    /** `numberOfRowsInSection`: the length of the table's column, and 0
        for a table that is not one of the three. */
    function NumberOfRows(table: Table): (n: nat)
      reads this
      ensures table == Other ==> n == 0
      ensures table != Other ==> n == |BucketOf(table)|
    {
      match table
      case Todo => |todoData|
      case Doing => |doingData|
      case Done => |doneData|
      case Other => 0
    }

    /** The count shown in a column's header; none is set for a table that
        is not one of the three. */
    function HeaderCount(table: Table): (count: Option<nat>)
      reads this
      ensures count.Some? <==> table != Other
      ensures count.Some? ==> count.value == NumberOfRows(table)
    {
      match table
      case Todo => Some(|todoData|)
      case Doing => Some(|doingData|)
      case Done => Some(|doneData|)
      case Other => None
    }

    /** Whether the cell lookup below stays inside `todoData`. */
    predicate CellRowInRange(table: Table, row: nat)
      reads this
    {
      table != Other ==> row < |todoData|
    }

    /** The record `cellForRowAt` renders, as the source writes it: every
        one of the three tables reads `todoData`; any other table gets a
        blank record. */
    function CellRecord(table: Table, row: nat): (r: Record)
      reads this
      requires CellRowInRange(table, row)
      ensures table != Other ==> r == RowRecord(Todo, row)
      ensures table == Other ==> r.todoDate.None?
    {
      match table
      case Todo => todoData[row]
      case Doing => todoData[row]
      case Done => todoData[row]
      case Other => BlankRecord
    }

    /** The record a row of a table stands for: the row-th record of that
        table's own column. */
    function RowRecord(table: Table, row: nat): (r: Record)
      reads this
      requires row < NumberOfRows(table)
      ensures r in BucketOf(table)
      ensures Partitioned() ==> Some(r.state) == StateOf(table)
    {
      BucketOf(table)[row]
    }

    /** What a row's cell shows: the content of its own record. */
    function Cell(table: Table, row: nat, now: Timestamp): (c: Option<CellView>)
      reads this
      requires row < NumberOfRows(table)
      ensures c.Some? <==> RowRecord(table, row).todoDate.Some?
      ensures c.Some? ==> (c.value.overdue <==> IsOverdue(RowRecord(table, row), now))
    {
      CellContent(RowRecord(table, row), now)
    }
  }

  /** As written, the cell lookup fails on a row the doing column really
      has whenever the todo column is shorter. */
  lemma CellLookupOutOfRange(b: MainViewController, r: Record)
    requires b.todoData == [] && b.doingData == [r]
    ensures 0 < b.NumberOfRows(Doing)
    ensures !b.CellRowInRange(Doing, 0)
  {
  }

  /** As written, on a partitioned board a doing or done row is rendered
      from a todo record, never from the record in that row. */
  lemma CellLookupShowsTodoRecord(b: MainViewController, table: Table, row: nat)
    requires b.Partitioned()
    requires table == Doing || table == Done
    requires row < b.NumberOfRows(table) && b.CellRowInRange(table, row)
    ensures b.CellRecord(table, row).state == TodoState
    ensures b.CellRecord(table, row) != b.RowRecord(table, row)
  {
  }
}
