/** The persistence collaborator (`CoreDataManager`), kept abstract: a list
    of stored records that a fetch returns whole, unless the underlying
    storage cannot be read, and a delete by id. */
module Persistence {
  import opened Records
  import Seqs

  /** The ids carried by a list of records. */
  function IdsOf(records: seq<Record>): set<Id> {
    set r | r in records && r.id.Some? :: r.id.value
  }

  /** The records of `records` that do not carry `id`, in their order. */
  function WithoutId(records: seq<Record>, id: Id): seq<Record> {
    Seqs.Filter(records, (r: Record) => r.id != Some(id))
  }

  /** Deleting by id takes exactly that id out of the stored ids and keeps
      every record that carries another id or none. */
  lemma WithoutIdRemovesId(records: seq<Record>, id: Id)
    ensures IdsOf(WithoutId(records, id)) == IdsOf(records) - {id}
    ensures forall r :: r in records && r.id != Some(id) ==> r in WithoutId(records, id)
    ensures |WithoutId(records, id)| <= |records|
  {
    var rest := WithoutId(records, id);
    forall x | x in IdsOf(records) - {id}
      ensures x in IdsOf(rest)
    {
      var r :| r in records && r.id.Some? && r.id.value == x;
      assert r in rest;
    }
  }

  class Store {
    /** Every persisted record, in the order a fetch returns them. */
    var records: seq<Record>
    /** False when the underlying storage cannot be read. */
    var readable: bool

    constructor (records: seq<Record>, readable: bool)
      ensures this.records == records && this.readable == readable
    {
      this.records := records;
      this.readable := readable;
    }

    /** `fetch()`: every stored record, or a failure when the storage
        cannot be read. */
    method Fetch() returns (result: Result<seq<Record>>)
      ensures result.Success? <==> readable
      ensures result.Success? ==> result.value == records
    {
      if readable {
        result := Success(records);
      } else {
        result := Failure(IOFailure);
      }
    }

    /** `deleteDate(id:)`: removes the records that carry `id`. */
    method Delete(id: Id)
      modifies this
      ensures records == WithoutId(old(records), id)
      ensures IdsOf(records) == IdsOf(old(records)) - {id}
      ensures readable == old(readable)
    {
      WithoutIdRemovesId(records, id);
      records := WithoutId(records, id);
    }
  }
}
