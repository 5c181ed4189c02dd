/** The record store of the DNS registry contract (dns/src/lib.rs): the
    `Dns` operations on the vector of records, and the two request routers
    `handle` and `meta_state` that share one store.

    The sender of the current message (`msg::source()` in the contract) is
    the explicit parameter `caller`. */
module Dns {
  import opened DnsIo
  import opened Text
  import opened Filtering

  // ---------------------------------------------------------------------
  // Lookups by id

  /** `k` is the position of the first record in `s` with id `id`. */
  ghost predicate IsFirstWithId(s: seq<DnsRecord>, id: U32, k: int)
  {
    0 <= k < |s| && s[k].id == id && forall j :: 0 <= j < k ==> s[j].id != id
  }

  ghost predicate HasNoId(s: seq<DnsRecord>, id: U32)
  {
    forall k :: 0 <= k < |s| ==> s[k].id != id
  }

  /** The position that `iter().enumerate().find(|(_, r)| r.id == id)`
      stops at, if any. */
  function FirstIndexOf(s: seq<DnsRecord>, id: U32): (o: Option<nat>)
    ensures o.Some? ==> IsFirstWithId(s, id, o.value)
    ensures o.None? <==> HasNoId(s, id)
  {
    if s == [] then None
    else if s[0].id == id then Some(0)
    else match FirstIndexOf(s[1..], id)
      case None => None
      case Some(i) => Some(i + 1)
  }

  /** `get_by_id`: the first record with the id, in store order. */
  function GetById(s: seq<DnsRecord>, id: U32): (r: Option<DnsRecord>)
    ensures r.None? <==> HasNoId(s, id)
    ensures forall k :: IsFirstWithId(s, id, k) ==> r == Some(s[k])
  {
    match FirstIndexOf(s, id)
    case None => None
    case Some(i) => Some(s[i])
  }

  // ---------------------------------------------------------------------
  // Filtering lookups

  predicate DescriptionContains(r: DnsRecord, text: string)
  {
    Contains(r.description, text)
  }

  predicate MatchesPattern(r: DnsRecord, pattern: string)
  {
    Contains(r.name, pattern) || Contains(r.description, pattern)
  }

  /** The selection predicates of the four filtering lookups. */
  function NameIs(name: string): DnsRecord -> bool
  {
    (x: DnsRecord) => x.name == name
  }

  function DescriptionHas(text: string): DnsRecord -> bool
  {
    x => DescriptionContains(x, text)
  }

  function CreatedBy(creator: ActorId): DnsRecord -> bool
  {
    (x: DnsRecord) => x.createdBy == creator
  }

  function PatternIn(pattern: string): DnsRecord -> bool
  {
    x => MatchesPattern(x, pattern)
  }

  /** `get_by_name`: the records whose name is exactly `name`, in store order. */
  function GetByName(s: seq<DnsRecord>, name: string): (r: seq<DnsRecord>)
    ensures forall x :: x in r <==> x in s && x.name == name
    ensures forall x :: multiset(r)[x] == if x.name == name then multiset(s)[x] else 0
  {
    FilterCounts(s, NameIs(name));
    Filter(s, NameIs(name))
  }

  /** `get_by_description`: the records whose description contains `text`. */
  function GetByDescription(s: seq<DnsRecord>, text: string): (r: seq<DnsRecord>)
    ensures forall x :: x in r <==> x in s && DescriptionContains(x, text)
    ensures forall x :: multiset(r)[x] == if DescriptionContains(x, text) then multiset(s)[x] else 0
  {
    FilterCounts(s, DescriptionHas(text));
    Filter(s, DescriptionHas(text))
  }

  /** `get_by_creator`: the records registered by `creator`. */
  function GetByCreator(s: seq<DnsRecord>, creator: ActorId): (r: seq<DnsRecord>)
    ensures forall x :: x in r <==> x in s && x.createdBy == creator
    ensures forall x :: multiset(r)[x] == if x.createdBy == creator then multiset(s)[x] else 0
  {
    FilterCounts(s, CreatedBy(creator));
    Filter(s, CreatedBy(creator))
  }

  /** `get_by_pattern`: the records whose name or description contains
      `pattern`; a record matching on both counts once. */
  function GetByPattern(s: seq<DnsRecord>, pattern: string): (r: seq<DnsRecord>)
    ensures forall x :: x in r <==> x in s && (Contains(x.name, pattern) || Contains(x.description, pattern))
    ensures forall x :: multiset(r)[x] == if MatchesPattern(x, pattern) then multiset(s)[x] else 0
  {
    FilterCounts(s, PatternIn(pattern));
    Filter(s, PatternIn(pattern))
  }

  // ---------------------------------------------------------------------
  // The mutations, as functions of the store before the call

  /** What a mutation replies, and the store it leaves behind. */
  datatype Outcome<R> = Outcome(reply: R, records: seq<DnsRecord>)

  /** `add_record`: the new record takes the store's length, cast to `u32`,
      as its id and the caller as its creator, and is appended. */
  function AddOutcome(s: seq<DnsRecord>, caller: ActorId, name: string, link: string, description: string)
    : (o: Outcome<DnsRecord>)
    ensures |o.records| == |s| + 1 && o.records[..|s|] == s && o.records[|s|] == o.reply
    ensures o.reply.id == |s| % U32_LIMIT
    ensures |s| < U32_LIMIT ==> o.reply.id == |s|
    ensures o.reply.createdBy == caller
    ensures o.reply.name == name && o.reply.link == link && o.reply.description == description
  {
    var r := DnsRecord(|s| % U32_LIMIT, name, link, description, caller);
    Outcome(r, s + [r])
  }

  /** `Vec::swap_remove`: the last element takes the place of the one at
      `i`, and the vector loses its last slot. */
  function SwapRemove(s: seq<DnsRecord>, i: nat): (r: seq<DnsRecord>)
    requires i < |s|
    ensures |r| == |s| - 1
    ensures i < |r| ==> r[i] == s[|s| - 1]
    ensures forall j :: 0 <= j < |r| && j != i ==> r[j] == s[j]
  {
    var last := |s| - 1;
    if i == last then s[..last]
    else s[..i] + [s[last]] + s[i + 1..last]
  }

  /** Swap-removal takes exactly the one element out of the multiset. */
  lemma SwapRemovePermutes(s: seq<DnsRecord>, i: nat)
    requires i < |s|
    ensures multiset(SwapRemove(s, i)) == multiset(s) - multiset{s[i]}
  {
    var last := |s| - 1;
    if i == last {
      assert s == s[..last] + [s[last]];
    } else {
      assert s == s[..i] + [s[i]] + s[i + 1..last] + [s[last]];
    }
  }

  /** `remove_record`: only the creator of the first record with the id
      removes it; "no such id" and "not the creator" both reply None and
      leave the store as it was. */
  function RemoveOutcome(s: seq<DnsRecord>, caller: ActorId, id: U32): (o: Outcome<Option<DnsRecord>>)
    ensures HasNoId(s, id) ==> o == Outcome(None, s)
    ensures forall k :: IsFirstWithId(s, id, k) && s[k].createdBy != caller ==> o == Outcome(None, s)
    ensures forall k :: IsFirstWithId(s, id, k) && s[k].createdBy == caller ==>
      o.reply == Some(s[k]) && o.records == SwapRemove(s, k)
  {
    match FirstIndexOf(s, id)
    case None => Outcome(None, s)
    case Some(i) =>
      if s[i].createdBy == caller then Outcome(Some(s[i]), SwapRemove(s, i))
      else Outcome(None, s)
  }

  /** `updated` is `before` with each field whose new value is given
      overwritten by it, every other field kept. */
  ghost predicate IsUpdateOf(before: DnsRecord, updated: DnsRecord,
                             name: Option<string>, link: Option<string>, description: Option<string>)
  {
    && updated.id == before.id
    && updated.createdBy == before.createdBy
    && (name.Some? ==> updated.name == name.value) && (name.None? ==> updated.name == before.name)
    && (link.Some? ==> updated.link == link.value) && (link.None? ==> updated.link == before.link)
    && (description.Some? ==> updated.description == description.value)
    && (description.None? ==> updated.description == before.description)
  }

  function ApplyUpdate(r: DnsRecord, name: Option<string>, link: Option<string>, description: Option<string>)
    : (u: DnsRecord)
    ensures IsUpdateOf(r, u, name, link, description)
  {
    var r1 := if name.Some? then r.(name := name.value) else r;
    var r2 := if link.Some? then r1.(link := link.value) else r1;
    if description.Some? then r2.(description := description.value) else r2
  }

  /** `update_record`: only the creator of the first record with the id
      changes it, and only in the fields given; the reply is the record as
      stored afterwards. */
  function UpdateOutcome(s: seq<DnsRecord>, caller: ActorId, id: U32,
                         name: Option<string>, link: Option<string>, description: Option<string>)
    : (o: Outcome<Option<DnsRecord>>)
    ensures HasNoId(s, id) ==> o == Outcome(None, s)
    ensures forall k :: IsFirstWithId(s, id, k) && s[k].createdBy != caller ==> o == Outcome(None, s)
    ensures forall k :: IsFirstWithId(s, id, k) && s[k].createdBy == caller ==>
      && |o.records| == |s|
      && o.reply == Some(o.records[k])
      && IsUpdateOf(s[k], o.records[k], name, link, description)
      && (forall j :: 0 <= j < |s| && j != k ==> o.records[j] == s[j])
  {
    match FirstIndexOf(s, id)
    case None => Outcome(None, s)
    case Some(i) =>
      if s[i].createdBy == caller then
        var u := ApplyUpdate(s[i], name, link, description);
        Outcome(Some(u), s[i := u])
      else Outcome(None, s)
  }

  /** `handle` as a function of the store: which operation each request
      runs, what it replies and the store it leaves. */
  function HandleOutcome(s: seq<DnsRecord>, caller: ActorId, action: DnsAction): (o: Outcome<DnsReply>)
    ensures action.Register? ==>
      o.reply.Record? && o.reply.record.Some? && o.reply.record.value.createdBy == caller
      && o.records == s + [o.reply.record.value]
    ensures action.Register? ==>
      var a := AddOutcome(s, caller, action.name, action.link, action.description);
      o.reply == DnsReply.Record(Some(a.reply)) && o.records == a.records
    ensures (action.Remove? || action.Update?) && o.reply == DnsReply.Record(None) ==> o.records == s
    ensures action.Remove? ==>
      var r := RemoveOutcome(s, caller, action.id);
      o.reply == DnsReply.Record(r.reply) && o.records == r.records
    ensures action.Update? ==>
      var u := UpdateOutcome(s, caller, action.id, action.newName, action.newLink, action.newDescription);
      o.reply == DnsReply.Record(u.reply) && o.records == u.records
    ensures action.GetById? ==> o.records == s && o.reply == DnsReply.Record(GetById(s, action.id))
    ensures action.GetByName? ==> o.records == s && o.reply == DnsReply.Records(GetByName(s, action.name))
    ensures action.GetByDescription? ==>
      o.records == s && o.reply == DnsReply.Records(GetByDescription(s, action.description))
  {
    match action
    case Register(name, link, description) =>
      var a := AddOutcome(s, caller, name, link, description);
      Outcome(DnsReply.Record(Some(a.reply)), a.records)
    case Remove(id) =>
      var r := RemoveOutcome(s, caller, id);
      Outcome(DnsReply.Record(r.reply), r.records)
    case Update(id, name, link, description) =>
      var u := UpdateOutcome(s, caller, id, name, link, description);
      Outcome(DnsReply.Record(u.reply), u.records)
    case GetById(id) => Outcome(DnsReply.Record(GetById(s, id)), s)
    case GetByName(name) => Outcome(DnsReply.Records(GetByName(s, name)), s)
    case GetByDescription(description) => Outcome(DnsReply.Records(GetByDescription(s, description)), s)
  }

  // ---------------------------------------------------------------------
  // The store itself

  /** The contract's global vector of records. */
  class RecordStore {
    var records: seq<DnsRecord>

    /** The store starts empty. */
    constructor ()
      ensures records == []
    {
      records := [];
    }

    /** The scan of `iter().enumerate().find(..)`: the position of the
        first record with the id. */
    method FindIndex(id: U32) returns (found: Option<nat>)
      ensures found == FirstIndexOf(records, id)
      ensures found.Some? ==> IsFirstWithId(records, id, found.value)
      ensures found.None? ==> HasNoId(records, id)
    {
      var i := 0;
      while i < |records|
        invariant 0 <= i <= |records|
        invariant forall j :: 0 <= j < i ==> records[j].id != id
      {
        if records[i].id == id {
          assert IsFirstWithId(records, id, i);
          return Some(i);
        }
        i := i + 1;
      }
      found := None;
    }

    /** `add_record`. */
    method AddRecord(caller: ActorId, name: string, link: string, description: string) returns (r: DnsRecord)
      modifies this
      ensures Outcome(r, records) == AddOutcome(old(records), caller, name, link, description)
    {
      r := DnsRecord(|records| % U32_LIMIT, name, link, description, caller);
      records := records + [r];
    }

    /** `remove_record`. */
    method RemoveRecord(caller: ActorId, id: U32) returns (removed: Option<DnsRecord>)
      modifies this
      ensures Outcome(removed, records) == RemoveOutcome(old(records), caller, id)
    {
      var found := FindIndex(id);
      match found
      case None =>
        removed := None;
      case Some(i) =>
        if records[i].createdBy == caller {
          removed := Some(records[i]);
          records := SwapRemove(records, i);
        } else {
          removed := None;
        }
    }

    /** `update_record`: the fields are overwritten one after another in the
        stored record, which is then returned. */
    method UpdateRecord(caller: ActorId, id: U32,
                        name: Option<string>, link: Option<string>, description: Option<string>)
      returns (updated: Option<DnsRecord>)
      modifies this
      ensures Outcome(updated, records) == UpdateOutcome(old(records), caller, id, name, link, description)
    {
      var found := FindIndex(id);
      if found.None? || records[found.value].createdBy != caller {
        return None;
      }
      var i := found.value;
      var record := records[i];
      if name.Some? {
        record := record.(name := name.value);
      }
      if link.Some? {
        record := record.(link := link.value);
      }
      if description.Some? {
        record := record.(description := description.value);
      }
      records := records[i := record];
      updated := Some(records[i]);
    }
  }

  // ---------------------------------------------------------------------
  // The two request routers

  /** `handle`: runs exactly one store operation for the request. */
  method Handle(store: RecordStore, caller: ActorId, action: DnsAction) returns (reply: DnsReply)
    modifies store
    ensures Outcome(reply, store.records) == HandleOutcome(old(store.records), caller, action)
  {
    match action
    case Register(name, link, description) =>
      var r := store.AddRecord(caller, name, link, description);
      reply := DnsReply.Record(Some(r));
    case Remove(id) =>
      var r := store.RemoveRecord(caller, id);
      reply := DnsReply.Record(r);
    case Update(id, name, link, description) =>
      var r := store.UpdateRecord(caller, id, name, link, description);
      reply := DnsReply.Record(r);
    case GetById(id) =>
      reply := DnsReply.Record(GetById(store.records, id));
    case GetByName(name) =>
      reply := DnsReply.Records(GetByName(store.records, name));
    case GetByDescription(description) =>
      reply := DnsReply.Records(GetByDescription(store.records, description));
  }

  /** `meta_state`: answers a read-only query; it has no frame to change
      the store, and `GetAll` replies with the store as it is. */
  method MetaState(store: RecordStore, action: QueryAction) returns (result: QueryResult)
    ensures action.GetAll? ==> result == QueryResult.Records(store.records)
    ensures action.GetById? ==> result == QueryResult.Record(GetById(store.records, action.id))
    ensures action.GetByName? ==> result == QueryResult.Records(GetByName(store.records, action.name))
    ensures action.GetByCreator? ==> result == QueryResult.Records(GetByCreator(store.records, action.creator))
    ensures action.GetByDescription? ==>
      result == QueryResult.Records(GetByDescription(store.records, action.description))
    ensures action.GetByPattern? ==> result == QueryResult.Records(GetByPattern(store.records, action.pattern))
  {
    match action
    case GetAll =>
      result := QueryResult.Records(store.records);
    case GetById(id) =>
      result := QueryResult.Record(GetById(store.records, id));
    case GetByName(name) =>
      result := QueryResult.Records(GetByName(store.records, name));
    case GetByCreator(creator) =>
      result := QueryResult.Records(GetByCreator(store.records, creator));
    case GetByDescription(description) =>
      result := QueryResult.Records(GetByDescription(store.records, description));
    case GetByPattern(pattern) =>
      result := QueryResult.Records(GetByPattern(store.records, pattern));
  }
}
