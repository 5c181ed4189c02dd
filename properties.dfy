/** Properties of the record store that relate several operations: the
    count-derived id scheme and where it breaks, what lookups see after a
    removal or an update, and how the filtering lookups relate. */
module DnsProperties {
  import opened DnsIo
  import opened Text
  import opened Filtering
  import opened Dns

  /** No two records share an id. Ids are meant to identify one live record,
      but the id scheme of `AddOutcome` does not maintain this. */
  ghost predicate IdsDistinct(s: seq<DnsRecord>)
  {
    forall i, j :: 0 <= i < j < |s| ==> s[i].id != s[j].id
  }

  /** Every record's id is its position: the shape of a store that has only
      ever seen registrations. */
  ghost predicate IdsArePositions(s: seq<DnsRecord>)
  {
    forall k :: 0 <= k < |s| ==> s[k].id == k
  }

  /** The arguments of one `Register` request, with its sender. */
  datatype Registration = Registration(caller: ActorId, name: string, link: string, description: string)

  /** The store after the registrations `regs`, in order, and no removals. */
  function AddAll(s: seq<DnsRecord>, regs: seq<Registration>): seq<DnsRecord>
    decreases |regs|
  {
    if regs == [] then s
    else
      var g := regs[0];
      AddAll(AddOutcome(s, g.caller, g.name, g.link, g.description).records, regs[1..])
  }

  // ---------------------------------------------------------------------
  // The id scheme

  /** Registrations alone keep every id equal to its position. */
  lemma {:induction false} AddAllKeepsIdsPositions(s: seq<DnsRecord>, regs: seq<Registration>)
    requires IdsArePositions(s)
    requires |s| + |regs| <= U32_LIMIT
    ensures |AddAll(s, regs)| == |s| + |regs|
    ensures AddAll(s, regs)[..|s|] == s
    ensures IdsArePositions(AddAll(s, regs))
    decreases |regs|
  {
    if regs != [] {
      var g := regs[0];
      var s' := AddOutcome(s, g.caller, g.name, g.link, g.description).records;
      assert IdsArePositions(s') by {
        forall k | 0 <= k < |s'| ensures s'[k].id == k {
          if k < |s| {
            assert s'[k] == s'[..|s|][k];
          }
        }
      }
      AddAllKeepsIdsPositions(s', regs[1..]);
      assert AddAll(s, regs)[..|s|] == AddAll(s', regs[1..])[..|s'|][..|s|];
    }
  }

  /** From an empty store, n registrations with no removals get the ids
      0, 1, ..., n - 1, which are therefore all distinct. */
  lemma FreshStoreIdsAreDistinct(regs: seq<Registration>)
    requires |regs| <= U32_LIMIT
    ensures |AddAll([], regs)| == |regs|
    ensures forall k :: 0 <= k < |regs| ==> AddAll([], regs)[k].id == k
    ensures IdsDistinct(AddAll([], regs))
  {
    AddAllKeepsIdsPositions([], regs);
  }

  /** The count-derived id is reused: after the owner removes any record but
      the last one from a store numbered by position, the next registration
      gets the id of the record that was moved into the freed slot. */
  lemma RemoveThenAddDuplicatesId(s: seq<DnsRecord>, owner: ActorId, k: nat,
                                  caller: ActorId, name: string, link: string, description: string)
    requires IdsArePositions(s) && |s| <= U32_LIMIT
    requires k + 1 < |s| && s[k].createdBy == owner
    ensures var removal := RemoveOutcome(s, owner, k);
            var t := AddOutcome(removal.records, caller, name, link, description).records;
            && removal.reply == Some(s[k])
            && |t| == |s|
            && t[k].id == |s| - 1 && t[|s| - 1].id == |s| - 1
            && !IdsDistinct(t)
  {
    assert IsFirstWithId(s, k, k);
    var removal := RemoveOutcome(s, owner, k);
    var t := AddOutcome(removal.records, caller, name, link, description).records;
    assert t[k] == t[..|s| - 1][k] == removal.records[k];
  }

  /** Three registrations by `a`, then `a` removes id 1, then `a` registers
      again: the new record gets id 2, the id of the record that survived
      in slot 1. */
  method IdReuseScenario(a: ActorId, name: string, link: string, description: string)
    returns (store: RecordStore)
    ensures |store.records| == 3
    ensures store.records[0].id == 0 && store.records[1].id == 2 && store.records[2].id == 2
    ensures !IdsDistinct(store.records)
  {
    store := new RecordStore();
    var r0 := store.AddRecord(a, name, link, description);
    var r1 := store.AddRecord(a, name, link, description);
    var r2 := store.AddRecord(a, name, link, description);
    assert store.records == [r0, r1, r2];
    assert IsFirstWithId(store.records, 1, 1);
    var removed := store.RemoveRecord(a, 1);
    assert store.records == [r0, r2];
    var r3 := store.AddRecord(a, name, link, description);
    assert store.records == [r0, r2, r3];
  }

  // ---------------------------------------------------------------------
  // Lookups after a mutation

  lemma SwapRemoveKeepsIdsDistinct(s: seq<DnsRecord>, k: nat)
    requires k < |s| && IdsDistinct(s)
    ensures IdsDistinct(SwapRemove(s, k))
    ensures forall j :: 0 <= j < |SwapRemove(s, k)| ==> SwapRemove(s, k)[j].id != s[k].id
  {
    var r := SwapRemove(s, k);
    forall j | 0 <= j < |r| ensures r[j] == s[if j == k then |s| - 1 else j] {
    }
  }

  lemma FirstWithDistinctIds(s: seq<DnsRecord>, j: nat)
    requires j < |s| && IdsDistinct(s)
    ensures IsFirstWithId(s, s[j].id, j)
  {
  }

  /** With distinct ids, once the owner has removed a record, looking up its
      id finds nothing, and every other record is still found by its id. */
  lemma {:induction false} OwnerRemoveForgetsOnlyThatId(s: seq<DnsRecord>, caller: ActorId, id: U32, k: nat)
    requires IdsDistinct(s) && IsFirstWithId(s, id, k) && s[k].createdBy == caller
    ensures var t := RemoveOutcome(s, caller, id).records;
            && Dns.GetById(t, id) == None
            && forall j :: 0 <= j < |s| && j != k ==> Dns.GetById(t, s[j].id) == Some(s[j])
  {
    var t := RemoveOutcome(s, caller, id).records;
    assert t == SwapRemove(s, k);
    SwapRemoveKeepsIdsDistinct(s, k);
    forall j | 0 <= j < |s| && j != k ensures Dns.GetById(t, s[j].id) == Some(s[j]) {
      var j' := if j == |s| - 1 then k else j;
      assert t[j'] == s[j];
      FirstWithDistinctIds(t, j');
    }
  }

  /** After an owner's update, looking the id up again gives back exactly
      the record the update replied with. */
  lemma OwnerUpdateIsReadBack(s: seq<DnsRecord>, caller: ActorId, id: U32, k: nat,
                              name: Option<string>, link: Option<string>, description: Option<string>)
    requires IsFirstWithId(s, id, k) && s[k].createdBy == caller
    ensures var o := UpdateOutcome(s, caller, id, name, link, description);
            o.reply.Some? && Dns.GetById(o.records, id) == o.reply
  {
    var o := UpdateOutcome(s, caller, id, name, link, description);
    assert IsFirstWithId(o.records, id, k);
  }

  /** A registration shows up last among its creator's records, and the
      creator's earlier records are listed as before. */
  lemma RegisterExtendsCreatorListing(s: seq<DnsRecord>, caller: ActorId,
                                      name: string, link: string, description: string)
    ensures var o := AddOutcome(s, caller, name, link, description);
            Dns.GetByCreator(o.records, caller) == Dns.GetByCreator(s, caller) + [o.reply]
  {
    var o := AddOutcome(s, caller, name, link, description);
    FilterAppend(s, o.reply, CreatedBy(caller));
  }

  // ---------------------------------------------------------------------
  // The filtering lookups

  /** Every filtering lookup returns the in-order subsequence of the store
      at exactly the positions whose record satisfies its predicate. */
  lemma QueriesAreOrderedSelections(s: seq<DnsRecord>, name: string, text: string,
                                    creator: ActorId, pattern: string)
    ensures IsOrderedSelection(s, 0, Dns.GetByName(s, name), SelectedIndices(s, NameIs(name), 0), NameIs(name))
    ensures IsOrderedSelection(s, 0, Dns.GetByDescription(s, text),
                               SelectedIndices(s, DescriptionHas(text), 0), DescriptionHas(text))
    ensures IsOrderedSelection(s, 0, Dns.GetByCreator(s, creator),
                               SelectedIndices(s, CreatedBy(creator), 0), CreatedBy(creator))
    ensures IsOrderedSelection(s, 0, Dns.GetByPattern(s, pattern),
                               SelectedIndices(s, PatternIn(pattern), 0), PatternIn(pattern))
  {
    FilterIsOrderedSelection(s, NameIs(name));
    FilterIsOrderedSelection(s, DescriptionHas(text));
    FilterIsOrderedSelection(s, CreatedBy(creator));
    FilterIsOrderedSelection(s, PatternIn(pattern));
  }

  /** The empty search text is contained in every description, so it
      returns the whole store. */
  lemma EmptyDescriptionMatchesAll(s: seq<DnsRecord>)
    ensures Dns.GetByDescription(s, []) == s
  {
    FilterKeepsAll(s, DescriptionHas([]));
  }

  /** A description search returns exactly the pattern search's records
      whose description matches, in the same order; so every description
      hit is a pattern hit, as often. */
  lemma DescriptionHitsArePatternHits(s: seq<DnsRecord>, text: string)
    ensures Dns.GetByDescription(s, text) == Filter(Dns.GetByPattern(s, text), DescriptionHas(text))
    ensures multiset(Dns.GetByDescription(s, text)) <= multiset(Dns.GetByPattern(s, text))
  {
    FilterOfFilter(s, PatternIn(text), DescriptionHas(text));
    FilterCounts(Dns.GetByPattern(s, text), DescriptionHas(text));
  }

  // ---------------------------------------------------------------------
  // Both request surfaces on one store

  /** Two senders share the store: the creator's update and removal take
      effect, the other sender's are refused without effect, and the
      read-only surface then lists what is left. */
  method TwoSendersScenario(a: ActorId, b: ActorId) returns (listing: QueryResult)
    requires a != b
    ensures listing.Records? && |listing.records| == 1
    ensures listing.records[0] == DnsRecord(0, "alice2", "ipfs://a", "personal site", a)
  {
    var store := new RecordStore();
    var reply := Handle(store, a, Register("alice", "ipfs://a", "personal site"));
    var ra := DnsRecord(0, "alice", "ipfs://a", "personal site", a);
    assert reply == DnsReply.Record(Some(ra));
    reply := Handle(store, b, Register("bob", "ipfs://b", "bob's blog"));
    var rb := DnsRecord(1, "bob", "ipfs://b", "bob's blog", b);
    assert store.records == [ra, rb];

    var ra2 := ra.(name := "alice2");
    assert HandleOutcome([ra, rb], a, Update(0, Some("alice2"), None, None)) == Outcome(DnsReply.Record(Some(ra2)), [ra2, rb]) by {
      assert IsFirstWithId([ra, rb], 0, 0);
    }
    reply := Handle(store, a, Update(0, Some("alice2"), None, None));
    assert reply == DnsReply.Record(Some(ra2)) && store.records == [ra2, rb];

    assert HandleOutcome([ra2, rb], b, Update(0, Some("hijack"), None, None)) == Outcome(DnsReply.Record(None), [ra2, rb]) by {
      assert IsFirstWithId([ra2, rb], 0, 0);
    }
    reply := Handle(store, b, Update(0, Some("hijack"), None, None));
    assert reply == DnsReply.Record(None) && store.records == [ra2, rb];

    assert HandleOutcome([ra2, rb], a, Remove(1)) == Outcome(DnsReply.Record(None), [ra2, rb]) by {
      assert IsFirstWithId([ra2, rb], 1, 1);
    }
    reply := Handle(store, a, Remove(1));
    assert reply == DnsReply.Record(None) && store.records == [ra2, rb];

    assert HandleOutcome([ra2, rb], b, Remove(1)) == Outcome(DnsReply.Record(Some(rb)), [ra2]) by {
      assert IsFirstWithId([ra2, rb], 1, 1);
      assert SwapRemove([ra2, rb], 1) == [ra2];
    }
    reply := Handle(store, b, Remove(1));
    assert reply == DnsReply.Record(Some(rb)) && store.records == [ra2];

    listing := MetaState(store, GetAll);
  }
}
