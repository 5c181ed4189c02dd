# DNS registry contract: the record store, in Dafny

This project models the core of a name-registry contract. Senders register
records with a name, a link and a description. Each record carries the
identity of its creator and an id assigned by the store. Records can be
looked up by id, exact name, description substring, creator, or a substring
of name or description. Only a record's creator may update or remove it.

The model follows `dns/src/lib.rs`:

- `dns_io.dfy` (module `DnsIo`) mirrors the message types of
  `dns/io/src/lib.rs`: `DnsRecord`, `DnsAction`, `DnsReply`, `QueryAction`
  and `QueryResult`. `ActorId` is an abstract type that supports only
  equality. `u32` is the subset type `U32`.
- `text.dfy` (module `Text`) models `str::contains` as a recursive substring
  search. It is proved equal to "some suffix starts with the pattern".
- `filter.dfy` (module `Filtering`) models `iter().filter(..).cloned().collect()`.
  It is proved to return the in-order subsequence at exactly the qualifying
  positions, with each record as often as it occurs in the store.
- `store.dfy` (module `Dns`) holds the rest:
  - the five lookups, as functions over `seq<DnsRecord>`;
  - one specification function per mutation, giving the reply and the new
    store (`AddOutcome`, `RemoveOutcome`, `UpdateOutcome`, `HandleOutcome`);
  - the class `RecordStore`, whose `records` field is the contract's global
    vector; its methods `AddRecord`, `RemoveRecord` and `UpdateRecord` change
    it in place and are proved against those functions;
  - the two routers `Handle` (`handle`) and `MetaState` (`meta_state`). They
    take the store object and, for `Handle`, the sender as parameters.
- `properties.dfy` (module `DnsProperties`) proves properties that span
  several operations.

The sender of a message (`msg::source()`) is an explicit `caller` parameter.

The id of a new record is the store's length, cast to `u32`
(`dns/src/lib.rs:34`). The model keeps this scheme, and it keeps the cast as
an explicit reduction modulo 2^32. The scheme does not keep ids unique. From
an empty store, registrations alone number the records 0, 1, 2, ... by
position. But after a removal the length shrinks, so the next registration
can reuse a live id. `RemoveThenAddDuplicatesId` proves this in general.
`IdReuseScenario` runs the concrete case: ids 0, 1, 2, then removal of 1,
then a new record that gets id 2 again.

Ids are meant to identify one live record, but the code does not guarantee
it. So `GetById` is specified as "the first record with the id", not "the
only one". For the same reason, a lookup of an id after the owner's removal
finds nothing only while ids are distinct. `OwnerRemoveForgetsOnlyThatId`
proves it under that assumption.

## Model

| member | source | states |
|---|---|---|
| `Text.Contains` | dns/src/lib.rs:115-116 | `str::contains` finds the empty pattern in every string and never finds a pattern longer than the text. A pattern as long as the text is found exactly when it equals the text. |
| `Text.ContainsIffOccurs` | dns/src/lib.rs:100 | The substring search used for `contains` holds exactly when some suffix of the text starts with the pattern (both directions). |
| `Filtering.Filter` | dns/src/lib.rs:94-120 | `filter(..).cloned().collect()` returns no more elements than the store has, and every element it returns satisfies the predicate. |
| `Filtering.FilterCounts` | dns/src/lib.rs:94-120 | A filter result holds exactly the qualifying elements of the store, each as many times as in the store, so no duplicates are introduced. |
| `Filtering.FilterIsOrderedSelection` | dns/src/lib.rs:94-120 | A filter result is the subsequence of the store at strictly increasing positions, and those positions are exactly the ones whose record qualifies. |
| `Dns.FirstIndexOf` | dns/src/lib.rs:49 | The scan by id stops at the first position holding the id. It finds nothing exactly when no record has the id. |
| `Dns.GetById` | dns/src/lib.rs:90-92 | `get_by_id` returns the first record in store order with the id. It returns None exactly when no record has that id. |
| `Dns.GetByName` | dns/src/lib.rs:94-96 | `get_by_name` returns exactly the records whose name equals the argument, each as often as it is stored. |
| `Dns.GetByDescription` | dns/src/lib.rs:98-103 | `get_by_description` returns exactly the records whose description contains the argument, each as often as it is stored. |
| `Dns.GetByCreator` | dns/src/lib.rs:105-110 | `get_by_creator` returns exactly the records created by the given identity, each as often as it is stored. |
| `Dns.GetByPattern` | dns/src/lib.rs:112-120 | `get_by_pattern` returns exactly the records whose name or description contains the pattern. A record matching both is listed once per stored copy. |
| `Dns.AddOutcome` | dns/src/lib.rs:33-46 | A registration appends one record and leaves every earlier slot unchanged. Its id is the old length cast to `u32`, which is the old length itself below 2^32 records. Its creator is the caller, and name, link and description are copied verbatim. The reply is the appended record. |
| `Dns.SwapRemove` | dns/src/lib.rs:51 | `swap_remove(i)` shortens the store by one. Slot i receives the former last element unless i was the last slot. Every other slot is unchanged. |
| `Dns.SwapRemovePermutes` | dns/src/lib.rs:51 | After a swap-removal, the multiset of records is the old multiset minus the removed record. |
| `Dns.RemoveOutcome` | dns/src/lib.rs:48-58 | If no record has the id, or the first such record has another creator, `remove_record` replies None and leaves the store unchanged. If the caller created the first such record, it replies with that record and swap-removes its slot. |
| `Dns.ApplyUpdate` | dns/src/lib.rs:69-79 | Each of name, link and description is overwritten exactly when its new value is given. The id and creator are kept. |
| `Dns.UpdateOutcome` | dns/src/lib.rs:60-88 | If no record has the id, or the first such record has another creator, `update_record` replies None and leaves the store unchanged. Otherwise only that slot changes, and only in the given fields. The reply equals the stored, updated record. |
| `Dns.HandleOutcome` | dns/src/lib.rs:127-145 | Each `DnsAction` runs exactly one store operation. Register replies `Record(Some(r))` with exactly the record and the store of `AddOutcome`: r has the caller as creator and is appended. Remove and Update reply and leave the store exactly as `RemoveOutcome` and `UpdateOutcome` do, so a refused one leaves the store unchanged. GetById, GetByName and GetByDescription leave the store unchanged and reply with the lookup's result. |
| `Dns.RecordStore.constructor` | dns/src/lib.rs:6 | The global store starts empty. |
| `Dns.RecordStore.FindIndex` | dns/src/lib.rs:49 | The in-place scan over the vector returns the position of the first record with the id, or None when no record has it. |
| `Dns.RecordStore.AddRecord` | dns/src/lib.rs:33-46 | Pushing onto the vector returns the new record and leaves the vector as `AddOutcome` describes. |
| `Dns.RecordStore.RemoveRecord` | dns/src/lib.rs:48-58 | The in-place removal returns what `RemoveOutcome` replies and leaves the vector it describes. |
| `Dns.RecordStore.UpdateRecord` | dns/src/lib.rs:60-88 | The field-by-field assignments to the found record return what `UpdateOutcome` replies and leave the vector it describes. |
| `Dns.Handle` | dns/src/lib.rs:124-147 | Dispatching a mutating-surface request on the shared store gives the reply and the new store of `HandleOutcome`. |
| `Dns.MetaState` | dns/src/lib.rs:150-166 | The read-only surface cannot change the store. GetAll returns the store exactly as it is. Every other query replies with the matching lookup over the current store. |
| `DnsProperties.AddAllKeepsIdsPositions` | dns/src/lib.rs:33-45 | Registrations with no removals keep the earlier records in place and keep every id equal to its position. |
| `DnsProperties.FreshStoreIdsAreDistinct` | dns/src/lib.rs:34 | From an empty store, n registrations get the ids 0..n-1 in order, all distinct. |
| `DnsProperties.RemoveThenAddDuplicatesId` | dns/src/lib.rs:33-57 | On a store numbered by position, suppose the owner removes any record except the last. The next registration then gets the id already held by the record moved into the freed slot, so ids are no longer distinct. |
| `DnsProperties.IdReuseScenario` | dns/src/lib.rs:33-57 | Three registrations (ids 0, 1, 2), then the owner removes id 1, then one more registration: the store holds ids 0, 2, 2. |
| `DnsProperties.SwapRemoveKeepsIdsDistinct` | dns/src/lib.rs:51 | Swap-removal keeps distinct ids distinct, and the removed id no longer occurs. |
| `DnsProperties.OwnerRemoveForgetsOnlyThatId` | dns/src/lib.rs:48-58 | With distinct ids, after the owner's removal a lookup of that id finds nothing, and every other record is still found by its own id. |
| `DnsProperties.OwnerUpdateIsReadBack` | dns/src/lib.rs:60-92 | After the owner's update, looking the id up returns exactly the record the update replied with. |
| `DnsProperties.RegisterExtendsCreatorListing` | dns/src/lib.rs:33-45 | After a registration, the caller's records by creator are the earlier listing followed by the new record. |
| `DnsProperties.QueriesAreOrderedSelections` | dns/src/lib.rs:94-120 | Each of the four filtering lookups returns the in-order subsequence of the store at exactly the positions whose record satisfies its predicate. |
| `DnsProperties.EmptyDescriptionMatchesAll` | dns/src/lib.rs:98-103 | Searching descriptions for the empty string returns the whole store. |
| `DnsProperties.DescriptionHitsArePatternHits` | dns/src/lib.rs:98-120 | A description search returns exactly the pattern search's results whose description matches, in the same order. So every description hit is a pattern hit. |
| `DnsProperties.TwoSendersScenario` | dns/src/lib.rs:124-166 | Two senders share the store. The creator's update and removal take effect; the other sender's are refused with no effect. GetAll then lists only the remaining, updated record. |

## Left out

- Message decoding and encoding are not modelled. This covers `msg::load` and its panic on undecodable input, `msg::reply_with_gas`, `encode()` and `util::to_leak_ptr`. They are runtime I/O; a request that fails to decode never reaches the store.
- The host plumbing is not modelled: `gstd::metadata!`, the `static mut` global and the `unsafe extern "C"` entry points. The global vector is one `RecordStore` object passed to each router.
- The SCALE `Encode`/`Decode` and `TypeInfo` derivations on the message types are foreign library code and are not modelled.
- `ActorId` is abstract: only equality is used, so its 32-byte representation is not modelled.
- Strings are sequences of code points. Rust's `str::contains` compares UTF-8 bytes. For valid UTF-8 the two agree, so the byte encoding is not modelled.
- The `as u32` cast is modelled as a reduction modulo 2^32. The lemmas about the id sequence assume fewer than 2^32 records.
- Gas accounting and concurrency are not modelled. Requests run to completion one at a time.
- `Clone` is implicit: records are values, so a returned record never aliases the stored one.
