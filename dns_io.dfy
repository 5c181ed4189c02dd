/** The message types of the DNS registry contract (dns/io/src/lib.rs):
    the stored record, the two request surfaces and their replies. */
module DnsIo {

  /** Exclusive upper bound of a Rust `u32`. */
  const U32_LIMIT: int := 0x1_0000_0000

  type U32 = x: int | 0 <= x < U32_LIMIT

  /** The identity of a message sender. The registry only ever compares two
      identities for equality, so nothing else is known about them. */
  type ActorId(==, !new)

  datatype Option<+T> = None | Some(value: T)

  /** One registry entry. `id` is assigned by the store, `createdBy` is the
      sender that registered it and the only one allowed to change it. */
  datatype DnsRecord = DnsRecord(
    id: U32,
    name: string,
    link: string,
    description: string,
    createdBy: ActorId)

  /** Requests of the mutating surface (`handle`). */
  datatype DnsAction =
    | Register(name: string, link: string, description: string)
    | Remove(id: U32)
    | Update(id: U32, newName: Option<string>, newLink: Option<string>, newDescription: Option<string>)
    | GetById(id: U32)
    | GetByName(name: string)
    | GetByDescription(description: string)

  datatype DnsReply =
    | Record(record: Option<DnsRecord>)
    | Records(records: seq<DnsRecord>)

  /** Requests of the read-only surface (`meta_state`). */
  datatype QueryAction =
    | GetAll
    | GetById(id: U32)
    | GetByName(name: string)
    | GetByCreator(creator: ActorId)
    | GetByDescription(description: string)
    | GetByPattern(pattern: string)

  datatype QueryResult =
    | Record(record: Option<DnsRecord>)
    | Records(records: seq<DnsRecord>)
}
