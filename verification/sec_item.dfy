/** The keychain item interface the adapters talk to: attribute queries,
    the four item calls of the Security framework, and what a call hands
    back. The store itself is not modelled: an adapter receives it as a
    `Port`, a function from the call it makes to the reply it gets, so the
    real framework and any test double fit the same slot. */
module SecItem {
  import opened SecStatus
  import opened Outcomes

  newtype byte = b: int | 0 <= b < 256

  /** The attribute keys the adapters use (kSecClass, kSecAttrService,
      kSecAttrAccount, kSecValueData, kSecMatchLimit, kSecReturnData,
      kSecReturnAttributes). */
  datatype AttrKey = Class | Service | Account | ValueData | MatchLimit | ReturnData | ReturnAttributes

  /** The values stored under those keys, by the Objective-C type they are
      bridged to. `GenericPassword` is kSecClassGenericPassword and
      `MatchOne` is kSecMatchLimitOne; `Flag` is a boolean and `Count` an
      integer number. */
  datatype AttrValue =
    | Text(text: string)
    | Bytes(data: seq<byte>)
    | Flag(flag: bool)
    | Count(count: int)
    | GenericPassword
    | MatchOne

  /** An attribute dictionary, as passed to the store. */
  type Query = map<AttrKey, AttrValue>

  /** One attribute dictionary as the store returns it for a listing. */
  type Record = map<AttrKey, AttrValue>

  /** What the store leaves in the result reference of a copy call: nothing,
      a `Data` value, an array of dictionaries, or any other object. */
  datatype Slot = Empty | DataItem(bytes: seq<byte>) | RecordList(records: seq<Record>) | OtherObject

  /** The four item calls. `wantsResult` says whether a result reference is
      passed (`&ref`) rather than nil. */
  datatype StoreCall =
    | ItemAdd(query: Query, wantsResult: bool)
    | ItemCopyMatching(query: Query, wantsResult: bool)
    | ItemUpdate(query: Query, attributes: Query)
    | ItemDelete(query: Query)

  /** The status a call returns and what it leaves in the result reference. */
  datatype StoreReply = StoreReply(status: OSStatus, slot: Slot)

  /** The injected store operation. */
  type Port = StoreCall -> StoreReply

  /** One adapter call: the store calls it made, in order, and how it ended. */
  datatype Run<+T, +E> = Run(calls: seq<StoreCall>, outcome: Outcome<T, E>)

  /** The query that addresses one generic-password item by service and
      account; the read, update and delete queries start from it. */
  function IdentityQuery(application: string, identifier: string): (q: Query)
    ensures q.Keys == {Class, Service, Account}
    ensures q[Class] == GenericPassword
    ensures q[Service] == Text(application) && q[Account] == Text(identifier)
  {
    map[Service := Text(application), Account := Text(identifier), Class := GenericPassword]
  }

  /** Distinct addresses give distinct identity queries. */
  lemma IdentityQueryInjective(a1: string, i1: string, a2: string, i2: string)
    ensures IdentityQuery(a1, i1) == IdentityQuery(a2, i2) <==> a1 == a2 && i1 == i2
  {
  }
}
