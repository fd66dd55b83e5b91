/** KeychainListerAdapter: lists the items of one namespace. Its only
    status guard is the success test, and it decodes the store's answer
    with forced casts, so a malformed answer stops the process. */
module ListerAdapter {
  import opened SecStatus
  import opened Outcomes
  import opened KeychainErrors
  import opened SecItem
  import opened Domain

  /** The most items the query asks the store for. */
  const ListLimit: int := 5

  /** UTF-8 decoding of a `Data` value into a `String`, `None` when the
      bytes are not valid UTF-8. Foundation does the decoding; the model
      takes it as a parameter. */
  type Utf8Decoder = seq<byte> -> Option<string>

  /** Every generic password of the namespace, with attributes and data,
      at most `ListLimit` of them. */
  function ListQuery(p: ListParams): (q: Query)
    ensures q.Keys == {Service, Class, ReturnAttributes, MatchLimit, ReturnData}
    ensures Account !in q && ValueData !in q
    ensures q[Service] == Text(p.application) && q[Class] == GenericPassword
    ensures q[ReturnAttributes] == Flag(true) && q[ReturnData] == Flag(true)
    ensures q[MatchLimit] == Count(ListLimit)
  {
    map[
      Service := Text(p.application),
      Class := GenericPassword,
      ReturnAttributes := Flag(true),
      MatchLimit := Count(ListLimit),
      ReturnData := Flag(true)
    ]
  }

  /** A record the forced casts accept: a text service, a text account
      and data that decodes as UTF-8. */
  predicate WellFormed(rec: Record, decode: Utf8Decoder) {
    && Service in rec && rec[Service].Text?
    && Account in rec && rec[Account].Text?
    && ValueData in rec && rec[ValueData].Bytes?
    && decode(rec[ValueData].data).Some?
  }

  /** The entry built from one record, `None` where a cast would trap. */
  function DecodeRecord(rec: Record, decode: Utf8Decoder): (r: Option<ListResult>)
    ensures r.Some? <==> WellFormed(rec, decode)
    ensures r.Some? ==> && r.value.application == rec[Service].text
                        && r.value.identifier == rec[Account].text
                        && Some(r.value.security) == decode(rec[ValueData].data)
  {
    if !(Service in rec && rec[Service].Text?) then None
    else if !(Account in rec && rec[Account].Text?) then None
    else if !(ValueData in rec && rec[ValueData].Bytes?) then None
    else match decode(rec[ValueData].data)
      case None => None
      case Some(security) => Some(ListResult(rec[Service].text, rec[Account].text, security))
  }

  /** The `map` over the record array: all entries, in order, or `None` as
      soon as one record is malformed. There are no partial results. */
  function DecodeRecords(records: seq<Record>, decode: Utf8Decoder): (r: Option<seq<ListResult>>)
    ensures r.Some? <==> forall i | 0 <= i < |records| :: WellFormed(records[i], decode)
    ensures r.Some? ==> |r.value| == |records|
    ensures r.Some? ==> forall i | 0 <= i < |records| :: Some(r.value[i]) == DecodeRecord(records[i], decode)
    decreases |records|
  {
    if records == [] then Some([])
    else match DecodeRecord(records[0], decode)
      case None => None
      case Some(entry) =>
        match DecodeRecords(records[1..], decode)
        case None => None
        case Some(rest) => Some([entry] + rest)
  }

  /** Lists through `port`. Any non-success status, not-found included, is
      `Unexpected`. On success the slot must be an array of well-formed
      records, or the call traps; otherwise each record becomes one entry,
      in the store's order. The adapter does not cut the array down to
      `ListLimit`: the limit is only asked of the store. */
  function List(port: Port, decode: Utf8Decoder, p: ListParams): (r: Run<seq<ListResult>, KeychainError>)
    ensures |r.calls| == 1 && r.calls[0].ItemCopyMatching? && r.calls[0].wantsResult
    ensures r.calls[0].query.Keys == {Service, Class, ReturnAttributes, MatchLimit, ReturnData}
    ensures r.calls[0].query[Service] == Text(p.application)
    ensures r.calls[0].query[Class] == GenericPassword
    ensures r.calls[0].query[ReturnAttributes] == Flag(true)
    ensures r.calls[0].query[ReturnData] == Flag(true)
    ensures r.calls[0].query[MatchLimit] == Count(ListLimit)
    ensures var reply := port(r.calls[0]);
            && (r.outcome == Thrown(Unexpected(reply.status)) <==> reply.status != Success)
            && (r.outcome.Trapped? <==>
                  reply.status == Success &&
                  !(reply.slot.RecordList? &&
                    forall i | 0 <= i < |reply.slot.records| :: WellFormed(reply.slot.records[i], decode)))
            && (r.outcome.Returned? <==>
                  reply.status == Success && reply.slot.RecordList? &&
                  forall i | 0 <= i < |reply.slot.records| :: WellFormed(reply.slot.records[i], decode))
            && (r.outcome.Returned? ==>
                  && reply.slot.RecordList?
                  && |r.outcome.value| == |reply.slot.records|
                  && forall i | 0 <= i < |reply.slot.records| ::
                       var rec := reply.slot.records[i];
                       && r.outcome.value[i].application == rec[Service].text
                       && r.outcome.value[i].identifier == rec[Account].text
                       && Some(r.outcome.value[i].security) == decode(rec[ValueData].data))
    ensures r.outcome != Thrown(NotFound) && r.outcome != Thrown(InvalidItemFormat)
  {
    var call := ItemCopyMatching(ListQuery(p), true);
    var reply := port(call);
    var outcome :=
      if reply.status != Success then Thrown(Unexpected(reply.status))
      else if !reply.slot.RecordList? then Trapped
      else match DecodeRecords(reply.slot.records, decode)
        case None => Trapped
        case Some(entries) => Returned(entries);
    Run([call], outcome)
  }

  /** A store that reports no matching item makes the lister throw
      `Unexpected(ItemNotFound)`, where the lister's tests expect
      `NotFound`. */
  lemma ListNotFoundIsUnexpected(port: Port, decode: Utf8Decoder, p: ListParams)
    requires port(ItemCopyMatching(ListQuery(p), true)).status == ItemNotFound
    ensures List(port, decode, p).outcome == Thrown(Unexpected(ItemNotFound))
  {
  }

  /** One malformed record anywhere makes the whole call trap, however
      many good records surround it. */
  lemma OneBadRecordTraps(port: Port, decode: Utf8Decoder, p: ListParams, k: nat)
    requires port(ItemCopyMatching(ListQuery(p), true)).status == Success
    requires port(ItemCopyMatching(ListQuery(p), true)).slot.RecordList?
    requires k < |port(ItemCopyMatching(ListQuery(p), true)).slot.records|
    requires !WellFormed(port(ItemCopyMatching(ListQuery(p), true)).slot.records[k], decode)
    ensures List(port, decode, p).outcome.Trapped?
  {
  }
}
