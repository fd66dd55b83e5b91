/** The adapters' unit-test cases, stated against the stores the tests
    build: a store that answers every call with one fixed status and slot,
    and the tests' fixture of three items "tester 0" to "tester 2" in the
    service "test.example.com". */
module Scenarios {
  import opened SecStatus
  import opened Outcomes
  import opened KeychainErrors
  import opened SecItem
  import opened Domain
  import WriterAdapter
  import ReaderAdapter
  import UpdaterAdapter
  import DeleterAdapter
  import ListerAdapter

  predicate IsAscii(s: string) {
    forall i | 0 <= i < |s| :: s[i] as int < 128
  }

  /** The UTF-8 bytes of an ASCII string: one byte per character. */
  function AsciiBytes(s: string): (b: seq<byte>)
    requires IsAscii(s)
    ensures |b| == |s| && forall i | 0 <= i < |s| :: b[i] as int == s[i] as int
  {
    seq(|s|, i requires 0 <= i < |s| => s[i] as int as byte)
  }

  /** A decoder that reads ASCII text back as Foundation's UTF-8 decoding
      does. */
  ghost predicate DecodesAscii(decode: ListerAdapter.Utf8Decoder) {
    forall s | IsAscii(s) :: decode(AsciiBytes(s)) == Some(s)
  }

  /** A store that answers every call with the same status and slot. */
  function FixedPort(status: OSStatus, slot: Slot): (port: Port)
    ensures forall call :: port(call) == StoreReply(status, slot)
  {
    (call: StoreCall) => StoreReply(status, slot)
  }

  function Digit(n: nat): (c: char)
    requires n < 10
    ensures c as int < 128
  {
    ('0' as int + n) as char
  }

  function FixtureAccount(n: nat): string
    requires n < 10
  {
    "tester " + [Digit(n)]
  }

  function FixturePassword(n: nat): (s: string)
    requires n < 10
    ensures IsAscii(s)
  {
    "tester password " + [Digit(n)]
  }

  /** The tests' fixture item number `n`. */
  function FixtureRecord(n: nat): Record
    requires n < 10
  {
    map[
      Service := Text("test.example.com"),
      Account := Text(FixtureAccount(n)),
      ValueData := Bytes(AsciiBytes(FixturePassword(n)))
    ]
  }

  function Fixture(): seq<Record> {
    [FixtureRecord(0), FixtureRecord(1), FixtureRecord(2)]
  }

  /** What the reader tests' store leaves in the slot: the data of the
      first record whose account equals `account`, nothing if none does. */
  function FirstMatch(records: seq<Record>, account: AttrValue): Slot
    decreases |records|
  {
    if records == [] then Empty
    else if Account in records[0] && records[0][Account] == account then
      (if ValueData in records[0] && records[0][ValueData].Bytes? then DataItem(records[0][ValueData].data) else OtherObject)
    else FirstMatch(records[1..], account)
  }

  /** The reader tests' store: the fixture looked up by the query's
      account, with a fixed status. */
  function FixtureReaderPort(status: OSStatus): Port {
    (call: StoreCall) =>
      StoreReply(status, if Account in call.query then FirstMatch(Fixture(), call.query[Account]) else Empty)
  }

  /** Writing ("svc", "acct", "pw") to a store that always succeeds returns
      normally after one add of exactly those attributes. */
  lemma WriteScenario()
    ensures var p := WriteParams("svc", "acct", AsciiBytes("pw"));
            var r := WriterAdapter.Write(FixedPort(Success, Empty), p);
            && r.outcome == Returned(())
            && r.calls == [ItemAdd(map[Service := Text("svc"), Account := Text("acct"), Class := GenericPassword,
                                       ValueData := Bytes(AsciiBytes("pw"))], false)]
  {
  }

  /** The status codes the tests feed every adapter, each reported as
      `Unexpected` with that very code; not-found is reported as `NotFound`
      by the writer, reader and updater only. */
  lemma FailureCodesScenario(status: OSStatus, slot: Slot, decode: ListerAdapter.Utf8Decoder)
    requires status in {InternalError, BadReq, MemoryError, DuplicateItem, ItemNotFound}
    ensures var port := FixedPort(status, slot);
            var expected := if status == ItemNotFound then NotFound else Unexpected(status);
            && WriterAdapter.Write(port, WriteParams("a", "i", [])).outcome == Thrown(expected)
            && ReaderAdapter.Read(port, ReadParams("a", "i")).outcome == Thrown(expected)
            && UpdaterAdapter.Update(port, UpdateParams("a", "i", [])).outcome == Thrown(expected)
            && DeleterAdapter.Delete(port, DeleteParams("a", "i", "")).outcome == Thrown(Unexpected(status))
            && ListerAdapter.List(port, decode, ListParams("a")).outcome == Thrown(Unexpected(status))
  {
  }

  /** Reading a non-`Data` answer after a success is `InvalidItemFormat`. */
  lemma ReadInvalidFormatScenario(slot: Slot)
    requires !slot.DataItem?
    ensures ReaderAdapter.Read(FixedPort(Success, slot), ReadParams("svc", "acct")).outcome == Thrown(InvalidItemFormat)
  {
  }

  /** Reading "tester 0" from the fixture store returns the bytes of
      "tester password 0". */
  lemma ReadFixtureScenario()
    ensures ReaderAdapter.Read(FixtureReaderPort(Success), ReadParams("test.example.com", "tester 0")).outcome
            == Returned(ReadResult(AsciiBytes("tester password 0")))
  {
    assert FixtureAccount(0) == "tester 0";
    assert FixturePassword(0) == "tester password 0";
    var call := ItemCopyMatching(ReaderAdapter.ReadQuery(ReadParams("test.example.com", "tester 0")), true);
    assert FirstMatch(Fixture(), call.query[Account]) == DataItem(AsciiBytes("tester password 0"));
  }

  /** Listing against a store that returns the three fixture items yields
      three entries in fixture order, each with the item's service, account
      and decoded password. */
  lemma ListFixtureScenario(decode: ListerAdapter.Utf8Decoder)
    requires DecodesAscii(decode)
    ensures var r := ListerAdapter.List(FixedPort(Success, RecordList(Fixture())), decode, ListParams("any"));
            && r.outcome.Returned?
            && |r.outcome.value| == 3
            && forall n | 0 <= n < 3 ::
                 r.outcome.value[n] == ListResult("test.example.com", FixtureAccount(n), FixturePassword(n))
  {
    forall n | 0 <= n < 3 ensures ListerAdapter.WellFormed(Fixture()[n], decode) {
      assert decode(AsciiBytes(FixturePassword(n))) == Some(FixturePassword(n));
    }
  }
}
