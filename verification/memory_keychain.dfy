/** A simple in-memory stand-in for the keychain, used as the store behind
    the adapters to state what a sequence of operations does: a written
    secret reads back, an update replaces it, a delete removes it. Items
    are addressed by (service, account) and kept in insertion order; a
    listing returns them in that order, which is this stand-in's choice
    (the Security framework promises no order). Where a query lacks an
    attribute this stand-in needs, it answers errSecParam. */
module MemoryKeychain {
  import opened SecStatus
  import opened Outcomes
  import opened KeychainErrors
  import opened SecItem
  import opened Domain
  import WriterAdapter
  import ReaderAdapter
  import UpdaterAdapter
  import DeleterAdapter
  import ListerAdapter

  datatype Item = Item(service: string, account: string, secret: seq<byte>)

  type Store = seq<Item>

  /** The store after a call, and the call's reply. */
  datatype Step = Step(next: Store, reply: StoreReply)

  predicate Matches(it: Item, service: string, account: string) {
    it.service == service && it.account == account
  }

  /** No two items share an address. */
  predicate Unique(store: Store) {
    forall i, j | 0 <= i < j < |store| :: !Matches(store[j], store[i].service, store[i].account)
  }

  /** The position of the first item at the address, if any. */
  function IndexOf(store: Store, service: string, account: string): (r: Option<nat>)
    ensures r.Some? ==> r.value < |store| && Matches(store[r.value], service, account)
    ensures r.Some? ==> forall i | 0 <= i < r.value :: !Matches(store[i], service, account)
    ensures r.None? <==> forall i | 0 <= i < |store| :: !Matches(store[i], service, account)
    decreases |store|
  {
    if store == [] then None
    else if Matches(store[0], service, account) then Some(0)
    else match IndexOf(store[1..], service, account)
      case None => None
      case Some(k) => Some(k + 1)
  }

  /** The service and account of a query that names one generic password. */
  function Identity(q: Query): Option<(string, string)> {
    if && Class in q && q[Class] == GenericPassword
       && Service in q && q[Service].Text?
       && Account in q && q[Account].Text?
    then Some((q[Service].text, q[Account].text))
    else None
  }

  /** The items of one service, in store order. */
  function InService(store: Store, service: string): (r: seq<Item>)
    ensures |r| <= |store|
    ensures forall it :: it in r <==> it in store && it.service == service
    ensures (forall i | 0 <= i < |store| :: store[i].service == service) ==> r == store
    decreases |store|
  {
    if store == [] then []
    else
      var rest := InService(store[1..], service);
      if store[0].service == service then [store[0]] + rest else rest
  }

  function Take(s: seq<Item>, n: nat): (r: seq<Item>)
    ensures |r| <= n && |r| <= |s| && (|s| <= n ==> r == s)
    ensures forall i | 0 <= i < |r| :: r[i] == s[i]
  {
    if |s| <= n then s else s[..n]
  }

  /** The attribute dictionary the store returns for an item. */
  function AsRecord(it: Item): Record {
    map[Service := Text(it.service), Account := Text(it.account), ValueData := Bytes(it.secret)]
  }

  function Records(items: seq<Item>): (r: seq<Record>)
    ensures |r| == |items| && forall i | 0 <= i < |items| :: r[i] == AsRecord(items[i])
  {
    seq(|items|, i requires 0 <= i < |items| => AsRecord(items[i]))
  }

  /** One item call. A query that does not name a generic password by text
      service and account (or, for a listing, by text service and a
      positive match limit) is `Param`. An add of an existing address is
      `DuplicateItem`; a lookup, update or delete of a missing address,
      and a listing of an empty service, is `ItemNotFound`. */
  function Apply(store: Store, call: StoreCall): Step {
    match call
    case ItemAdd(q, _) =>
      (match Identity(q)
       case None => Step(store, StoreReply(Param, Empty))
       case Some((service, account)) =>
         if !(ValueData in q && q[ValueData].Bytes?) then Step(store, StoreReply(Param, Empty))
         else if IndexOf(store, service, account).Some? then Step(store, StoreReply(DuplicateItem, Empty))
         else Step(store + [Item(service, account, q[ValueData].data)], StoreReply(Success, Empty)))
    case ItemCopyMatching(q, wantsResult) =>
      if Account in q then
        (match Identity(q)
         case None => Step(store, StoreReply(Param, Empty))
         case Some((service, account)) =>
           match IndexOf(store, service, account)
           case None => Step(store, StoreReply(ItemNotFound, Empty))
           case Some(k) => Step(store, StoreReply(Success, if wantsResult then DataItem(store[k].secret) else Empty)))
      else if !(&& Class in q && q[Class] == GenericPassword
                && Service in q && q[Service].Text?
                && MatchLimit in q && q[MatchLimit].Count? && q[MatchLimit].count > 0) then
        Step(store, StoreReply(Param, Empty))
      else
        var found := InService(store, q[Service].text);
        if found == [] then Step(store, StoreReply(ItemNotFound, Empty))
        else Step(store, StoreReply(Success,
                                    if wantsResult then RecordList(Records(Take(found, q[MatchLimit].count))) else Empty))
    case ItemUpdate(q, attributes) =>
      (match Identity(q)
       case None => Step(store, StoreReply(Param, Empty))
       case Some((service, account)) =>
         if !(ValueData in attributes && attributes[ValueData].Bytes?) then Step(store, StoreReply(Param, Empty))
         else match IndexOf(store, service, account)
           case None => Step(store, StoreReply(ItemNotFound, Empty))
           case Some(k) => Step(store[k := store[k].(secret := attributes[ValueData].data)], StoreReply(Success, Empty)))
    case ItemDelete(q) =>
      (match Identity(q)
       case None => Step(store, StoreReply(Param, Empty))
       case Some((service, account)) =>
         match IndexOf(store, service, account)
         case None => Step(store, StoreReply(ItemNotFound, Empty))
         case Some(k) => Step(store[..k] + store[k + 1..], StoreReply(Success, Empty)))
  }

  /** The store as a port: it answers, but the port cannot change it. */
  function PortOf(store: Store): Port {
    (call: StoreCall) => Apply(store, call).reply
  }

  /** The store after the calls of a run, applied in order. */
  function Replay(store: Store, calls: seq<StoreCall>): Store
    decreases |calls|
  {
    if calls == [] then store else Replay(Apply(store, calls[0]).next, calls[1..])
  }

  /** Appending an item whose address is free keeps addresses unique. */
  lemma AppendPreservesUnique(store: Store, it: Item)
    requires Unique(store) && IndexOf(store, it.service, it.account).None?
    ensures Unique(store + [it])
  {
    var next := store + [it];
    forall i, j | 0 <= i < j < |next|
      ensures !Matches(next[j], next[i].service, next[i].account)
    {
      assert next[i] == store[i];
      if j == |store| {
        assert !Matches(store[i], it.service, it.account);
      } else {
        assert next[j] == store[j];
      }
    }
  }

  /** Changing the secret at one position keeps addresses unique. */
  lemma ReplaceSecretPreservesUnique(store: Store, k: nat, secret: seq<byte>)
    requires Unique(store) && k < |store|
    ensures Unique(store[k := store[k].(secret := secret)])
  {
    var next := store[k := store[k].(secret := secret)];
    forall i, j | 0 <= i < j < |next|
      ensures !Matches(next[j], next[i].service, next[i].account)
    {
      assert next[i].service == store[i].service && next[i].account == store[i].account;
      assert next[j].service == store[j].service && next[j].account == store[j].account;
    }
  }

  /** Removing one position keeps addresses unique. */
  lemma RemovePreservesUnique(store: Store, k: nat)
    requires Unique(store) && k < |store|
    ensures Unique(store[..k] + store[k + 1..])
  {
    var next := store[..k] + store[k + 1..];
    forall i, j | 0 <= i < j < |next|
      ensures !Matches(next[j], next[i].service, next[i].account)
    {
      var i', j' := if i < k then i else i + 1, if j < k then j else j + 1;
      assert next[i] == store[i'] && next[j] == store[j'];
    }
  }

  /** Every call keeps addresses unique. */
  lemma ApplyPreservesUnique(store: Store, call: StoreCall)
    requires Unique(store)
    ensures Unique(Apply(store, call).next)
  {
    match call
    case ItemAdd(q, _) =>
      if Identity(q).Some? && ValueData in q && q[ValueData].Bytes? {
        var (service, account) := Identity(q).value;
        if IndexOf(store, service, account).None? {
          AppendPreservesUnique(store, Item(service, account, q[ValueData].data));
        }
      }
    case ItemCopyMatching(_, _) =>
    case ItemUpdate(q, attributes) =>
      if Identity(q).Some? && ValueData in attributes && attributes[ValueData].Bytes? {
        var (service, account) := Identity(q).value;
        if IndexOf(store, service, account).Some? {
          ReplaceSecretPreservesUnique(store, IndexOf(store, service, account).value, attributes[ValueData].data);
        }
      }
    case ItemDelete(q) =>
      if Identity(q).Some? {
        var (service, account) := Identity(q).value;
        if IndexOf(store, service, account).Some? {
          RemovePreservesUnique(store, IndexOf(store, service, account).value);
        }
      }
  }

  /** Every store the calls of runs can lead to from an empty one keeps
      addresses unique, as `DeleteThenRead` requires. */
  lemma {:induction false} ReplayPreservesUnique(store: Store, calls: seq<StoreCall>)
    requires Unique(store)
    ensures Unique(Replay(store, calls))
    decreases |calls|
  {
    if calls != [] {
      ApplyPreservesUnique(store, calls[0]);
      ReplayPreservesUnique(Apply(store, calls[0]).next, calls[1..]);
    }
  }

  /** An item that is not yet there can be written, and reading its
      address afterwards returns exactly the bytes written. */
  lemma WriteThenRead(store: Store, p: WriteParams)
    requires IndexOf(store, p.application, p.identifier).None?
    ensures var w := WriterAdapter.Write(PortOf(store), p);
            var after := Replay(store, w.calls);
            && w.outcome == Returned(())
            && ReaderAdapter.Read(PortOf(after), ReadParams(p.application, p.identifier)).outcome
               == Returned(ReadResult(p.secure))
  {
    var w := WriterAdapter.Write(PortOf(store), p);
    var after := store + [Item(p.application, p.identifier, p.secure)];
    assert Replay(store, w.calls) == after;
    var found := IndexOf(after, p.application, p.identifier);
    assert Matches(after[|store|], p.application, p.identifier);
    assert found == Some(|store|) by {
      forall i | 0 <= i < |store| ensures !Matches(after[i], p.application, p.identifier) {
        assert after[i] == store[i];
      }
    }
  }

  /** Writing an address that is taken fails with the duplicate-item code
      and leaves the store as it was: there is no overwrite. */
  lemma WriteExistingIsDuplicate(store: Store, p: WriteParams)
    requires IndexOf(store, p.application, p.identifier).Some?
    ensures var w := WriterAdapter.Write(PortOf(store), p);
            && w.outcome == Thrown(Unexpected(DuplicateItem))
            && Replay(store, w.calls) == store
  {
  }

  /** Updating an existing item succeeds, and a read then returns the new
      secret. */
  lemma UpdateThenRead(store: Store, p: UpdateParams)
    requires IndexOf(store, p.application, p.identifier).Some?
    ensures var u := UpdaterAdapter.Update(PortOf(store), p);
            var after := Replay(store, u.calls);
            && u.outcome == Returned(())
            && ReaderAdapter.Read(PortOf(after), ReadParams(p.application, p.identifier)).outcome
               == Returned(ReadResult(p.security))
  {
    var u := UpdaterAdapter.Update(PortOf(store), p);
    var k := IndexOf(store, p.application, p.identifier).value;
    var after := store[k := store[k].(secret := p.security)];
    assert Replay(store, u.calls) == after;
    assert Matches(after[k], p.application, p.identifier);
    assert IndexOf(after, p.application, p.identifier) == Some(k) by {
      forall i | 0 <= i < k ensures !Matches(after[i], p.application, p.identifier) {
        assert after[i] == store[i];
      }
    }
  }

  /** Updating a missing item is `NotFound` and changes nothing. */
  lemma UpdateMissingIsNotFound(store: Store, p: UpdateParams)
    requires IndexOf(store, p.application, p.identifier).None?
    ensures var u := UpdaterAdapter.Update(PortOf(store), p);
            u.outcome == Thrown(NotFound) && Replay(store, u.calls) == store
  {
  }

  /** Deleting an existing item succeeds, and a read of its address is then
      `NotFound`. Uniqueness holds of every store the calls of runs reach
      from an empty one (`ReplayPreservesUnique`). */
  lemma DeleteThenRead(store: Store, p: DeleteParams)
    requires Unique(store)
    requires IndexOf(store, p.application, p.identifier).Some?
    ensures var d := DeleterAdapter.Delete(PortOf(store), p);
            var after := Replay(store, d.calls);
            && d.outcome == Returned(())
            && ReaderAdapter.Read(PortOf(after), ReadParams(p.application, p.identifier)).outcome == Thrown(NotFound)
  {
    var d := DeleterAdapter.Delete(PortOf(store), p);
    var k := IndexOf(store, p.application, p.identifier).value;
    var after := store[..k] + store[k + 1..];
    assert Replay(store, d.calls) == after;
    forall i | 0 <= i < |after| ensures !Matches(after[i], p.application, p.identifier) {
      if i < k {
        assert after[i] == store[i];
      } else {
        assert after[i] == store[i + 1];
      }
    }
  }

  /** Deleting a missing item fails, but as `Unexpected(ItemNotFound)`,
      not as `NotFound`: the deleter has no not-found guard. */
  lemma DeleteMissingIsUnexpected(store: Store, p: DeleteParams)
    requires IndexOf(store, p.application, p.identifier).None?
    ensures var d := DeleterAdapter.Delete(PortOf(store), p);
            d.outcome == Thrown(Unexpected(ItemNotFound)) && Replay(store, d.calls) == store
  {
  }

  /** Listing a service returns its first `ListLimit` items in store
      order, each with its account and its decoded secret, provided those
      secrets decode: the lister decodes only what the store hands back, so
      items past the limit may hold anything. */
  lemma ListReturnsServiceInOrder(store: Store, decode: ListerAdapter.Utf8Decoder, service: string)
    requires InService(store, service) != []
    requires var items := Take(InService(store, service), ListerAdapter.ListLimit);
             forall i | 0 <= i < |items| :: decode(items[i].secret).Some?
    ensures var items := Take(InService(store, service), ListerAdapter.ListLimit);
            var r := ListerAdapter.List(PortOf(store), decode, ListParams(service));
            && r.outcome.Returned?
            && |r.outcome.value| == |items| <= ListerAdapter.ListLimit
            && forall i | 0 <= i < |items| ::
                 r.outcome.value[i] == ListResult(service, items[i].account, decode(items[i].secret).value)
  {
    var found := InService(store, service);
    var items := Take(found, ListerAdapter.ListLimit);
    var records := Records(items);
    var port := PortOf(store);
    var call := ItemCopyMatching(ListerAdapter.ListQuery(ListParams(service)), true);
    assert port(call) == StoreReply(Success, RecordList(records));
    forall i | 0 <= i < |records| ensures ListerAdapter.WellFormed(records[i], decode) {
      assert items[i] == found[i];
      assert found[i] in store;
    }
  }

  /** Listing a service with no items fails with `Unexpected(ItemNotFound)`. */
  lemma ListEmptyServiceIsUnexpected(store: Store, decode: ListerAdapter.Utf8Decoder, service: string)
    requires InService(store, service) == []
    ensures ListerAdapter.List(PortOf(store), decode, ListParams(service)).outcome == Thrown(Unexpected(ItemNotFound))
  {
  }
}
