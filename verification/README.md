# Keychain adapters

A Dafny model of the adapter layer of a small iOS credential store. Five
adapters — writer, reader, updater, deleter and lister — turn a typed
request into a keychain attribute dictionary, make one call to the
Security framework (`SecItemAdd`, `SecItemCopyMatching`, `SecItemUpdate`,
`SecItemDelete`), and translate the returned `OSStatus` into one of three
errors: `notFound`, `invalidItemFormat` or `unexpected(status)`. A sixth
type, `KeychainAdapter`, repeats the writer, reader, deleter and updater in
one struct.

How the model is put together:

- `SecItem` holds the store interface. A query is a `map<AttrKey, AttrValue>`.
  The store is a `Port`, a function from the call made (`StoreCall`) to the
  reply (`StoreReply(status, slot)`). Every adapter takes the port as a
  parameter. This is how the reader's injectable `read` field and the
  closure-taking constructors of the tests work, so the real framework and
  any test double fit the same place.
- Each adapter returns a `Run(calls, outcome)`. `calls` is the list of port
  calls its body made, in order. This is what the tests' call counters and
  parameter recorders see. "Exactly one store call, with these attributes"
  is an `ensures` of every adapter.
- `Outcome` is `Returned(value)`, `Thrown(error)` or `Trapped`. `Trapped`
  stands for a failing forced cast (`as!`) or forced unwrap (`!`), which
  stops the process.
- `SecStatus` gives the `OSStatus` codes as declared in Apple's SecBase.h,
  as signed 32-bit values: success 0, item-not-found -25300, duplicate-item
  -25299, param -50, bad-request -909, internal-error -67671 and
  memory-error -67672.
- `MemoryKeychain` is a simple in-memory stand-in for the keychain. It
  keeps items in insertion order and lists them in that order, by its own
  choice: the framework promises no order. It answers errSecParam where a
  query lacks an attribute it needs, which the framework does not always
  do. It is used to state round trips:
  a write then a read returns the written bytes; an update then a read
  returns the new bytes; a delete then a read is `NotFound`; a listing
  returns a service's items in insertion order.
- `Scenarios` restates the unit tests' cases against the tests' own
  stores.

In two places the model keeps the code as written, where a reader might
expect otherwise:

- The deleter and the lister only test for success. A store that reports
  item-not-found therefore makes them throw `Unexpected(-25300)`, not
  `NotFound`. Their own tests expect `NotFound`. `DeleteNotFoundIsUnexpected`,
  `ListNotFoundIsUnexpected`, `DeleteMissingIsUnexpected` and
  `FailureCodesScenario` state what the code does.
- The lister uses forced casts. A malformed answer after a success is
  modelled as `Trapped`, the process stopping, where the reader would throw
  `InvalidItemFormat`. It never gives partial results.

In two places the model deliberately departs from the code:

- Both Swift update methods are declared to take `DeleteParams`, whose
  `security` is a `String`. For the stand-alone updater this contradicts
  its `Updater` protocol (`feature/domain/Updater.swift:3-7`), and its
  tests use `UpdateParams`, whose `security` is `Data`. The model follows
  that protocol: an update carries bytes, and the attributes hold
  `ValueData := Bytes(security)`. The struct's update is modelled the same
  way, although there code and protocol agree on a `String` (see
  "## Left out").
- In the source, only the reader holds its store call in a field. The
  other adapters call the framework directly, yet their tests build them
  with closures. In the model every adapter takes the port in the same way.

## Model

| member | source | states |
|---|---|---|
| KeychainErrors.CheckStatus | swift-keychain-adavanced-demo/feature/implementation/KeychainWritterAdapter.swift:14-20 | not-found is `NotFound`, success returns, every other status is `Unexpected` with that code; each holds in both directions; never `InvalidItemFormat` |
| KeychainErrors.CheckSuccess | swift-keychain-adavanced-demo/feature/implementation/KeychainDeleterAdapter.swift:13-15 | success returns and every other status, not-found included, is `Unexpected` with that code; never `NotFound` |
| KeychainErrors.GuardsDifferOnlyOnNotFound | swift-keychain-adavanced-demo/feature/implementation/KeychainListerAdapter.swift:17-19 | the success-only guard and the two-stage guard disagree on item-not-found and on no other status |
| KeychainErrors.UnexpectedKeepsCode | swift-keychain-adavanced-demo/feature/implementation/KeychainError.swift:3-7 | `unexpected` carries the status unchanged: the code can be read back, and distinct codes give distinct errors |
| SecItem.IdentityQuery | swift-keychain-adavanced-demo/feature/implementation/KeychainDeleterAdapter.swift:5-9 | the identity query has exactly class = generic password, service = application and account = identifier |
| SecItem.IdentityQueryInjective | swift-keychain-adavanced-demo/feature/implementation/KeychainReaderAdapter.swift:10-11 | two identity queries are equal exactly when application and identifier are equal |
| WriterAdapter.WriteQuery | swift-keychain-adavanced-demo/feature/implementation/KeychainWritterAdapter.swift:5-10 | the write query is the identity query plus `ValueData` = the secret bytes |
| WriterAdapter.Write | swift-keychain-adavanced-demo/feature/implementation/KeychainWritterAdapter.swift:4-21 | one add call without a result reference, carrying exactly service, account, class and data; not-found is `NotFound` before the success test; duplicate and every other failure is `Unexpected(status)`; success returns; never `InvalidItemFormat` or a trap |
| WriterAdapter.WriteDependsOnlyOnStatus | swift-keychain-adavanced-demo/feature/implementation/KeychainWritterAdapter.swift:12-20 | two stores that answer the add with the same status give the same outcome |
| ReaderAdapter.ReadQuery | swift-keychain-adavanced-demo/feature/implementation/KeychainReaderAdapter.swift:9-15 | the read query is the identity query plus match limit one and return data true, with no `ValueData` |
| ReaderAdapter.Read | swift-keychain-adavanced-demo/feature/implementation/KeychainReaderAdapter.swift:5-33 | one copy call with a result reference and exactly the five read keys; not-found is `NotFound`; another failure is `Unexpected(status)`; a success with a non-`Data` slot is `InvalidItemFormat`; a success with `Data` returns exactly those bytes |
| ReaderAdapter.ReadFailureIgnoresSlot | swift-keychain-adavanced-demo/feature/implementation/KeychainReaderAdapter.swift:20-26 | after a failing status the slot has no effect: the outcome is fixed before any format check |
| UpdaterAdapter.UpdateAttributes | swift-keychain-adavanced-demo/feature/implementation/KeychainUpdaterAdapter.swift:11-13 | the new attributes hold only `ValueData` = the new secret |
| UpdaterAdapter.Update | swift-keychain-adavanced-demo/feature/implementation/KeychainUpdaterAdapter.swift:4-27 | one update call whose match query has exactly service, account and class, and whose attributes hold only the new secret; not-found is `NotFound`, another failure is `Unexpected(status)`, success returns; never `InvalidItemFormat` |
| UpdaterAdapter.MatchQueryIgnoresSecret | swift-keychain-adavanced-demo/feature/implementation/KeychainUpdaterAdapter.swift:5-13 | the new secret changes the attributes and never the match query |
| DeleterAdapter.Delete | swift-keychain-adavanced-demo/feature/implementation/KeychainDeleterAdapter.swift:4-16 | one delete call with exactly service, account and class; success returns; every other status, not-found included, is `Unexpected(status)`; never `NotFound` or `InvalidItemFormat` |
| DeleterAdapter.DeleteIgnoresSecurity | swift-keychain-adavanced-demo/feature/domain/Deleter.swift:3-7 | the request's `security` text changes neither the call nor the outcome |
| DeleterAdapter.DeleteNotFoundIsUnexpected | swift-keychain-adavanced-demoTests/KeychainDeleterAdapterTests.swift:45-66 | a store reporting not-found makes delete throw `Unexpected(-25300)`, not the `NotFound` this test expects |
| ListerAdapter.ListQuery | swift-keychain-adavanced-demo/feature/implementation/KeychainListerAdapter.swift:6-12 | the list query has exactly service = application, class = generic password, return attributes and return data true and match limit 5; no account and no data key |
| ListerAdapter.DecodeRecord | swift-keychain-adavanced-demo/feature/implementation/KeychainListerAdapter.swift:25-33 | a record yields an entry exactly when service and account are text and the data decodes as UTF-8; the entry holds those three values |
| ListerAdapter.DecodeRecords | swift-keychain-adavanced-demo/feature/implementation/KeychainListerAdapter.swift:24-34 | all records give entries or none do; the entries have the records' length and order |
| ListerAdapter.List | swift-keychain-adavanced-demo/feature/implementation/KeychainListerAdapter.swift:5-37 | one copy call with a result reference; every non-success status, not-found included, is `Unexpected(status)`; after a success it returns exactly when the slot is an array of well-formed records and traps otherwise; entry i is then record i, with no truncation to the limit |
| ListerAdapter.ListNotFoundIsUnexpected | swift-keychain-adavanced-demoTests/KeychainListerAdapterTests.swift:56-77 | a store reporting not-found makes list throw `Unexpected(-25300)`, not the `NotFound` this test expects |
| ListerAdapter.OneBadRecordTraps | swift-keychain-adavanced-demo/feature/implementation/KeychainListerAdapter.swift:22-28 | one malformed record anywhere in a successful answer makes the whole call trap |
| KeychainAdapter.AsKeychainError | swift-keychain-adavanced-demo/feature/implementation/KeychainAdapter.swift:8-12 | the struct's private error maps case for case onto `KeychainError`: not-found to not-found, invalid format to invalid format, unexpected to unexpected with the same status |
| KeychainAdapter.ErrorCasesCorrespond | swift-keychain-adavanced-demo/feature/implementation/KeychainAdapter.swift:8-12 | that mapping is one-to-one and onto |
| KeychainAdapter.Write | swift-keychain-adavanced-demo/feature/implementation/KeychainAdapter.swift:16-33 | for every store, the struct's write makes the same single add call and ends the same way as the stand-alone writer, its errors renamed case for case |
| KeychainAdapter.Read | swift-keychain-adavanced-demo/feature/implementation/KeychainAdapter.swift:37-62 | for every store, the struct's read makes the same single copy call and ends the same way as the stand-alone reader, including `InvalidItemFormat` for a non-`Data` slot |
| KeychainAdapter.Delete | swift-keychain-adavanced-demo/feature/implementation/KeychainAdapter.swift:66-78 | for every store, the struct's delete agrees with the stand-alone deleter; a not-found status becomes `unexpected(-25300)` |
| KeychainAdapter.Update | swift-keychain-adavanced-demo/feature/implementation/KeychainAdapter.swift:82-105 | for every store, the struct's update makes the same single update call and ends the same way as the stand-alone updater |
| MemoryKeychain.WriteThenRead | swift-keychain-adavanced-demo/feature/implementation/KeychainWritterAdapter.swift:5-12 | against an in-memory keychain, writing a new item succeeds and reading it back returns exactly the written bytes |
| MemoryKeychain.WriteExistingIsDuplicate | swift-keychain-adavanced-demo/feature/implementation/KeychainWritterAdapter.swift:18-20 | writing an address that is taken is `Unexpected(DuplicateItem)` and leaves the keychain unchanged |
| MemoryKeychain.UpdateThenRead | swift-keychain-adavanced-demo/feature/implementation/KeychainUpdaterAdapter.swift:5-18 | updating an existing item succeeds and a later read returns the new secret |
| MemoryKeychain.UpdateMissingIsNotFound | swift-keychain-adavanced-demo/feature/implementation/KeychainUpdaterAdapter.swift:20-22 | updating a missing item is `NotFound` and changes nothing |
| MemoryKeychain.DeleteThenRead | swift-keychain-adavanced-demo/feature/implementation/KeychainDeleterAdapter.swift:5-15 | deleting an existing item succeeds and a later read is `NotFound` |
| MemoryKeychain.DeleteMissingIsUnexpected | swift-keychain-adavanced-demo/feature/implementation/KeychainDeleterAdapter.swift:13-15 | deleting a missing item is `Unexpected(ItemNotFound)` and changes nothing |
| MemoryKeychain.ListReturnsServiceInOrder | swift-keychain-adavanced-demo/feature/implementation/KeychainListerAdapter.swift:6-34 | listing a non-empty service returns its first items, at most five, in insertion order, each with its account and decoded secret, whenever those secrets decode; items past the limit are never decoded, so their contents do not matter |
| MemoryKeychain.ListEmptyServiceIsUnexpected | swift-keychain-adavanced-demo/feature/implementation/KeychainListerAdapter.swift:17-19 | listing a service with no items is `Unexpected(ItemNotFound)` |
| Scenarios.WriteScenario | swift-keychain-adavanced-demoTests/KeychainWritterAdapterTests.swift:26-46 | writing ("svc", "acct", "pw") to an always-succeeding store returns normally after one add of exactly those attributes |
| Scenarios.FailureCodesScenario | swift-keychain-adavanced-demoTests/KeychainWritterAdapterTests.swift:95-109 | internal, bad-request, memory and duplicate codes are `Unexpected` with that code in all five adapters; not-found is `NotFound` for writer, reader and updater and `Unexpected` for deleter and lister |
| Scenarios.ReadInvalidFormatScenario | swift-keychain-adavanced-demo/feature/implementation/KeychainReaderAdapter.swift:28-30 | a success whose slot holds no `Data` is `InvalidItemFormat` |
| Scenarios.ReadFixtureScenario | swift-keychain-adavanced-demoTests/KeychainReaderAdapterTests.swift:78-91 | reading "tester 0" from the tests' fixture store returns the bytes of "tester password 0" |
| Scenarios.ListFixtureScenario | swift-keychain-adavanced-demoTests/KeychainListerAdapterTests.swift:79-95 | listing the three fixture items gives three entries in fixture order, with the items' service, account and password |

## Left out

- The Security framework itself (`SecItemAdd`, `SecItemCopyMatching`, `SecItemUpdate`, `SecItemDelete`): it is the `Port` parameter. Its storage semantics are not visible in the source. `MemoryKeychain` is a stand-in for stating round trips, not a model of the real keychain.
- UTF-8 decoding of the listed secrets (`String(data:encoding:)`): it is the `decode` parameter of `ListerAdapter.List`, because Foundation's decoder is not part of this model.
- The lister's `print` of the status: it has no effect on the result.
- The UI (`View.swift`, `ViewController.swift`, `SceneDelegate.swift`): screen wiring and alerts. The facade that `SceneDelegate.swift` builds is not part of this model.
- The `CFString`, `String` and `Data` bridging helpers: identity casts to `AnyObject`.
- The second copies of `ReadParams`, `ReadResult` and `DeleteParams`, and the `UpdateParams` without a secret: one record per operation is modelled.
- The mutable `read` field of the reader and its default value: the port is a parameter fixed for each call.
- UpdaterAdapter.Update: the stand-alone updater's `update` takes `DeleteParams` (KeychainUpdaterAdapter.swift:4) and sends its `String` security under kSecValueData (line 12); the model sends bytes, as its `Updater` protocol and its tests declare.
- KeychainAdapter.Update: the struct's `update` takes `DeleteParams` and sends its `String` secret under kSecValueData, as its `UpdaterSecureClient` protocol also declares; the model sends bytes, as the stand-alone updater's protocol and tests do, so that both updates share one request record.
- The test doubles as classes: the tests' stores appear only as the fixed and fixture ports of `Scenarios`.
