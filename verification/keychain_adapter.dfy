/** KeychainAdapter: one struct that implements writing, reading, deleting
    and updating again, each with its own attribute dictionary and guards,
    and with its own private error type. Its operations are written out
    here as the struct writes them; the contract of each says that, for
    every store, it makes the same call and ends the same way as the
    stand-alone adapter, once its errors are renamed to `KeychainError`. */
module KeychainAdapter {
  import opened SecStatus
  import opened Outcomes
  import opened KeychainErrors
  import opened SecItem
  import opened Domain
  import WriterAdapter
  import ReaderAdapter
  import DeleterAdapter
  import UpdaterAdapter

  /** The struct's private error enum. */
  datatype AdapterError = NotFoundError | InvalidItemFormatError | UnexpectedError(status: OSStatus)

  /** The case of `KeychainError` of the same name. */
  function AsKeychainError(e: AdapterError): (k: KeychainError)
    ensures k.NotFound? <==> e.NotFoundError?
    ensures k.InvalidItemFormat? <==> e.InvalidItemFormatError?
    ensures k.Unexpected? <==> e.UnexpectedError?
    ensures k.Unexpected? ==> k.code == e.status
  {
    match e
    case NotFoundError => NotFound
    case InvalidItemFormatError => InvalidItemFormat
    case UnexpectedError(s) => Unexpected(s)
  }

  /** Both error types have the same three cases: the correspondence is
      one-to-one and onto. */
  lemma ErrorCasesCorrespond(e1: AdapterError, e2: AdapterError, k: KeychainError)
    ensures AsKeychainError(e1) == AsKeychainError(e2) ==> e1 == e2
    ensures exists e :: AsKeychainError(e) == k
  {
    match k
    case NotFound => assert AsKeychainError(NotFoundError) == k;
    case InvalidItemFormat => assert AsKeychainError(InvalidItemFormatError) == k;
    case Unexpected(s) => assert AsKeychainError(UnexpectedError(s)) == k;
  }

  /** A run whose errors are renamed to `KeychainError`. */
  function Lift<T>(r: Run<T, AdapterError>): Run<T, KeychainError> {
    Run(r.calls, r.outcome.MapError(AsKeychainError))
  }

  /** The two status guards the struct repeats in write, read and update. */
  function Guard(status: OSStatus): Outcome<(), AdapterError> {
    if status == ItemNotFound then Thrown(NotFoundError)
    else if status != Success then Thrown(UnexpectedError(status))
    else Returned(())
  }

  function Write(port: Port, p: WriteParams): (r: Run<(), AdapterError>)
    ensures Lift(r) == WriterAdapter.Write(port, p)
  {
    var query := map[
      Service := Text(p.application),
      Account := Text(p.identifier),
      Class := GenericPassword,
      ValueData := Bytes(p.secure)
    ];
    var call := ItemAdd(query, false);
    Run([call], Guard(port(call).status))
  }

  function Read(port: Port, p: ReadParams): (r: Run<ReadResult, AdapterError>)
    ensures Lift(r) == ReaderAdapter.Read(port, p)
  {
    var query := map[
      Service := Text(p.application),
      Account := Text(p.identifier),
      Class := GenericPassword,
      MatchLimit := MatchOne,
      ReturnData := Flag(true)
    ];
    var call := ItemCopyMatching(query, true);
    var reply := port(call);
    Run([call],
      match Guard(reply.status)
      case Thrown(e) => Thrown(e)
      case _ =>
        match reply.slot
        case DataItem(security) => Returned(ReadResult(security))
        case _ => Thrown(InvalidItemFormatError))
  }

  /** Like the stand-alone deleter, this reports a missing item as
      `UnexpectedError(ItemNotFound)`. */
  function Delete(port: Port, p: DeleteParams): (r: Run<(), AdapterError>)
    ensures Lift(r) == DeleterAdapter.Delete(port, p)
    ensures port(ItemDelete(IdentityQuery(p.application, p.identifier))).status == ItemNotFound ==>
              r.outcome == Thrown(UnexpectedError(ItemNotFound))
  {
    var query := map[
      Service := Text(p.application),
      Account := Text(p.identifier),
      Class := GenericPassword
    ];
    var call := ItemDelete(query);
    var status := port(call).status;
    Run([call], if status == Success then Returned(()) else Thrown(UnexpectedError(status)))
  }

  function Update(port: Port, p: UpdateParams): (r: Run<(), AdapterError>)
    ensures Lift(r) == UpdaterAdapter.Update(port, p)
  {
    var query := map[
      Service := Text(p.application),
      Account := Text(p.identifier),
      Class := GenericPassword
    ];
    var attributes := map[ValueData := Bytes(p.security)];
    var call := ItemUpdate(query, attributes);
    Run([call], Guard(port(call).status))
  }
}
