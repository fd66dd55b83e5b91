/** KeychainUpdaterAdapter: replaces the secret of an existing item. */
module UpdaterAdapter {
  import opened SecStatus
  import opened Outcomes
  import opened KeychainErrors
  import opened SecItem
  import opened Domain

  /** The attributes to change: the secret and nothing else. */
  function UpdateAttributes(p: UpdateParams): (a: Query)
    ensures a.Keys == {ValueData} && a[ValueData] == Bytes(p.security)
  {
    map[ValueData := Bytes(p.security)]
  }

  /** Updates through `port` with the (match query, new attributes) pair,
      the match query naming the item by identity only, and translates the
      status: not-found first, then anything but success as `Unexpected`. */
  function Update(port: Port, p: UpdateParams): (r: Run<(), KeychainError>)
    ensures |r.calls| == 1 && r.calls[0].ItemUpdate?
    ensures r.calls[0].query.Keys == {Service, Account, Class}
    ensures r.calls[0].query[Service] == Text(p.application)
    ensures r.calls[0].query[Account] == Text(p.identifier)
    ensures r.calls[0].query[Class] == GenericPassword
    ensures r.calls[0].attributes == map[ValueData := Bytes(p.security)]
    ensures var status := port(r.calls[0]).status;
            && (r.outcome == Thrown(NotFound) <==> status == ItemNotFound)
            && (r.outcome == Returned(()) <==> status == Success)
            && (r.outcome == Thrown(Unexpected(status)) <==> status != Success && status != ItemNotFound)
    ensures r.outcome != Thrown(InvalidItemFormat) && !r.outcome.Trapped?
  {
    var call := ItemUpdate(IdentityQuery(p.application, p.identifier), UpdateAttributes(p));
    var reply := port(call);
    Run([call], CheckStatus(reply.status))
  }

  /** The new secret goes only into the attributes: two updates of the
      same item send the same match query. */
  lemma MatchQueryIgnoresSecret(port: Port, p: UpdateParams, secret: seq<byte>)
    ensures Update(port, p).calls[0].query == Update(port, p.(security := secret)).calls[0].query
    ensures secret != p.security ==>
              Update(port, p).calls[0].attributes != Update(port, p.(security := secret)).calls[0].attributes
  {
  }
}
