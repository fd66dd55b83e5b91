/** KeychainDeleterAdapter: removes one item. Unlike the writer, reader and
    updater, its only guard is the success test, so a missing item is
    reported as `Unexpected(ItemNotFound)`, not as `NotFound`. */
module DeleterAdapter {
  import opened SecStatus
  import opened Outcomes
  import opened KeychainErrors
  import opened SecItem
  import opened Domain

  /** Removes the item named by the identity query; the request's
      `security` text is not sent. */
  function Delete(port: Port, p: DeleteParams): (r: Run<(), KeychainError>)
    ensures |r.calls| == 1 && r.calls[0].ItemDelete?
    ensures r.calls[0].query.Keys == {Service, Account, Class}
    ensures r.calls[0].query[Service] == Text(p.application)
    ensures r.calls[0].query[Account] == Text(p.identifier)
    ensures r.calls[0].query[Class] == GenericPassword
    ensures var status := port(r.calls[0]).status;
            && (r.outcome == Returned(()) <==> status == Success)
            && (r.outcome == Thrown(Unexpected(status)) <==> status != Success)
    ensures r.outcome != Thrown(NotFound) && r.outcome != Thrown(InvalidItemFormat) && !r.outcome.Trapped?
  {
    var call := ItemDelete(IdentityQuery(p.application, p.identifier));
    var reply := port(call);
    Run([call], CheckSuccess(reply.status))
  }

  /** The `security` field has no effect on what is sent or returned. */
  lemma DeleteIgnoresSecurity(port: Port, p: DeleteParams, security: string)
    ensures Delete(port, p) == Delete(port, p.(security := security))
  {
  }

  /** A store that reports the item missing makes the deleter throw
      `Unexpected(ItemNotFound)`, where the deleter's tests expect
      `NotFound`. */
  lemma DeleteNotFoundIsUnexpected(port: Port, p: DeleteParams)
    requires port(ItemDelete(IdentityQuery(p.application, p.identifier))).status == ItemNotFound
    ensures Delete(port, p).outcome == Thrown(Unexpected(ItemNotFound))
    ensures Delete(port, p).outcome != Thrown(NotFound)
  {
  }
}
