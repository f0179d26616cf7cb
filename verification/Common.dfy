/** What several components share: optional values, and the ways a remote call can fail. */
module Common {

  datatype Option<+T> = None | Some(value: T)

  /** A remote call succeeds, fails before it took effect, or takes effect and loses its reply. */
  datatype Fault = Clean | FailedBefore | FailedAfter

  predicate TakesEffect(fault: Fault) {
    !fault.FailedBefore?
  }

  /** There is always an identifier that is not taken. */
  lemma {:induction false} FreshId(ids: set<nat>) returns (bound: nat)
    ensures forall id <- ids :: id < bound
  {
    if ids == {} {
      bound := 0;
    } else {
      var id :| id in ids;
      var rest := FreshId(ids - {id});
      bound := if id < rest then rest else id + 1;
      forall other <- ids ensures other < bound {
        assert other != id ==> other in ids - {id};
      }
    }
  }
}
