/** An ordered list of matchers where the first one whose result is accepted
    decides; the later ones are not consulted. Both of the handler's
    overridable formatter lists are run this way. */
module FirstMatch {
  import opened Wrappers

  predicate Accepted<C>(m: Option<C>, accept: C -> bool) {
    m.Some? && accept(m.value)
  }

  /** The index of the first matcher in `matchers` whose result on `s` is
      accepted, or `None` when there is none. */
  function FirstAccepted<C>(matchers: seq<string -> Option<C>>, accept: C -> bool, s: string): (r: Option<nat>)
    ensures r.Some? ==> r.value < |matchers| && Accepted(matchers[r.value](s), accept)
    ensures r.Some? ==> forall j :: 0 <= j < r.value ==> !Accepted(matchers[j](s), accept)
    ensures r.None? ==> forall j :: 0 <= j < |matchers| ==> !Accepted(matchers[j](s), accept)
  {
    if |matchers| == 0 then None
    else if Accepted(matchers[0](s), accept) then Some(0)
    else
      match FirstAccepted(matchers[1..], accept, s)
      case None => None
      case Some(i) => Some(i + 1)
  }

  /** Precedence: whenever a matcher accepts and none before it does, it is
      the one chosen, whatever the matchers after it would say. */
  lemma FirstAcceptedIs<C>(matchers: seq<string -> Option<C>>, accept: C -> bool, s: string, k: nat)
    requires k < |matchers| && Accepted(matchers[k](s), accept)
    requires forall j :: 0 <= j < k ==> !Accepted(matchers[j](s), accept)
    ensures FirstAccepted(matchers, accept, s) == Some(k)
  {
  }
}
