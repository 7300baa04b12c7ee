/** A supervisor and the standards it may audit. */
module Supervisors {
  import opened Domain

  /** Whether `s` equals some entry of `standards`, scanning from the front. */
  function ListsStandard(standards: seq<StandardId>, s: StandardId): (listed: bool)
    ensures listed <==> exists k :: 0 <= k < |standards| && standards[k] == s
  {
    if standards == [] then false
    else if standards[0] == s then true
    else ListsStandard(standards[1..], s)
  }

  datatype Supervisor = Supervisor(id: SupervisorId, name: string, authorizedStandards: seq<StandardId>) {
    function HasAuthorityFor(s: StandardId): (authorized: bool)
      ensures authorized <==> s in authorizedStandards
    {
      ListsStandard(authorizedStandards, s)
    }
  }

  /** A supervisor with no authorized standards may audit nothing. */
  lemma NoStandardsNoAuthority(id: SupervisorId, name: string, s: StandardId)
    ensures !Supervisor(id, name, []).HasAuthorityFor(s)
  {
  }

  /** Every listed standard is authorized, whatever its position. */
  lemma {:induction false} EveryListedStandardIsAuthorized(standards: seq<StandardId>, k: nat)
    requires k < |standards|
    ensures ListsStandard(standards, standards[k])
    decreases k
  {
    if standards[0] != standards[k] {
      EveryListedStandardIsAuthorized(standards[1..], k - 1);
    }
  }

  /** The answer does not depend on the order of the list. */
  lemma AuthorityIgnoresOrder(id: SupervisorId, name: string, xs: seq<StandardId>, ys: seq<StandardId>, s: StandardId)
    requires multiset(xs) == multiset(ys)
    ensures Supervisor(id, name, xs).HasAuthorityFor(s) == Supervisor(id, name, ys).HasAuthorityFor(s)
  {
    assert s in xs <==> s in multiset(xs);
    assert s in ys <==> s in multiset(ys);
  }
}
