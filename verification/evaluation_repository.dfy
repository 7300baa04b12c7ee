/**
 * The in-memory store of evaluations: an insertion-ordered dictionary keyed
 * by the evaluation id's string form. Overwriting a key keeps its position.
 */
module EvaluationRepository {
  import opened Wrappers
  import opened Domain
  import opened Evaluations

  /** The `array_filter` predicate of `findMostRecentFor`. */
  predicate Matches(e: Evaluation, clientId: ClientId, standardId: StandardId) {
    e.ownerId == clientId && e.standardId == standardId
  }

  /**
   * Filter by owner and standard, then a stable sort by descending audit
   * date, then the head: the position of the first matching evaluation
   * among those with the greatest audit date.
   */
  function MostRecentMatching(es: seq<Evaluation>, clientId: ClientId, standardId: StandardId): (r: Option<nat>)
    ensures r.None? <==> forall k :: 0 <= k < |es| ==> !Matches(es[k], clientId, standardId)
    ensures r.Some? ==>
      && r.value < |es|
      && Matches(es[r.value], clientId, standardId)
      && (forall k :: 0 <= k < |es| && Matches(es[k], clientId, standardId) ==>
            es[k].report.auditDate <= es[r.value].report.auditDate)
      && (forall k :: 0 <= k < r.value && Matches(es[k], clientId, standardId) ==>
            es[k].report.auditDate < es[r.value].report.auditDate)
  {
    if es == [] then None
    else
      var best := MostRecentMatching(es[..|es| - 1], clientId, standardId);
      var last := es[|es| - 1];
      if !Matches(last, clientId, standardId) then best
      else if best.None? || last.report.auditDate > es[best.value].report.auditDate then Some(|es| - 1)
      else best
  }

  /** The entries of `byKey` in the order their keys were first inserted. */
  function InOrder(order: seq<string>, byKey: map<string, Evaluation>): (es: seq<Evaluation>)
    requires forall k :: 0 <= k < |order| ==> order[k] in byKey
    ensures |es| == |order|
    ensures forall k :: 0 <= k < |order| ==> es[k] == byKey[order[k]]
  {
    if order == [] then [] else [byKey[order[0]]] + InOrder(order[1..], byKey)
  }

  class InMemoryEvaluationRepository {
    var evaluations: map<string, Evaluation>
    /** The keys of `evaluations` in first-insertion order. */
    var order: seq<string>

    ghost predicate Valid()
      reads this
    {
      && (forall key :: key in evaluations <==> key in order)
      && (forall i, j :: 0 <= i < j < |order| ==> order[i] != order[j])
      && (forall key :: key in evaluations ==> evaluations[key].id.text == key)
    }

    constructor ()
      ensures Valid() && evaluations == map[] && order == []
    {
      evaluations := map[];
      order := [];
    }

    function Listed(): (es: seq<Evaluation>)
      requires Valid()
      reads this
      ensures |es| == |order|
      ensures forall k :: 0 <= k < |es| ==> es[k] == evaluations[order[k]]
      ensures forall key :: key in evaluations ==> evaluations[key] in es
    {
      var es := InOrder(order, evaluations);
      assert forall key :: key in evaluations ==> evaluations[key] in es by {
        forall key | key in evaluations
          ensures evaluations[key] in es
        {
          var k :| 0 <= k < |order| && order[k] == key;
          assert es[k] == evaluations[key];
        }
      }
      es
    }

    method Save(evaluation: Evaluation)
      requires Valid()
      modifies this
      ensures Valid()
      ensures evaluations == old(evaluations)[evaluation.id.text := evaluation]
      ensures order == if evaluation.id.text in old(evaluations) then old(order) else old(order) + [evaluation.id.text]
      ensures FindById(evaluation.id) == Some(evaluation)
      ensures forall id :: id != evaluation.id ==> FindById(id) == old(FindById(id))
    {
      var key := evaluation.id.text;
      if key !in evaluations {
        order := order + [key];
      }
      evaluations := evaluations[key := evaluation];
    }

    function FindById(id: EvaluationId): (found: Option<Evaluation>)
      reads this
      ensures found.None? <==> id.text !in evaluations
      ensures found.Some? ==> found.value == evaluations[id.text]
      ensures found.Some? && Valid() ==> found.value.id == id
    {
      if id.text in evaluations then Some(evaluations[id.text]) else None
    }

    function FindMostRecentFor(clientId: ClientId, standardId: StandardId): (found: Option<Evaluation>)
      requires Valid()
      reads this
      ensures found.None? <==> forall key :: key in evaluations ==> !Matches(evaluations[key], clientId, standardId)
      ensures found.Some? ==>
        && found.value in evaluations.Values
        && Matches(found.value, clientId, standardId)
        && (forall key :: key in evaluations && Matches(evaluations[key], clientId, standardId) ==>
             evaluations[key].report.auditDate <= found.value.report.auditDate)
    // among equally recent matches the one whose key was inserted first wins
    ensures found.Some? ==>
      forall i, j :: 0 <= i < j < |order| && order[j] == found.value.id.text
                     && Matches(evaluations[order[i]], clientId, standardId) ==>
        evaluations[order[i]].report.auditDate < found.value.report.auditDate
    {
      var es := Listed();
      var best := MostRecentMatching(es, clientId, standardId);
      if best.None? then None
      else
        assert forall j :: 0 <= j < |order| && order[j] == es[best.value].id.text ==> j == best.value by {
          assert es[best.value].id.text == order[best.value];
        }
        Some(es[best.value])
    }
  }

  /** A store nothing was saved to finds nothing. */
  lemma EmptyStoreFindsNothing(repo: InMemoryEvaluationRepository, id: EvaluationId, c: ClientId, s: StandardId)
    requires repo.Valid() && repo.evaluations == map[]
    ensures repo.FindById(id) == None
    ensures repo.FindMostRecentFor(c, s) == None
  {
  }
}
