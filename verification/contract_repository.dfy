/** The in-memory store of supervision contracts. */
module ContractRepository {
  import opened Domain

  /** The contract links the pair and is active. */
  predicate ActiveBetween(contract: Contract, clientId: ClientId, supervisorId: SupervisorId) {
    contract.clientId == clientId && contract.supervisorId == supervisorId && contract.active
  }

  /** The existence search of `hasActiveContract`, front to back with early return. */
  function AnyActiveBetween(contracts: seq<Contract>, clientId: ClientId, supervisorId: SupervisorId): (found: bool)
    ensures found <==> exists k :: 0 <= k < |contracts| && ActiveBetween(contracts[k], clientId, supervisorId)
  {
    if contracts == [] then false
    else if ActiveBetween(contracts[0], clientId, supervisorId) then true
    else AnyActiveBetween(contracts[1..], clientId, supervisorId)
  }

  class InMemoryContractRepository {
    var contracts: seq<Contract>

    constructor (contracts: seq<Contract>)
      ensures this.contracts == contracts
    {
      this.contracts := contracts;
    }

    method Add(contract: Contract)
      modifies this
      ensures contracts == old(contracts) + [contract]
      ensures forall c, s :: old(HasActiveContract(c, s)) ==> HasActiveContract(c, s)
    {
      contracts := contracts + [contract];
    }

    function HasActiveContract(clientId: ClientId, supervisorId: SupervisorId): (found: bool)
      reads this
      ensures found <==> exists contract :: contract in contracts && ActiveBetween(contract, clientId, supervisorId)
    {
      AnyActiveBetween(contracts, clientId, supervisorId)
    }
  }

  lemma EmptyStoreHasNoContract(clientId: ClientId, supervisorId: SupervisorId)
    ensures !AnyActiveBetween([], clientId, supervisorId)
  {
  }

  /** Inactive contracts never make the answer true. */
  lemma {:induction false} InactiveContractsDoNotCount(
    contracts: seq<Contract>, inactive: seq<Contract>, clientId: ClientId, supervisorId: SupervisorId)
    requires forall k :: 0 <= k < |inactive| ==> !inactive[k].active
    ensures AnyActiveBetween(contracts + inactive, clientId, supervisorId)
         == AnyActiveBetween(contracts, clientId, supervisorId)
    decreases |contracts|
  {
    if contracts == [] {
      assert contracts + inactive == inactive;
      NoneActive(inactive, clientId, supervisorId);
    } else {
      assert (contracts + inactive)[1..] == contracts[1..] + inactive;
      InactiveContractsDoNotCount(contracts[1..], inactive, clientId, supervisorId);
    }
  }

  lemma {:induction false} NoneActive(inactive: seq<Contract>, clientId: ClientId, supervisorId: SupervisorId)
    requires forall k :: 0 <= k < |inactive| ==> !inactive[k].active
    ensures !AnyActiveBetween(inactive, clientId, supervisorId)
    decreases |inactive|
  {
    if inactive != [] {
      NoneActive(inactive[1..], clientId, supervisorId);
    }
  }

  /** Adding an active contract for the pair makes the answer true. */
  lemma AddedActiveContractCounts(contracts: seq<Contract>, contract: Contract)
    requires contract.active
    ensures AnyActiveBetween(contracts + [contract], contract.clientId, contract.supervisorId)
  {
    assert (contracts + [contract])[|contracts|] == contract;
  }
}
