/** The read side of frontend/src/utils/stellar.ts: `getProject`,
    `getProjectRaised`, `getTotalInvested` and `getInvestorAmount`. Each one
    simulates a single contract call; the network is given as the function
    `simulate` from a call to the simulation's outcome. Every failure on the
    way (a request that throws, a failed simulation, a missing return value,
    a return value that is not an integer) ends in 0, never in an error. */
module ReadModel {
  import opened EscrowTypes
  import opened Units
  import opened ContractCalls
  import Escrow

  /** The outcome of `simulateTransaction`: the request threw, the
      simulation reported an error, or it succeeded with an optional return
      value (`simulated.result?.retval`). */
  datatype Simulation = SimulationThrew | SimulationFailed | SimulationSucceeded(retval: Option<ScVal>)

  /** `getProject`: the simulated return value, or `null` (`None`) on any
      failure. */
  function GetProject(simulate: Call -> Simulation, projectId: int): (r: Option<ScVal>)
    ensures r.Some? <==> simulate(GetProjectCall(projectId)).SimulationSucceeded? && simulate(GetProjectCall(projectId)).retval.Some?
    ensures r.Some? ==> r == simulate(GetProjectCall(projectId)).retval
  {
    match simulate(GetProjectCall(projectId))
    case SimulationSucceeded(retval) => retval
    case _ => None
  }

  /** `scValToBigInt`: the integer an integer-kind value holds; `None`
      stands for the exception it throws on any other kind. */
  function ScValToBigInt(v: ScVal): (r: Option<int>)
    ensures r.Some? <==> v.ScU32? || v.ScU64? || v.ScI128?
  {
    match v
    case ScU32(n) => Some(n)
    case ScU64(n) => Some(n)
    case ScI128(n) => Some(n)
    case _ => None
  }

  /** The simulation returned an integer. */
  predicate ReturnsInteger(s: Simulation) {
    s.SimulationSucceeded? && s.retval.Some? && ScValToBigInt(s.retval.value).Some?
  }

  /** `getProjectRaised`: the return value of `get_project`, read as a
      number of stroops and shown in dollars; 0 on any failure. */
  function GetProjectRaised(simulate: Call -> Simulation, projectId: int): (usd: real)
    ensures var s := simulate(GetProjectCall(projectId));
            ReturnsInteger(s) ==> usd * StroopMultiplier as real == ScValToBigInt(s.retval.value).value as real
    ensures !ReturnsInteger(simulate(GetProjectCall(projectId))) ==> usd == 0.0
  {
    match GetProject(simulate, projectId)
    case None => 0.0
    case Some(v) =>
      match ScValToBigInt(v)
      case None => 0.0
      case Some(stroops) => StroopsToUsd(stroops)
  }

  /** `getTotalInvested`: the raised amount of project 1 only. */
  function GetTotalInvested(simulate: Call -> Simulation): (usd: real)
    ensures usd == GetProjectRaised(simulate, 1)
  {
    GetProjectRaised(simulate, 1)
  }

  /** `getInvestorAmount`: the return value of `get_investor_amount` in
      dollars; 0 on any failure. */
  function GetInvestorAmount(simulate: Call -> Simulation, investor: Address, projectId: int): (usd: real)
    ensures var s := simulate(GetInvestorAmountCall(projectId, investor));
            ReturnsInteger(s) ==> usd * StroopMultiplier as real == ScValToBigInt(s.retval.value).value as real
    ensures !ReturnsInteger(simulate(GetInvestorAmountCall(projectId, investor))) ==> usd == 0.0
  {
    match simulate(GetInvestorAmountCall(projectId, investor))
    case SimulationSucceeded(Some(v)) =>
      (match ScValToBigInt(v)
       case None => 0.0
       case Some(stroops) => StroopsToUsd(stroops))
    case _ => 0.0
  }

  // ---------------------------------------------------------------------
  // The contract as the simulation's counterpart.

  /** How the contract whose stored projects and investor totals are given
      answers the two read calls: `get_project` panics (`unwrap`) for an
      unknown id and otherwise returns the whole `Project`;
      `get_investor_amount` returns the stored total or 0. Any other call,
      or arguments the contract cannot decode, fail. */
  function ContractAnswer(projects: map<nat, Project>, amounts: map<(nat, Address), int>, call: Call): Simulation {
    if call.name == "get_project" && |call.args| == 1 && call.args[0].ScU32? && call.args[0].u32 >= 0 then
      var id := call.args[0].u32;
      if id in projects then SimulationSucceeded(Some(EncodeProject(projects[id]))) else SimulationFailed
    else if call.name == "get_investor_amount" && |call.args| == 2 && call.args[0].ScU32? && call.args[0].u32 >= 0
            && call.args[1].ScAddress? then
      SimulationSucceeded(Some(ScI128(Escrow.AmountOf(amounts, call.args[0].u32, call.args[1].address))))
    else SimulationFailed
  }

  /** `get_project` returns a whole `Project` where the client expects an
      integer, so the raised amount the client shows is 0 for every
      project, funded or not, and so is the total invested. */
  lemma RaisedReadsZeroFromContract(projects: map<nat, Project>, amounts: map<(nat, Address), int>, projectId: int)
    ensures var simulate := (call: Call) => ContractAnswer(projects, amounts, call);
            && (projectId >= 0 && projectId in projects ==> GetProject(simulate, projectId) == Some(EncodeProject(projects[projectId])))
            && GetProjectRaised(simulate, projectId) == 0.0
            && GetTotalInvested(simulate) == 0.0
  {
    var simulate := (call: Call) => ContractAnswer(projects, amounts, call);
    assert !ReturnsInteger(simulate(GetProjectCall(projectId)));
    assert !ReturnsInteger(simulate(GetProjectCall(1)));
  }

  /** `get_investor_amount` returns an `i128`, so the client shows the
      contract's stored total for the pair, in dollars, which converts
      back to exactly that many stroops; a pair that never invested shows 0. */
  lemma InvestorAmountReadsContract(projects: map<nat, Project>, amounts: map<(nat, Address), int>, investor: Address, projectId: nat)
    ensures var simulate := (call: Call) => ContractAnswer(projects, amounts, call);
            && GetInvestorAmount(simulate, investor, projectId) == StroopsToUsd(Escrow.AmountOf(amounts, projectId, investor))
            && UsdToStroops(GetInvestorAmount(simulate, investor, projectId)) == Escrow.AmountOf(amounts, projectId, investor)
            && ((projectId, investor) !in amounts ==> GetInvestorAmount(simulate, investor, projectId) == 0.0)
  {
    StroopsRoundTrip(Escrow.AmountOf(amounts, projectId, investor));
  }
}
