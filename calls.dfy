/** Contract invocations as the client builds them in
    frontend/src/utils/stellar.ts, and the contract's entry points as
    declared in contracts/stellarbridge-contract/contracts/hello-world/src/lib.rs.
    A call is a function name and an argument list of contract values; the
    transaction around it (fees, sequence numbers, time bounds, signing,
    XDR) is not modelled. Each side is stated as written, so the places
    where they do not fit together show up as lemmas. */
module ContractCalls {
  import opened NumberParsing
  import opened Units
  import opened EscrowTypes

  /** A contract value (`ScVal`), restricted to the kinds exchanged here. */
  datatype ScVal =
    | ScVoid
    | ScBool(flag: bool)
    | ScU32(u32: int)
    | ScU64(u64: int)
    | ScI128(i128: int)
    | ScAddress(address: Address)
    | ScBytes(bytes: seq<bv8>)
    | ScSymbol(symbol: string)
    | ScVec(items: seq<ScVal>)
    | ScMap(entries: seq<ScEntry>)
      /** A JavaScript number or bigint handed to `nativeToScVal` inside a
          `Vec` whose element type the call does not name. */
    | ScUntyped(number: JsNumber)

  datatype ScEntry = ScEntry(key: ScVal, val: ScVal)

  /** One contract invocation: the entry point's name and its arguments. */
  datatype Call = Call(name: string, args: seq<ScVal>)

  // ---------------------------------------------------------------------
  // The contract side: parameter types of each public entry point.

  datatype ScalarType = TBool | TU32 | TU64 | TI128 | TAddress | TBytes32
  datatype ParamType = Scalar(t: ScalarType) | VecOf(elem: ScalarType)

  /** The parameter list of each entry point of the contract; `None` for a
      name the contract does not export. */
  function Parameters(name: string): Option<seq<ParamType>> {
    match name
    case "initialize" => Some([Scalar(TAddress), Scalar(TAddress)])
    case "create_project" => Some([Scalar(TAddress), Scalar(TI128), VecOf(TI128), VecOf(TU64)])
    case "invest" => Some([Scalar(TU32), Scalar(TAddress), Scalar(TI128)])
    case "submit_evidence" => Some([Scalar(TU32), Scalar(TU32), Scalar(TBytes32)])
    case "verify_milestone" => Some([Scalar(TU32), Scalar(TU32), Scalar(TBool)])
    case "get_project" => Some([Scalar(TU32)])
    case "get_investor_amount" => Some([Scalar(TU32), Scalar(TAddress)])
    case "get_project_count" => Some([])
    case _ => None
  }

  predicate IsIntegral(x: real) {
    x == x.Floor as real
  }

  /** Whether `v` has the kind of a parameter of scalar type `t`. Integer
      ranges are not checked. An untyped number is taken to fit an integer
      parameter when it is a whole number (non-negative for the unsigned
      kinds); how the SDK encodes it is not part of this model. */
  predicate FitsScalar(t: ScalarType, v: ScVal) {
    match t
    case TBool => v.ScBool?
    case TU32 => v.ScU32? || (v.ScUntyped? && v.number.Num? && IsIntegral(v.number.value) && v.number.value >= 0.0)
    case TU64 => v.ScU64? || (v.ScUntyped? && v.number.Num? && IsIntegral(v.number.value) && v.number.value >= 0.0)
    case TI128 => v.ScI128? || (v.ScUntyped? && v.number.Num? && IsIntegral(v.number.value))
    case TAddress => v.ScAddress?
    case TBytes32 => v.ScBytes? && |v.bytes| == 32
  }

  predicate Fits(t: ParamType, v: ScVal) {
    match t
    case Scalar(s) => FitsScalar(s, v)
    case VecOf(e) => v.ScVec? && forall i :: 0 <= i < |v.items| ==> FitsScalar(e, v.items[i])
  }

  /** The host accepts the call: the contract exports the name, and the
      arguments agree with its parameters in number and kind. */
  predicate MatchesContract(c: Call) {
    var ps := Parameters(c.name);
    ps.Some? && |ps.value| == |c.args| && forall i :: 0 <= i < |c.args| ==> Fits(ps.value[i], c.args[i])
  }

  // ---------------------------------------------------------------------
  // The client side: the calls stellar.ts builds.

  /** `createProject`: the owner's address, the goal in stroops as an `i128`,
      and the milestone amounts (converted to stroops) and deadlines, each as
      a `Vec` without an element type. `None` when a conversion throws, as
      `BigInt` does on NaN. */
  function CreateProjectCall(owner: Address, goal: JsNumber, amounts: seq<JsNumber>, deadlines: seq<JsNumber>): (r: Option<Call>)
    ensures r.Some? <==> goal.Num? && forall i :: 0 <= i < |amounts| ==> amounts[i].Num?
    ensures r.Some? ==>
              && r.value.name == "create_project" && |r.value.args| == 4
              && r.value.args[0] == ScAddress(owner)
              && r.value.args[1] == ScI128(UsdToStroops(goal.value))
              && r.value.args[2].ScVec? && |r.value.args[2].items| == |amounts|
              && r.value.args[3].ScVec? && |r.value.args[3].items| == |deadlines|
    ensures r.Some? ==> forall i :: 0 <= i < |amounts| ==>
              r.value.args[2].items[i] == ScUntyped(Num(UsdToStroops(amounts[i].value) as real))
    ensures r.Some? ==> forall i :: 0 <= i < |deadlines| ==> r.value.args[3].items[i] == ScUntyped(deadlines[i])
  {
    if goal.NaN? || exists i :: 0 <= i < |amounts| && amounts[i].NaN? then None
    else
      var stroops := seq(|amounts|, i requires 0 <= i < |amounts| => ScUntyped(Num(UsdToStroops(amounts[i].value) as real)));
      Some(Call("create_project", [
        ScAddress(owner),
        ScI128(UsdToStroops(goal.value)),
        ScVec(stroops),
        ScVec(seq(|deadlines|, i requires 0 <= i < |deadlines| => ScUntyped(deadlines[i])))]))
  }

  /** `buildInvestmentTransaction`: the project id argument is commented out
      in the source, so the call carries only the investor and the amount. */
  function InvestCall(investor: Address, amountUsd: real, projectId: int): Call {
    Call("invest", [ScAddress(investor), ScI128(UsdToStroops(amountUsd))])
  }

  /** `submitEvidence`, with the evidence bytes already decoded from hex. */
  function SubmitEvidenceCall(projectId: int, milestoneIndex: int, hashBytes: seq<bv8>): Call {
    Call("submit_evidence", [ScU32(projectId), ScU32(milestoneIndex), ScBytes(hashBytes)])
  }

  /** `verifyMilestone`. */
  function VerifyMilestoneCall(projectId: int, milestoneIndex: int, approved: bool): Call {
    Call("verify_milestone", [ScU32(projectId), ScU32(milestoneIndex), ScBool(approved)])
  }

  /** The call `getProject` simulates. */
  function GetProjectCall(projectId: int): Call {
    Call("get_project", [ScU32(projectId)])
  }

  /** The call `getInvestorAmount` simulates. */
  function GetInvestorAmountCall(projectId: int, investor: Address): Call {
    Call("get_investor_amount", [ScU32(projectId), ScAddress(investor)])
  }

  /** The client's `invest` call never fits the contract: it has two
      arguments where `invest` takes three, and the project the user chose
      has no influence on it. */
  lemma InvestCallMismatch(investor: Address, amountUsd: real, projectId: int, otherId: int)
    ensures !MatchesContract(InvestCall(investor, amountUsd, projectId))
    ensures |InvestCall(investor, amountUsd, projectId).args| + 1 == |Parameters("invest").value|
    ensures InvestCall(investor, amountUsd, projectId) == InvestCall(investor, amountUsd, otherId)
  {
  }

  /** The evidence, verification and read calls fit the contract exactly
      when the evidence is 32 bytes long. */
  lemma OtherCallsMatch(projectId: int, index: int, hashBytes: seq<bv8>, approved: bool, investor: Address)
    ensures MatchesContract(SubmitEvidenceCall(projectId, index, hashBytes)) <==> |hashBytes| == 32
    ensures MatchesContract(VerifyMilestoneCall(projectId, index, approved))
    ensures MatchesContract(GetProjectCall(projectId))
    ensures MatchesContract(GetInvestorAmountCall(projectId, investor))
  {
    var c := SubmitEvidenceCall(projectId, index, hashBytes);
    assert Fits(Scalar(TBytes32), c.args[2]) <==> |hashBytes| == 32;
  }

  /** A project call the client manages to build fits the contract when
      every deadline is a whole non-negative number. */
  lemma CreateProjectCallMatches(owner: Address, goal: JsNumber, amounts: seq<JsNumber>, deadlines: seq<JsNumber>)
    requires CreateProjectCall(owner, goal, amounts, deadlines).Some?
    requires forall i :: 0 <= i < |deadlines| ==> deadlines[i].Num? && IsIntegral(deadlines[i].value) && deadlines[i].value >= 0.0
    ensures MatchesContract(CreateProjectCall(owner, goal, amounts, deadlines).value)
  {
    var c := CreateProjectCall(owner, goal, amounts, deadlines).value;
    var ps := Parameters("create_project").value;
    forall i | 0 <= i < |c.args[2].items|
      ensures FitsScalar(TI128, c.args[2].items[i])
    {
      var n := UsdToStroops(amounts[i].value);
      assert c.args[2].items[i] == ScUntyped(Num(n as real));
      assert (n as real).Floor == n;
    }
    assert Fits(ps[2], c.args[2]);
    assert Fits(ps[3], c.args[3]);
    assert forall i :: 0 <= i < 4 ==> Fits(ps[i], c.args[i]);
  }

  // ---------------------------------------------------------------------
  // Return values: how the contract's `Project` reaches the client. A
  // `#[contracttype]` struct is a map from field-name symbols, in sorted
  // order; a unit enum variant is a one-element vector of its name; an
  // absent option is void.

  function EncodeStatus(s: MilestoneStatus): ScVal {
    match s
    case Pending => ScVec([ScSymbol("Pending")])
    case EvidenceSubmitted => ScVec([ScSymbol("EvidenceSubmitted")])
    case Verified => ScVec([ScSymbol("Verified")])
    case Rejected => ScVec([ScSymbol("Rejected")])
  }

  function EncodeMilestone(m: Milestone): ScVal {
    ScMap([
      ScEntry(ScSymbol("amount"), ScI128(m.amount)),
      ScEntry(ScSymbol("deadline"), ScU64(m.deadline)),
      ScEntry(ScSymbol("evidence_hash"), if m.evidenceHash.Some? then ScBytes(m.evidenceHash.value) else ScVoid),
      ScEntry(ScSymbol("status"), EncodeStatus(m.status))])
  }

  function EncodeProject(p: Project): ScVal {
    ScMap([
      ScEntry(ScSymbol("active"), ScBool(p.active)),
      ScEntry(ScSymbol("goal_amount"), ScI128(p.goalAmount)),
      ScEntry(ScSymbol("id"), ScU32(p.id)),
      ScEntry(ScSymbol("milestones"), ScVec(seq(|p.milestones|, i requires 0 <= i < |p.milestones| => EncodeMilestone(p.milestones[i])))),
      ScEntry(ScSymbol("owner"), ScAddress(p.owner)),
      ScEntry(ScSymbol("raised"), ScI128(p.raised))])
  }
}
