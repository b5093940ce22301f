/** The milestone list of frontend/src/components/CreateProjectForm.tsx:
    adding, removing and editing entries, the running total of their
    amounts, the rule that disables submission when that total exceeds the
    goal, and the arrays the submit handler passes to `createProject`. The
    form's state is kept as values; each operation returns the new list, as
    the component's state setters do. */
module MilestoneForm {
  import opened NumberParsing
  import opened ContractCalls
  import EscrowTypes

  /** One milestone as typed into the form; every field is the raw text of
      its input. */
  datatype Draft = Draft(title: string, amount: string, deadline: string, description: string)

  /** The field names `updateMilestone` is called with. */
  datatype Field = Title | Amount | Deadline | Description

  const EmptyDraft: Draft := Draft("", "", "", "")

  /** The list the form starts with: one empty milestone. */
  const InitialMilestones: seq<Draft> := [EmptyDraft]

  function FieldOf(d: Draft, f: Field): string {
    match f
    case Title => d.title
    case Amount => d.amount
    case Deadline => d.deadline
    case Description => d.description
  }

  /** `{ ...d, [field]: value }`. */
  function WithField(d: Draft, f: Field, v: string): (r: Draft)
    ensures FieldOf(r, f) == v
    ensures forall g :: g != f ==> FieldOf(r, g) == FieldOf(d, g)
  {
    match f
    case Title => d.(title := v)
    case Amount => d.(amount := v)
    case Deadline => d.(deadline := v)
    case Description => d.(description := v)
  }

  /** `addMilestone`. */
  function AddMilestone(ms: seq<Draft>): (r: seq<Draft>)
    ensures |r| == |ms| + 1 && r[..|ms|] == ms && r[|ms|] == EmptyDraft
  {
    ms + [EmptyDraft]
  }

  /** `removeMilestone(index)`: keep every entry whose position is not
      `index`. */
  function RemoveMilestone(ms: seq<Draft>, index: int): (r: seq<Draft>)
    ensures 0 <= index < |ms| ==> r == ms[..index] + ms[index + 1..]
    ensures !(0 <= index < |ms|) ==> r == ms
  {
    if ms == [] then []
    else
      var last := |ms| - 1;
      RemoveMilestone(ms[..last], index) + (if index == last then [] else [ms[last]])
  }

  /** `updateMilestone(index, field, value)`; the form only calls it with
      the position of a rendered entry. */
  function UpdateMilestone(ms: seq<Draft>, index: nat, f: Field, v: string): (r: seq<Draft>)
    requires index < |ms|
    ensures |r| == |ms|
    ensures FieldOf(r[index], f) == v
    ensures forall g :: g != f ==> FieldOf(r[index], g) == FieldOf(ms[index], g)
    ensures forall j :: 0 <= j < |ms| && j != index ==> r[j] == ms[j]
  {
    ms[index := WithField(ms[index], f, v)]
  }

  /** Adding an entry and then removing it gives back the list. */
  lemma RemoveUndoesAdd(ms: seq<Draft>)
    ensures RemoveMilestone(AddMilestone(ms), |ms|) == ms
  {
    assert AddMilestone(ms)[..|ms|] == ms;
  }

  // ---------------------------------------------------------------------
  // The total.

  /** `parseFloat(amount) || 0`. */
  function AmountOrZero(amount: string): real {
    match ParseFloat(amount)
    case NaN => 0.0
    case Num(x) => x
  }

  /** `totalMilestoneAmount`: a left fold adding each entry's amount. */
  function TotalMilestoneAmount(ms: seq<Draft>): real {
    if ms == [] then 0.0 else TotalMilestoneAmount(ms[..|ms| - 1]) + AmountOrZero(ms[|ms| - 1].amount)
  }

  lemma {:induction false} TotalConcat(a: seq<Draft>, b: seq<Draft>)
    ensures TotalMilestoneAmount(a + b) == TotalMilestoneAmount(a) + TotalMilestoneAmount(b)
    decreases |b|
  {
    if b != [] {
      var init := b[..|b| - 1];
      var last := b[|b| - 1];
      assert a + b != [];
      assert (a + b)[..|a + b| - 1] == a + init;
      assert (a + b)[|a + b| - 1] == last;
      assert TotalMilestoneAmount(a + b) == TotalMilestoneAmount(a + init) + AmountOrZero(last.amount);
      assert TotalMilestoneAmount(b) == TotalMilestoneAmount(init) + AmountOrZero(last.amount);
      TotalConcat(a, init);
    } else {
      assert a + b == a;
    }
  }

  lemma TotalSingle(d: Draft)
    ensures TotalMilestoneAmount([d]) == AmountOrZero(d.amount)
  {
    assert [d][..0] == [];
  }

  /** The total splits around any one entry. */
  lemma TotalAround(ms: seq<Draft>, i: nat)
    requires i < |ms|
    ensures TotalMilestoneAmount(ms) == TotalMilestoneAmount(ms[..i]) + AmountOrZero(ms[i].amount) + TotalMilestoneAmount(ms[i + 1..])
  {
    var pre, post := ms[..i], ms[i + 1..];
    assert ms == (pre + [ms[i]]) + post;
    TotalConcat(pre + [ms[i]], post);
    TotalConcat(pre, [ms[i]]);
    TotalSingle(ms[i]);
  }

  /** An unparsable entry adds nothing to the total. */
  lemma TotalSkipsUnparsable(ms: seq<Draft>, i: nat)
    requires i < |ms| && ParseFloat(ms[i].amount) == NaN
    ensures TotalMilestoneAmount(ms) == TotalMilestoneAmount(ms[..i]) + TotalMilestoneAmount(ms[i + 1..])
  {
    TotalAround(ms, i);
  }

  /** A new entry is empty and does not change the total. */
  lemma TotalAfterAdd(ms: seq<Draft>)
    ensures TotalMilestoneAmount(AddMilestone(ms)) == TotalMilestoneAmount(ms)
  {
    ParseFloatOfEmpty();
    assert AddMilestone(ms)[..|ms|] == ms;
  }

  /** Removing an entry takes exactly its amount off the total. */
  lemma TotalAfterRemove(ms: seq<Draft>, index: nat)
    requires index < |ms|
    ensures TotalMilestoneAmount(RemoveMilestone(ms, index)) == TotalMilestoneAmount(ms) - AmountOrZero(ms[index].amount)
  {
    TotalAround(ms, index);
    TotalConcat(ms[..index], ms[index + 1..]);
  }

  /** Editing the amount of an entry replaces its share of the total;
      editing any other field leaves the total alone. */
  lemma TotalAfterUpdate(ms: seq<Draft>, index: nat, f: Field, v: string)
    requires index < |ms|
    ensures f == Amount ==> TotalMilestoneAmount(UpdateMilestone(ms, index, f, v))
                            == TotalMilestoneAmount(ms) - AmountOrZero(ms[index].amount) + AmountOrZero(v)
    ensures f != Amount ==> TotalMilestoneAmount(UpdateMilestone(ms, index, f, v)) == TotalMilestoneAmount(ms)
  {
    var r := UpdateMilestone(ms, index, f, v);
    TotalAround(r, index);
    TotalAround(ms, index);
    assert r[..index] == ms[..index];
    assert r[index + 1..] == ms[index + 1..];
    assert FieldOf(r[index], Amount) == r[index].amount;
  }

  // ---------------------------------------------------------------------
  // The goal gate.

  /** `parseFloat(formData.goal || '0')`: an empty goal reads as 0. */
  function GoalValue(goal: string): JsNumber {
    ParseFloat(if goal == "" then "0" else goal)
  }

  /** `totalMilestoneAmount > parseFloat(formData.goal || '0')`, which both
      colours the total red and disables submission. A comparison with NaN
      is false. */
  predicate OverGoal(ms: seq<Draft>, goal: string) {
    GoalValue(goal).Num? && TotalMilestoneAmount(ms) > GoalValue(goal).value
  }

  /** The submit button's `disabled`. */
  predicate SubmitDisabled(isProcessing: bool, ms: seq<Draft>, goal: string) {
    isProcessing || OverGoal(ms, goal)
  }

  /** With a parsable goal, submission is open exactly when nothing is in
      progress and the total is at most the goal. */
  lemma SubmitOpenIffWithinGoal(isProcessing: bool, ms: seq<Draft>, goal: string, g: real)
    requires GoalValue(goal) == Num(g)
    ensures !SubmitDisabled(isProcessing, ms, goal) <==> !isProcessing && TotalMilestoneAmount(ms) <= g
  {
  }

  /** A missing goal counts as 0: any positive total disables submission. */
  lemma MissingGoalCountsAsZero(isProcessing: bool, ms: seq<Draft>)
    ensures SubmitDisabled(isProcessing, ms, "") <==> isProcessing || TotalMilestoneAmount(ms) > 0.0
  {
    ParseFloatOfShowNat(0);
    assert ShowNat(0) == "0";
  }

  /** A goal that does not parse never blocks submission, whatever the total. */
  lemma UnparsableGoalNeverBlocks(isProcessing: bool, ms: seq<Draft>, goal: string)
    requires goal != "" && ParseFloat(goal) == NaN
    ensures SubmitDisabled(isProcessing, ms, goal) == isProcessing
  {
  }

  /** Whole-dollar amounts typed as plain digits add up to their sum. */
  lemma TotalOfWholeAmounts(ms: seq<Draft>, values: seq<nat>)
    requires |values| == |ms|
    requires forall i :: 0 <= i < |ms| ==> ms[i].amount == ShowNat(values[i])
    ensures TotalMilestoneAmount(ms) == SumNat(values) as real
    decreases |ms|
  {
    if ms != [] {
      var n := |ms| - 1;
      TotalOfWholeAmounts(ms[..n], values[..n]);
      ParseFloatOfShowNat(values[n]);
      assert values == values[..n] + [values[n]];
    }
  }

  function SumNat(values: seq<nat>): nat {
    if values == [] then 0 else SumNat(values[..|values| - 1]) + values[|values| - 1]
  }

  lemma ParsesThreeHundred()
    ensures ParseFloat("300") == Num(300.0)
  {
    assert ShowNat(30) == "30" by { assert ShowNat(3) == "3"; }
    assert ShowNat(300) == "300";
    ParseFloatOfShowNat(300);
  }

  lemma ParsesFourHundred()
    ensures ParseFloat("400") == Num(400.0)
  {
    assert ShowNat(40) == "40" by { assert ShowNat(4) == "4"; }
    assert ShowNat(400) == "400";
    ParseFloatOfShowNat(400);
  }

  lemma ParsesOneThousand()
    ensures ParseFloat("1000") == Num(1000.0)
  {
    assert ShowNat(100) == "100" by {
      assert ShowNat(10) == "10" by { assert ShowNat(1) == "1"; }
    }
    assert ShowNat(1000) == "1000";
    ParseFloatOfShowNat(1000);
  }

  /** The total of three entries. */
  lemma TotalOfThree(a: Draft, b: Draft, c: Draft)
    ensures TotalMilestoneAmount([a, b, c]) == AmountOrZero(a.amount) + AmountOrZero(b.amount) + AmountOrZero(c.amount)
  {
    assert [a, b, c][..2] == [a, b];
    assert [a, b][..1] == [a];
    TotalSingle(a);
  }

  /** A goal of 1000 with milestones of 300, 400 and 400 (1100 in all)
      disables submission; with 300, 400 and 300 (exactly 1000) it does not. */
  lemma GoalGateExample()
    ensures SubmitDisabled(false, [Draft("a", "300", "", ""), Draft("b", "400", "", ""), Draft("c", "400", "", "")], "1000")
    ensures !SubmitDisabled(false, [Draft("a", "300", "", ""), Draft("b", "400", "", ""), Draft("c", "300", "", "")], "1000")
  {
    ParsesThreeHundred();
    ParsesFourHundred();
    ParsesOneThousand();
    TotalOfThree(Draft("a", "300", "", ""), Draft("b", "400", "", ""), Draft("c", "400", "", ""));
    TotalOfThree(Draft("a", "300", "", ""), Draft("b", "400", "", ""), Draft("c", "300", "", ""));
  }

  // ---------------------------------------------------------------------
  // Editing through the rendered controls.

  /** A click or keystroke on one of the form's controls. */
  datatype Edit = Add | Remove(index: int) | Update(index: int, field: Field, value: string)

  /** Whether the form renders the control for `e`: "Add Milestone" always,
      an entry's inputs for each entry, and its "Remove" button only while
      there is more than one entry. */
  predicate Offered(ms: seq<Draft>, e: Edit) {
    match e
    case Add => true
    case Remove(i) => |ms| > 1 && 0 <= i < |ms|
    case Update(i, _, _) => 0 <= i < |ms|
  }

  function ApplyEdit(ms: seq<Draft>, e: Edit): seq<Draft>
    requires Offered(ms, e)
  {
    match e
    case Add => AddMilestone(ms)
    case Remove(i) => RemoveMilestone(ms, i)
    case Update(i, f, v) => UpdateMilestone(ms, i, f, v)
  }

  /** The list after a sequence of edits, each applied if its control is
      shown at that moment and ignored otherwise. */
  function Replay(ms: seq<Draft>, edits: seq<Edit>): seq<Draft>
    decreases |edits|
  {
    if edits == [] then ms
    else Replay(if Offered(ms, edits[0]) then ApplyEdit(ms, edits[0]) else ms, edits[1..])
  }

  /** Editing through the rendered controls never empties the list. */
  lemma {:induction false} EditingNeverEmpties(ms: seq<Draft>, edits: seq<Edit>)
    requires |ms| >= 1
    ensures |Replay(ms, edits)| >= 1
    decreases |edits|
  {
    if edits != [] {
      var next := if Offered(ms, edits[0]) then ApplyEdit(ms, edits[0]) else ms;
      assert |next| >= 1;
      EditingNeverEmpties(next, edits[1..]);
    }
  }

  /** In particular, starting from the initial list. */
  lemma FormAlwaysHasAMilestone(edits: seq<Edit>)
    ensures |Replay(InitialMilestones, edits)| >= 1
  {
    EditingNeverEmpties(InitialMilestones, edits);
  }

  // ---------------------------------------------------------------------
  // What `handleSubmit` passes on.

  /** `milestones.map(m => parseFloat(m.amount))`; unlike the total, an
      unparsable amount stays NaN here. */
  function SubmittedAmounts(ms: seq<Draft>): (r: seq<JsNumber>)
    ensures |r| == |ms|
    ensures forall i :: 0 <= i < |ms| ==> r[i] == ParseFloat(ms[i].amount)
  {
    if ms == [] then [] else SubmittedAmounts(ms[..|ms| - 1]) + [ParseFloat(ms[|ms| - 1].amount)]
  }

  /** `x / 1000` on a JavaScript number. */
  function Thousandth(x: JsNumber): JsNumber {
    match x
    case NaN => NaN
    case Num(v) => Num(v / 1000.0)
  }

  /** `milestones.map(m => new Date(m.deadline).getTime() / 1000)`; the
      date parser is the parameter `dateMillis`. */
  function SubmittedDeadlines(ms: seq<Draft>, dateMillis: string -> JsNumber): (r: seq<JsNumber>)
    ensures |r| == |ms|
    ensures forall i :: 0 <= i < |ms| ==> r[i] == Thousandth(dateMillis(ms[i].deadline))
  {
    if ms == [] then [] else SubmittedDeadlines(ms[..|ms| - 1], dateMillis) + [Thousandth(dateMillis(ms[|ms| - 1].deadline))]
  }

  /** The call the form's submission builds, `None` when converting an
      amount or the goal throws. */
  function SubmitCall(owner: EscrowTypes.Address, goal: string, ms: seq<Draft>, dateMillis: string -> JsNumber): EscrowTypes.Option<Call> {
    CreateProjectCall(owner, ParseFloat(goal), SubmittedAmounts(ms), SubmittedDeadlines(ms, dateMillis))
  }

  /** Both vectors of the submitted call have one element per milestone, so
      the contract's length check (amounts against deadlines) always
      passes; the call is built exactly when the goal and every amount parse. */
  lemma SubmittedArraysAgree(owner: EscrowTypes.Address, goal: string, ms: seq<Draft>, dateMillis: string -> JsNumber)
    ensures var c := SubmitCall(owner, goal, ms, dateMillis);
            && (c.Some? <==> ParseFloat(goal).Num? && forall i :: 0 <= i < |ms| ==> ParseFloat(ms[i].amount).Num?)
            && (c.Some? ==> |c.value.args[2].items| == |ms| == |c.value.args[3].items|)
  {
  }
}
