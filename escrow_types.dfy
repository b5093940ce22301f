/** Values stored by the milestone escrow contract
    (contracts/stellarbridge-contract/contracts/hello-world/src/lib.rs),
    the milestone status relation, sums over investment logs, and the
    abstract token ledger the contract moves funds on. */
module EscrowTypes {

  datatype Option<T> = None | Some(value: T)

  /** An account or contract address (`Address`). */
  type Address = string

  /** `BytesN<32>`: an evidence fingerprint of exactly 32 bytes. */
  type Hash32 = h: seq<bv8> | |h| == 32 witness seq(32, _ => 0 as bv8)

  /** `MilestoneStatus`. */
  datatype MilestoneStatus = Pending | EvidenceSubmitted | Verified | Rejected

  /** `Milestone`; the deadline is a `u64` of seconds. */
  datatype Milestone = Milestone(amount: int, deadline: nat, status: MilestoneStatus, evidenceHash: Option<Hash32>)

  /** `Project`; `id` is the `u32` key the project is stored under. */
  datatype Project = Project(id: nat, owner: Address, goalAmount: int, raised: int, milestones: seq<Milestone>, active: bool)

  /** `Investment`: one entry of a project's investment log. */
  datatype Investment = Investment(investor: Address, amount: int, timestamp: nat)

  predicate IsTerminal(s: MilestoneStatus) {
    s == Verified || s == Rejected
  }

  /** The status changes a single contract invocation can make to one
      milestone: none, `Pending -> EvidenceSubmitted` (submit_evidence), or
      `EvidenceSubmitted -> Verified | Rejected` (verify_milestone). */
  predicate StatusStep(before: MilestoneStatus, after: MilestoneStatus) {
    before == after
    || (before == Pending && after == EvidenceSubmitted)
    || (before == EvidenceSubmitted && IsTerminal(after))
  }

  /** Along any sequence of allowed steps a terminal status never changes
      again, and a milestone that is `Pending` has never been anything else. */
  lemma {:induction false} StatusTrace(trace: seq<MilestoneStatus>)
    requires forall i :: 0 < i < |trace| ==> StatusStep(trace[i - 1], trace[i])
    ensures forall i, j :: 0 <= i <= j < |trace| && IsTerminal(trace[i]) ==> trace[j] == trace[i]
    ensures forall i, j :: 0 <= i <= j < |trace| && trace[j] == Pending ==> trace[i] == Pending
  {
    if |trace| > 1 {
      var n := |trace| - 1;
      var prefix := trace[..n];
      assert forall i :: 0 <= i < n ==> prefix[i] == trace[i];
      StatusTrace(prefix);
      assert StatusStep(trace[n - 1], trace[n]);
      forall i | 0 <= i <= n && IsTerminal(trace[i])
        ensures trace[n] == trace[i]
      {
        if i < n {
          assert prefix[n - 1] == prefix[i];
        }
      }
      forall i | 0 <= i <= n && trace[n] == Pending
        ensures trace[i] == Pending
      {
        if i < n {
          assert prefix[n - 1] == Pending;
        }
      }
    }
  }

  /** Every milestone of `before` is still there in `after`, at the same
      position, and its status moved by at most one allowed step. */
  predicate MilestonesEvolve(before: seq<Milestone>, after: seq<Milestone>) {
    |before| == |after|
    && forall i :: 0 <= i < |before| ==> StatusStep(before[i].status, after[i].status)
  }

  /** No stored project disappears and each one's milestones evolve. */
  predicate ProjectsEvolve(before: map<nat, Project>, after: map<nat, Project>) {
    forall id :: id in before ==> id in after && MilestonesEvolve(before[id].milestones, after[id].milestones)
  }

  /** A status that changed over any history of contract invocations has
      left `Pending`, and once terminal it stayed as it was. */
  lemma {:induction false} HistoryKeepsTerminal(history: seq<map<nat, Project>>, id: nat, k: nat)
    requires forall i :: 0 < i < |history| ==> ProjectsEvolve(history[i - 1], history[i])
    requires |history| > 0 && id in history[0] && k < |history[0][id].milestones|
    ensures forall j :: 0 <= j < |history| ==> id in history[j] && k < |history[j][id].milestones|
    ensures IsTerminal(history[0][id].milestones[k].status) ==>
      forall j :: 0 <= j < |history| ==> history[j][id].milestones[k].status == history[0][id].milestones[k].status
    ensures forall j :: 0 <= j < |history| && history[j][id].milestones[k].status == Pending ==>
      history[0][id].milestones[k].status == Pending
  {
    if |history| > 1 {
      var n := |history| - 1;
      var prefix := history[..n];
      assert forall i :: 0 <= i < n ==> prefix[i] == history[i];
      HistoryKeepsTerminal(prefix, id, k);
      assert forall j :: 0 <= j < n ==> prefix[j] == history[j];
      var trace := seq(|history|, j requires 0 <= j < |history| =>
        if id in history[j] && k < |history[j][id].milestones| then history[j][id].milestones[k].status else Pending);
      assert ProjectsEvolve(history[n - 1], history[n]);
      forall i | 0 < i < |trace|
        ensures StatusStep(trace[i - 1], trace[i])
      {
        assert ProjectsEvolve(history[i - 1], history[i]);
      }
      StatusTrace(trace);
      assert forall j :: 0 <= j < |history| ==> trace[j] == history[j][id].milestones[k].status;
    }
  }

  // ---------------------------------------------------------------------
  // Sums over an investment log. Each is defined by peeling off the LAST
  // entry, the one `invest` appends.

  /** Total of all amounts in the log. */
  function Sum(log: seq<Investment>): int {
    if log == [] then 0 else Sum(log[..|log| - 1]) + log[|log| - 1].amount
  }

  /** Appending an entry adds its amount to the total. */
  lemma SumAppend(log: seq<Investment>, entry: Investment)
    ensures Sum(log + [entry]) == Sum(log) + entry.amount
  {
    assert (log + [entry])[..|log|] == log;
  }

  /** Total of the amounts `investor` put in. */
  function SumBy(log: seq<Investment>, investor: Address): int {
    if log == [] then 0
    else SumBy(log[..|log| - 1], investor) + (if log[|log| - 1].investor == investor then log[|log| - 1].amount else 0)
  }

  /** The investors appearing in the log, each once, in order of first appearance. */
  function Investors(log: seq<Investment>): seq<Address> {
    if log == [] then []
    else
      var earlier := Investors(log[..|log| - 1]);
      if log[|log| - 1].investor in earlier then earlier else earlier + [log[|log| - 1].investor]
  }

  /** Sum of the per-investor totals over the investors `xs`. */
  function SumOver(log: seq<Investment>, xs: seq<Address>): int {
    if xs == [] then 0 else SumOver(log, xs[..|xs| - 1]) + SumBy(log, xs[|xs| - 1])
  }

  predicate NoDuplicates(xs: seq<Address>) {
    forall i, j :: 0 <= i < j < |xs| ==> xs[i] != xs[j]
  }

  /** `Investors` lists every investor of the log exactly once and nobody else. */
  lemma {:induction false} InvestorsExact(log: seq<Investment>)
    ensures NoDuplicates(Investors(log))
    ensures forall a :: a in Investors(log) <==> exists i :: 0 <= i < |log| && log[i].investor == a
  {
    if log != [] {
      var init := log[..|log| - 1];
      InvestorsExact(init);
      assert forall i :: 0 <= i < |init| ==> init[i] == log[i];
    }
  }

  /** Someone who is not among the investors has put in nothing. */
  lemma {:induction false} SumByOutsider(log: seq<Investment>, a: Address)
    requires a !in Investors(log)
    ensures SumBy(log, a) == 0
  {
    if log != [] {
      var init := log[..|log| - 1];
      assert a !in Investors(init);
      SumByOutsider(init, a);
    }
  }

  /** Someone with no entry in the log has put in nothing. */
  lemma SumByNonInvestor(log: seq<Investment>, a: Address)
    ensures (forall i :: 0 <= i < |log| ==> log[i].investor != a) ==> SumBy(log, a) == 0
  {
    InvestorsExact(log);
    if a !in Investors(log) {
      SumByOutsider(log, a);
    }
  }

  /** Appending one entry raises the sum over `xs` by its amount exactly
      when its investor is one of the (distinct) `xs`. */
  lemma {:induction false} SumOverAppend(log: seq<Investment>, entry: Investment, xs: seq<Address>)
    requires NoDuplicates(xs)
    ensures SumOver(log + [entry], xs) == SumOver(log, xs) + (if entry.investor in xs then entry.amount else 0)
  {
    if xs != [] {
      var ys := xs[..|xs| - 1];
      assert NoDuplicates(ys);
      SumOverAppend(log, entry, ys);
      assert (log + [entry])[..|log|] == log;
      assert xs == ys + [xs[|xs| - 1]];
      assert entry.investor in xs <==> entry.investor in ys || entry.investor == xs[|xs| - 1];
      assert xs[|xs| - 1] !in ys;
    }
  }

  /** The total of a log equals the sum of its per-investor totals. */
  lemma {:induction false} SumIsSumOverInvestors(log: seq<Investment>)
    ensures Sum(log) == SumOver(log, Investors(log))
  {
    if log != [] {
      var init := log[..|log| - 1];
      var entry := log[|log| - 1];
      assert log == init + [entry];
      SumIsSumOverInvestors(init);
      InvestorsExact(init);
      SumOverAppend(init, entry, Investors(init));
      if entry.investor !in Investors(init) {
        var xs := Investors(init) + [entry.investor];
        assert xs[..|xs| - 1] == Investors(init);
        SumByOutsider(init, entry.investor);
      }
    }
  }

  // ---------------------------------------------------------------------
  // The token contract, which lib.rs calls through `token::Client`, is not
  // part of this model; it is abstracted as a balance map.

  function BalanceOf(balances: map<Address, int>, a: Address): int {
    if a in balances then balances[a] else 0
  }

  /** `transfer(from, to, amount)` on the token: refused (the whole
      invocation then reverts) for a negative amount or an insufficient
      balance; otherwise it moves `amount` and touches no other balance. */
  function Transfer(balances: map<Address, int>, from: Address, to: Address, amount: int): (r: Option<map<Address, int>>)
    ensures r.None? <==> amount < 0 || BalanceOf(balances, from) < amount
    ensures r.Some? && from != to ==>
      BalanceOf(r.value, from) == BalanceOf(balances, from) - amount
      && BalanceOf(r.value, to) == BalanceOf(balances, to) + amount
    ensures r.Some? ==> forall a :: a != from && a != to ==> BalanceOf(r.value, a) == BalanceOf(balances, a)
    ensures r.Some? && from == to ==> forall a :: BalanceOf(r.value, a) == BalanceOf(balances, a)
  {
    if amount < 0 || BalanceOf(balances, from) < amount then None
    else
      var debited := balances[from := BalanceOf(balances, from) - amount];
      Some(debited[to := BalanceOf(debited, to) + amount])
  }
}
