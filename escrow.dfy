/** The milestone escrow contract `StellarBridgeContract`
    (contracts/stellarbridge-contract/contracts/hello-world/src/lib.rs).

    The contract's instance storage is one keyed store; each `DataKey`
    variant becomes one field of `Contract`:
      ProjectCounter            -> counter (an absent counter reads as 0)
      Project(id)               -> projects[id]
      ProjectInvestments(id)    -> investments[id]
      InvestorAmount(id, addr)  -> investorAmounts[(id, addr)]
      Verifier, Token           -> verifier, token
    The token contract's ledger is the field `balances`, and the contract's
    own address is `self`.

    A `panic!` or failed `expect` reverts the whole invocation, so every
    method returns `Err(...)` with the state unchanged on those paths.
    `require_auth(a)` holds when `a` is among the `signers` of the
    invocation. */
module Escrow {
  import opened EscrowTypes

  datatype Error =
    | AlreadyInitialized  // "Already initialized"
    | Unauthorized        // require_auth failed
    | Mismatch            // "Mismatch"
    | NotFound            // "Not found"
    | Invalid             // "Invalid"
    | NotPending          // "Not pending"
    | NoEvidence          // "No evidence"
    | NoVerifier          // "No verifier"
    | NoToken             // "No token"
    | TransferFailed      // the token contract refused the transfer

  datatype Result<T> = Ok(value: T) | Err(error: Error)

  /** `get(ProjectInvestments(id)).unwrap_or(Vec::new())`. */
  function LogOf(investments: map<nat, seq<Investment>>, id: nat): seq<Investment> {
    if id in investments then investments[id] else []
  }

  /** `get(InvestorAmount(id, investor)).unwrap_or(0)`. */
  function AmountOf(amounts: map<(nat, Address), int>, id: nat, investor: Address): int {
    if (id, investor) in amounts then amounts[(id, investor)] else 0
  }

  /** Sum of the stored per-investor amounts of project `id` over `xs`. */
  function SumStored(amounts: map<(nat, Address), int>, id: nat, xs: seq<Address>): int {
    if xs == [] then 0 else SumStored(amounts, id, xs[..|xs| - 1]) + AmountOf(amounts, id, xs[|xs| - 1])
  }

  /** A freshly created milestone list: one `Pending` milestone without
      evidence per amount, in order, with the matching deadline. */
  predicate FreshMilestones(ms: seq<Milestone>, amounts: seq<int>, deadlines: seq<nat>) {
    |ms| == |amounts| == |deadlines|
    && forall i :: 0 <= i < |ms| ==> ms[i] == Milestone(amounts[i], deadlines[i], Pending, None)
  }

  /** The ids handed out so far are exactly 1..counter, and each project
      stores its own id. */
  ghost predicate IdsDense(counter: nat, projects: map<nat, Project>) {
    && (forall id :: id in projects <==> 1 <= id <= counter)
    && (forall id :: id in projects ==> projects[id].id == id)
  }

  /** The funds bookkeeping: logs and per-investor amounts belong to stored
      projects, `raised` is the total of the project's log, and every
      stored per-investor amount is that investor's total in the log. */
  ghost predicate Accounted(projects: map<nat, Project>, investments: map<nat, seq<Investment>>, amounts: map<(nat, Address), int>) {
    && (forall id :: id in investments ==> id in projects)
    && (forall key :: key in amounts ==> key.0 in projects)
    && (forall id {:trigger projects[id]} :: id in projects ==> projects[id].raised == Sum(LogOf(investments, id)))
    && (forall id, a {:trigger AmountOf(amounts, id, a)} :: AmountOf(amounts, id, a) == SumBy(LogOf(investments, id), a))
  }

  /** A milestone carries an evidence hash exactly when it has left `Pending`. */
  predicate EvidenceMatchesStatus(ms: seq<Milestone>) {
    forall i :: 0 <= i < |ms| ==> (ms[i].status == Pending <==> ms[i].evidenceHash.None?)
  }

  ghost predicate Sound(counter: nat, projects: map<nat, Project>, investments: map<nat, seq<Investment>>, amounts: map<(nat, Address), int>) {
    && IdsDense(counter, projects)
    && Accounted(projects, investments, amounts)
    && (forall id :: id in projects ==> EvidenceMatchesStatus(projects[id].milestones))
  }

  /** In a sound store a project's `raised` is also the sum of the stored
      per-investor amounts over the project's investors. */
  lemma RaisedIsSumOfInvestorAmounts(projects: map<nat, Project>, investments: map<nat, seq<Investment>>, amounts: map<(nat, Address), int>, id: nat)
    requires Accounted(projects, investments, amounts)
    requires id in projects
    ensures projects[id].raised == SumStored(amounts, id, Investors(LogOf(investments, id)))
  {
    var log := LogOf(investments, id);
    SumIsSumOverInvestors(log);
    StoredMatchesLog(amounts, log, id, Investors(log));
  }

  lemma {:induction false} StoredMatchesLog(amounts: map<(nat, Address), int>, log: seq<Investment>, id: nat, xs: seq<Address>)
    requires forall a :: AmountOf(amounts, id, a) == SumBy(log, a)
    ensures SumStored(amounts, id, xs) == SumOver(log, xs)
  {
    if xs != [] {
      StoredMatchesLog(amounts, log, id, xs[..|xs| - 1]);
    }
  }

  /** create_project keeps the store sound and changes no existing project. */
  lemma CreateKeepsSound(counter: nat, projects: map<nat, Project>, investments: map<nat, seq<Investment>>,
                         amounts: map<(nat, Address), int>, p: Project)
    requires Sound(counter, projects, investments, amounts)
    requires p.id == counter + 1 && p.raised == 0 && EvidenceMatchesStatus(p.milestones)
    ensures counter + 1 !in projects
    ensures Sound(counter + 1, projects[counter + 1 := p], investments, amounts)
    ensures ProjectsEvolve(projects, projects[counter + 1 := p])
  {
    var id := counter + 1;
    assert id !in investments;
    assert LogOf(investments, id) == [];
    var projects' := projects[id := p];
    forall pid, a
      ensures AmountOf(amounts, pid, a) == SumBy(LogOf(investments, pid), a)
    {
    }
  }

  /** invest keeps the store sound. */
  lemma InvestKeepsSound(counter: nat, projects: map<nat, Project>, investments: map<nat, seq<Investment>>,
                         amounts: map<(nat, Address), int>, id: nat, investor: Address, amount: int, now: nat)
    requires Sound(counter, projects, investments, amounts)
    requires id in projects
    ensures Sound(counter,
                  projects[id := projects[id].(raised := projects[id].raised + amount)],
                  investments[id := LogOf(investments, id) + [Investment(investor, amount, now)]],
                  amounts[(id, investor) := AmountOf(amounts, id, investor) + amount])
  {
    var entry := Investment(investor, amount, now);
    var investments' := investments[id := LogOf(investments, id) + [entry]];
    var amounts' := amounts[(id, investor) := AmountOf(amounts, id, investor) + amount];
    var projects' := projects[id := projects[id].(raised := projects[id].raised + amount)];
    assert IdsDense(counter, projects');
    InvestKeepsRaised(projects, investments, id, entry);
    InvestKeepsInvestorTotals(investments, amounts, id, investor, amount, now);
    assert Accounted(projects', investments', amounts');
  }

  lemma InvestKeepsRaised(projects: map<nat, Project>, investments: map<nat, seq<Investment>>, id: nat, entry: Investment)
    requires id in projects
    requires forall pid {:trigger projects[pid]} :: pid in projects ==> projects[pid].raised == Sum(LogOf(investments, pid))
    ensures forall pid {:trigger projects[id := projects[id].(raised := projects[id].raised + entry.amount)][pid]} ::
      pid in projects ==>
      projects[id := projects[id].(raised := projects[id].raised + entry.amount)][pid].raised
        == Sum(LogOf(investments[id := LogOf(investments, id) + [entry]], pid))
  {
    var log' := LogOf(investments, id) + [entry];
    assert log'[..|log'| - 1] == LogOf(investments, id);
    var investments' := investments[id := log'];
    forall pid | pid in projects
      ensures projects[id := projects[id].(raised := projects[id].raised + entry.amount)][pid].raised == Sum(LogOf(investments', pid))
    {
      if pid != id {
        assert LogOf(investments', pid) == LogOf(investments, pid);
      }
    }
  }

  lemma InvestKeepsInvestorTotals(investments: map<nat, seq<Investment>>, amounts: map<(nat, Address), int>, id: nat,
                                  investor: Address, amount: int, now: nat)
    requires forall pid, a {:trigger AmountOf(amounts, pid, a)} :: AmountOf(amounts, pid, a) == SumBy(LogOf(investments, pid), a)
    ensures forall pid, a {:trigger AmountOf(amounts[(id, investor) := AmountOf(amounts, id, investor) + amount], pid, a)} ::
      AmountOf(amounts[(id, investor) := AmountOf(amounts, id, investor) + amount], pid, a)
        == SumBy(LogOf(investments[id := LogOf(investments, id) + [Investment(investor, amount, now)]], pid), a)
  {
    var entry := Investment(investor, amount, now);
    var log := LogOf(investments, id);
    var log' := log + [entry];
    assert log'[..|log'| - 1] == log;
    var investments' := investments[id := log'];
    var amounts' := amounts[(id, entry.investor) := AmountOf(amounts, id, entry.investor) + entry.amount];
    forall pid, a
      ensures AmountOf(amounts', pid, a) == SumBy(LogOf(investments', pid), a)
    {
      assert AmountOf(amounts, pid, a) == SumBy(LogOf(investments, pid), a);
      if pid == id {
        assert LogOf(investments', pid) == log';
      } else {
        assert LogOf(investments', pid) == LogOf(investments, pid);
      }
    }
  }

  /** Replacing a project's milestones keeps the store sound, provided the
      new list keeps evidence and status in step. */
  lemma MilestonesUpdateKeepsSound(counter: nat, projects: map<nat, Project>, investments: map<nat, seq<Investment>>,
                                   amounts: map<(nat, Address), int>, id: nat, ms: seq<Milestone>)
    requires Sound(counter, projects, investments, amounts)
    requires id in projects && EvidenceMatchesStatus(ms)
    ensures Sound(counter, projects[id := projects[id].(milestones := ms)], investments, amounts)
  {
  }

  /** The `for` loop of create_project (lib.rs:74-82). */
  method BuildMilestones(amounts: seq<int>, deadlines: seq<nat>) returns (ms: seq<Milestone>)
    requires |amounts| == |deadlines|
    ensures FreshMilestones(ms, amounts, deadlines)
    ensures EvidenceMatchesStatus(ms)
  {
    ms := [];
    for i := 0 to |amounts|
      invariant |ms| == i
      invariant forall j :: 0 <= j < i ==> ms[j] == Milestone(amounts[j], deadlines[j], Pending, None)
    {
      ms := ms + [Milestone(amounts[i], deadlines[i], Pending, None)];
    }
  }

  class Contract {
    const self: Address
    var verifier: Option<Address>
    var token: Option<Address>
    var counter: nat
    var projects: map<nat, Project>
    var investments: map<nat, seq<Investment>>
    var investorAmounts: map<(nat, Address), int>
    var balances: map<Address, int>

    ghost predicate Valid()
      reads this
    {
      Sound(counter, projects, investments, investorAmounts)
    }

    /** A freshly deployed contract: empty instance storage, and the token
        ledger as it stands. */
    constructor (self: Address, balances: map<Address, int>)
      ensures Valid()
      ensures this.self == self && this.balances == balances
      ensures verifier == None && token == None && counter == 0
      ensures projects == map[] && investments == map[] && investorAmounts == map[]
    {
      this.self := self;
      this.balances := balances;
      verifier, token, counter := None, None, 0;
      projects, investments, investorAmounts := map[], map[], map[];
    }

    /** `initialize` as written: it stores the counter as 0 even when
        projects were created before it ran. */
    method Initialize(verifierAddress: Address, tokenAddress: Address, signers: set<Address>) returns (r: Result<()>)
      modifies this
      ensures r == (if old(verifier).Some? then Err(AlreadyInitialized)
                    else if verifierAddress !in signers then Err(Unauthorized)
                    else Ok(()))
      ensures r.Err? ==> unchanged(this)
      ensures r.Ok? ==> verifier == Some(verifierAddress) && token == Some(tokenAddress) && counter == 0
      ensures r.Ok? ==> projects == old(projects) && investments == old(investments)
                        && investorAmounts == old(investorAmounts) && balances == old(balances)
      ensures old(Valid()) && old(counter) == 0 ==> Valid()
      // With projects already stored, the next id create_project hands out is taken.
      ensures r.Ok? && old(Valid()) && old(counter) > 0 ==> counter + 1 in projects
    {
      if verifier.Some? {
        return Err(AlreadyInitialized);
      }
      if verifierAddress !in signers {
        return Err(Unauthorized);
      }
      verifier := Some(verifierAddress);
      token := Some(tokenAddress);
      counter := 0;
      r := Ok(());
    }

    /** `initialize` with the counter left as it is, which keeps project ids unique. */
    method InitializeKeepingCounter(verifierAddress: Address, tokenAddress: Address, signers: set<Address>) returns (r: Result<()>)
      modifies this
      ensures r == (if old(verifier).Some? then Err(AlreadyInitialized)
                    else if verifierAddress !in signers then Err(Unauthorized)
                    else Ok(()))
      ensures r.Err? ==> unchanged(this)
      ensures r.Ok? ==> verifier == Some(verifierAddress) && token == Some(tokenAddress) && counter == old(counter)
      ensures r.Ok? ==> projects == old(projects) && investments == old(investments)
                        && investorAmounts == old(investorAmounts) && balances == old(balances)
      ensures old(Valid()) ==> Valid()
    {
      if verifier.Some? {
        return Err(AlreadyInitialized);
      }
      if verifierAddress !in signers {
        return Err(Unauthorized);
      }
      verifier := Some(verifierAddress);
      token := Some(tokenAddress);
      r := Ok(());
    }

    /** `create_project`. */
    method CreateProject(owner: Address, goalAmount: int, amounts: seq<int>, deadlines: seq<nat>, signers: set<Address>)
      returns (r: Result<nat>)
      modifies this
      ensures r == (if owner !in signers then Err(Unauthorized)
                    else if |amounts| != |deadlines| then Err(Mismatch)
                    else Ok(old(counter) + 1))
      ensures r.Err? ==> unchanged(this)
      ensures r.Ok? ==> counter == r.value && counter in projects
      ensures r.Ok? ==> projects == old(projects)[counter := Project(counter, owner, goalAmount, 0, projects[counter].milestones, true)]
      ensures r.Ok? ==> FreshMilestones(projects[counter].milestones, amounts, deadlines)
      ensures r.Ok? ==> verifier == old(verifier) && token == old(token) && investments == old(investments)
                        && investorAmounts == old(investorAmounts) && balances == old(balances)
      ensures old(Valid()) ==> Valid() && ProjectsEvolve(old(projects), projects)
      ensures old(Valid()) && r.Ok? ==> r.value !in old(projects)
    {
      if owner !in signers {
        return Err(Unauthorized);
      }
      if |amounts| != |deadlines| {
        return Err(Mismatch);
      }
      var milestones := BuildMilestones(amounts, deadlines);
      var id := counter + 1;
      var project := Project(id, owner, goalAmount, 0, milestones, true);
      if Valid() {
        CreateKeepsSound(counter, projects, investments, investorAmounts, project);
      }
      projects := projects[id := project];
      counter := id;
      r := Ok(id);
    }

    /** `invest`: the investor's tokens move to the contract, and the
        project's `raised`, the investor's amount and the log all grow by
        this investment. */
    method Invest(projectId: nat, investor: Address, amount: int, signers: set<Address>, now: nat) returns (r: Result<()>)
      modifies this
      ensures r == (if investor !in signers then Err(Unauthorized)
                    else if projectId !in old(projects) then Err(NotFound)
                    else if !old(projects)[projectId].active || amount <= 0 then Err(Invalid)
                    else if old(token).None? then Err(NoToken)
                    else if Transfer(old(balances), investor, self, amount).None? then Err(TransferFailed)
                    else Ok(()))
      ensures r.Err? ==> unchanged(this)
      ensures r.Ok? ==> projects == old(projects)[projectId := old(projects)[projectId].(raised := old(projects)[projectId].raised + amount)]
      ensures r.Ok? ==> investorAmounts == old(investorAmounts)[(projectId, investor) := AmountOf(old(investorAmounts), projectId, investor) + amount]
      ensures r.Ok? ==> investments == old(investments)[projectId := LogOf(old(investments), projectId) + [Investment(investor, amount, now)]]
      ensures r.Ok? ==> balances == Transfer(old(balances), investor, self, amount).value
      ensures r.Ok? ==> counter == old(counter) && verifier == old(verifier) && token == old(token)
      ensures old(Valid()) ==> Valid() && ProjectsEvolve(old(projects), projects)
    {
      if investor !in signers {
        return Err(Unauthorized);
      }
      if projectId !in projects {
        return Err(NotFound);
      }
      var project := projects[projectId];
      if !project.active || amount <= 0 {
        return Err(Invalid);
      }
      if token.None? {
        return Err(NoToken);
      }
      var moved := Transfer(balances, investor, self, amount);
      if moved.None? {
        return Err(TransferFailed);
      }
      ghost var wasValid, projects0, investments0, amounts0 := Valid(), projects, investments, investorAmounts;
      balances := moved.value;
      projects := projects[projectId := projects[projectId].(raised := projects[projectId].raised + amount)];
      investorAmounts := investorAmounts[(projectId, investor) := AmountOf(investorAmounts, projectId, investor) + amount];
      investments := investments[projectId := LogOf(investments, projectId) + [Investment(investor, amount, now)]];
      if wasValid {
        assert projects == projects0[projectId := projects0[projectId].(raised := projects0[projectId].raised + amount)];
        assert investments == investments0[projectId := LogOf(investments0, projectId) + [Investment(investor, amount, now)]];
        assert investorAmounts == amounts0[(projectId, investor) := AmountOf(amounts0, projectId, investor) + amount];
        InvestKeepsSound(counter, projects0, investments0, amounts0, projectId, investor, amount, now);
        assert Sound(counter, projects, investments, investorAmounts);
      }
      r := Ok(());
    }

    /** `submit_evidence`: a `Pending` milestone records the hash and
        becomes `EvidenceSubmitted`; nothing else changes. */
    method SubmitEvidence(projectId: nat, milestoneIndex: nat, evidenceHash: Hash32, signers: set<Address>) returns (r: Result<()>)
      modifies this
      ensures r == (if projectId !in old(projects) then Err(NotFound)
                    else if old(projects)[projectId].owner !in signers then Err(Unauthorized)
                    else if milestoneIndex >= |old(projects)[projectId].milestones| then Err(Invalid)
                    else if old(projects)[projectId].milestones[milestoneIndex].status != Pending then Err(NotPending)
                    else Ok(()))
      ensures r.Err? ==> unchanged(this)
      ensures r.Ok? ==>
        var p := old(projects)[projectId];
        var m := p.milestones[milestoneIndex];
        projects == old(projects)[projectId := p.(milestones := p.milestones[milestoneIndex := m.(status := EvidenceSubmitted, evidenceHash := Some(evidenceHash))])]
      ensures r.Ok? ==> counter == old(counter) && verifier == old(verifier) && token == old(token) && investments == old(investments)
                        && investorAmounts == old(investorAmounts) && balances == old(balances)
      ensures old(Valid()) ==> Valid()
      ensures ProjectsEvolve(old(projects), projects)
    {
      if projectId !in projects {
        return Err(NotFound);
      }
      var project := projects[projectId];
      if project.owner !in signers {
        return Err(Unauthorized);
      }
      if milestoneIndex >= |project.milestones| {
        return Err(Invalid);
      }
      var m := project.milestones[milestoneIndex];
      if m.status != Pending {
        return Err(NotPending);
      }
      var ms := project.milestones[milestoneIndex := m.(status := EvidenceSubmitted, evidenceHash := Some(evidenceHash))];
      if Valid() {
        MilestonesUpdateKeepsSound(counter, projects, investments, investorAmounts, projectId, ms);
      }
      projects := projects[projectId := project.(milestones := ms)];
      r := Ok(());
    }

    /** `verify_milestone`: an `EvidenceSubmitted` milestone becomes
        `Verified`, paying its amount from the contract to the owner, or
        `Rejected` with no transfer. */
    method VerifyMilestone(projectId: nat, milestoneIndex: nat, approved: bool, signers: set<Address>) returns (r: Result<()>)
      modifies this
      ensures r == (if old(verifier).None? then Err(NoVerifier)
                    else if old(verifier).value !in signers then Err(Unauthorized)
                    else if projectId !in old(projects) then Err(NotFound)
                    else if milestoneIndex >= |old(projects)[projectId].milestones| then Err(Invalid)
                    else if old(projects)[projectId].milestones[milestoneIndex].status != EvidenceSubmitted then Err(NoEvidence)
                    else if approved && old(token).None? then Err(NoToken)
                    else if approved && Transfer(old(balances), self, old(projects)[projectId].owner,
                                                 old(projects)[projectId].milestones[milestoneIndex].amount).None? then Err(TransferFailed)
                    else Ok(()))
      ensures r.Err? ==> unchanged(this)
      ensures r.Ok? ==>
        var p := old(projects)[projectId];
        var m := p.milestones[milestoneIndex];
        projects == old(projects)[projectId := p.(milestones := p.milestones[milestoneIndex := m.(status := if approved then Verified else Rejected)])]
        && balances == (if approved then Transfer(old(balances), self, p.owner, m.amount).value else old(balances))
      ensures r.Ok? ==> counter == old(counter) && verifier == old(verifier) && token == old(token)
                        && investments == old(investments) && investorAmounts == old(investorAmounts)
      ensures old(Valid()) ==> Valid()
      ensures ProjectsEvolve(old(projects), projects)
    {
      if verifier.None? {
        return Err(NoVerifier);
      }
      if verifier.value !in signers {
        return Err(Unauthorized);
      }
      if projectId !in projects {
        return Err(NotFound);
      }
      var project := projects[projectId];
      if milestoneIndex >= |project.milestones| {
        return Err(Invalid);
      }
      var m := project.milestones[milestoneIndex];
      if m.status != EvidenceSubmitted {
        return Err(NoEvidence);
      }
      if approved {
        if token.None? {
          return Err(NoToken);
        }
        var moved := Transfer(balances, self, project.owner, m.amount);
        if moved.None? {
          return Err(TransferFailed);
        }
        balances := moved.value;
        m := m.(status := Verified);
      } else {
        m := m.(status := Rejected);
      }
      var ms := project.milestones[milestoneIndex := m];
      if Valid() {
        MilestonesUpdateKeepsSound(counter, projects, investments, investorAmounts, projectId, ms);
      }
      projects := projects[projectId := project.(milestones := ms)];
      r := Ok(());
    }

    /** `get_project`: the stored project, which carries the id it was
        asked for and whose `raised` is the total of its investment log. */
    function GetProject(projectId: nat): (r: Result<Project>)
      reads this
      ensures r.Err? <==> projectId !in projects
      ensures r.Err? ==> r.error == NotFound
      ensures Valid() && r.Ok? ==> r.value.id == projectId && r.value.raised == Sum(LogOf(investments, projectId))
    {
      if projectId in projects then Ok(projects[projectId]) else Err(NotFound)
    }

    /** `get_investor_amount`: the investor's total in the project's log,
        0 for a pair that never invested. */
    function GetInvestorAmount(projectId: nat, investor: Address): (r: int)
      reads this
      ensures Valid() ==> r == SumBy(LogOf(investments, projectId), investor)
      ensures Valid() && (forall i :: 0 <= i < |LogOf(investments, projectId)| ==> LogOf(investments, projectId)[i].investor != investor)
              ==> r == 0
    {
      SumByNonInvestor(LogOf(investments, projectId), investor);
      AmountOf(investorAmounts, projectId, investor)
    }

    /** `get_project_count`: the stored ids are exactly 1..count, so the
        count is 0 exactly when no project exists. */
    function GetProjectCount(): (r: nat)
      reads this
      ensures Valid() ==> (r == 0 <==> projects == map[])
      ensures Valid() ==> forall id :: id in projects <==> 1 <= id <= r
    {
      assert Valid() && counter > 0 ==> 1 in projects;
      counter
    }
  }

  /** A fresh contract on which project 1 is created before `initialize`
      runs, as written or keeping the counter. */
  method CreateBeforeInitialize(keepCounter: bool) returns (c: Contract, first: Result<nat>)
    ensures fresh(c) && first == Ok(1)
    ensures c.counter == (if keepCounter then 1 else 0) && c.token.Some?
    ensures 1 in c.projects && c.projects[1].active && c.projects[1].raised == 0
    ensures c.self == "contract" && BalanceOf(c.balances, "alice") == 10 && c.investments == map[]
  {
    c := new Contract("contract", map["alice" := 10]);
    first := c.CreateProject("owner", 100, [], [], {"owner"});
    var initialized;
    if keepCounter {
      initialized := c.InitializeKeepingCounter("verifier", "token", {"verifier"});
    } else {
      initialized := c.Initialize("verifier", "token", {"verifier"});
    }
    assert initialized == Ok(());
  }

  /** create_project before `initialize`, then `initialize` as written,
      then an investment and a second create_project: the second project
      gets id 1 again and overwrites the first, whose `raised` is back to 0
      while its investment log still holds the 5 invested. */
  method LateInitializeReusesProjectId() returns (first: Result<nat>, second: Result<nat>, raised: int, logged: int)
    ensures first == Ok(1) && second == Ok(1)
    ensures raised == 0 && logged == 5
  {
    var c;
    c, first := CreateBeforeInitialize(false);
    var invested := c.Invest(1, "alice", 5, {"alice"}, 0);
    assert invested == Ok(());
    second := c.CreateProject("owner", 100, [], [], {"owner"});
    raised := c.projects[1].raised;
    var log := c.investments[1];
    assert log == [] + [Investment("alice", 5, 0)];
    SumAppend([], Investment("alice", 5, 0));
    logged := Sum(log);
  }

  /** The same calls with `InitializeKeepingCounter`: the second project
      gets a fresh id and the first keeps what was raised. */
  method InitializeKeepingCounterKeepsIdsFresh() returns (first: Result<nat>, second: Result<nat>, raised: int)
    ensures first == Ok(1) && second == Ok(2)
    ensures raised == 5
  {
    var c;
    c, first := CreateBeforeInitialize(true);
    var invested := c.Invest(1, "alice", 5, {"alice"}, 0);
    assert invested == Ok(());
    second := c.CreateProject("owner", 100, [], [], {"owner"});
    raised := c.projects[1].raised;
  }

  /** A contract on which project 1, with one milestone, is created before
      `initialize` runs, as written or keeping the counter; its owner then
      submits evidence and the verifier rejects it, and project 2 is
      created. The status of project 1's milestone is read after the
      rejection and after the second create_project. */
  method RejectThenCreate(keepCounter: bool) returns (before: MilestoneStatus, after: MilestoneStatus)
    ensures before == Rejected
    ensures after == (if keepCounter then Rejected else Pending)
  {
    var c := new Contract("contract", map[]);
    var first := c.CreateProject("owner", 100, [50], [1000], {"owner"});
    assert first == Ok(1);
    var initialized;
    if keepCounter {
      initialized := c.InitializeKeepingCounter("verifier", "token", {"verifier"});
    } else {
      initialized := c.Initialize("verifier", "token", {"verifier"});
    }
    assert initialized == Ok(());
    var hash: Hash32 := seq(32, _ => 1 as bv8);
    var submitted := c.SubmitEvidence(1, 0, hash, {"owner"});
    assert submitted == Ok(());
    var rejected := c.VerifyMilestone(1, 0, false, {"verifier"});
    assert rejected == Ok(());
    before := c.projects[1].milestones[0].status;
    var second := c.CreateProject("owner", 100, [50], [1000], {"owner"});
    assert second == Ok(if keepCounter then 2 else 1);
    after := c.projects[1].milestones[0].status;
  }

  /** With `initialize` as written, the second create_project overwrites
      project 1, so its `Rejected` milestone is `Pending` again: the status
      steps of the contract do not hold across a late `initialize`. */
  method LateInitializeRevivesRejectedMilestone() returns (before: MilestoneStatus, after: MilestoneStatus)
    ensures before == Rejected && after == Pending
    ensures !StatusStep(before, after)
  {
    before, after := RejectThenCreate(false);
  }

  /** With the corrected `initialize`, the rejected milestone stays `Rejected`. */
  method InitializeKeepingCounterKeepsRejection() returns (before: MilestoneStatus, after: MilestoneStatus)
    ensures before == Rejected && after == Rejected
  {
    before, after := RejectThenCreate(true);
  }
}
