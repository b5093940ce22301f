/** `submitTransaction` in frontend/src/utils/stellar.ts: broadcast a signed
    transaction once, then ask for its status while it is `PENDING`, at most
    `MaxAttempts` times. The network is given as the broadcast's reply and
    the reply to each successive status query; statuses are opaque strings
    of which only `PENDING` is told apart. The one-second pause between
    queries is not modelled. */
module Submission {

  /** `maxAttempts`. */
  const MaxAttempts: nat := 20

  type Status = string

  const Pending: Status := "PENDING"

  /** The reply to `sendTransaction`: it threw, or a hash and a status. */
  datatype SendReply = SendThrew | Sent(hash: string, status: Status)

  /** The reply to one `getTransaction`: it threw, or a status. */
  datatype PollReply = PollThrew | Polled(status: Status)

  /** The RPC requests made, in order. */
  datatype Request = SendTransaction | GetTransaction(hash: string)

  /** What `submitTransaction` settles to: it rethrows, or it returns a
      hash and a status. */
  datatype Outcome = Threw | Submitted(hash: string, status: Status)

  /** The index of the first query, from `k` on, whose reply is not a
      `PENDING` status (a throw included), or `MaxAttempts` when all of
      them up to the limit are `PENDING`. */
  function FirstStop(polls: nat -> PollReply, k: nat): (n: nat)
    requires k <= MaxAttempts
    ensures k <= n <= MaxAttempts
    decreases MaxAttempts - k
  {
    if k == MaxAttempts then MaxAttempts
    else if polls(k) != Polled(Pending) then k
    else FirstStop(polls, k + 1)
  }

  /** Number of status queries made. */
  function QueriesMade(send: SendReply, polls: nat -> PollReply): nat {
    if send.SendThrew? || send.status != Pending then 0
    else
      var k := FirstStop(polls, 0);
      if k == MaxAttempts then MaxAttempts else k + 1
  }

  /** The outcome, stated over the replies. */
  function ExpectedOutcome(send: SendReply, polls: nat -> PollReply): Outcome {
    match send
    case SendThrew => Threw
    case Sent(hash, status) =>
      if status != Pending then Submitted(hash, status)
      else
        var k := FirstStop(polls, 0);
        if k == MaxAttempts then Submitted(hash, Pending)
        else if polls(k).PollThrew? then Threw
        else Submitted(hash, polls(k).status)
  }

  /** The hash status queries ask about. */
  function HashOf(send: SendReply): string {
    if send.Sent? then send.hash else ""
  }

  /** `FirstStop` is the first non-`PENDING` reply. */
  lemma {:induction false} FirstStopAt(polls: nat -> PollReply, j: nat, k: nat)
    requires j <= k <= MaxAttempts
    requires forall i :: j <= i < k ==> polls(i) == Polled(Pending)
    requires k < MaxAttempts ==> polls(k) != Polled(Pending)
    ensures FirstStop(polls, j) == k
    decreases k - j
  {
    if j < k {
      FirstStopAt(polls, j + 1, k);
    }
  }

  method SubmitTransaction(send: SendReply, polls: nat -> PollReply) returns (r: Outcome, requests: seq<Request>)
    ensures r == ExpectedOutcome(send, polls)
    ensures requests == [SendTransaction] + seq(QueriesMade(send, polls), _ => GetTransaction(HashOf(send)))
  {
    requests := [SendTransaction];
    if send.SendThrew? {
      return Threw, requests;
    }
    var status := send.status;
    var attempts: nat := 0;
    while status == Pending && attempts < MaxAttempts
      invariant attempts <= MaxAttempts
      invariant requests == [SendTransaction] + seq(attempts, _ => GetTransaction(send.hash))
      invariant status == Pending ==> send.status == Pending && forall j :: 0 <= j < attempts ==> polls(j) == Polled(Pending)
      invariant status != Pending ==>
                  || (attempts == 0 && status == send.status)
                  || (attempts > 0 && send.status == Pending && polls(attempts - 1) == Polled(status)
                      && forall j :: 0 <= j < attempts - 1 ==> polls(j) == Polled(Pending))
    {
      var reply := polls(attempts);
      requests := requests + [GetTransaction(send.hash)];
      if reply.PollThrew? {
        FirstStopAt(polls, 0, attempts);
        assert requests == [SendTransaction] + seq(attempts + 1, _ => GetTransaction(send.hash));
        return Threw, requests;
      }
      status := reply.status;
      attempts := attempts + 1;
    }
    if send.status == Pending {
      if status == Pending {
        FirstStopAt(polls, 0, MaxAttempts);
      } else {
        FirstStopAt(polls, 0, attempts - 1);
      }
    }
    return Submitted(send.hash, status), requests;
  }

  /** A broadcast that is not `PENDING` is returned as it is, without any
      status query. */
  lemma NoQueryWhenSettled(hash: string, status: Status, polls: nat -> PollReply)
    requires status != Pending
    ensures ExpectedOutcome(Sent(hash, status), polls) == Submitted(hash, status)
    ensures QueriesMade(Sent(hash, status), polls) == 0
  {
  }

  /** After a `PENDING` broadcast, the first query that answers with another
      status ends the loop, and that status is returned. */
  lemma StopsAtFirstSettledQuery(hash: string, polls: nat -> PollReply, k: nat, status: Status)
    requires k < MaxAttempts
    requires forall j :: 0 <= j < k ==> polls(j) == Polled(Pending)
    requires polls(k) == Polled(status) && status != Pending
    ensures ExpectedOutcome(Sent(hash, Pending), polls) == Submitted(hash, status)
    ensures QueriesMade(Sent(hash, Pending), polls) == k + 1
  {
    FirstStopAt(polls, 0, k);
  }

  /** When every query up to the limit says `PENDING`, `PENDING` itself is
      returned after exactly `MaxAttempts` queries: no timeout status is
      made up. */
  lemma AllPendingReturnsPending(hash: string, polls: nat -> PollReply)
    requires forall j :: 0 <= j < MaxAttempts ==> polls(j) == Polled(Pending)
    ensures ExpectedOutcome(Sent(hash, Pending), polls) == Submitted(hash, Pending)
    ensures QueriesMade(Sent(hash, Pending), polls) == MaxAttempts
  {
    FirstStopAt(polls, 0, MaxAttempts);
  }

  /** A query that throws before any settled reply makes the whole
      submission throw. */
  lemma QueryErrorPropagates(hash: string, polls: nat -> PollReply, k: nat)
    requires k < MaxAttempts
    requires forall j :: 0 <= j < k ==> polls(j) == Polled(Pending)
    requires polls(k) == PollThrew
    ensures ExpectedOutcome(Sent(hash, Pending), polls) == Threw
    ensures QueriesMade(Sent(hash, Pending), polls) == k + 1
  {
    FirstStopAt(polls, 0, k);
  }

  /** Whatever the replies: one broadcast, at most `MaxAttempts` queries all
      about the broadcast's hash, and a returned hash that is the
      broadcast's own. */
  lemma SubmissionBounds(send: SendReply, polls: nat -> PollReply)
    ensures QueriesMade(send, polls) <= MaxAttempts
    ensures ExpectedOutcome(send, polls).Submitted? ==> send.Sent? && ExpectedOutcome(send, polls).hash == send.hash
    ensures send.SendThrew? ==> ExpectedOutcome(send, polls) == Threw && QueriesMade(send, polls) == 0
  {
  }
}
