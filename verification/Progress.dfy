/** No limbo: a fresh Active proposal can always still be decided, and by enough votes is. */
module Progress {
  import opened Base
  import opened OwnerSet
  import opened MultisigSpec
  import opened ProposalSpec
  import opened ProposalLaws
  import opened Machine
  import opened Invariant
  import opened Safety

  /** The positions whose owners may vote and have not. */
  ghost function Pending(p: Proposal, r: Rules): set<nat> {
    Voters(r.permissions) - p.approved - p.rejected
  }

  lemma PendingCount(p: Proposal, t: Rules)
    requires RulesInv(t) && VotesOk(p, t)
    ensures |Pending(p, t)| + |p.approved| + |p.rejected| == t.voterCount
  {
    hide Voters, Ascending;
    VotersCount(t.permissions);
    var voters, cast := Voters(t.permissions), p.approved + p.rejected;
    assert voters == Pending(p, t) + cast;
    assert |cast| == |p.approved| + |p.rejected|;
  }

  /** Open to votes, under the rules it was created with. */
  ghost predicate Votable(s: State, i: nat) {
    && s.ms.Some? && i in s.open && i in s.props
    && s.props[i].status == Active && i > s.ms.value.staleTransactionIndex
  }

  /**
   * A fresh Active proposal is short of both the threshold and the cutoff, some permitted owner
   * has yet to vote, and enough of them have not to decide it either way. The cutoff is the
   * least number of rejections that leaves too few voters to approve.
   */
  lemma NoLimbo(env: Env, s: State, i: nat, n: nat)
    requires Reachable(env, s) && Votable(s, i)
    ensures var p, r := s.props[i], s.ms.value.rules;
            && p.approvedCount < r.threshold && p.rejectedCount < Cutoff(r)
            && p.approvedCount + |Pending(p, r)| >= r.threshold
            && p.rejectedCount + |Pending(p, r)| >= Cutoff(r)
            && (exists k :: k in Pending(p, r))
            && LayoutOk(s.ms.value)
            && (forall k :: k in Pending(p, r) ==> k < |r.owners| && HasPermission(r, r.owners[k], Vote))
            && (r.voterCount - n < r.threshold <==> n >= Cutoff(r))
  {
    hide Reachable, Evidence, Ascending, CountVoters, MaskAllows;
    SnapshotsStable(env, s, i);
    EntryAt(env, s, i);
    var p, r := s.props[i], s.ms.value.rules;
    PendingCount(p, r);
    assert Pending(p, r) != {};
    var k :| k in Pending(p, r);
    forall k | k in Pending(p, r) ensures k < |r.owners| && HasPermission(r, r.owners[k], Vote) {
      PositionOfAt(r.owners, k);
    }
  }

  /** The owners at `order` each sign an approval of `i`, in that order. */
  ghost function Approvals(i: nat, owners: seq<Address>, order: seq<nat>, now: i64): (es: seq<Event>)
    requires forall j :: 0 <= j < |order| ==> order[j] < |owners|
    ensures |es| == |order| && forall k :: 0 <= k < |es| ==> es[k].ApproveEvent? && es[k].now == now
  {
    if order == [] then []
    else [ApproveEvent(i, Signer(owners[order[0]], true), [], now)] + Approvals(i, owners, order[1..], now)
  }

  ghost function Rejections(i: nat, owners: seq<Address>, order: seq<nat>): (es: seq<Event>)
    requires forall j :: 0 <= j < |order| ==> order[j] < |owners|
  {
    if order == [] then []
    else [RejectEvent(i, Signer(owners[order[0]], true), [])] + Rejections(i, owners, order[1..])
  }

  /** Different positions, all of them still to vote. */
  ghost predicate Ballot(order: seq<nat>, pending: set<nat>) {
    && (forall j :: 0 <= j < |order| ==> order[j] in pending)
    && (forall j, k :: 0 <= j < k < |order| ==> order[j] != order[k])
  }

  /** Nothing but the votes, status and stamp of one proposal has changed. */
  ghost predicate OnlyMoves(s: State, s': State, i: nat) {
    && s'.ms == s.ms && s'.open == s.open && i in s.props && i in s'.props
    && s'.props == s.props[i := s'.props[i]]
    && AsCreated(s'.props[i]) == AsCreated(s.props[i])
  }

  /** Any finite set of positions can be listed once each. */
  lemma {:induction false} Listing(positions: set<nat>) returns (order: seq<nat>)
    ensures Ballot(order, positions) && |order| == |positions|
    decreases |positions|
  {
    if positions == {} {
      order := [];
    } else {
      var k :| k in positions;
      var rest := Listing(positions - {k});
      order := [k] + rest;
    }
  }

  lemma ApprovalStep(s: State, i: nat, k: nat, env: Env, now: i64)
    requires Inv(s) && Votable(s, i) && k in Pending(s.props[i], s.ms.value.rules)
    requires k < |s.ms.value.rules.owners|
    ensures var e := ApproveEvent(i, Signer(s.ms.value.rules.owners[k], true), [], now);
            var p, s', r := s.props[i], Step(env, s, e), s.ms.value.rules;
            && OnlyMoves(s, s', i)
            && s'.props[i].approved == p.approved + {k} && s'.props[i].rejected == p.rejected
            && |s'.props[i].approved| == |p.approved| + 1
            && s'.props[i].status == (if |p.approved| + 1 == r.threshold then Approved else Active)
            && (s'.props[i].status == Approved ==> s'.props[i].approvedAt == now)
  {
    hide Approve, Evidence, ContentsOk, CountVoters, Ascending, AsCreated;
    assert IndexOk(s, i);
    var m, p := s.ms.value, s.props[i];
    var owner := Signer(m.rules.owners[k], true);
    PositionOfAt(m.rules.owners, k);
    ApproveExact(m, s.self, i, p, s.snaps[i], owner, [], now);
    WithMember(p.approved, k);
  }

  lemma RejectionStep(s: State, i: nat, k: nat, env: Env)
    requires Inv(s) && Votable(s, i) && k in Pending(s.props[i], s.ms.value.rules)
    requires k < |s.ms.value.rules.owners|
    ensures var e := RejectEvent(i, Signer(s.ms.value.rules.owners[k], true), []);
            var p, s', r := s.props[i], Step(env, s, e), s.ms.value.rules;
            && OnlyMoves(s, s', i)
            && s'.props[i].approved == p.approved && s'.props[i].rejected == p.rejected + {k}
            && |s'.props[i].rejected| == |p.rejected| + 1
            && s'.props[i].status == (if |p.rejected| + 1 == Cutoff(r) then Rejected else Active)
  {
    hide Reject, Evidence, ContentsOk, CountVoters, Ascending, AsCreated;
    assert IndexOk(s, i);
    var m, p := s.ms.value, s.props[i];
    var owner := Signer(m.rules.owners[k], true);
    PositionOfAt(m.rules.owners, k);
    RejectExact(m, s.self, i, p, s.snaps[i], owner, []);
    WithMember(p.rejected, k);
  }

  /** Once a proposal has latched, further votes on it are refused and change nothing. */
  lemma LatchedRefusesVotes(env: Env, s: State, e: Event)
    requires (e.ApproveEvent? || e.RejectEvent?) && e.index in s.props && s.props[e.index].status != Active
    ensures Step(env, s, e) == s
  {
    hide PositionOf, HasVoted;
  }

  lemma {:induction false} LatchedIgnoresApprovals(
    env: Env, s: State, i: nat, owners: seq<Address>, order: seq<nat>, now: i64)
    requires i in s.props && s.props[i].status != Active
    requires forall j :: 0 <= j < |order| ==> order[j] < |owners|
    ensures Run(env, s, Approvals(i, owners, order, now)) == s
    decreases |order|
  {
    hide Step;
    if order != [] {
      LatchedRefusesVotes(env, s, Approvals(i, owners, order, now)[0]);
      LatchedIgnoresApprovals(env, s, i, owners, order[1..], now);
    }
  }

  lemma {:induction false} LatchedIgnoresRejections(
    env: Env, s: State, i: nat, owners: seq<Address>, order: seq<nat>)
    requires i in s.props && s.props[i].status != Active
    requires forall j :: 0 <= j < |order| ==> order[j] < |owners|
    ensures Run(env, s, Rejections(i, owners, order)) == s
    decreases |order|
  {
    hide Step;
    if order != [] {
      LatchedRefusesVotes(env, s, Rejections(i, owners, order)[0]);
      LatchedIgnoresRejections(env, s, i, owners, order[1..]);
    }
  }

  lemma BallotPositions(s: State, i: nat, order: seq<nat>)
    requires Inv(s) && Votable(s, i) && Ballot(order, Pending(s.props[i], s.ms.value.rules))
    ensures forall j :: 0 <= j < |order| ==> order[j] < |s.ms.value.rules.owners|
  {
  }

  /**
   * Approvals by owners who have not voted, in any order: the proposal latches Approved exactly
   * when they bring the count to the threshold, and stays so however many more follow.
   */
  lemma {:induction false} ApprovalsLatch(env: Env, s: State, i: nat, order: seq<nat>, now: i64)
    requires Inv(s) && Votable(s, i) && Ballot(order, Pending(s.props[i], s.ms.value.rules))
    requires forall j :: 0 <= j < |order| ==> order[j] < |s.ms.value.rules.owners|
    ensures var r := s.ms.value.rules;
            var s' := Run(env, s, Approvals(i, r.owners, order, now));
            && OnlyMoves(s, s', i)
            && s'.props[i].status == (if |s.props[i].approved| + |order| >= r.threshold then Approved else Active)
            && (s'.props[i].status == Approved ==> s'.props[i].approvedAt == now)
    decreases |order|
  {
    hide Step, Inv, Voters, AsCreated;
    assert |s.props[i].approved| < s.ms.value.rules.threshold by {
      ActiveShort(s, i);
    }
    if order != [] {
      var r := s.ms.value.rules;
      var e := Approvals(i, r.owners, order, now)[0];
      var s1 := Step(env, s, e);
      ApprovalStep(s, i, order[0], env, now);
      StepKeeps(env, s, e);
      if s1.props[i].status == Active {
        ApprovalsLatch(env, s1, i, order[1..], now);
      } else {
        LatchedIgnoresApprovals(env, s1, i, r.owners, order[1..], now);
      }
    }
  }

  lemma {:induction false} RejectionsLatch(env: Env, s: State, i: nat, order: seq<nat>)
    requires Inv(s) && Votable(s, i) && Ballot(order, Pending(s.props[i], s.ms.value.rules))
    requires forall j :: 0 <= j < |order| ==> order[j] < |s.ms.value.rules.owners|
    ensures var r := s.ms.value.rules;
            var s' := Run(env, s, Rejections(i, r.owners, order));
            && OnlyMoves(s, s', i)
            && s'.props[i].status == (if |s.props[i].rejected| + |order| >= Cutoff(r) then Rejected else Active)
    decreases |order|
  {
    hide Step, Inv, Voters, Cutoff, AsCreated;
    assert |s.props[i].rejected| < Cutoff(s.ms.value.rules) by {
      ActiveShort(s, i);
    }
    if order != [] {
      var r := s.ms.value.rules;
      var e := Rejections(i, r.owners, order)[0];
      var s1 := Step(env, s, e);
      RejectionStep(s, i, order[0], env);
      StepKeeps(env, s, e);
      if s1.props[i].status == Active {
        RejectionsLatch(env, s1, i, order[1..]);
      } else {
        LatchedIgnoresRejections(env, s1, i, r.owners, order[1..]);
      }
    }
  }

  lemma ActiveShort(s: State, i: nat)
    requires Inv(s) && Votable(s, i)
    ensures |s.props[i].approved| < s.ms.value.rules.threshold
    ensures |s.props[i].rejected| < Cutoff(s.ms.value.rules)
  {
    assert IndexOk(s, i);
  }

  /**
   * The remaining voters decide a fresh Active proposal: in whatever order they all sign,
   * approving it approves it and rejecting it rejects it.
   */
  lemma RemainingVotersDecide(env: Env, s: State, i: nat, order: seq<nat>, now: i64)
    requires Reachable(env, s) && Votable(s, i)
    ensures var p, r := s.props[i], s.ms.value.rules;
            Ballot(order, Pending(p, r)) && |order| == |Pending(p, r)| ==>
              && (forall j :: 0 <= j < |order| ==> order[j] < |r.owners|)
              && var approved := Run(env, s, Approvals(i, r.owners, order, now));
                 var rejected := Run(env, s, Rejections(i, r.owners, order));
                 && i in approved.props && approved.props[i].status == Approved
                 && i in rejected.props && rejected.props[i].status == Rejected
  {
    hide Reachable, Inv, Run, Pending, Ballot, Cutoff;
    ReachableInv(env, s);
    NoLimbo(env, s, i, 0);
    VotesSound(env, s, i);
    var pending := Pending(s.props[i], s.ms.value.rules);
    if Ballot(order, pending) && |order| == |pending| {
      BallotPositions(s, i, order);
      ApprovalsLatch(env, s, i, order, now);
      RejectionsLatch(env, s, i, order);
    }
  }

  // Cancelling what was approved

  /** Approved, and still open to cancel votes. */
  ghost predicate Cancellable(s: State, i: nat) {
    && s.ms.Some? && i in s.open && i in s.props
    && s.props[i].status == Approved && i > s.ms.value.staleTransactionIndex
  }

  /** The positions whose owners may vote to cancel and have not. */
  ghost function PendingCancel(p: Proposal, r: Rules): set<nat> {
    Voters(r.permissions) - p.cancelled
  }

  /** The owners at `order` each sign a vote to cancel `i`, in that order. */
  ghost function Cancellations(i: nat, owners: seq<Address>, order: seq<nat>): (es: seq<Event>)
    requires forall j :: 0 <= j < |order| ==> order[j] < |owners|
  {
    if order == [] then []
    else [CancelEvent(i, Signer(owners[order[0]], true), [])] + Cancellations(i, owners, order[1..])
  }

  lemma CancellationStep(s: State, i: nat, k: nat, env: Env)
    requires Inv(s) && Cancellable(s, i) && k in PendingCancel(s.props[i], s.ms.value.rules)
    requires k < |s.ms.value.rules.owners|
    ensures var e := CancelEvent(i, Signer(s.ms.value.rules.owners[k], true), []);
            var p, s', r := s.props[i], Step(env, s, e), s.ms.value.rules;
            && OnlyMoves(s, s', i)
            && s'.props[i].cancelled == p.cancelled + {k}
            && |s'.props[i].cancelled| == |p.cancelled| + 1
            && s'.props[i].status == (if |p.cancelled| + 1 == r.threshold then Cancelled else Approved)
  {
    hide Cancel, Evidence, ContentsOk, CountVoters, Ascending, AsCreated;
    assert IndexOk(s, i);
    var m, p := s.ms.value, s.props[i];
    var owner := Signer(m.rules.owners[k], true);
    PositionOfAt(m.rules.owners, k);
    CancelExact(m, s.self, i, p, s.snaps[i], owner, []);
    WithMember(p.cancelled, k);
  }

  lemma EndedRefusesCancel(env: Env, s: State, e: Event)
    requires e.CancelEvent? && e.index in s.props
    requires s.props[e.index].status != Active && s.props[e.index].status != Approved
    ensures Step(env, s, e) == s
  {
    hide PositionOf;
  }

  lemma {:induction false} EndedIgnoresCancellations(
    env: Env, s: State, i: nat, owners: seq<Address>, order: seq<nat>)
    requires i in s.props && s.props[i].status != Active && s.props[i].status != Approved
    requires forall j :: 0 <= j < |order| ==> order[j] < |owners|
    ensures Run(env, s, Cancellations(i, owners, order)) == s
    decreases |order|
  {
    hide Step;
    if order != [] {
      EndedRefusesCancel(env, s, Cancellations(i, owners, order)[0]);
      EndedIgnoresCancellations(env, s, i, owners, order[1..]);
    }
  }

  /** Enough voters have not voted to cancel, and they are all owners. */
  lemma CancelPossible(s: State, i: nat)
    requires Inv(s) && Cancellable(s, i)
    ensures var p, r := s.props[i], s.ms.value.rules;
            && |p.cancelled| < r.threshold
            && |p.cancelled| + |PendingCancel(p, r)| >= r.threshold
            && forall k :: k in PendingCancel(p, r) ==> k < |r.owners|
  {
    hide Evidence, ContentsOk, CountVoters, MaskCanVote, Ascending;
    assert IndexOk(s, i);
    var p, r := s.props[i], s.ms.value.rules;
    VotersCount(r.permissions);
    assert Voters(r.permissions) == PendingCancel(p, r) + p.cancelled;
  }

  /** Cancel votes by owners who have not cast one, in any order, cancel exactly at the threshold. */
  lemma {:induction false} CancellationsLatch(env: Env, s: State, i: nat, order: seq<nat>)
    requires Inv(s) && Cancellable(s, i) && Ballot(order, PendingCancel(s.props[i], s.ms.value.rules))
    requires forall j :: 0 <= j < |order| ==> order[j] < |s.ms.value.rules.owners|
    ensures var r := s.ms.value.rules;
            var s' := Run(env, s, Cancellations(i, r.owners, order));
            && OnlyMoves(s, s', i)
            && s'.props[i].status
               == (if |s.props[i].cancelled| + |order| >= r.threshold then Cancelled else Approved)
    decreases |order|
  {
    hide Step, Inv, Voters, AsCreated;
    CancelPossible(s, i);
    if order != [] {
      var r := s.ms.value.rules;
      var e := Cancellations(i, r.owners, order)[0];
      var s1 := Step(env, s, e);
      CancellationStep(s, i, order[0], env);
      StepKeeps(env, s, e);
      if s1.props[i].status == Approved {
        CancellationsLatch(env, s1, i, order[1..]);
      } else {
        EndedIgnoresCancellations(env, s1, i, r.owners, order[1..]);
      }
    }
  }
}
