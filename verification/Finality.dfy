/** Exactly which proposals can still come to an end, and when the multisig itself can. */
module Finality {
  import opened MultisigSpec
  import opened ProposalSpec
  import opened ExecuteSpec
  import opened BufferSpec
  import opened ProposalLaws
  import opened Machine
  import opened Invariant
  import opened Safety
  import opened Governance
  import opened Continuation
  import opened Progress

  // Closing one proposal

  /** One proposal has been closed and nothing else has changed but the count of closures. */
  ghost predicate ClosedOne(s: State, s': State, i: nat) {
    && s.ms.Some? && s'.ms.Some?
    && s'.ms.value == s.ms.value.(closedTransactionCount := s'.ms.value.closedTransactionCount)
    && s'.open == s.open - {i}
    && i in s.props && i in s'.props && s'.props == s.props[i := s'.props[i]]
  }

  /** A proposal that has ended can be closed, by sending its rent where it must go. */
  lemma EndedCloses(env: Env, s: State, i: nat) returns (e: Event)
    requires Reachable(env, s) && s.ms.Some? && i in s.open && i in s.props && Terminal(s.props[i].status)
    ensures ClosedOne(s, Run(env, s, [e]), i)
  {
    hide Reachable, Terminal, RentDestination, CheckHeader;
    var destination := RentDestination(s.ms.value.rules.rentCollector, s.props[i].creator);
    e := CloseEvent(i, destination, [], true);
    ClosureAccepted(env, s, e);
    assert Run(env, s, [e]) == Step(env, s, e);
  }

  lemma MovedThenClosed(s: State, s1: State, s2: State, i: nat)
    requires OnlyMoves(s, s1, i) && ClosedOne(s1, s2, i)
    ensures ClosedOne(s, s2, i)
  {
    hide AsCreated;
  }

  /** While it is fresh, the remaining voters can reject an Active proposal and anyone can close it. */
  lemma FreshCanClose(env: Env, s: State, i: nat) returns (es: seq<Event>)
    requires Reachable(env, s) && Votable(s, i)
    ensures ClosedOne(s, Run(env, s, es), i)
  {
    hide Reachable, Inv, Run, Pending, Ballot, Cutoff, ClosedOne;
    ReachableInv(env, s);
    NoLimbo(env, s, i, 0);
    VotesSound(env, s, i);
    var order := Listing(Pending(s.props[i], s.ms.value.rules));
    BallotPositions(s, i, order);
    RejectionsLatch(env, s, i, order);
    var rejections := Rejections(i, s.ms.value.rules.owners, order);
    ReachableOnward(env, s, rejections);
    var e := EndedCloses(env, Run(env, s, rejections), i);
    MovedThenClosed(s, Run(env, s, rejections), Run(env, Run(env, s, rejections), [e]), i);
    RunAppend(env, s, rejections, [e]);
    es := rejections + [e];
  }

  /** While it is fresh, the voters can cancel an Approved proposal and anyone can close it. */
  lemma ApprovedCanClose(env: Env, s: State, i: nat) returns (es: seq<Event>)
    requires Reachable(env, s) && Cancellable(s, i)
    ensures ClosedOne(s, Run(env, s, es), i)
  {
    hide Reachable, Inv, Run, PendingCancel, Ballot, ClosedOne;
    ReachableInv(env, s);
    CancelPossible(s, i);
    var order := Listing(PendingCancel(s.props[i], s.ms.value.rules));
    CancelPositions(s, i, order);
    CancellationsLatch(env, s, i, order);
    var cancellations := Cancellations(i, s.ms.value.rules.owners, order);
    ReachableOnward(env, s, cancellations);
    var e := EndedCloses(env, Run(env, s, cancellations), i);
    MovedThenClosed(s, Run(env, s, cancellations), Run(env, Run(env, s, cancellations), [e]), i);
    RunAppend(env, s, cancellations, [e]);
    es := cancellations + [e];
  }

  lemma CancelPositions(s: State, i: nat, order: seq<nat>)
    requires Inv(s) && Cancellable(s, i) && Ballot(order, PendingCancel(s.props[i], s.ms.value.rules))
    ensures forall j :: 0 <= j < |order| ==> order[j] < |s.ms.value.rules.owners|
  {
  }

  /**
   * An open Active proposal can still be closed by some continuation if and only if no
   * configuration change has come since its creation: staleness, and nothing else, strands it.
   */
  lemma ActiveClosesIffFresh(env: Env, s: State, i: nat)
    requires Reachable(env, s) && s.ms.Some?
    requires i in s.open && i in s.props && s.props[i].status == Active
    ensures (exists es :: i !in Run(env, s, es).open) <==> i > s.ms.value.staleTransactionIndex
  {
    hide Reachable, Inv, Run;
    if i > s.ms.value.staleTransactionIndex {
      var es := FreshCanClose(env, s, i);
    } else {
      forall es ensures i in Run(env, s, es).open {
        StalenessFreezes(env, s, es, i);
      }
    }
  }

  // Approved proposals

  /** The proposal has been executed, and the multisig is still there to close it. */
  ghost predicate ExecutedAlive(s: State, i: nat) {
    s.ms.Some? && i in s.props && s.props[i].status == Executed
  }

  /** Once the multisig is closed nothing more is opened or closed. */
  lemma {:induction false} ClosedFreezesOpen(env: Env, s: State, es: seq<Event>)
    requires s.ms.None?
    ensures Run(env, s, es).open == s.open
    decreases |es|
  {
    hide CreateTransaction, Promote, ExecuteProposal, CloseTransaction, SetConfig, CreateBuffer, ExtendBuffer,
         CloseBuffer, Approve, Reject, Cancel;
    if es != [] {
      ClosedFreezesOpen(env, Step(env, s, es[0]), es[1..]);
    }
  }

  /**
   * Every voted closure strands its own proposal: it was the only one open, it is executed, and it
   * stays open in every continuation, since the multisig that would close it is gone.
   */
  lemma VotedClosureStrands(env: Env, s: State, e: Event, es: seq<Event>)
    requires Reachable(env, s) && s.ms.Some? && e.ExecuteEvent? && Step(env, s, e).ms.None?
    ensures e.index in Step(env, s, e).props && Step(env, s, e).props[e.index].status == Executed
    ensures Run(env, Step(env, s, e), es).open == {e.index}
  {
    hide Reachable, Run, Inv, Evolves, OnlyExecutingTransactionOpen;
    ReachableInv(env, s);
    MultisigClosedLast(env, s, e);
    ExecuteStep(env, s, e);
    ClosedFreezesOpen(env, Step(env, s, e), es);
  }

  /** A closure is of a proposal that has ended. */
  lemma ClosingEnded(env: Env, s: State, e: Event, i: nat)
    requires Inv(s) && i in s.open && i !in Step(env, s, e).open
    ensures i in s.props && Terminal(s.props[i].status)
  {
    hide IndexOk, CreateTransaction, Promote, ExecuteProposal, SetConfig, Approve, Reject, Cancel,
         CreateBuffer, ExtendBuffer, CloseBuffer, CheckHeader;
  }

  /** A stale Approved proposal is closed only after being executed, with the multisig still standing. */
  lemma {:induction false} ClosedAfterExecution(env: Env, s: State, es: seq<Event>, i: nat) returns (until: seq<Event>)
    requires Reachable(env, s) && s.ms.Some? && i in s.open && i in s.props
    requires s.props[i].status == Approved && Stale(s, i) && i !in Run(env, s, es).open
    ensures ExecutedAlive(Run(env, s, until), i)
    decreases |es|
  {
    hide Reachable, Step, Inv, Stale, Next, Terminal;
    var e := es[0];
    var s1 := Step(env, s, e);
    ReachableInv(env, s);
    assert Run(env, s, [e]) == s1;
    if i !in s1.open {
      ClosingEnded(env, s, e, i);
      ApprovedNotTerminal(s.props[i]);
      assert false;
    }
    if s1.ms.None? {
      ClosedFreezesOpen(env, s1, es[1..]);
      assert false;
    }
    ProposalStep(env, s, e, i);
    if s1.props[i].status == Executed {
      until := [e];
    } else {
      StaleStep(env, s, e, i);
      ReachableOnward(env, s, [e]);
      var rest := ClosedAfterExecution(env, s1, es[1..], i);
      until := [e] + rest;
      RunAppend(env, s, [e], rest);
    }
  }

  lemma ApprovedNotTerminal(p: Proposal)
    requires p.status == Approved
    ensures !Terminal(p.status)
  {
  }

  /**
   * An open Approved proposal can be closed by some continuation if and only if it is fresh, so that
   * its voters can still cancel it, or some continuation executes it without closing the multisig.
   */
  lemma ApprovedClosesIff(env: Env, s: State, i: nat)
    requires Reachable(env, s) && s.ms.Some?
    requires i in s.open && i in s.props && s.props[i].status == Approved
    ensures (exists es :: i !in Run(env, s, es).open)
        <==> || i > s.ms.value.staleTransactionIndex
             || (exists es :: ExecutedAlive(Run(env, s, es), i))
  {
    hide Reachable, Inv, Run, Terminal;
    if i > s.ms.value.staleTransactionIndex {
      var es := ApprovedCanClose(env, s, i);
    } else {
      if es :| i !in Run(env, s, es).open {
        var until := ClosedAfterExecution(env, s, es, i);
      }
      if es :| ExecutedAlive(Run(env, s, es), i) {
        var s' := Run(env, s, es);
        if i in s'.open {
          ReachableOnward(env, s, es);
          ExecutedTerminal(s'.props[i]);
          var e := EndedCloses(env, s', i);
          RunAppend(env, s, es, [e]);
          assert i !in Run(env, s, es + [e]).open;
        }
      }
    }
  }

  lemma ExecutedTerminal(p: Proposal)
    requires p.status == Executed
    ensures Terminal(p.status)
  {
  }
}
