# A verified model of the multisig program

This project models a Solana multisig program in Dafny and proves what it promises: who must have
signed before anything is executed, that votes are never counted against rules they were not cast
under, that the byte-level edits of the owner set and the byte-level message format mean what they
are meant to mean, and what no sequence of instructions can do to a proposal or to the account.
`dafny verify dfyconfig.toml` checks all of it.

The model has three layers, and each is tied to the next by proof.

1. **Handlers.** What the program changes in place is a class with mutable fields and byte arrays:
   `MultisigAccount` (header fields and one tail array of owners then masks), `ProposalAccount`
   (header, one array holding three bitmaps, message), `BufferAccount` and the parser's `Cursor`. The
   handlers, the overlapping `copy_within` moves, the bitmap writes, the parser loops and the
   two-cursor lookup loop are methods on them.
2. **Values.** Each account has an abstract value, and each handler a function on values
   (`MultisigSpec`, `ProposalSpec`, `BufferSpec`, `ExecuteSpec`, `MessageCodec`). The methods of the
   first layer are proved to compute exactly these functions, errors included.
3. **Runs.** `Machine` makes every instruction a step of one state machine: one multisig, an
   unbounded map of proposals, and buffers. Three ghost histories are kept beside the accounts and
   read by no step: the last state of closed proposals, the rules in force when each proposal was
   created, and the successful instructions. `Invariant` holds the inductive invariant over all
   eleven kinds of instruction; `Safety`, `Governance`, `Continuation`, `Progress`,
   `Delivery`, `ConfigAcceptance`, `Finality`, `Stranding`, `Freezing`, `TimeLock`, `Closing` and
   `ChunkedUpload` draw the main results from it, for every reachable state and every continuation.

The functions the first two layers share are pinned from outside, in terms of bytes, numbers and
positions alone: `WireFormat` and `LookupTables` say where every field of a message and every address of
a table stands, `CallPrivileges` counts the privileges off the header, `MaskMeaning` lists the masks,
`StoredLayout` finds each vote's bit, `ActionEffects` gives what each action's bytes store,
`ExecutionTrace` runs the instructions one account after another, `Provenance` says who opened what
and what that lets them do, and `Refusals` which error comes first.

## Assumptions

- Instructions are atomic: an instruction that fails changes nothing.
- Accounts are typed and at the addresses derived for them. A multisig, a proposal and a buffer are
  never passed for one another, and derived addresses are injective in their seeds.
- One incarnation of a multisig is modelled. Closing it ends the run: nothing reopens the address.
- External calls made by a proposal leave this program's accounts alone; a configuration action
  inside a proposal is modelled in full.
- What the runtime decides enters as a parameter: the clock, whether an account to create is vacant,
  whether it accepts a lamport move or an external call, and the SHA-256 function.
- 32-bit arithmetic on stored counts wraps, as it does without overflow checks, and is proved never
  to. Indexes and counters are checked against 64 bits where the program checks them.

## Results that contradict the documentation

The code is modelled as it is; the documentation disagrees with it, or leaves something out, here.

- The comment on `config_authority` (src/state/multisig.rs:33-37) says a controlled multisig's
  configuration is decided by that key alone. The voted path never looks at the field:
  `Governance.VotesIgnoreAuthority` shows a voted action does the same under any authority, and
  `Delivery.ThresholdChangedByVote` and `Delivery.ControlReleasedByVote` give, from every reachable state
  with an owner who may initiate, one who may execute and a free index, a run without the authority after
  which the threshold is 1, or the authority is gone. What does hold is
  `Governance.ControlledChangeIsAuthorityUnlessVoted`: a change of a controlled multisig is the
  authority's, and signed by it, if and only if it does not come from executing a proposal; and then
  (`Governance.ConfigurationAuthorised`) the proposal was fully approved.
- Not every proposal can be brought to an end. An open Active proposal can still be closed if and only if
  it is above the stale index (`Finality.ActiveClosesIffFresh`). An open Approved one can if it is fresh;
  once it is stale and its message is for other programs, and while an owner may execute, it can if and only
  if no instruction names more than 32 accounts (`Stranding.StaleApprovedClosesIff`). Parsing at creation is said to reject now what
  would fail mid-call (src/instruction/create_transaction.rs:142-143), but it accepts messages that can
  never run, whatever the runtime decides: too many accounts, or a malformed action of this program
  (`Stranding.OversizedExample`, `Stranding.DoomedExample`). Where an owner may initiate, and there is an
  authority or an owner who may execute, and indexes are left, `Stranding.MessageStrands` gives a run that
  ends with one of them stale, and from there no continuation closes it or the multisig.
- The multisig itself: when no stale Approved proposal is open, and there is an authority, or else an owner
  who may initiate and two free indexes, some continuation closes it if and only if no stale Active
  proposal is open and there is an authority or somebody who may execute (`Closing.MultisigClosesIff`).
  And every closure by vote strands the proposal that carried it: it stays open for good, its rent with it
  (`Finality.VotedClosureStrands`).
- The comment on the longest time lock (src/constants.rs:11-14) says the cap is there so that a
  configuration change cannot brick a multisig. One can: an owner's permission to execute may be taken by
  the last proposal that owner executes. From every reachable autonomous state with an owner who may
  initiate and enough indexes there is a run after which nothing ever changes the configuration again
  (`Freezing.AutonomousFreezes`). With nothing pending, an autonomous configuration can still change if and
  only if somebody may initiate, somebody may execute and an index is left
  (`Freezing.AutonomousIdleIff`); with an owner who may initiate and an index, whatever is pending, if and
  only if somebody may execute (`Freezing.AutonomousChangesIff`).
- The delay between approval and execution is said to give honest owners a window to cancel
  (src/instruction/execute.rs:97-98, src/instruction/cancel.rs:5-9). The window is open exactly while the
  proposal is fresh (`TimeLock.CancellableIffFresh`), and an execution before the lock of the proposal's
  creation has run is always of a stale one (`TimeLock.EarlyExecutionIsStale`). An authority can shut it
  at once: from every controlled state in which one owner may initiate, one may execute and an index is
  left, and for every action acceptable without a lock, `TimeLock.AuthorityTakesWindow` is a run that
  executes a proposal at the moment of its approval, however long the lock was.
- Removing an owner and adding them back gives back the same rules exactly when their mask was the
  default: the new entry holds every permission (`MultisigSpec.RemoveThenAdd`).
- The crate's introduction says anyone may execute an approved proposal. An execution is accepted if and
  only if an owner with the execute permission signs it, after any time lock, with the message's own
  accounts, and its instructions run through (`Safety.ExecutionAccepted`); anybody else who signs is
  refused as unauthorised (`Safety.ExecutionUnauthorised`).
- Three checks can never fail in a reachable state: the second `AlreadyVoted` after the bitmap write,
  the owner-count comparison after the staleness check, and the header check after a vote or a
  closure. `Safety.ApprovalAccepted` and its companions list every condition that is left.

## Model

| member | source | states |
|---|---|---|
| Safety.Authorised | src/instruction/approve.rs:33-58 | In every reachable state a proposal that is Approved or Executed carries exactly the threshold of its creation: that many distinct owners of that time, each permitted to vote then, and they are exactly the owners who signed a successful approval of it. |
| Safety.SnapshotsStable | src/state/multisig.rs:222-230 | While a proposal is above the stale index, the rules in force are the ones it was created under, so a bit position keeps its owner and the owner-count comparison cannot fail. |
| Safety.VotesSound | src/state/transaction.rs:258-285 | Stored counts equal the number of bits set, approvals and rejections are disjoint, and every bit is below the owner count and belongs to a permitted voter. |
| Safety.RejectedByCutoff | src/instruction/reject.rs:49-54 | A Rejected proposal was rejected by exactly voter count - threshold + 1 distinct permitted owners, who signed, and the voters left could not reach the threshold. |
| Safety.CancelledByThreshold | src/instruction/cancel.rs:67-87 | A proposal that had been approved is cancelled only by exactly the threshold of distinct permitted owners, and they are exactly the owners who signed a successful cancellation of it; any other cancelled one never reached approval. |
| Safety.ExecutedAtMostOnce | src/instruction/execute.rs:115-118 | The history holds exactly one execution of each Executed index and none of any other. |
| Safety.ExecutionAccepted | src/instruction/execute.rs:47-319 | In a reachable state an execution is accepted if and only if the proposal is open and Approved (stale or not), the instruction is empty, the executor signed and may execute, any time lock has passed, the accounts are the message's, and its instructions run through. |
| Safety.ExternalMessageRuns | src/instruction/execute.rs:262-316 | With the message's own accounts and no instruction for this program, running through means exactly that every call names at most 32 accounts and the runtime accepts it; the account is then untouched. |
| Safety.ExecutionUnauthorised | src/instruction/execute.rs:65-71 | A signed attempt on any open proposal, whatever its status, by anybody without the execute permission is refused as unauthorised. |
| Safety.ExecutionGuarded | src/instruction/execute.rs:93-118 | Every execution finds the proposal Approved with a latch stamped by the last approval of it, has not happened before, and changes only that proposal's status. |
| Safety.CreationAccepted | src/instruction/create_transaction.rs:63-170 | In a reachable state a creation is accepted if and only if a permitted owner signs it, for a vacant account, at a free index, with a message that parses and fits, at most four ephemeral signers, and the runtime agrees. |
| Safety.StepsBounded | src/state/transaction.rs:29-47 | After creation a proposal takes part in at most voter count + threshold + 1 successful votes, cancellations, executions and closures. |
| Safety.StoredMessageParses | src/instruction/create_transaction.rs:139-145 | The message stored with any proposal parses in every reachable state. |
| Safety.ApprovalAccepted | src/instruction/approve.rs:33-60 | In a reachable state an approval is accepted if and only if it comes, signed, from a permitted owner with no vote yet, on an open, Active, non-stale proposal. |
| Safety.RejectionAccepted | src/instruction/reject.rs:29-56 | The same exact condition for a rejection. |
| Safety.CancellationAccepted | src/instruction/cancel.rs:40-92 | A cancellation is accepted if and only if the creator withdraws a fresh Active proposal or a permitted owner adds a first cancel vote to a fresh Approved one. |
| Safety.NamedCardinality | src/state/bitmap.rs:1-8 | Distinct positions of an ascending owner set name as many distinct owners, so counting bits counts people. |
| Continuation.LegalSteps | src/state/transaction.rs:29-47 | Every instruction leaves a proposal alone or moves it along a legal status edge; votes are only added, none after approval or the end, and what will be executed never changes. |
| Continuation.ContentsFixed | src/instruction/create_transaction.rs:201-227 | However many instructions later, a proposal's creator, accounts and message are those it was created with, and its status lies ahead of the earlier one. |
| Continuation.StaleIndexMonotone | src/state/multisig.rs:222-230 | Along any continuation the stale index and both counters never decrease and a closed account never returns. |
| Continuation.StalenessFreezes | src/instruction/vote.rs:90-102 | Along any continuation a stale proposal keeps every vote and count; an Active one stays Active and open, and an Approved one can only become Executed. |
| Continuation.StaleActiveKeepsMultisig | src/instruction/config_action.rs:396-407 | With a stale Active proposal open, no continuation closes the multisig. |
| Closing.MultisigClosesIff | src/instruction/config_action.rs:380-431 | From every reachable state with no stale Approved proposal open, and an authority or else an owner who may initiate and two free indexes, some continuation closes the multisig if and only if no stale Active proposal is open and there is an authority or somebody who may execute. |
| Stranding.StrandedForever | src/instruction/execute.rs:262-277 | A stale Approved proposal whose message can never run, for naming too many accounts or carrying a malformed action, stays open and Approved in every continuation, whatever the runtime decides, and the multisig stays with it. |
| Stranding.MessageStrands | src/instruction/create_transaction.rs:139-145 | From every reachable state with an owner who may initiate and a free index, and an authority or else an owner who may execute and one more index, a run leads to such a proposal, after which no continuation closes the multisig. |
| Stranding.DoomedExample | src/client.rs:283-303 | The client's message for an action without data parses, fits, and can never run. |
| Stranding.DoomedNeverRuns | src/instruction/execute.rs:268-275 | A message with an instruction of more than 32 accounts, or one for this program whose data is empty or names no action, never runs through, with any accounts, configuration or runtime answers. |
| Stranding.OversizedExample | src/instruction/execute.rs:268-270 | A message whose one instruction names 33 accounts parses, fits, and can never run. |
| Stranding.StaleApprovedClosesIff | src/instruction/execute.rs:262-316 | A stale open Approved proposal whose message names no instruction of this program among its own keys is closed by some continuation if and only if every instruction names at most 32 accounts, given an owner who may execute and an approval not at the end of the clock; any lookups allowed. |
| Freezing.AutonomousChangesIff | src/instruction/execute.rs:65-71 | An autonomous multisig with an owner who may initiate and a free index can still change its configuration if and only if somebody may execute, whatever is pending. |
| Freezing.AutonomousIdleIff | src/instruction/execute.rs:65-71 | When every open proposal has ended, an autonomous multisig can still change its configuration or be closed if and only if somebody may initiate, somebody may execute and an index is left. |
| Freezing.AutonomousFreezes | src/constants.rs:11-14 | From every reachable autonomous state with an owner who may initiate and as many free indexes as owners who may execute, a run leads to a state from which no continuation changes the configuration. |
| Freezing.DropExecutors | src/instruction/config_action.rs:338-372 | However many owners may execute, a run that a real clock gives takes that permission from each by their own last execution. |
| TimeLock.CancellableIffFresh | src/instruction/cancel.rs:5-9 | An open Approved proposal reaches Cancelled in some continuation if and only if it is above the stale index. |
| TimeLock.EarlyExecutionIsStale | src/instruction/execute.rs:97-108 | An execution before the time lock in force at the proposal's creation has elapsed is of a stale proposal. |
| TimeLock.AuthorityTakesWindow | src/instruction/execute.rs:97-108 | From every reachable controlled state with an owner who may initiate, one who may execute and a free index, and for any action acceptable with the lock at zero, a run approves a proposal, has the authority drop the lock, after which no continuation cancels it, and executes it at the time of its approval. |
| Finality.VotedClosureStrands | src/instruction/config_action.rs:391-407 | When an execution closes the multisig, its own proposal was the only one open, is Executed, and stays open in every continuation. |
| ConfigAcceptance.ActionAccepted | src/instruction/config_action.rs:73-118 | An account satisfying the rules accepts an action, by either path, if and only if its payload is well formed, the owner it names is present or absent as it must be, and the voters afterwards still reach the threshold; for closing, if nothing else is open and the rent goes where it must. |
| ConfigAcceptance.RemoveAccepted | src/instruction/config_action.rs:245-307 | Removing an owner is accepted if and only if they are one, the voters left still reach the threshold, and the runtime agrees. |
| ConfigAcceptance.SetPermissionAccepted | src/instruction/config_action.rs:338-372 | A mask is accepted if and only if it is known, its owner exists, and the voters afterwards still reach the threshold. |
| Delivery.DeliverVoted | src/instruction/execute.rs:273-277 | From every reachable state with an owner who may initiate, one who may execute and a free index, at any starting time, and for every action that would succeed, a run of one creation, approvals and one execution, at times that never go back, leaves the account exactly as the action makes it. |
| Delivery.ProposeAndApprove | src/instruction/approve.rs:46-60 | Any message that parses can be proposed by a permitted owner and approved by the voters at any given time, with nothing else changed. |
| Delivery.ActionMessageParses | src/client.rs:283-303 | The client's message for a configuration action fits and is read back by the program as written. |
| Delivery.ThresholdChangedByVote | src/state/multisig.rs:31-38 | From every such state, controlled or not, such a run without the authority sets the threshold to 1 and leaves the authority as it was. |
| Delivery.ControlReleasedByVote | src/instruction/config_action.rs:109 | From every such state such a run without the authority leaves the multisig autonomous. |
| Continuation.AuthorityStrands | src/instruction/set_config.rs:41-58 | From every reachable controlled state with an open Active proposal, one change by the authority succeeds and after it no continuation closes the multisig. |
| Continuation.ProposalStep | src/instruction/vote.rs:78-105 | What any one instruction does to any one proposal, stale or not. |
| Continuation.VoteStep | src/instruction/vote.rs:90-102 | A successful vote or cancellation is on a non-stale proposal, moves only it, and moves it legally. |
| Continuation.ExecuteStep | src/instruction/execute.rs:93-118 | A successful execution starts from Approved, changes that proposal's status alone, and leaves the account as a run of configuration actions may. |
| Progress.NoLimbo | src/state/multisig.rs:193-199 | A fresh Active proposal is below threshold and cutoff, some permitted owner has yet to vote, enough have not to decide it either way, and the cutoff is the least number of rejections that puts approval out of reach. |
| Progress.RemainingVotersDecide | src/instruction/approve.rs:54-58 | In whatever order all remaining voters sign, approving a fresh Active proposal makes it Approved and rejecting it makes it Rejected. |
| Progress.ApprovalsLatch | src/instruction/approve.rs:46-60 | Approvals by any distinct owners still to vote, in any order, latch exactly when the count reaches the threshold, and later ones change nothing. |
| Progress.RejectionsLatch | src/instruction/reject.rs:42-56 | The same for rejections and the cutoff. |
| Finality.ActiveClosesIffFresh | src/instruction/close_transaction.rs:86-92 | An open Active proposal is closed by some continuation if and only if it is above the stale index. |
| Finality.FreshCanClose | src/instruction/reject.rs:49-54 | From every reachable state with a fresh Active proposal there is a run, its remaining voters rejecting and then a closure, after which it is closed and nothing else has changed. |
| Finality.ApprovedClosesIff | src/instruction/close_transaction.rs:86-92 | An open Approved proposal is closed by some continuation if and only if it is fresh or some continuation executes it and leaves the multisig standing: there is no third way out. |
| Finality.ApprovedCanClose | src/instruction/cancel.rs:67-87 | From every reachable state with a fresh Approved proposal there is a run, its voters cancelling and then a closure, after which it is closed and nothing else has changed. |
| Progress.CancellationsLatch | src/instruction/cancel.rs:67-87 | Cancel votes by any distinct owners still to cast one, in any order, cancel exactly when the count reaches the threshold, and later ones change nothing. |
| Progress.PendingCount | src/state/multisig.rs:193-199 | Voters still to vote, approvals and rejections always add up to the voter count. |
| Governance.ConfigurationSound | src/state/multisig.rs:237-267 | Under any mix of voted and authority changes: owners strictly ascending, masks at most 7, the maintained voter count equal to the number of owners permitted to vote, 1 <= threshold <= voters <= owners <= 4096, time lock in range, stale index at most the transaction index. |
| Governance.ProposalsConserved | src/instruction/close_transaction.rs:42-57 | In every reachable state the proposals are exactly the indexes handed out, each closed one has ended, and closed count plus open proposals equals the transaction index. |
| Governance.CountersShowOpen | src/state/multisig.rs:201-220 | The two closure predicates hold if and only if no proposal, or only the executing one, is open. |
| Governance.ClosureAccepted | src/instruction/close_transaction.rs:35-106 | Closing a proposal is accepted if and only if it is open, has ended, and its rent goes to the stored destination; the counter check cannot fail. |
| Governance.MultisigClosedLast | src/instruction/config_action.rs:391-407 | The account is closed by a vote only when the executing proposal is the sole open one, and by the authority only when none is open. |
| Governance.ConfigurationAuthorised | src/instruction/set_config.rs:36-58 | The configuration changes, the stale index moves, or the account closes, only by executing a proposal approved by its full threshold or by the named authority's signature; then every proposal is stale. |
| Governance.ControlledChangeIsAuthorityUnlessVoted | src/state/multisig.rs:31-38 | A change of a controlled multisig is the authority's, and signed by it, if and only if the instruction is not an execution. |
| Governance.VotesIgnoreAuthority | src/instruction/config_action.rs:73-118 | Whether a voted action succeeds, and what it then does, is the same whatever the config authority is; one that sets the authority has the very same outcome. |
| Invariant.ReachableInv | src/entrypoint.rs:51-65 | The inductive invariant holds in every state any sequence of instructions reaches from any successful initialisation. |
| Invariant.StepKeeps | src/entrypoint.rs:51-65 | Every instruction, successful or not, keeps the invariant. |
| Invariant.StartEstablishes | src/instruction/init_multisig.rs:60-171 | A successful initialisation establishes it. |
| Invariant.VoteKeepsInv | src/instruction/vote.rs:78-105 | Approvals, rejections and cancellations keep it, with the signer's evidence added to the history. |
| Invariant.ExecuteKeepsInv | src/instruction/execute.rs:93-316 | Execution keeps it, whatever configuration actions the message carries. |
| Invariant.CreateKeepsInv | src/instruction/create_transaction.rs:147-170 | Creation keeps it: the new index is fresh and its snapshot is the rules in force. |
| Invariant.PromoteKeepsInv | src/instruction/create_from_buffer.rs:76-128 | Promotion from a buffer keeps it. |
| Invariant.CloseKeepsInv | src/instruction/close_transaction.rs:37-93 | Closing a proposal keeps it: one fewer open, one more counted. |
| Invariant.SetConfigKeepsInv | src/instruction/set_config.rs:41-58 | A change by the authority keeps it: no snapshot stays current. |
| Invariant.BufferKeepsInv | src/instruction/buffer.rs:55-229 | Buffer instructions keep it. |
| Invariant.RunEvolves | src/instruction/execute.rs:262-277 | Any run of configuration actions inside one execution leaves a valid account that is unchanged or has made all proposals stale, and closes it only if the executing proposal was the sole open one. |
| Invariant.EvidenceGrows | src/instruction/approve.rs:46-58 | After any step the bits set are still exactly the owners who signed. |
| Invariant.QuietMeansUnsigned | src/instruction/create_transaction.rs:206-224 | A proposal without steps has no signers, so its clear bitmaps are exact. |
| ProposalLaws.ApproveExact | src/instruction/approve.rs:33-60 | For any proposal and account satisfying their invariants: exactly when an approval succeeds, and that it adds one bit, keeps counts and phase, and latches with the clock exactly at the threshold. |
| ProposalLaws.RejectExact | src/instruction/reject.rs:29-56 | The same for a rejection, which ends the proposal exactly at the cutoff. |
| ProposalLaws.CancelExact | src/instruction/cancel.rs:40-92 | The same for the two cancel paths; what was approved is cancelled exactly at the threshold. |
| ProposalLaws.CreateKeeps | src/instruction/create_transaction.rs:135-227 | Creation reserves the next index and stores at it the creator given, the header and message given, the current owner count and no votes; the proposal satisfies its invariant against the current rules. |
| ProposalLaws.VotesBound | src/state/transaction.rs:262-275 | Approvals and rejections together, and cancellations, are at most the voter count. |
| ProposalLaws.CheckedSucceeds | src/state/transaction.rs:258-285 | The header check after a step cannot fail on a proposal satisfying the invariant. |
| PermissionEffects.AddOwnerGrants | src/instruction/config_action.rs:164-234 | Adding an owner gives exactly that owner every permission, changes nobody else's, and raises the voter count by one without wrapping. |
| PermissionEffects.RemoveOwnerRevokes | src/instruction/config_action.rs:245-307 | Removing an owner takes every permission from exactly that owner and lowers the voter count exactly if they could vote. |
| PermissionEffects.SetPermissionDecides | src/instruction/config_action.rs:338-372 | Setting a mask decides exactly that owner's permissions, by the table of `MaskMeaning.MaskTable`, and changes nobody else's. |
| MultisigSpec.ActionKeepsRules | src/instruction/config_action.rs:73-118 | Every action, by either path, keeps every configuration rule and, unless it closes the account, makes all existing proposals stale. |
| MultisigSpec.AddThenRemove | src/instruction/config_action.rs:169-307 | Adding then removing an owner restores owners, masks and voter count. |
| MultisigSpec.RemoveThenAdd | src/instruction/config_action.rs:169-307 | Removing then adding an owner restores the owner list always, and the rules if and only if the mask was the default. |
| OwnerBytes.TailIsImage | src/state/multisig.rs:75-109 | The tail's bytes are the image of owners and masks if and only if loading it yields them. |
| OwnerBytes.CopyWithin | src/instruction/config_action.rs:203-210 | Moved one byte at a time in the direction that keeps ahead of the overlap, every byte arrives as it was before the move, for any two ranges. |
| OwnerBytes.InsertMovesRefine | src/instruction/config_action.rs:198-212 | For every owner count, position and tail, the three overlapping moves and two writes leave exactly the image of inserting the owner and a zero mask at that position. |
| OwnerBytes.RemoveMovesRefine | src/instruction/config_action.rs:277-291 | The three moves before the shrink, then truncation, leave exactly the image of deleting that position from both regions. |
| MultisigAccounts.MultisigAccount.OpenGaps | src/instruction/config_action.rs:198-212 | The in-place moves on the grown tail insert in both regions. |
| MultisigAccounts.MultisigAccount.CloseGaps | src/instruction/config_action.rs:277-291 | The in-place moves on the tail, cut to its new length, delete in both regions. |
| MultisigAccounts.MultisigAccount.AddOwner | src/instruction/config_action.rs:169-234 | The in-place insertion refines sorted insertion on values, with the same errors; the neighbour check never fails. |
| MultisigAccounts.MultisigAccount.CheckNeighbours | src/instruction/config_action.rs:217-226 | On a set whose other owners are in order, the two comparisons decide whether the whole set is. |
| OwnerSet.NeighboursDecideOrder | src/instruction/config_action.rs:217-226 | With all but one owner in order, the set is strictly ascending if and only if that one is in order with its neighbours. |
| MultisigAccounts.MultisigAccount.RemoveOwner | src/instruction/config_action.rs:251-307 | The in-place removal refines removal on values, with the same errors. |
| MultisigAccounts.MultisigAccount.SetPermission | src/instruction/config_action.rs:339-372 | The in-place mask change, with its maintained voter count, refines the value-level one. |
| MultisigAccounts.MultisigAccount.CloseMultisig | src/instruction/config_action.rs:380-431 | The account is closed exactly when the value-level guard passes. |
| MultisigAccounts.MultisigAccount.ApplyConfigAction | src/instruction/config_action.rs:73-118 | The dispatch over all eight actions refines the value-level function, with the same errors. |
| OwnerSet.BinarySearch | src/state/multisig.rs:161-167 | On an ascending set the search finds an owner exactly when present, at their only position, and otherwise the insertion position. |
| OwnerSet.InsertAscending | src/instruction/config_action.rs:217-226 | Inserting an absent owner at their rank keeps the whole set strictly ascending. |
| OwnerSet.NeighboursAscending | src/instruction/init_multisig.rs:117-123 | Neighbour-wise order is global order, so the one-pass scan is enough. |
| OwnerSet.CountVotersUpdate | src/instruction/config_action.rs:358-369 | Stepping the voter count on a mask change equals a recount. |
| OwnerSet.CountVotersRemove | src/instruction/config_action.rs:293-297 | Stepping it on a removal equals a recount. |
| OwnerSet.CountVotersInsert | src/instruction/config_action.rs:214-215 | Stepping it on an insertion equals a recount. |
| OwnerSet.VotersCount | src/state/multisig.rs:188-191 | The recount is the number of positions permitted to vote. |
| Lifecycle.CheckSorted | src/instruction/init_multisig.rs:117-123 | The scan accepts exactly the strictly ascending owner sets. |
| Lifecycle.ProcessInitMultisig | src/instruction/init_multisig.rs:60-171 | The handler builds exactly the specified account, with the same errors in the same order. |
| InitSpec.InitEstablishes | src/instruction/init_multisig.rs:148-171 | A new account satisfies every configuration rule and has no proposals. |
| Lifecycle.ProcessInitProposal | src/instruction/create_transaction.rs:123-228 | The shared creation step reserves the index, stores the header, clear bitmaps and message, with the same errors. |
| Lifecycle.ProcessCreateTransaction | src/instruction/create_transaction.rs:63-115 | The handler refines creation on values. |
| Lifecycle.ProcessCloseTransaction | src/instruction/close_transaction.rs:26-107 | The handler refines closure on values. |
| Lifecycle.ProcessSetConfig | src/instruction/set_config.rs:27-59 | The handler refines the authority's path on values. |
| ProposalAccounts.PrepareVote | src/instruction/vote.rs:40-74 | The shared guards return exactly the specified voter or error. |
| Safety.VotableIffFresh | src/instruction/vote.rs:76-104 | In a reachable state, of the four checks every vote shares only two can fail: for any voter the guards admit, a stored proposal is votable if and only if it has the expected status and is above the stale index. |
| ProposalAccounts.ProposalAccount.Mark | src/instruction/approve.rs:50-52 | Setting a bit in one bitmap inserts the position there, reports whether it was clear, and leaves the other two bitmaps alone. |
| ProposalAccounts.ProcessApprove | src/instruction/approve.rs:28-61 | The handler on bytes refines approval on sets of positions, with the same errors. |
| ProposalAccounts.ProcessReject | src/instruction/reject.rs:24-57 | The handler refines rejection. |
| ProposalAccounts.ProcessCancel | src/instruction/cancel.rs:30-93 | The handler refines cancellation. |
| Bitmap.LenFor | src/state/bitmap.rs:10-13 | The bitmap length is the least number of bytes with a bit for each owner. |
| Bitmap.Set | src/state/bitmap.rs:26-37 | Setting a bit in place is set insertion, reports exactly whether the bit was in range and clear, and changes no other byte. |
| Bitmap.SetInserts | src/state/bitmap.rs:26-37 | Or-ing the mask into one byte adds exactly that member. |
| Bitmap.CountIsCardinality | src/state/bitmap.rs:39-42 | The sum of byte popcounts is the cardinality of the set. |
| MessageCodec.RoundTrip | src/client.rs:176-207 | Decoding an encoded message gives it back if and only if it is well formed within its length prefixes. |
| MessageCodec.Canonical | src/state/message.rs:132-229 | Every accepted blob is the encoding of what it decodes to. |
| MessageCodec.EncodeInjective | src/client.rs:176-207 | Two well-formed messages with one encoding are equal. |
| MessageCodec.PrefixFree | src/state/message.rs:196-201 | No strict extension of an accepted blob is accepted. |
| MessageParser.Cursor.Take | src/state/message.rs:103-112 | Taking bytes advances by exactly their number or fails and stays. |
| MessageParser.Cursor.ReadInstruction | src/state/message.rs:310-325 | Reading one instruction agrees with the format and leaves exactly the rest. |
| MessageParser.Cursor.ReadLookup | src/state/message.rs:343-361 | Reading one lookup agrees with the format and leaves exactly the rest. |
| MessageParser.WalkFindsInstructions | src/state/message.rs:294-325 | Walking the instruction slice with no count yields exactly the counted instructions, none failing. |
| MessageParser.WalkFindsLookups | src/state/message.rs:327-361 | Walking the lookup slice with no count yields exactly the counted lookups. |
| MessageParser.InstructionIter.Next | src/state/message.rs:298-308 | The iterator ends exactly when nothing remains. |
| MessageParser.LookupIter.Next | src/state/message.rs:331-341 | The iterator ends exactly when nothing remains. |
| MessageParser.SkipLookups | src/state/message.rs:184-196 | The loop's running sums are the totals of the lookups passed over. |
| MessageParser.ValidateIndexes | src/state/message.rs:214-226 | The second pass accepts exactly when every program and account index is below the total. |
| MessageParser.Parse | src/state/message.rs:132-229 | The parser accepts exactly the blobs of the format and returns exactly the message's view. |
| MessageParser.EncodeMessage | src/client.rs:176-207 | The encoder's loops produce exactly the format. |
| AccountResolution.CheckAccounts | src/instruction/execute.rs:126-218 | The static scan and the two-cursor lookup loop report the first fault in program order, and accept if and only if the accounts are the static keys, then every table's writables, then every table's readonlys, then the right, active tables. |
| AccountResolution.ResolveIff | src/instruction/execute.rs:126-218 | Going through the tables with two cursors finds no fault exactly when the list is the one the message describes region by region. |
| AccountResolution.CheckOneTable | src/instruction/execute.rs:160-217 | One table's turn accepts exactly when the table is right and both cursors' windows hold its addresses. |
| AccountResolution.ConsumedAll | src/instruction/execute.rs:157-218 | After all tables both cursors stand on their boundaries and every position in between has been compared. |
| AccountResolution.OkGivesWindows | src/instruction/execute.rs:196-217 | On an admissible list no table's turn can fail. |
| AccountResolution.FlatHasPart | src/instruction/execute.rs:196-217 | Each table's part sits in the concatenation right after the parts before it. |
| AccountResolution.ExecuteAccounts | src/client.rs:215-244 | The client's loops list the specified accounts with the specified flags. |
| AccountResolution.ClientListIsAdmitted | src/client.rs:209-244 | Given active tables that hold the indexes, the program admits exactly the accounts the client lists, in that order. |
| AccountResolution.ClientPrivilegesAgree | src/client.rs:246-260 | The client's writable flag is the program's at every index. |
| ExecuteHandler.CallPrivilegesMatchClient | src/instruction/execute.rs:279-301 | An inner instruction gets the accounts it names, writable exactly as the client listed them, and signing only for static signer keys. |
| ExecuteHandler.LatchExecuted | src/instruction/execute.rs:47-118 | The guards and the status latch, before anything runs, with the same errors. |
| ExecuteHandler.RunInstructions | src/instruction/execute.rs:262-318 | The loop over instructions refines running them in order on values, with the same errors; every account index is in bounds. |
| ExecuteHandler.ProcessExecute | src/instruction/execute.rs:47-319 | The whole handler succeeds exactly when execution on values does, with that account and proposal, and fails with the same error. |
| ExecuteSpec.ProgramsInRange | src/instruction/execute.rs:262-303 | Every program and account index of an admitted message is among the accounts passed. |
| BufferSpec.ExtendAppends | src/instruction/buffer.rs:181-196 | An extension appends its chunk and changes nothing written before. |
| BufferHandlers.ProcessBufferCreate | src/instruction/buffer.rs:55-147 | The handler stores the first chunk, zeroes after it, and the commitments, with the same errors. |
| BufferHandlers.ProcessBufferExtend | src/instruction/buffer.rs:155-197 | The handler writes the chunk in place as the value-level extension does. |
| BufferHandlers.ProcessCreateFromBuffer | src/instruction/create_from_buffer.rs:47-129 | The handler refines promotion on values, with the same errors. |
| ChunkedUpload.BuffersHoldUploads | src/instruction/buffer.rs:130-196 | In every reachable state a buffer exists exactly while an upload is in progress, and it is exactly the chunks sent since its creation, in order, with its creator's commitments. |
| ChunkedUpload.PromotionIsCreation | src/instruction/create_from_buffer.rs:76-125 | Promotion is accepted if and only if the buffer is its creator's, complete and hashes as promised, and direct creation of the concatenated chunks would be; it leaves the same multisig and the same proposal. |
| LookupTables.ResolvedByPosition | src/instruction/execute.rs:126-218 | Given the addresses each table's data holds after its first 56 bytes, the accounts are accepted if and only if the first are the message's keys in order, each table is the one named, owned by the table program and never deactivated, and every later account is the address its index picks, writable picks first. |
| LookupTables.WindowAccepted | src/instruction/execute.rs:195-217 | For any table whose data is 56 bytes and then a list of addresses, in order, a window of accounts is accepted if and only if the account at each place is the address at that index of the list. |
| LookupTables.WindowFault | src/instruction/execute.rs:200-213 | The fault reported for a window is its first: an index past the list, or a wrong account. |
| LookupTables.TableAccepted | src/instruction/execute.rs:164-190 | A table is accepted if and only if its address is the one named, its owner the lookup table program, and its bytes 4 to 11 all 255; each failure has its own error. |
| LookupTables.ShortListRefused | src/instruction/execute.rs:126-156 | Too few accounts for the keys, a wrong static key, and no room for the tables are refused in that order, each with its error. |
| MaskMeaning.MaskTable | src/state/permission.rs:10-19 | Masks 0, 1, 3, 5, 7 let an owner initiate, 0, 2, 3, 6, 7 vote, and 0, 4, 5, 6, 7 execute, and no other mask up to 7 does. |
| MaskMeaning.SetMaskCarries | src/instruction/config_action.rs:338-372 | Action 5 is accepted if and only if the mask is at most 7 and the owners whose masks let them vote still reach the threshold; then that owner carries the mask, everybody else what they carried, the voter count is stepped by the two masks, and no other rule changes. |
| MaskMeaning.VotersByMask | src/state/multisig.rs:188-191 | In every reachable state the voter count is the number of owners with mask 0, 2, 3, 6 or 7. |
| MaskMeaning.VoteByMask | src/instruction/vote.rs:60-64 | In a reachable state an owner who has not voted may approve, and may reject, a fresh open Active proposal if and only if their mask is 0, 2, 3, 6 or 7. |
| MaskMeaning.CancelVoteByMask | src/instruction/cancel.rs:67-76 | Likewise for a first vote to cancel a fresh open Approved proposal. |
| MaskMeaning.CreateByMask | src/instruction/create_transaction.rs:154-160 | With a message that parses and fits, at most four ephemeral signers, a free index, a vacant account and the runtime's leave, an owner who signs may create if and only if their mask is 0, 1, 3, 5 or 7. |
| MaskMeaning.ExecuteByMask | src/instruction/execute.rs:69-71 | Of an open Approved proposal whose lock has passed and whose instructions run through, an owner who signs may be the executor if and only if their mask is 0, 4, 5, 6 or 7. |
| ActionEffects.TimeLockSet | src/instruction/config_action.rs:321-330 | For every number below 2^32 and its four bytes, low byte first, action 3 stores that number and makes every proposal stale, by either path, if it is at most 7776000, and is refused otherwise. |
| ActionEffects.ThresholdSet | src/instruction/config_action.rs:310-319 | Likewise action 2 for the threshold, from 1 to the voter count. |
| ActionEffects.KeysSet | src/instruction/config_action.rs:104-117 | Actions 4 and 7 store the rent collector and the authority, change nothing else but the stale index, and never fail. |
| ActionEffects.OwnerAdded | src/instruction/config_action.rs:169-234 | Action 0 is accepted if and only if the address is no owner, there are fewer than 4096 and the runtime agrees; then the owners and their masks are those before and that one with mask 0, the voter count is one more, and no other rule changes; each refusal has its error. |
| ActionEffects.OwnerRemoved | src/instruction/config_action.rs:251-307 | Action 1 on an owner is accepted if and only if the voters left reach the threshold and the runtime agrees; then the owners and masks are the others', unchanged; each refusal has its error. |
| ActionEffects.MultisigClosed | src/instruction/config_action.rs:380-431 | Action 6 closes the account if and only if every proposal, or by vote all but one, is closed, there is no rent collector or it is the destination, and the runtime agrees; each refusal has its error. |
| ActionEffects.MalformedRefused | src/instruction/config_action.rs:54-83 | No data, a first byte above 7 and a payload of a length other than its action's are refused. |
| ActionEffects.AuthorityActs | src/instruction/set_config.rs:27-59 | In a reachable state the authority's instruction succeeds if and only if there is an authority, it signed and the action is accepted, and it leaves the account as the action does and the rest alone. |
| ActionEffects.OpeningStores | src/instruction/init_multisig.rs:89-171 | Given both signatures, a vacant account and the runtime's leave, an instruction carrying a threshold, an authority and owners opens a multisig if and only if the owners are 1 to 4096, each less than the next at the first byte where they differ, and can reach the threshold; it stores exactly those, mask 0 for each owner, and zeros; otherwise the error says which failed first. |
| ActionEffects.OrderIsFirstDifference | src/instruction/init_multisig.rs:117-123 | One address comes before another if and only if it has the smaller byte at the first place they differ. |
| Provenance.CreationStores | src/instruction/create_transaction.rs:201-227 | Every accepted creation stores, at the next index, its signer as creator, its first four bytes as vault, vault bump, bump and ephemeral count, the next four as ephemeral bumps, the rest as the message, and no votes; and changes nothing else but the counter. |
| Provenance.PromotionStores | src/instruction/create_from_buffer.rs:27-39 | Every accepted promotion stores its signer, the buffer's vault, its own seven bytes as bump, vault bump, ephemeral count and bumps, and the buffer's bytes, and takes the buffer away. |
| Provenance.CreatorSigned | src/state/transaction.rs:114-120 | In every reachable state the proposals are numbered from 1 in the order of the successful creations and promotions, and the creator stored with each is the signer of the one with its number. |
| Provenance.WithdrawnByOpener | src/instruction/cancel.rs:54-65 | In every reachable state an open Active proposal is withdrawn if and only if the signer of the opening with its number signs an empty instruction, is still an owner and the proposal is fresh; it only becomes Cancelled. |
| Provenance.RentGoesTo | src/instruction/close_transaction.rs:71-92 | In every reachable state an open proposal is closed if and only if it is Executed, Rejected or Cancelled, the instruction is empty, the runtime agrees, and the rent goes to the collector, or, where that is all zeros, to the signer of the opening with its number. |
| Provenance.BufferOpened | src/instruction/buffer.rs:55-147 | A buffer is opened if and only if an owner who may initiate signs, with a length of at most 4096 in bytes 32 to 35, a first chunk that fits, and no buffer of theirs with the index in byte 36; it stores the hash, length, index, vault, bump and chunk from their places, and zeros after. |
| Provenance.BufferExtended | src/instruction/buffer.rs:155-197 | In a reachable state a buffer takes a chunk if and only if whoever opened it signs and it is not empty and fits; the chunk goes right after what was written and nothing else changes. |
| Provenance.BufferClosed | src/instruction/buffer.rs:204-235 | In a reachable state a buffer is closed if and only if whoever opened it signs, the instruction is empty and the runtime agrees. |
| Provenance.PromotionAccepted | src/instruction/create_from_buffer.rs:47-129 | In a reachable state a buffer is promoted if and only if whoever opened it signs and may initiate, it is complete, has the promised hash and parses, at most four ephemeral signers are asked for, an index is free, and the runtime agrees. |
| CallPrivileges.CallPrivilegesCounted | src/instruction/execute.rs:281-293 | For every well-formed message each account an inner call names is passed as writable if and only if it is among the first writable signers, the first writable non-signers, or the writable picks of the tables, as many as the header and the lookups count; and as signing if and only if it is among the signers. |
| CallPrivileges.ListedPrivilegesCounted | src/client.rs:215-260 | The client lists each account with the same counted writable flag, none signing, the static keys and the tables with their own addresses. |
| CallPrivileges.WritableKeysCounted | src/state/message.rs:261-283 | Exactly as many static keys are writable as the header counts, and no readonly signer is one of them. |
| WireFormat.HeaderLaidOut | src/client.rs:177-188 | The encoding starts with the six counts, each modulo 256, and the keys, 32 bytes each, and is as long as its parts. |
| WireFormat.InstructionLaidOut | src/client.rs:190-196 | Each instruction stands where the ones before it end: program, account count, accounts, data length with the low byte first, data. |
| WireFormat.LookupLaidOut | src/client.rs:198-204 | Each lookup stands where the ones before it end: the table's key, then each index list after its length. |
| WireFormat.AcceptedExactly | src/state/message.rs:132-229 | Of messages whose lengths fit their prefixes, the encoding of one is accepted, and read as that message, if and only if its signers are among its keys, its writable signers among its signers, its writable non-signers among its other keys, and every index below the number of keys; anything else is refused. |
| StoredLayout.VotesStored | src/state/transaction.rs:14-23 | The votes are three maps of one bit per owner rounded up to bytes, approvals, rejections, cancellations, with the owner at position k in bit k modulo 8, lowest first, of byte k / 8. |
| StoredLayout.StatusStored | src/state/transaction.rs:34-63 | The status byte is 0 to 4 for Active, Approved, Rejected, Executed, Cancelled. |
| ExecutionTrace.RunsAlongTrace | src/instruction/execute.rs:262-318 | A run of instructions ends with an account if and only if there is a sequence of accounts from the first to it along which each instruction in turn has at most 32 accounts and either is this program's and applies its action, paid by the executor, or is external, accepted, and changes nothing. |
| ExecutionTrace.FailsAtFirst | src/instruction/execute.rs:268-315 | A run fails with the fault of the first instruction that cannot go on from the account the ones before it left: too many accounts, a refused action's error, or a refused call. |
| Refusals.VoteRefused | src/instruction/vote.rs:48-102 | A refused approval or rejection of an open proposal fails, in this order, for data, signature, ownership, permission, status, staleness, or an earlier vote, and for nothing else. |
| Refusals.CancellationRefused | src/instruction/cancel.rs:41-90 | A refused cancellation fails, in order, for data, signature, ownership, status, staleness, and then as a withdrawal for not being the creator's, or as a vote for permission or an earlier vote. |
| Refusals.ExecutionRefused | src/instruction/execute.rs:56-318 | A refused execution fails, in order, for data, signature, permission, status, the clock's range, the time lock, the accounts' first fault, or the first instruction that fails. |
| Refusals.CreationRefused | src/instruction/create_transaction.rs:79-192 | A refused creation fails, in order, for signature, an account in use, length or ephemeral count, message, ownership, permission, the last index, or the runtime. |
| Refusals.PromotionRefused | src/instruction/create_from_buffer.rs:67-125 | A refused promotion fails, in order, for length, signature, an account in use, somebody else's buffer, completeness, hash, and then as a creation does. |
| Refusals.ClosureRefused | src/instruction/close_transaction.rs:26-107 | A refused closure of an open proposal fails, in order, for data, destination, a status that has not ended, or the runtime. |
| Refusals.AuthorityRefused | src/instruction/set_config.rs:36-58 | A refused change by the authority fails, in order, for signature, there being no authority, being somebody else, or as the action does. |
| Refusals.BufferOpeningRefused | src/instruction/buffer.rs:62-103 | A refused opening of a buffer fails, in order, for signature, an account in use, length, message size, ownership, permission, or the runtime. |
| Refusals.BufferUseRefused | src/instruction/buffer.rs:164-229 | A refused extension or closure of a buffer fails for the first thing wrong among signature, data, creator, and size or the runtime. |

## Left out

- Closing.MultisigClosesIff: asks that no stale Approved proposal is open. With one open, whether the
  multisig can be closed turns on whether its message can still run: `Stranding.StaleApprovedClosesIff`
  decides that for messages to other programs, and `Stranding.StrandedForever` for those that never run;
  one that carries actions of this program may change the configuration, and its own chances, as it runs.
- Closing.MultisigClosesIff: for an autonomous multisig asks for an owner who may initiate and two free
  indexes. Without them closing turns on which messages the proposals already open happen to carry.
- External calls themselves, signer seeds, derived addresses and bumps: runtime behaviour. Inner calls
  to other programs are steps that leave these accounts alone.
- Unsafe casts, alignment checks and borrow discipline: an account is a class whose `Valid()`
  is the length check.
- SHA-256: a parameter of the run; nothing is assumed about it.
- Rent and lamport moves, including the refunds of `close_transaction`, `buffer_close` and
  `settle_rent`: whether one is accepted is a parameter of the step.
- The handler of `buffer_close`: beyond its guards, which are the function `CloseBuffer`, it moves lamports.
- Reopening a closed multisig under the same key, and passing an account of one type for another.
- The checks that enough accounts were passed to a handler, that the system program's address is right
  and that an account belongs to this program: typed accounts take their place.
- The entrypoint's dispatch table and error numbers, the client's instruction builders other than the
  message encoder and the account list, and the benchmarks.
