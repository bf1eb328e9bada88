# Flexible Paxos, verified

A Dafny model of LibFPaxos: multi-instance Paxos with separate phase 1 and phase 2 quorum sizes `q1` and `q2`,
three kinds of acceptor that differ in what they write to disk, and the data structures underneath. Every main result
holds for any number of acceptors, proposers, learners, instances and steps.

## How it is organised

- `Types`, `Sets`, `Memory` – ballots, epoch ballots (`Round`), messages, the configuration, the acceptors' store.
- `Voting` – the argument for agreement, stated once over the set of messages ever sent. Every protocol variant only
  has to show that its messages satisfy `VotingInv`.
- Protocol without epochs – `StandardAcceptor`, `WriteAheadAcceptor`, `StandardProposer`, `Learner` are the steps of
  each role on values; `…Proof` modules show what each step keeps; `ClassicSystem` is the state machine (standard and
  write-ahead acceptors in any mix), `ClassicSafety` the theorems about every run.
- `AcceptorAnswers`, `EpochAcceptorAnswers`, `ProposerHistory`, `EpochProposerHistory`, `LearnerOrder`,
  `EpochLearnerOrder`, `ValueOrder` – the other half of safety: what each role must do. Each tells the state and the
  answers of a role from the messages it received and sent, in every run and in both directions, without reference to
  the handlers.
- `WriteAheadWindow`, `WriteAheadRefinement` – the window of promises written ahead, the refinement of an acceptor
  that syncs every promise, and the bound on disk writes.
- Protocol with epochs – `EpochAcceptor`, `EpochProposer`, `EpochLearner`, `EpochNet`, `EpochSystem`, `EpochSafety`.
- Objects – `KHash` is the hash table over its three arrays, `IidTable` that table keyed by instance,
  `HashMappedMemory` the acceptors' store on three of them, `PhaseTables` the proposers' tables. The acceptors,
  proposers and learners of the `…Object` modules keep their state in these and update it in place with the loops of
  the source; each method is proved equal to the step on values (`View()`) that the theorems are about, so those
  theorems reach down to the buckets. `Quorum`, `CArray` and `ValueManager` are classes of the same kind. `Probing`
  and `KHashSpec` hold the mathematics of the hash table.
- `BallotGiver` – drawing ballots, with 32-bit arithmetic written out.
- `Departures` – the places where the code does not do what it says, step by step. `PreemptionAsWritten`,
  `PreemptionSafety`, `PreemptionFailure` and `EpochRecovery` – the runs of the system as written.

Messages live in a set that never shrinks. A message can be received any number of times, in any order, or never,
which covers loss, duplication and reordering. Acceptors may crash between any two steps. The disk is an atomic map:
a transaction commits as a whole, and a failed commit is a crash before it. The client value a proposer would be
handed, the ballot the ballot giver would draw and the clock are parameters of the step.

## Where the model takes the stated intent instead of the code

In each case `Departures` holds the step as written, an input on which it fails, and a lemma saying exactly when it
agrees with the intent. For the three that cost agreement most directly the whole system is run as written, and it is
proved for every valid configuration whether some run decides an instance twice: the stale report of the standard
proposer and the lost votes of a restarted epoch acceptor do so wherever both kinds of quorum exist at all, the return
with q2 does so unless any two phase 2 quorums meet.

| code | intended step |
|---|---|
| `epoch_ballot_greater_than` compares ballots even when the left epoch is smaller | lexicographic order |
| an explicit epoch prepare is granted below the current epoch, without an earlier promise or with a higher ballot, and a vote is cast below it with a higher ballot | never below the current epoch |
| recovered epoch votes are converted but not stored, and their epochs are planted in the promise table | the votes are stored, and nothing else |
| after a preemption in phase 2 the last accepted ballot stays although its value was moved away | both are reset |
| the standard proposer returns to phase 1 with quorum size q2 | q1 |
| an epoch-only preemption neither adopts the epoch nor resets the count of equal reports | it does both |
| a vote above the stable promise leaves the stable promise lower (write-ahead acceptor) | the larger of the two is stored |
| the write-ahead trim point can move back | it is monotone |
| the trim lag is subtracted in unsigned arithmetic | in integers |

Epoch 0 is not among them. The proposer reads it as "epoch not known", and this is sound: the stored epoch reads as 0
on first boot (paxos/stable_storage_lmdb.c:552-573), so every acceptor starts in epoch 1, and `EpochSafety` proves that
nothing is ever promised, voted or announced in epoch 0.

Two more have no lemma of their own: `value_proposal_manger_get_next` reaches its end without a return value when it
starts the wait for a no-op (modelled as "nothing to propose"), and the renewal of flagged windows runs with no
transaction open (modelled as one atomic write).

## Model

| member | source | states |
|---|---|---|
| `Voting.Agreement` | paxos/standard_acceptor.c:114-299 | over the messages of either protocol, no instance is decided with two values |
| `Voting.CleanChosenForcesProposals` | paxos/writeahead_ballot_acceptor.c:795-796 | every proposal above a cleanly chosen round carries the chosen value |
| `Voting.ChosenIsSettled` | paxos/writeahead_ballot_acceptor.c:777-798 | whatever is chosen was chosen cleanly no later, although acceptors may vote below a promise once the instance was settled |
| `Voting.SettledForcesProposals` | paxos/writeahead_ballot_acceptor.c:795-796 | above a settled round only the settled value is proposed, so a lowered promise does no harm |
| `Voting.AddKeepsVoting` | paxos/standard_proposer.c:439-465 | any message that meets its sender's obligation keeps the voting invariant |
| `Voting.QuorumsMeet` | paxos.conf:67-71 | q1 + q2 above the number of acceptors makes every phase 1 quorum meet every phase 2 quorum |
| `Memory.Advance` | paxos/hash_mapped_memory.c:434-442 | the new bound is at most the instance just chosen, everything up to it is flagged, and it stops only at an unflagged instance |
| `Memory.StoreRoundTrip` | paxos/hash_mapped_memory.c:205-226 | splitting a record into promise and vote and joining it again loses nothing and touches no other instance |
| `Memory.RebuildRoundTrip` | paxos/hash_mapped_memory.c:355-368 | a store rebuilt from disk holds exactly the stable records above the trim point |
| `ClassicNet.AddKeepsNet` | paxos/standard_proposer.c:310-519 | sending one more justified message keeps everything claimed of all messages |
| `ClassicNet.QuorumIsChosenOK` | paxos/learner.c:189-231 | a phase 2 quorum of votes at one ballot justifies a chosen message and decides the instance |
| `StandardAcceptorProof.StepOK` | paxos/standard_acceptor.c:114-440 | every message handler keeps the disk's record of all promises and votes, the agreement of memory and disk, and the soundness of chosen flags and trim points, and answers only what may be sent |
| `StandardAcceptorProof.PrepareOK` | paxos/standard_acceptor.c:114-210 | a promise is at least every earlier one and reports the highest vote cast; refusals name a real trim, chosen value or higher promise |
| `StandardAcceptorProof.AcceptOK` | paxos/standard_acceptor.c:212-299 | a vote is never below a promise, and reaches disk and memory together |
| `StandardAcceptorProof.ChosenStepOK` | paxos/standard_acceptor.c:304-362 | a chosen message keeps the flags sound and the chosen prefix decided |
| `StandardAcceptorProof.TrimStepOK` | paxos/standard_acceptor.c:399-440 | trimming keeps everything claimed of untrimmed instances |
| `StandardAcceptorProof.RepeatOK` | paxos/standard_acceptor.c:365-397 | a repeated acceptance was really cast, a repeated chosen value is chosen |
| `StandardAcceptorProof.CrashOK` | paxos/standard_acceptor.c:61-94 | a restart loses no promise and no vote |
| `AcceptorAnswers.PreparesInEveryRun` | paxos/standard_acceptor.c:143-207 | in every run a standard acceptor promises a ballot for an open instance exactly when it is at least every ballot it promised or voted at there, and reports its highest vote; otherwise it names the highest of those ballots, which lies above the one asked for |
| `AcceptorAnswers.AcceptsInEveryRun` | paxos/standard_acceptor.c:212-299 | in every run it votes under exactly the same condition and refuses in the same way |
| `AcceptorAnswers.RepeatsInEveryRun` | paxos/standard_acceptor.c:365-397 | in every run a repetition names its highest vote for an open instance, and is refused exactly if it cast none |
| `AcceptorAnswers.FlagsInEveryRun` | paxos/standard_acceptor.c:304-362 | in every run, for standard and write-ahead acceptors, an untrimmed instance is flagged exactly if a chosen message for it arrived since the last crash |
| `AcceptorAnswers.FlaggedInEveryRun` | paxos/standard_acceptor.c:129-138 | in every run a flagged, untrimmed instance is answered with its decision, whatever was asked |
| `AcceptorAnswers.SelfTrimsInEveryRun` | paxos/standard_acceptor.c:340-360 | in every run a standard acceptor that learns the decision of an instance after all earlier ones trims itself up to it |
| `AcceptorAnswers.WaTrimsInEveryRun` | paxos/writeahead_ballot_acceptor.c:744-775 | in every run a write-ahead acceptor's trim point is the largest it was sent |
| `WriteAheadWindow.PrepareLocal` | paxos/writeahead_ballot_acceptor.c:518-600 | a promise leaves the stable promise at or above it and at most a window ahead, and lowers no stable promise |
| `WriteAheadWindow.AcceptLocal` | paxos/writeahead_ballot_acceptor.c:638-714 | so does a vote |
| `WriteAheadWindow.FlushLocal` | paxos/writeahead_ballot_acceptor.c:187-203 | renewing the flagged windows lowers no stable promise and changes nothing but the stable side |
| `WriteAheadWindow.CrashLocal` | paxos/writeahead_ballot_acceptor.c:225-242 | after a restart the volatile promise is the old stable one, the votes are unchanged, and new windows lower nothing |
| `WriteAheadWindow.ChosenLocal` | paxos/writeahead_ballot_acceptor.c:777-798 | a chosen message keeps the stable promise above the volatile one even when it lowers both |
| `WriteAheadWindow.FlaggedIff` | paxos/writeahead_ballot_acceptor.c:604-636 | a promise flags exactly its own instance, exactly when it comes within the catch-up distance of the stable promise |
| `WriteAheadWindow.FlushRenews` | paxos/writeahead_ballot_acceptor.c:187-203 | exactly the flagged instances get a full window ahead of their volatile promise |
| `WriteAheadWindow.CrashRenews` | paxos/writeahead_ballot_acceptor.c:163-184 | recovery gives every untrimmed instance up to the highest stored one a full window ahead of its stable promise |
| `WriteAheadAcceptorProof.StepOK` | paxos/writeahead_ballot_acceptor.c:518-798 | every handler answers only what may be sent; promises made are covered unless the instance was settled |
| `WriteAheadAcceptorProof.LoweredCovered` | paxos/paxos_message_conversion.c:240-251 | lowering a promise to the chosen ballot uncovers only promises of a settled instance |
| `WriteAheadAcceptorProof.VoteAboveChosen` | paxos/writeahead_ballot_acceptor.c:795-796 | a vote at or above a chosen ballot carries the chosen value |
| `WriteAheadAcceptorProof.RepeatOK` | paxos/writeahead_ballot_acceptor.c:716-742 | a repeated acceptance is a real vote or an excused one for a settled value |
| `WriteAheadAcceptorProof.CrashOK` | paxos/writeahead_ballot_acceptor.c:357-469 | a restart keeps every promise covered |
| `WriteAheadRefinement.Refines` | paxos/writeahead_ballot_acceptor.c:518-742 | until an instance is learned chosen, every reply to a prepare, an accept or a repeat request in every run with crashes is the reply of an acceptor that syncs each promise and may raise it at a crash |
| `WriteAheadRefinement.NoContradiction` | paxos/writeahead_ballot_acceptor.c:357-469 | no later vote goes below an earlier promise and no later promise hides an earlier vote, whatever crashed in between |
| `WriteAheadRefinement.RepeatsLatestVote` | paxos/writeahead_ballot_acceptor.c:716-742 | a repeated vote is at least every vote answered before, whatever crashed in between |
| `WriteAheadRefinement.VoteWasCast` | paxos/writeahead_ballot_acceptor.c:638-742 | from the first boot on, the vote on record, which a repeat names, was asked for and answered before |
| `WriteAheadRefinement.FewWrites` | paxos/writeahead_ballot_acceptor.c:544-565 | the k-th promise that costs a disk write lies at least k (window + 1) above the first |
| `WriteAheadRefinement.NoWriteNoSync` | paxos/writeahead_ballot_acceptor.c:547-565 | any other promise leaves the disk alone |
| `WriteAheadRefinement.StepLocal` | paxos/writeahead_ballot_acceptor.c:140-203 | every step keeps the window invariant, and only a chosen message lowers a stable promise |
| `StandardProposer.MinUnchosen` | paxos/standard_proposer.c:235-247 | the result is not chosen and everything before it from the start is |
| `StandardProposerProof.StepOK` | paxos/standard_proposer.c:310-716 | every handler keeps the quorum records backed by real promises and votes, and sends only safe messages |
| `StandardProposerProof.StartOK` | evpaxos/evproposer.c:163-203 | starting the next instance prepares an instance this proposer never touched |
| `StandardProposerProof.PromiseStepOK` | paxos/standard_proposer.c:310-379 | a counted promise is for the present ballot, and the kept report is the highest of the quorum |
| `StandardProposerProof.BeginAcceptOK` | paxos/standard_proposer.c:382-465 | the proposal is safe, unique for its ballot, and carries the highest reported value, or any value if none was reported |
| `StandardProposerProof.AcceptedStepOK` | paxos/standard_proposer.c:468-519 | a quorum of acceptances announces a chosen value that really is chosen |
| `StandardProposerProof.ChosenStepOK` | paxos/standard_proposer.c:522-568 | the trim point moves over decided instances only |
| `StandardProposerProof.PreemptedStepOK` | paxos/standard_proposer.c:606-680 | a preempted instance restarts above every ballot this proposer used for it |
| `StandardProposerProof.TrimStepOK` | paxos/standard_proposer.c:700-796 | a trim keeps the tables sound and never reopens a touched instance |
| `StandardProposerProof.ResendOK` | paxos/standard_proposer.c:798-821 | a timeout repeats the same prepare or the same proposal |
| `ProposerHistory.HistoryInEveryRun` | paxos/standard_proposer.c:310-716 | in every run, for every proposer: a started instance is open until it is trimmed or chosen; in phase 1 its quorum is exactly the acceptors whose promises of its ballot arrived and its report the highest of their first ones; in phase 2 its quorum is exactly the acceptors whose votes at its ballot arrived, always fewer than q2; no preemption of its ballot arrived; chosen and trim messages were taken in, what it counts as chosen was announced, and the largest chosen instance and the counter beyond the trim point are kept |
| `ProposerHistory.AnnouncesInEveryRun` | paxos/standard_proposer.c:504-515 | in every run the vote that makes q2 distinct acceptors at the present ballot closes the instance and announces it chosen |
| `ProposerHistory.ProposesInEveryRun` | paxos/standard_proposer.c:382-465 | in every run the proposal carries the value of the highest vote reported in first promises of the ballot, or the client's value exactly if none was, and nothing happens if there is neither |
| `ProposerHistory.ReturnsInEveryRun` | paxos/standard_proposer.c:606-649 | in every run a preemption of the present ballot reopens the instance in phase 1, empty, at the drawn ballot, and prepares it |
| `ProposerHistory.StartTells` | paxos/standard_proposer.c:271-307 | a start opens the next instance, sends its prepare, and moves the counter on by one, and by one more for each reason to skip |
| `ProposerHistory.ResendsInEveryRun` | paxos/standard_proposer.c:798-821 | in every run a timeout repeats the prepare of an unfinished phase 1 or the proposal of phase 2, and nothing else |
| `ProposerHistory.SelfTrims` | paxos/standard_proposer.c:563-566 | a proposer that learns the decision of an instance after all earlier untrimmed ones trims itself up to it |
| `LearnerProof.StepOK` | paxos/learner.c:164-231 | the counted quorum is backed by votes for one value, and a marked instance is decided with its value |
| `LearnerProof.DeliverOK` | paxos/learner.c:234-255 | delivery is in order, one instance at a time, with the decided value |
| `LearnerProof.AnnounceOK` | evpaxos/evlearner.c:73-93 | an announced trim point covers delivered instances only |
| `LearnerOrder.ChosenIffQuorum` | paxos/learner.c:145-231 | for every sequence of votes and chosen messages, an undelivered instance is marked exactly if a chosen message arrived, or the votes of q2 acceptors at one ballot before any vote at a higher one; while unmarked, its ballot is the highest that arrived and its quorum the acceptors heard there |
| `LearnerOrder.AnnouncedIff` | paxos/learner.c:206-226 | a vote is announced as chosen exactly if it completes that first quorum |
| `LearnerOrder.DeliversInOrder` | paxos/learner.c:234-255 | as many deliveries as there are marked instances in a row hand out their values in order, and none goes past an unmarked one |
| `LearnerOrder.TrimAnnouncedIff` | evpaxos/evlearner.c:73-93 | a trim point is announced exactly when something new was delivered and nothing marked lies beyond the instance that is due |
| `ClassicSafety.StepKeepsInv` | paxos/standard_acceptor.c:114-440 | every step of every role keeps the system invariant |
| `ClassicSafety.AgreementInEveryRun` | paxos/learner.c:189-231 | in every run, with crashes of standard and write-ahead acceptors, no instance is ever reported chosen with two values by anyone |
| `ClassicSafety.ProposalsInEveryRun` | paxos/standard_proposer.c:310-465 | in every run each ballot of an instance carries one value, that of the highest vote its promise quorum reported |
| `ClassicSafety.TrimsInEveryRun` | paxos/standard_proposer.c:748-796 | in every run every trim point held or sent covers decided instances only |
| `ClassicSafety.DeliveriesInEveryRun` | paxos/learner.c:164-255 | in every run a learner has delivered the decisions of instances 1, 2, 3, … without gaps, and any two learners' sequences are prefixes of one another |
| `ClassicSafety.MemoryAgreesInEveryRun` | paxos/standard_acceptor.c:163-175 | in every run memory and disk agree on every untrimmed instance not flagged chosen |
| `ClassicSafety.WindowInEveryRun` | paxos/writeahead_ballot_acceptor.c:140-203 | in every run the stable promise covers the volatile one, leads it by at most the window, and is what the disk holds |
| `ClassicSafety.StablePromisesInEveryRun` | paxos/writeahead_ballot_acceptor.c:140-242 | from every reachable state no promise, vote, renewal or recovery lowers a stable promise; only a chosen message can |
| `EpochAcceptor.VoteRoundTrip` | paxos/epoch_paxos_storage.c:72-93 | a vote stored as two maps reads back whole and touches no other instance |
| `EpochAcceptor.RecoveryRoundTrip` | paxos/epoch_paxos_storage.c:20-38 | recovery brings back exactly the votes on disk |
| `EpochAcceptor.BootIsRestart` | paxos/stable_storage_lmdb.c:552-573 | the first boot is a restart from an empty disk whose epoch reads as 0, so it stores epoch 1 |
| `EpochNet.AddKeepsNet` | paxos/epoch_proposer.c:431-618 | sending one more justified message keeps everything claimed of all messages |
| `EpochAcceptorProof.StepOK` | paxos/epoch_acceptor.c:167-610 | every handler keeps all promises and votes at or below the floor (stored epoch, last promise) and answers only what may be sent |
| `EpochAcceptorProof.PrepareOK` | paxos/epoch_acceptor.c:167-327 | a promise, in the own or a named epoch, is at least every earlier one and reports the highest vote cast |
| `EpochAcceptorProof.AcceptOK` | paxos/epoch_acceptor.c:329-451 | a vote is never below the floor, and reaches disk and memory together |
| `EpochAcceptorProof.ChosenStepOK` | paxos/epoch_acceptor.c:551-610 | a chosen value overwrites memory only where the flag then blocks the instance |
| `EpochAcceptorProof.CrashOK` | paxos/epoch_acceptor.c:53-115 | every promise a crash erases lies below the raised epoch |
| `EpochAcceptorProof.RepeatOK` | paxos/epoch_acceptor.c:454-493 | a repeated acceptance was really cast, a repeated chosen value is chosen |
| `EpochAcceptorProof.VotesRespectPromises` | paxos/epoch_acceptor.c:400-428 | a vote is at or above every promise of its acceptor for the instance |
| `EpochAcceptorAnswers.HistoryInEveryRun` | paxos/epoch_acceptor.c:53-240 | in every run the stored epoch is one more for every crash and raised exactly by notices and granted rounds, an open instance's promise is the ballot granted last since the last crash, and flags stand exactly for chosen messages received since then |
| `EpochAcceptorAnswers.PreparesInEveryRun` | paxos/epoch_acceptor.c:167-327 | in every run a prepare of an open instance is granted exactly when it is not below the floor (stored epoch, ballot granted last), with the highest vote cast, and refused with the floor otherwise; without an epoch it stands for the stored one |
| `EpochAcceptorAnswers.AcceptsInEveryRun` | paxos/epoch_acceptor.c:329-451 | in every run a proposal is voted for exactly when it is not below the floor, and refused with the floor otherwise |
| `EpochAcceptorAnswers.RepeatsInEveryRun` | paxos/epoch_acceptor.c:454-493 | in every run a repetition names the highest vote for an open instance, and is refused exactly if there is none |
| `EpochAcceptorAnswers.DecisionsInEveryRun` | paxos/epoch_acceptor.c:551-610 | in every run what an acceptor was told is decided it answers with the decision |
| `EpochAcceptorAnswers.SelfTrimsInEveryRun` | paxos/epoch_acceptor.c:585-606 | in every run an acceptor that learns the decision of an instance after all earlier ones trims itself up to it |
| `EpochProposerProof.StepOK` | paxos/epoch_proposer.c:431-981 | every handler keeps each promise quorum within one round and sends only safe messages |
| `EpochProposerProof.StartOK` | paxos/epoch_proposer.c:308-361 | starting an instance, with or without an epoch, touches one this proposer never touched |
| `EpochProposerProof.PromiseStepOK` | paxos/epoch_proposer.c:431-518 | promises of one round are counted, a higher epoch restarts the quorum there, and a value declared chosen is chosen |
| `EpochProposerProof.TallyCounts` | paxos/epoch_proposer.c:381-398 | counting one more promise keeps the count equal to the number of quorum members reporting the highest accepted round |
| `EpochProposerProof.ReportersDecide` | paxos/epoch_proposer.c:478-489 | q2 equal reports in phase 1 mean the value is chosen |
| `EpochProposerProof.BeginAcceptOK` | paxos/epoch_proposer.c:557-618 | the proposal is safe and unique for its round |
| `EpochProposerProof.AcceptedStepOK` | paxos/epoch_proposer.c:626-684 | a quorum of acceptances announces a chosen value that really is chosen |
| `EpochProposerProof.PreemptedStepOK` | paxos/epoch_proposer.c:757-906 | a preempted instance restarts in a round above every proposal this proposer made for it |
| `EpochProposerProof.ChosenStepOK` | paxos/epoch_proposer.c:693-754 | the trim point moves over decided instances only |
| `EpochProposerProof.ResendOK` | paxos/epoch_proposer.c:1006-1032 | a timeout repeats the same prepare or the same proposal |
| `EpochProposerHistory.HistoryInEveryRun` | paxos/epoch_proposer.c:431-906 | in every run, for every proposer and instance: a started instance is open until it is closed; in phase 1 its epoch is the highest named for its ballot since the phase was opened, its quorum exactly the acceptors whose promises of the present round arrived since, fewer than q2 reports are equal, and a round that rose has been asked for; in phase 2 its quorum is exactly the acceptors whose votes at the present round arrived, fewer than q2 |
| `EpochProposerHistory.FollowsInEveryRun` | paxos/epoch_proposer.c:494-516 | in every run a promise of the ballot in a higher epoch takes the instance there, counts its sender alone, and asks for the new round |
| `EpochProposerHistory.DetectsInEveryRun` | paxos/epoch_proposer.c:478-489 | in every run the promise that makes q2 equal reports of the highest vote closes the instance and announces that vote chosen |
| `EpochProposerHistory.AnnouncesInEveryRun` | paxos/epoch_proposer.c:660-684 | in every run the vote that makes q2 distinct acceptors at the present round closes the instance and announces it chosen |
| `EpochProposerHistory.ReturnsInEveryRun` | paxos/epoch_proposer.c:819-906 | in every run a preemption of the round in force by a higher ballot reopens phase 1 at the drawn ballot in the epoch named, one by a higher epoch alone takes the instance there, and the new round is asked for |
| `EpochProposerHistory.StartsInEveryRun` | paxos/epoch_proposer.c:308-361 | in every run a live next instance opens with the highest epoch known, or without one, and its prepare goes out |
| `EpochProposerHistory.ProposesInEveryRun` | paxos/epoch_proposer.c:557-618 | in every run the proposal carries a value reported for the highest vote, or the client's exactly if none was |
| `EpochProposerHistory.ResendsInEveryRun` | evpaxos/ev_epoch_proposer.c:526-543 | in every run a timeout repeats the prepare of an unfinished phase 1 or the proposal of phase 2, and nothing else |
| `EpochProposerHistory.ClosedInEveryRun` | paxos/epoch_proposer.c:693-754 | in every run received chosen and trim messages and epoch notices were taken in, the largest chosen instance is kept, and the counter is not behind the trim point |
| `EpochLearner.IndexOf` | paxos/epoch_learner.c:199-214 | the index of a record of that round, or the number of records if there is none |
| `EpochLearnerProof.StepOK` | paxos/epoch_learner.c:258-370 | every ballot record counts real votes for one value, and a marked instance is decided with the value of its record |
| `EpochLearnerProof.DeliverOK` | paxos/epoch_learner.c:373-393 | delivery is in order, one instance at a time, with the decided value |
| `EpochLearnerOrder.ChosenIffQuorum` | paxos/epoch_learner.c:186-332 | for every order and repetition of votes and chosen messages, an undelivered instance is marked chosen exactly when q2 distinct acceptors' votes at one epoch ballot arrived, or a chosen message; ballot records are pairwise distinct |
| `EpochLearnerOrder.OrderDoesNotMatter` | paxos/epoch_learner.c:258-332 | two learners fed the same votes and chosen messages, in any order, agree on what is chosen |
| `EpochLearnerOrder.AnnouncedIff` | paxos/epoch_learner.c:258-309 | a vote is announced as chosen exactly if it completes the first quorum |
| `EpochLearnerOrder.DeliversInOrder` | paxos/epoch_learner.c:373-393 | as many deliveries as there are marked instances in a row hand out their values in order, and none goes past an unmarked one |
| `EpochLearnerOrder.TrimAnnouncedIff` | evpaxos/ev_epoch_learner.c:43-75 | a trim point is announced exactly when something new was delivered and nothing marked lies beyond the instance that is due |
| `EpochSafety.StepKeepsInv` | paxos/epoch_acceptor.c:167-610 | every step of every role keeps the system invariant |
| `EpochSafety.AgreementInEveryRun` | paxos/epoch_acceptor.c:53-115 | in every run with restarts no instance is ever reported chosen with two values, although promises are never written |
| `EpochSafety.EpochsInEveryRun` | paxos/epoch_acceptor.c:66-74 | in every run nothing is promised, voted, chosen, preempted or announced in epoch 0 |
| `EpochSafety.OneRoundPerQuorumInEveryRun` | paxos/epoch_proposer.c:366-371 | in every run the test that reads epoch 0 as not known counts promises of one round only: none is counted while the epoch is 0, and afterwards exactly the promises of the current round pass |
| `EpochSafety.VotesRespectPromisesInEveryRun` | paxos/epoch_acceptor.c:400-428 | in every run no acceptor votes below an epoch ballot it promised, even when a crash erased the promise |
| `EpochSafety.EarlyDetectionInEveryRun` | paxos/epoch_proposer.c:455-489 | in every run the count of equal reports is exact, and what a proposer declares chosen from promises alone is chosen |
| `EpochSafety.TrimsInEveryRun` | paxos/epoch_acceptor.c:495-529 | in every run every trim point held or sent covers decided instances only |
| `EpochSafety.DeliveriesInEveryRun` | paxos/epoch_learner.c:373-393 | in every run learners deliver the decisions without gaps, as prefixes of one another |
| `Quorum.Quorum.Add` | paxos/quorum.c:67-76 | an acceptor is counted once; the count is the number of distinct acceptors heard from |
| `Quorum.Quorum.Clear` | paxos/quorum.c:52-57 | no acceptor is counted any more |
| `Quorum.Quorum.ResizeAndReset` | paxos/quorum.c:44-50 | no acceptor is counted any more and the size is the new one |
| `Quorum.Quorum.Reached` | paxos/quorum.c:78-82 | true exactly when at least the quorum size of distinct acceptors was heard from |
| `HashMappedMemory.FromRecords` | paxos/hash_mapped_memory.c:355-368 | storing the stable records one by one gives the rebuilt store |
| `HashMappedMemory.HashMappedMemory.SetChosen` | paxos/hash_mapped_memory.c:413-449 | the loop pushes the chosen prefix exactly as far as flags follow one another |
| `HashMappedMemory.HashMappedMemory.StoreInfo` | paxos/hash_mapped_memory.c:205-216 | promise and vote are stored, nothing else changes |
| `HashMappedMemory.HashMappedMemory.TrimBelow` | paxos/hash_mapped_memory.c:292-303 | exactly the instances below the cut-off are forgotten in all three tables |
| `HashMappedMemory.HashMappedMemory.GetInfo` | paxos/hash_mapped_memory.c:218-227 | the record joined from what the promise and accept tables hold |
| `PhaseTables.PhaseTables.MinReady` | paxos/standard_proposer.c:403-435 | the scan over the prepare table's buckets finds the smallest instance with a quorum that is not chosen, or that there is none |
| `PhaseTables.PhaseTables.MinUnchosen` | paxos/standard_proposer.c:235-247 | look-ups in the chosen table find the first unchosen instance |
| `PhaseTables.PhaseTables.RemoveBoth` | paxos/standard_proposer.c:543-561 | both phase tables lose the instance and nothing else changes |
| `PhaseTables.PhaseTables.ClosePreparing` | paxos/standard_proposer.c:700-717 | exactly the instances up to the trim point leave the table |
| `StandardAcceptorObject.Acceptor.ReceivePrepare` | paxos/standard_acceptor.c:114-210 | in place, the new state and answer are `OnPrepare`'s: a ballot at least the promise is written to disk and memory before it is promised with the last vote; otherwise the trim point, the chosen value or the higher promise is returned |
| `StandardAcceptorObject.Acceptor.ReceiveAccept` | paxos/standard_acceptor.c:212-299 | in place, the new state and answer are `OnAccept`'s: a granted vote replaces promise and vote on disk and in memory |
| `StandardAcceptorObject.Acceptor.ReceiveChosen` | paxos/standard_acceptor.c:304-362 | in place, the new state is `OnChosen`'s: flag, prefix and value in memory, the promise kept, then the acceptor trims itself |
| `StandardAcceptorObject.Acceptor.ReceiveTrim` | paxos/standard_acceptor.c:399-440 | in place, the new state is `OnTrim`'s: only a newer point within the own chosen prefix moves it, and only instances more than the lag below are forgotten |
| `StandardAcceptorObject.Acceptor.ReceiveRepeat` | paxos/standard_acceptor.c:365-397 | in place, the answer is `OnRepeat`'s: the chosen value if flagged, else the last vote if there is one |
| `StandardAcceptorObject.Acceptor.Restart` | paxos/standard_acceptor.c:61-94 | after a restart the memory is the one rebuilt from disk |
| `StandardAcceptorObject.Acceptor.Handle` | evpaxos/ev_standard_acceptor.c:64-170 | for every message the object takes the step that `ClassicSystem` takes |
| `WriteAheadAcceptorObject.Acceptor.WriteWindow` | paxos/writeahead_ballot_acceptor.c:140-157 | the stable record keeps its vote and gets a promise a window ahead of the given number |
| `WriteAheadAcceptorObject.Acceptor.CheckAndFlag` | paxos/writeahead_ballot_acceptor.c:604-636 | an instance close to its stable promise is flagged once |
| `WriteAheadAcceptorObject.Acceptor.ReceivePrepare` | paxos/writeahead_ballot_acceptor.c:518-600 | in place, the new state and answer are `OnPrepare`'s: a window write only above the stable promise, a flag only near it, the promise itself in memory |
| `WriteAheadAcceptorObject.Acceptor.ReceiveAccept` | paxos/writeahead_ballot_acceptor.c:638-714 | in place, the new state and answer are `OnAccept`'s: the vote in all stores, the stable promise the larger of old promise and ballot |
| `WriteAheadAcceptorObject.Acceptor.ReceiveChosen` | paxos/writeahead_ballot_acceptor.c:777-798 | in place, the new state is `OnChosen`'s: a ballot above the last vote replaces promise and vote everywhere, the flag is volatile |
| `WriteAheadAcceptorObject.Acceptor.RenewFlagged` | paxos/writeahead_ballot_acceptor.c:187-203 | the loop over the flagged instances renews each window from the volatile promise |
| `WriteAheadAcceptorObject.Acceptor.Restart` | paxos/writeahead_ballot_acceptor.c:357-469 | the stores are copied from disk and the recovery loop writes a window ahead of each stable promise |
| `WriteAheadAcceptorObject.Acceptor.Handle` | evpaxos/ev_write_ahead_ballot_acceptor.c:80-180 | for every message the object takes the step that `ClassicSystem` takes |
| `EpochAcceptorObject.EpochStore.StoreVote` | paxos/epoch_paxos_storage.c:72-79 | the vote and its epoch go to their two tables, nothing else changes |
| `EpochAcceptorObject.FromVotes` | paxos/epoch_paxos_storage.c:20-38 | storing the recovered votes one by one gives the recovered store |
| `EpochAcceptorObject.Acceptor.ReceiveStandardPrepare` | paxos/epoch_acceptor.c:167-225 | in place, the new state and answer are `OnStandardPrepare`'s: granted in the own epoch |
| `EpochAcceptorObject.Acceptor.ReceivePrepare` | paxos/epoch_acceptor.c:242-327 | in place, the new state and answer are `OnPrepare`'s: a higher epoch is stored before it is promised |
| `EpochAcceptorObject.Acceptor.ReceiveAccept` | paxos/epoch_acceptor.c:329-451 | in place, the new state and answer are `OnAccept`'s: epoch and vote on disk, promise and vote in memory |
| `EpochAcceptorObject.Acceptor.ReceiveChosen` | paxos/epoch_acceptor.c:551-610 | in place, the new state is `OnChosen`'s: flag, promise and vote in memory only, then the acceptor trims itself |
| `EpochAcceptorObject.Acceptor.ReceiveTrim` | paxos/epoch_acceptor.c:495-529 | in place, the new state is `OnTrim`'s, all four tables cut at the lag |
| `EpochAcceptorObject.Acceptor.RaiseEpoch` | paxos/epoch_acceptor.c:227-240 | the epoch on disk and in use rise together and never fall |
| `EpochAcceptorObject.Acceptor.Restart` | paxos/epoch_acceptor.c:53-115 | the stored epoch rises by one, votes are recovered, everything else is forgotten |
| `EpochAcceptorObject.Acceptor.Handle` | evpaxos/ev_epoch_acceptor.c:38-165 | for every message the object takes the step that `EpochSystem` takes |
| `StandardProposerObject.Proposer.MinUnchosen` | paxos/standard_proposer.c:235-247 | the loop finds the first unchosen instance after the trim point |
| `StandardProposerObject.Proposer.GetMinReady` | paxos/standard_proposer.c:403-435 | the scan finds the smallest instance with a promise quorum that is not chosen, if there is one |
| `StandardProposerObject.Proposer.TryAccept` | paxos/standard_proposer.c:438-465 | that instance moves to phase 2 with the value it must propose |
| `StandardProposerObject.Proposer.ReceivePromise` | paxos/standard_proposer.c:310-379 | in place, the new state is `OnPromise`'s: counted once per acceptor, the highest report kept |
| `StandardProposerObject.Proposer.ReceiveAccepted` | paxos/standard_proposer.c:468-519 | in place, the new state and announcement are `OnAccepted`'s: a quorum at the present ballot closes the instance |
| `StandardProposerObject.Proposer.ReceiveChosen` | paxos/standard_proposer.c:522-568 | in place, the new state is `OnChosen`'s: both tables drop the instance and the trim point follows the chosen prefix |
| `StandardProposerObject.Proposer.ReceivePreempted` | paxos/standard_proposer.c:606-649 | in place, the new state and prepare are `OnPreempted`'s: from either table the instance ends in phase 1, empty, at the new ballot |
| `StandardProposerObject.Proposer.ReceiveTrim` | paxos/standard_proposer.c:775-796 | both table scans drop exactly the trimmed instances |
| `StandardProposerObject.Proposer.TryStart` | paxos/standard_proposer.c:271-307 | in place, the new state and prepare are `TryStart`'s: each reason to skip advances the counter, and an unopened instance is opened with q1 |
| `StandardProposerObject.Proposer.Handle` | evpaxos/evproposer.c:251-364 | for every message, after the filter on the proposer identifier, the object takes the step that `ClassicSystem` takes |
| `EpochProposerObject.Proposer.ReceivePromise` | paxos/epoch_proposer.c:431-518 | in place, the new state and message are `OnPromise`'s: outdated, current and higher-epoch promises each take their branch |
| `EpochProposerObject.Proposer.CheckReport` | paxos/epoch_proposer.c:381-398 | the highest report is kept and equal ones are counted |
| `EpochProposerObject.Proposer.GetMinReady` | paxos/epoch_proposer.c:521-554 | the scan finds the smallest instance with a promise quorum that is not chosen, if there is one |
| `EpochProposerObject.Proposer.TryAccept` | paxos/epoch_proposer.c:590-618 | that instance moves to phase 2 with the value it must propose |
| `EpochProposerObject.Proposer.ReceiveAccepted` | paxos/epoch_proposer.c:626-684 | in place, the new state and announcement are `OnAccepted`'s: a quorum at the present epoch ballot closes the instance |
| `EpochProposerObject.Proposer.ReceiveChosen` | paxos/epoch_proposer.c:693-754 | in place, the new state is `OnChosen`'s: an instance that is not pending is only recorded |
| `EpochProposerObject.Proposer.ReceivePreempted` | paxos/epoch_proposer.c:819-906 | in place, the new state and prepare are `OnPreempted`'s: a higher ballot starts over, a higher epoch alone restarts the quorum, phase 2 always starts over |
| `EpochProposerObject.Proposer.ReceiveTrim` | paxos/epoch_proposer.c:909-981 | both table scans drop exactly the trimmed instances |
| `EpochProposerObject.Proposer.TryStart` | paxos/epoch_proposer.c:308-361 | in place, the new state and prepare are `TryStart`'s: trimmed and chosen instances are skipped, the prepare names an epoch exactly if one is known |
| `EpochProposerObject.Proposer.Handle` | evpaxos/ev_epoch_proposer.c:299-514 | for every message, after the filter on the proposer identifier, the object takes the step that `EpochSystem` takes |
| `LearnerObject.Learner.ReceiveAccepted` | paxos/learner.c:189-231 | in place, the new state and announcement are `OnAccepted`'s: a higher ballot restarts the count, a quorum marks the instance |
| `LearnerObject.Learner.ReceiveChosen` | paxos/learner.c:164-181 | in place, the new state is `OnChosen`'s: the announced value replaces an unfinished count |
| `LearnerObject.Learner.DeliverNext` | paxos/learner.c:234-255 | the next instance is handed out exactly if it is chosen |
| `LearnerObject.Learner.CheckHoles` | evpaxos/evlearner.c:73-93 | in place, a trim point is announced exactly when nothing chosen lies ahead and something new was delivered |
| `LearnerObject.Learner.Handle` | evpaxos/evlearner.c:121-168 | for every message the object takes the step that `ClassicSystem` takes |
| `EpochLearnerObject.FindRecord` | paxos/epoch_learner.c:199-214 | the scan finds the record of an epoch ballot |
| `EpochLearnerObject.Learner.ReceiveAccepted` | paxos/epoch_learner.c:258-332 | in place, the new state and announcement are `OnAccepted`'s: the vote is counted in the record of its epoch ballot |
| `EpochLearnerObject.Learner.ReceiveChosen` | paxos/epoch_learner.c:335-359 | in place, the new state is `OnChosen`'s: the record of the chosen epoch ballot is found or created and marked |
| `EpochLearnerObject.Learner.DeliverNext` | paxos/epoch_learner.c:373-393 | the next instance is handed out exactly if it is chosen |
| `EpochLearnerObject.Learner.Handle` | evpaxos/ev_epoch_learner.c:90-123 | for every message the object takes the step that `EpochSystem` takes |
| `Probing.ProbesDiffer` | paxos/include/khash.h:205-208 | over a power of two of buckets the first n triangular probes are pairwise different |
| `Probing.ProbesCover` | paxos/include/khash.h:205-208 | they reach every bucket |
| `Probing.FullCircle` | paxos/include/khash.h:207-207 | after 2n - 1 steps the walk is back at its start, which ends the loop |
| `Probing.RoundUpBitsRounds` | paxos/include/khash.h:144-146 | up to 2^31 the bit trick on 32-bit words is rounding up to a power of two |
| `KHashSpec.ExhaustedMeansAbsent` | paxos/include/khash.h:198-211 | a search that ends at an empty bucket or after a full circle proves the key absent |
| `KHashSpec.InsertKeeps` | paxos/include/khash.h:302-313 | filling a bucket on the key's probe path adds exactly that binding |
| `KHashSpec.DeleteKeeps` | paxos/include/khash.h:317-323 | marking a bucket deleted removes exactly its binding and breaks no other search |
| `KHashSpec.TakeKeeps` | paxos/include/khash.h:236-243 | taking a binding out of an old bucket leaves all others held exactly once |
| `KHashSpec.DropKeeps` | paxos/include/khash.h:245-258 | putting it into a free new bucket adds it exactly once, where searches find it |
| `KHash.Table.Get` | paxos/include/khash.h:198-211 | the bucket of the key's binding, or the end marker exactly if the key is absent |
| `KHash.Table.Resize` | paxos/include/khash.h:212-274 | the in-place rehash keeps the map, growing or shrinking; it refuses exactly when the bindings do not fit |
| `KHash.NewSizeBitsIff` | paxos/include/khash.h:217-218 | the 32-bit size computation gives the intended number of buckets exactly for requests up to 2^31 |
| `KHash.Table.KickOut` | paxos/include/khash.h:244-259 | the kick-out loop ends and neither loses nor duplicates a binding |
| `KHash.Table.Put` | paxos/include/khash.h:275-316 | the key is present afterwards and all other bindings are unchanged; the code is 0 exactly if it was there, 2 exactly if it took a bucket that was marked deleted and no rebuild intervened, 1 otherwise |
| `KHash.Table.FindSite` | paxos/include/khash.h:285-300 | the key's bucket, or a bucket that is not live on its probe path once the search is exhausted |
| `KHash.Table.SetValue` | paxos/include/khash.h:489-489 | storing through a bucket rebinds its key only |
| `KHash.Table.Delete` | paxos/include/khash.h:317-323 | a live bucket's binding is removed, anything else is a no-op |
| `KHash.Replay` | paxos/include/khash.h:198-323 | after any sequence of puts, deletes and resizes a look-up finds exactly the bindings of the finite map those operations define |
| `KHash.CloseBelow` | paxos/include/khash.h:526-532 | deleting while the buckets are being visited removes exactly the bindings below the cut-off |
| `KHash.Entries` | paxos/include/khash.h:526-532 | a visit of the buckets sees every binding and nothing else |
| `IidTable.IidTable.Lookup` | paxos/hash_mapped_memory.c:66-82 | the binding of an instance, or none |
| `IidTable.IidTable.Bind` | paxos/hash_mapped_memory.c:85-121 | the instance is bound to the value, nothing else changes, and only the table's own arrays are written |
| `IidTable.IidTable.CloseBelow` | paxos/hash_mapped_memory.c:235-303 | exactly the instances below the cut-off are forgotten |
| `CArray.CArray.PushBack` | paxos/carray.c:126-143 | the contents get the element at the end, through wrap-around and growth |
| `CArray.CArray.PushFront` | paxos/carray.c:207-221 | the contents get the element in front |
| `CArray.CArray.PopFront` | paxos/carray.c:148-162 | the first element is returned and removed; nothing if empty |
| `CArray.CArray.Grow` | paxos/carray.c:173-187 | twice the room, the same contents |
| `CArray.CArray.At` | paxos/carray.c:189-193 | the i-th element of the contents |
| `ValueManager.NoValueLost` | paxos/value_proposal_manager.c:43-263 | after any operations a value is in one of the queues exactly when it was enqueued and not closed since |
| `ValueManager.OpEffect` | paxos/value_proposal_manager.c:226-263 | only enqueueing adds a value and only closing that value removes it |
| `ValueManager.WithoutCounts` | paxos/value_proposal_manager.c:160-190 | filtering removes every copy of the value and keeps the multiplicity of all others |
| `ValueManager.WithoutAppend` | paxos/value_proposal_manager.c:160-190 | filtering works part by part, so the rest keeps its order |
| `ValueManager.ReversedTwice` | paxos/value_proposal_manager.c:184-186 | draining front to front twice restores the order |
| `ValueManager.NextIsOutstanding` | paxos/value_proposal_manager.c:72-110 | what is handed out is a no-op or still outstanding |
| `ValueOrder.HandedOut` | paxos/value_proposal_manager.c:72-110 | after any operations what is handed out is the first value in line; else, where allowed, one handed out before; else a no-op if there are holes and the wait begun for them is over; else nothing |
| `ValueOrder.NopIff` | paxos/value_proposal_manager.c:92-104 | a no-op is handed out exactly when no client value can be, there are holes, and a wait was begun and has elapsed |
| `ValueOrder.NothingIff` | paxos/value_proposal_manager.c:72-110 | nothing is handed out exactly when there is neither a client value nor a no-op that is due |
| `ValueOrder.FirstInFirstOut` | paxos/value_proposal_manager.c:43-81 | values handed out for the first time, followed by those in line, are the enqueued ones in order |
| `ValueOrder.RepeatsInTurn` | paxos/value_proposal_manager.c:83-91 | values that may be proposed again take turns |
| `ValueOrder.FoundIffOwed` | paxos/value_proposal_manager.c:226-263 | closing and requeueing tell whether the value was enqueued and not closed since |
| `ValueManager.Manager.Add` | paxos/value_proposal_manager.c:43-46 | the value joins the waiting queue |
| `ValueManager.Manager.Next` | paxos/value_proposal_manager.c:72-110 | the in-place operation is the one on values |
| `ValueManager.Manager.Remove` | paxos/value_proposal_manager.c:160-190 | the two loops leave the other values in order and tell whether the value was there |
| `ValueManager.Manager.CloseIfOutstanding` | paxos/value_proposal_manager.c:226-242 | the value leaves both queues |
| `ValueManager.Manager.CheckAndRequeue` | paxos/value_proposal_manager.c:244-263 | a value found in the queues goes in front of the waiting ones |
| `BallotGiver.RandomBetween` | paxos/random.c:10-25 | the result is that of the first draw below the limit |
| `BallotGiver.EquallyLikely` | paxos/random.c:10-25 | results stay in the interval and each has one block of draws of the same length |
| `BallotGiver.BlockFits` | paxos/random.c:13-15 | each block lies wholly below the limit |
| `BallotGiver.TerminatesIff` | paxos/random.c:12-22 | some draw is accepted exactly when the number of results is positive and at most RAND_MAX |
| `BallotGiver.DividesByZeroIff` | paxos/random.c:12-13 | exactly which intervals divide by zero |
| `BallotGiver.NextInRange` | paxos/ballot_giver.c:29-34 | the new number lies in [previous + 1, previous + increment + 1 - id] |
| `BallotGiver.NextDefinedIff` | paxos/ballot_giver.c:29-34 | without overflow a ballot can be drawn exactly when the identifier is at most the increment |
| `BallotGiver.ChainRises` | paxos/standard_proposer.c:659-664 | a proposer's ballots strictly rise over any chain of preemptions |
| `BallotGiver.NoCollisions` | paxos/ballot_giver.c:29-34 | no ballot is held twice, by one proposer or by two |
| `Departures.OrderAgreesIff` | paxos/epoch_ballot.c:22-28 | the comparison is lexicographic unless a lower epoch comes with a higher ballot |
| `Departures.OrderIsNotAntisymmetric` | paxos/epoch_ballot.c:22-28 | two epoch ballots can each be greater than the other |
| `Departures.OutdatedUnaffected` | paxos/epoch_proposer.c:375-379 | the test for outdated promises is the intended one in spite of the comparison |
| `Departures.GrantsAgreeIff` | paxos/epoch_acceptor.c:284-288 | the grant is the intended one exactly when the epoch is not below the current one, or a promise exists that the ballot does not exceed |
| `Departures.GrantsBelowEpoch` | paxos/epoch_acceptor.c:288-288 | after a restart a lower epoch is granted, both without a promise and with one for a lower ballot |
| `Departures.VotesAgreeIff` | paxos/epoch_acceptor.c:405-406 | the vote is the intended one exactly when the epoch is not below the current one or the ballot does not exceed the last promise |
| `Departures.VoteBelowPromise` | paxos/epoch_acceptor.c:405-406 | an acceptor that promised (2, ballot 1) votes at (1, ballot 2) |
| `Departures.RecoveryAgreesIff` | paxos/epoch_paxos_storage.c:29-36 | what is recovered for an instance is right exactly if it had no vote: otherwise the vote is lost and an entry planted in the promise table |
| `Departures.VoteForgotten` | paxos/epoch_paxos_storage.c:29-36 | a vote on disk is not reported after a restart |
| `EpochRecovery.RecoveryAgreesIff` | paxos/epoch_paxos_storage.c:20-38 | over all runs of the system with this recovery, agreement holds exactly in configurations where one of the phases has no quorum, whatever the planted entries hold |
| `EpochRecovery.DecidesTwice` | paxos/epoch_acceptor.c:53-115 | everyone votes, everyone restarts, everyone votes for another value |
| `Departures.ReportTakenIff` | paxos/standard_proposer.c:667-670 | exactly which reports are taken into account after a preemption |
| `Departures.StaleReportIgnored` | paxos/standard_proposer.c:394-397 | the vote being re-proposed is the one ignored |
| `Departures.EpochReportTakenIff` | paxos/epoch_proposer.c:764-768 | exactly which reports the epoch proposer takes into account after a preemption, in the order as written |
| `Departures.EpochStaleReportIgnored` | paxos/epoch_proposer.c:764-768 | the vote being re-proposed is the one ignored |
| `Departures.EpochReportAgreesIff` | paxos/epoch_proposer.c:381-398 | a report is handled as intended unless it has a lower epoch and a higher ballot than the one kept |
| `Departures.LowerReportWins` | paxos/epoch_proposer.c:381-398 | a vote of epoch 1 displaces one of epoch 2 |
| `Departures.ReturnWithQ2SafeIff` | paxos/standard_proposer.c:642-643 | promise quorums of size q2 meet every acceptance quorum exactly when twice q2 exceeds the number of acceptors |
| `PreemptionFailure.WithQ2AgreesIff` | paxos/standard_proposer.c:642-643 | over all runs in which preempted instances return with q2, agreement holds exactly when twice q2 exceeds the number of acceptors or no phase 1 quorum exists |
| `PreemptionFailure.FirstDecidesToo` | paxos/standard_proposer.c:632-646 | the run: a preempted proposer comes back with q2 and gets its value decided outside the quorum that decided another |
| `PreemptionSafety.AgreesWithQ2` | paxos/standard_proposer.c:642-643 | the safe half: where any two phase 2 quorums meet, every run with the return keeps agreement |
| `PreemptionFailure.AsWrittenAgreesIff` | paxos/standard_proposer.c:652-680 | over all runs with the stale report, alone or together with q2 as in the code, agreement holds exactly in configurations where one of the phases has no quorum |
| `PreemptionFailure.ReportLost` | paxos/standard_proposer.c:667-670 | the run: a decided value is reported again after a preemption, not counted, and another value is decided |
| `PreemptionFailure.ShippedFails` | paxos.conf:70-71 | the shipped configuration is valid, and each of the departures loses agreement in it |
| `PreemptionSafety.SameRun` | paxos/standard_proposer.c:606-649 | without a phase 1 quorum every run as written is the intended one |
| `Departures.CountExactIff` | paxos/epoch_proposer.c:838-844 | the count stays exact exactly if it was zero |
| `Departures.OneVoteCountedTwice` | paxos/epoch_proposer.c:838-844 | one acceptor can be counted as two |
| `Departures.VoteCoveredIff` | paxos/writeahead_ballot_acceptor.c:642-655 | the stable promise covers a vote exactly if it already did |
| `Departures.VoteUncovered` | paxos/writeahead_ballot_acceptor.c:642-655 | a vote without a prepare is not covered |
| `Departures.TrimMonotoneIff` | paxos/writeahead_ballot_acceptor.c:757-757 | exactly which trim messages do not move the point back |
| `Departures.TrimGoesBack` | paxos/writeahead_ballot_acceptor.c:757-757 | a late trim message moves it back |
| `Departures.CutoffSoundIff` | paxos/standard_acceptor.c:420-420 | the cut-off is at most the trim point exactly when the trim point is at least the lag |
| `Departures.CutoffForgets` | paxos/epoch_acceptor.c:506-506 | a small trim wipes a live promise |

## Left out

- Sockets, timers, message packing, configuration parsing and the sample programs: plumbing around the protocol.
- LMDB: the stable store is an atomic map, so partial writes and the storage format are not modelled.
- Memory management and aliasing of values: values are immutable byte sequences.
- Proposer restarts: a restarted proposer draws ballots afresh and could reuse one.
- Lowering the next instance to prepare from a replica (evpaxos/evreplica.c:45-51): `next` only moves forward.
- The fake leader with q1 = 0 (evpaxos/evproposer.c:698-736), which skips phase 1 on purpose.
- Preemptive-preempt messages, which are sent as a struct of the wrong type.
- Late-start learners: they begin at an instance that is merely accepted.
- The queue membership tests of the value manager and `carray_is_in`, which do not keep or do not look at the contents.
- `epoch_learner_receive_trim`, which nothing calls; learners only record a trim point.
- Backoff, instance strategies, counters, pending client values and `random_between_excluding`: unused or easy.
- Liveness and timing: nothing is claimed about when a step happens.
- 32-bit wrap-around outside `BallotGiver`, `Departures` and the table size of `KHash`: instance, ballot and epoch numbers are unbounded.
- The instance window of the write-ahead recovery loop: the field is never set, so the loop ends at the highest stored instance.
- Quorum.Quorum.Add: instances keep their quorum as a set; the counter over an array is proved to be such a set but is not embedded in the table entries.
- Runs of the other departures: the order of epoch ballots, the epoch proposer's stale report and count, the write-ahead promise, trim and cut-off are settled step by step, not over whole runs.
- Failed allocations in the hash table (return code -1) and the storing of its flags as two bits each.
- KHash.Table.Resize: takes the upper bound as integer arithmetic, (77 n + 50) / 100, instead of a double.
