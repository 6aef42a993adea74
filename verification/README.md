# AirDB, modelled and proved

AirDB is a key-value store replicated with Raft. This project models its three working parts in
Dafny and proves what they promise:

* the Raft node and the cluster of such nodes (`src/airdb_impl.cc`): elections, vote counting, log
  replication, commit by quorum, the apply loop, client writes and binlog garbage collection;
* the binlog store (`src/binlog.cc`): a log kept in a string-to-string database;
* the thread pool (`common/thread_pool.h`): a delay queue with lazy cancellation beside a deque.

Run `dafny verify dfyconfig.toml` to check everything.

## How it is built

`RaftNode` has one function per body under `mu_`, on a record of the node's fields. `Cluster` makes
a step system of them: an `Action` is one handler run on one node with messages already sent, `Next`
is its effect, and `After(cfg, run)` the state after any sequence of actions. Messages are never
taken out of the network, which covers loss, delay, reordering and repetition; a call to `Vote` comes
back at most once. Membership is fixed, the same everywhere and without duplicates
(`src/airdb_main.cc:48-51`), of any size. The cluster state also carries history: who led which term
with which votes and log, what each node acknowledged, what leaders committed.

`AirDBNode.AirDBImpl` is the node as an object with mutable maps and loops over a `BinLog.BinLogger`,
which in turn keeps its log as bytes in a map. Each of its methods is proved to change the object
exactly as the handler function says, so what is proved of `Cluster` with no repair is proved of the
object. `ThreadPools.ThreadPool` stands to `PoolModel` in the same way, and
`PoolRequests` says over runs of that model what becomes of each request.

The code departs from Raft in five places. `Repairs` in `RaftNode` has a flag for each; every handler
is modelled with the flag off (what the code does) and on (what Raft asks for):

| flag | what the code does | with the flag |
|---|---|---|
| `align` | appends behind whatever the follower holds (the truncation at `src/airdb_impl.cc:596-602` is commented out) | Figure 2 of the Raft paper, AppendEntries steps 3 and 4 |
| `commit` | takes `min(length - 1, leader_commit)` even from a heartbeat, and may lower it (`src/airdb_impl.cc:609-611`) | never lower, never past what the request showed to match |
| `replies` | uses replies of older terms, and skips the reset of a peer whose thread still runs (`src/airdb_impl.cc:321-328`, `431-439`) | drops them, resets every peer |
| `self` | counts the node's own, never assigned, match index, which reads as 0 (`src/airdb_impl.cc:469`) | counts the other members only |
| `empty` | keeps the old last term of a log truncated to nothing (`src/binlog.cc:106-115`) | -1, as the constructor has it |

With `commit` on, a heartbeat (which shows no matching index) raises the commit index to
`min(length - 1, leader_commit)` only when the entry there has the sender's own term.

A theorem names the flags it needs and holds for every choice of the others; none needs `empty`, and
`Mended` in `RaftNode` stands for the other four. `Departures` gives, for each handler, the condition
under which the code and the repaired handler agree, in both directions; `Transfers` gives it flag by
flag, from any choice of the others, so that a run of the code has every property whose flags it meets
the conditions of. `BadRuns`, on the building blocks of `Runs`, gives whole runs from the fresh cluster
that show what each departure costs: each run needs the absence of the repairs its lemma names, and
holds for any members and every choice of the other repairs. Without `align` log matching and the
survival of commits fail, without `commit` state machine safety, without `replies` or `self` the
survival of commits; without `empty` the election restriction, for an empty log can win against a
longer one. The other theorems survive that; `UpToDateVotes` says exactly when the restriction holds.

A round of the apply loop is two actions, since the code reads the slot and writes the data without the
lock (`src/airdb_impl.cc:103-129`) and takes it to answer and write the tag (`130-157`): any other
handler may come between. What this means for the answers given to clients is the subject of `Answers`,
with exact conditions over runs of the code.

The invariants are layered, one module each: `ElectionSafety`, `Provenance`, `LogMatching` (every log,
cut after an entry, is a prefix of what the leader of that entry's term wrote), `LeaderCompleteness`
(a node keeps what it acknowledged unless a later leader missed it), `CommitQuorum`, `UpToDateVotes`
(votes go to logs at least as up to date), `TermNews` (who is behind in term gets to know), `LeaderNames`,
`Refusals` (what a follower answers), `StateMachineSafety`, `ApplySlots` (the slots an apply loop still
needs are there), `ClientSuccess`, `Waiting` (what is still to be answered), `Answers`, `ClientReads` and
`ClientData` (nothing is read that no client wrote). `CollectedLogs` puts `GarbageCollection` beside the
runs of `Cluster`, with `SlotReads` on what handlers read.

## Where the code and its intent differ

* `UnLock` logs `kLockOp` (`src/airdb_impl.cc:844-849`); the model does the same.
* A success may be answered for an index that is not committed (`BadRuns.AnsweredUncommitted`), and
  for a put at whose index the apply loop wrote another entry's data (`BadRuns.AnsweredOther`);
  `Answers.CommittedExactly` and `Answers.AppliedExactly` say exactly in which runs neither happens.
* `StringToInt` parses into a 32-bit `int` although indices are 64-bit; the model clamps as the
  stream extraction does, and the theorems say where that matters.
* A restart that finds a client's value under the apply loop's tag goes back or forward in the log;
  `ApplyLoop.AlwaysResumes` says exactly for which logs this cannot happen.
* `CancelTask` is documented to wait for a running task; with one `running_task_id_` for all workers
  it does so exactly when there is one worker at most (`PoolModel.CancelWaitsExactly`).
* Collection removes slots a handler may still ask for: `AppendEntriesImpl` and `Truncate` assert that
  the slot they read is there, and a request that arrives late can name a removed one
  (`LateRequests.LateRequestMisses`). `CollectedLogs.CollectsExact` says exactly when that cannot happen.
* The test in `CleanBinlog` never refuses (`GarbageCollection.CleanNeverRefused`).
* Garbage collection ends two slots short of the smallest applied index (`GarbageCollection.RoundCollects`).

## Model

| member | source | states |
|---|---|---|
| `ElectionSafety.ElectionSafety` | src/airdb_impl.cc:228-301 | In every run, with any choice of repairs and any number of nodes, two nodes that are leader of the same term, at any two moments, are the same node. |
| `ElectionSafety.OneVotePerTerm` | src/airdb_impl.cc:260-268 | Over a whole run a node gives the vote of a term to one candidate only. |
| `ElectionSafety.RunGrows` | src/airdb_impl.cc:183-301 | Along every run no term decreases, no vote given changes and no leadership is forgotten. |
| `ElectionSafety.WinnerHasMajority` | src/airdb_impl.cc:283-289 | When the counter passes half the membership, a strict majority of distinct nodes has voted for the candidate in that term. |
| `ElectionSafety.WinnerIsFirst` | src/airdb_impl.cc:283-289 | A candidate that wins finds its term without a leader. |
| `ElectionSafety.MajoritiesMeet` | src/airdb_impl.cc:287-287 | Two strict majorities of the members share a node. |
| `Provenance.EntryProvenance` | src/airdb_impl.cc:333-338 | Every entry in any log, any slot left behind by a truncation or any request in flight was written by a node while it was leader of the entry's term, with any choice of repairs. |
| `Provenance.OneAuthorPerTerm` | src/airdb_impl.cc:683-688 | All entries of one term have one author. |
| `LogMatching.LogMatching` | src/airdb_impl.cc:558-605 | With `align`: in every run, two logs that hold the same term at an index are equal up to that index. |
| `Provenance.TermsBounded` | src/airdb_impl.cc:532-627 | In every run, with any choice of repairs: no entry of a node's log, nor any slot a truncation left behind, is of a later term than the node's. |
| `LogMatching.LogTerms` | src/airdb_impl.cc:359-405 | With `align`: in every run terms never decrease along a log. |
| `LogMatching.FollowerLog` | src/airdb_impl.cc:558-605 | With `align`: after a request the follower's log is a prefix of what it was or the leader's log up to the end of the request; what it shares with the leader's log stays; an accepted request leaves all it carried. |
| `LogMatching.RootedConsistent` | src/airdb_impl.cc:574-585 | Two logs that are, up to every entry, what the leader of that entry's term wrote are equal wherever their terms agree. |
| `LeaderCompleteness.UpToDate` | src/airdb_impl.cc:243-257 | A candidate whose log passes the test in `Vote` has everything the voter acknowledged, unless some leader in between already missed it. |
| `LeaderCompleteness.CommittedStays` | src/airdb_impl.cc:285-289 | What a majority acknowledged of a leader's log, up to an entry of its own term, is in the log every later leader starts from. |
| `LeaderCompleteness.LeaderCompleteness` | src/airdb_impl.cc:243-257 | With `align`: the same in every run, for every pair of a committed index and a later leader. |
| `UpToDateVotes.CachesExact` | src/binlog.cc:100-117 | From any choice of repairs and for every run: at every moment every node's cached last term is that of its log's last entry, -1 for an empty log, if and only if the run passes the test of the `empty` flag at every step. |
| `UpToDateVotes.VoteExact` | src/airdb_impl.cc:243-257 | In every run, with any choice of repairs: a vote is given for a log at least as up to date as the voter's, by last term and then length, if and only if the candidate stood with an entry or the voter holds none. |
| `UpToDateVotes.VotesUpToDate` | src/airdb_impl.cc:243-257 | In every run that passes the test of `empty`, and so always with that repair, every vote given is for such a log. |
| `UpToDateVotes.WinnerExact` | src/airdb_impl.cc:276-301 | In every run, with any choice of repairs: the log a leader was elected with is at least as up to date as each voter's when it voted, if and only if it is not empty or the voter's was. |
| `UpToDateVotes.WinnersUpToDate` | src/airdb_impl.cc:276-301 | In every run that passes the test of `empty` it is, so no node with an empty log is elected by one that holds an entry, as happens in `BadRuns.EmptyLogWins`. |
| `TermNews.VoteGivenExactly` | src/airdb_impl.cc:231-273 | For every node and ballot, with any choice of repairs: the vote is given if and only if the node does not lead, the ballot's term is no older, its last term and length are at least the node's, and the term is promised to nobody else; only then is a vote noted. |
| `TermNews.VoteRaisesExactly` | src/airdb_impl.cc:236-261 | The node's term rises, to the ballot's and as a follower, if and only if it does not lead and the ballot is later with a last entry that good; a ballot with an older log does not raise it. |
| `TermNews.VoteAnswers` | src/airdb_impl.cc:236-272 | A leader gives no answer; every other answer carries the node's own term as it is after the vote. |
| `TermNews.CandidateLearns` | src/airdb_impl.cc:276-295 | In every run, with any choice of repairs: whenever the answer of a voter comes back to a candidate, the candidate is from then on of at least the term the voter had right after it answered, and if that is later it is a follower at once and never again a candidate of the old term. |
| `TermNews.LeaderLearns` | src/airdb_impl.cc:418-426 | In every run: once an answer to entries is back, the node that sent them is of at least its term for the rest of the run, so it leads no older one; if the term is later it is a follower at once. |
| `TermNews.BeatLearns` | src/airdb_impl.cc:657-671 | The same for a leader that gets the answer to a heartbeat. |
| `TermNews.ReplyStepsDown` | src/airdb_impl.cc:420-426 | For every node and answer to entries: a later term makes it a follower of that term with all else as it was; with no later term, a node that does not lead is unchanged, and so is any by a failed call. |
| `TermNews.AppendAnswers` | src/airdb_impl.cc:539-620 | A follower's answer to entries or a heartbeat carries its own term, which is then the greater of the two. |
| `LeaderNames.NamedHasLed` | src/airdb_impl.cc:303-312 | In every run, with any choice of repairs: the leader a node names, if any, has led a term no later than the node's, and a leader names itself. |
| `LeaderNames.FollowerNames` | src/airdb_impl.cc:551-553 | After a request that is not outdated a follower names the one node that leads the request's term at any moment of the run. |
| `LeaderNames.RefusalNamesLeader` | src/airdb_impl.cc:703-709 | In every run a node that does not lead refuses a `Get` and tells such a leader, or that it knows none. |
| `CommitQuorum.MatchesCounts` | src/airdb_impl.cc:463-472 | The counter is the number of distinct peers whose match index is the given one, whenever the leader's own entry is not counted. |
| `CommitQuorum.CommitsExactly` | src/airdb_impl.cc:431-476 | For every leader and accepted request, with any choice of repairs: the commit index becomes the request's last index if and only if that is new, the largest term among the entries is the leader's, and the distinct members whose match index it is, without the node itself under `self`, make at least half of all together with one more; otherwise it stays. |
| `CommitQuorum.CommitMeetsVotes` | src/airdb_impl.cc:463-476 | The peers counted for a commit, with the leader, share a node with every set of voters that can win an election; as the code stands, for every index but the one the leader's own entry reads as. |
| `CommitQuorum.AdvanceCommits` | src/airdb_impl.cc:431-476 | With `replies` and `self`: an index a leader commits ends with an entry of its own term and was acknowledged by a strict majority. |
| `CommitQuorum.LeaderCommitsSurvive` | src/airdb_impl.cc:463-484 | With `align`, `replies` and `self`: in every run, everything up to an index a leader committed is in the log of every leader of every later term. |
| `StateMachineSafety.StateMachineSafety` | src/airdb_impl.cc:92-161 | With `align`, `commit`, `replies` and `self`: in every run, no two nodes ever apply different entries at an index, at whatever two moments they are looked at. |
| `StateMachineSafety.AppliedAgree` | src/airdb_impl.cc:101-157 | With `align`, `commit`, `replies` and `self`: of what two nodes have applied, one sequence starts with the other. |
| `StateMachineSafety.StoresAgree` | src/airdb_impl.cc:112-156 | With `align`, `commit`, `replies` and `self`: two nodes that have applied equally far hold the same data, tag included. |
| `StateMachineSafety.ReplayHolds` | src/airdb_impl.cc:106-157 | With any choice of repairs: a node's data is the fold of the entries it applied, in index order, each index once, and what was applied stays applied. |
| `StateMachineSafety.CommitNeverFalls` | src/airdb_impl.cc:605-617 | With `commit`: no request lowers a follower's commit index. |
| `Refusals.AcceptedExactly` | src/airdb_impl.cc:539-621 | For every node and request, with any choice of repairs: it is accepted if and only if it is not outdated and carries no entries or the node holds what comes before them and `commit_index_ - last_applied_index_` is at most 100000; busy is answered if and only if that alone fails. |
| `Refusals.RefusedLog` | src/airdb_impl.cc:558-594 | A refusal tells the length the log has after it. No slot is lost, and the log is as it was unless the node has another term at the previous index: then it ends before that index. |
| `Refusals.FollowsExactly` | src/airdb_impl.cc:539-553 | Exactly the requests that are not outdated make the node a follower of their sender in their term, and each counts as one heartbeat. |
| `Refusals.HeartBeatNamesNone` | src/airdb_impl.cc:555-621 | What a request without entries names as the previous index and term, which `BroadCastHeartBeat` leaves unset, makes no difference to node or answer. |
| `ApplySlots.ApplyFindsSlot` | src/airdb_impl.cc:106-110 | In every run, with any choice of repairs: an apply loop that is not at the end of its pass finds the slot it reads next, though the log below it may have been cut; the assertion on `ReadSlot` never fails. |
| `ApplySlots.LeadersAtWork` | src/airdb_impl.cc:92-161 | Every leader of every run is in the state `Answers.WorkAnswersCommitted` starts from. |
| `ClientSuccess.ClientSuccess` | src/airdb_impl.cc:683-694 | With any choice of repairs: a success answered in the leadership that accepted the request is for an index at which the node's log holds exactly the entry that request wrote. |
| `ClientSuccess.SuccessIsCommitted` | src/airdb_impl.cc:131-157 | The index answered is at or below the node's commit index then, in every run in which no request takes a commit index below the apply loop's snapshot. |
| `ClientSuccess.RepairedSuccessIsCommitted` | src/airdb_impl.cc:605-617 | With `commit` that holds of every run. |
| `Waiting.WaitsExactly` | src/airdb_impl.cc:131-153 | For every run, node and index, with any choice of repairs: a request waits for its answer there if and only if the node, leading, logged it at that index and has since neither finished the index while leading nor logged another request of the same kind at it. |
| `Waiting.AnswersExactly` | src/airdb_impl.cc:131-152 | In every run a node has answered with success exactly the requests that still waited so when it finished their index while leading. |
| `Answers.CommittedExactly` | src/airdb_impl.cc:131-157 | For every run and node, with any choice of repairs: all its answers are for indices at or below its commit index then, if and only if at each step that answers while it leads with a response waiting, the index is. |
| `Answers.WorkAnswersCommitted` | src/airdb_impl.cc:101-157 | From a leader's state, every interleaving of client requests, replies, heartbeat answers and apply steps answers committed indices only, if and only if the pass is over, or ends at or below the commit index, or the log goes past its end and no response waits in it past the commit index. |
| `Answers.AppliedExactly` | src/airdb_impl.cc:103-152 | For every run and node, with any choice of repairs: at every index it answered in the leadership that accepted the request the node applied exactly the entry that request wrote, if and only if at each step that answers one the slot is still the one the loop read. |
| `Answers.SuccessIsApplied` | src/airdb_impl.cc:103-152 | With `align`, `commit`, `replies` and `self` that holds of every run. |
| `Answers.SuccessIsDurable` | src/airdb_impl.cc:131-152 | With the same repairs: no node ever applies anything else at an index answered with success. |
| `ClientReads.GetReturnsLastWrite` | src/airdb_impl.cc:698-746 | In every run, with any choice of repairs and for every key: a leader's answer to `Get` is the last write to the key among the entries whose data its apply loop wrote, the one in hand included, and the tags between them: its value for a put, a miss for a lock or the loop's own tag, no answer after a delete or none. |
| `ClientReads.RequestIsRead` | src/airdb_impl.cc:673-756 | A request answered with success in the leadership that accepted it determines what that node, whenever it leads later, answers for the key until it applies another entry for it: the value of a put, nothing after a delete, a miss after a lock or unlock; a miss for any write to the loop's tag. In every run in which no slot moves under the loop while it answers, and with `align`, `commit`, `replies` and `self` in every run. |
| `ClientData.HitWasPut` | src/airdb_impl.cc:673-746 | In every run, with any choice of repairs and for every key but the apply loop's own tag: if a leader answers `Get` with a value, some node that led logged a client's put of just that key and value before. |
| `ClientData.DataWasAsked` | src/airdb_impl.cc:683-858 | In every run whatever any node's data holds under such a key is what a client's put, lock or unlock of that key left, logged by a leader of the run: the operation's byte, then the value of the put or the key. |
| `ClientData.UnaskedWritesNothing` | src/airdb_impl.cc:332-338 | In every run, applying an entry that no client of the run asked for leaves the node's data as it was; an election's entry is one of these. |
| `ClientData.EntryWrites` | src/airdb_impl.cc:111-129 | By operation code: 1 and 4 write the code and the value under the key, 3 and 5 delete it, any other leaves the data alone. |
| `ClientData.WroteOrigin` | src/airdb_impl.cc:332-338 | Every entry any leader of the run ever wrote is an election's, a no-op under "Ping" without value, or what a client asked a leader of the run for: operation 1 with the value of a put, 3 with nothing for a delete, 4 with the key for a lock or unlock. |
| `Departures.AppendExact` | src/airdb_impl.cc:532-627 | The follower of the code and the repaired one agree on a request if and only if the stated test on node and request holds. |
| `Departures.EntriesExact` | src/airdb_impl.cc:596-617 | On entries they agree exactly when these continue the log where it ends and the commit index comes out the same. |
| `Departures.HeartBeatExact` | src/airdb_impl.cc:605-617 | On a heartbeat they agree exactly when it leaves the commit index alone or raises it to an entry of the sender's term. |
| `Departures.TruncateExact` | src/binlog.cc:100-117 | On a mismatch they agree exactly when something is kept or the cached last term is already -1. |
| `Departures.CommitRuleExact` | src/airdb_impl.cc:463-476 | The commit rules agree exactly when the index is not new or the leader's own match index does not decide the count. |
| `Departures.ReplyExact` | src/airdb_impl.cc:417-452 | A reply has the same effect in both exactly when it is of the current term and the self-count does not decide, or is old and would change nothing. |
| `Departures.ElectionExact` | src/airdb_impl.cc:314-331 | An election has the same effect in both exactly when every peer with a thread still running is already as the reset would leave it. |
| `Departures.NextExact` | src/airdb_impl.cc:183-627 | One action of the code has the effect of the repaired one if and only if its test holds. |
| `Transfers.FlagExact` | src/airdb_impl.cc:183-627 | For each flag, from any choice of the others: an action has the same effect with and without that one repair if and only if the flag's own test on node and message holds. |
| `Transfers.FlagRun` | src/airdb_impl.cc:183-627 | A run in which every action passes the test of one flag reaches the states of the run with that one repair. |
| `Transfers.FlagsRun` | src/airdb_impl.cc:183-627 | The same for the tests of several flags, each on the run with the earlier repairs made. |
| `Transfers.CodeLogMatching` | src/airdb_impl.cc:596-605 | The code itself has log matching in every run in which accepted entries start where the follower's log ends. |
| `Transfers.CodeLeaderCompleteness` | src/airdb_impl.cc:243-257 | And leader completeness in the same runs. |
| `Transfers.CodeCommitsSurvive` | src/airdb_impl.cc:463-484 | Where also old replies change nothing, threads still running leave nothing to reset and no self-count decides, what a leader of the code commits is in the log of every later one. |
| `Transfers.CodeStateMachineSafety` | src/airdb_impl.cc:92-161 | Where also a follower takes over only commit indices that are not lower and are matched, no two nodes of the code apply different entries at an index. |
| `BadRuns.LogMatchingBreaks` | src/airdb_impl.cc:596-605 | Without `align`, whatever the other repairs: a run after which two logs hold different entries of one term at one index. |
| `BadRuns.StateMachineSafetyBreaks` | src/airdb_impl.cc:609-611 | Without `commit`, whatever the other repairs: a run after which two nodes have applied different entries at index 0. |
| `BadRuns.SelfCountLosesCommit` | src/airdb_impl.cc:463-476 | Without `self`, whatever the other repairs: a run of five nodes after which an index that a leader committed is missing from a later leader's log. |
| `BadRuns.OldReplyLosesCommit` | src/airdb_impl.cc:431-439 | Without `replies`, whatever the other repairs: the same by an answer to a request of an earlier leadership. |
| `BadRuns.ResentEntryLosesCommit` | src/airdb_impl.cc:596-605 | Without `align`, whatever the other repairs: the same on three nodes, by an entry that is sent twice. |
| `BadRuns.EmptyLogWins` | src/binlog.cc:100-117 | Without `empty`, whatever the other repairs: a run in which a node with an empty log is elected by a node that holds an entry. `UpToDateVotes.WinnersUpToDate` has when this cannot happen. |
| `BadRuns.AnsweredUncommitted` | src/airdb_impl.cc:131-157 | Without `align` and `commit`, whatever the others: a run of three nodes after which a leader has answered a put with success in the leadership that accepted it, at an index past its commit index. |
| `BadRuns.AnsweredOther` | src/airdb_impl.cc:103-152 | Without `align` and `commit`: a run after which a leader has answered a put with success although it applied another entry at that index. |
| `CatchUp.Replicate` | src/airdb_impl.cc:341-452 | When calls return, the rounds for one follower end after at most the starting `next_index_` refusals, with nothing lost that the two logs share. With `align` the follower then has the leader's log, or its own if that starts with it; as the code stands it has the leader's log exactly when the first probe finds it no longer than `next_index_` or cuts it. |
| `CatchUp.Round` | src/airdb_impl.cc:417-452 | Each refusal makes `next_index_` smaller and leaves the follower exactly that long; an accepted request ends the rounds. |
| `CatchUp.ReachableReady` | src/airdb_impl.cc:359-366 | With `align` every leader and follower of every run are in the relation the rounds start from. |
| `AirDBNode.AirDBImpl.constructor` | src/airdb_impl.cc:40-50 | A new node over empty stores is the fresh follower of term 0 that every run starts from. |
| `AirDBNode.AirDBImpl.VoteLeader` | src/airdb_impl.cc:183-224 | Changes the node as the handler function says and calls exactly the other members with its ballot, if it stands. |
| `AirDBNode.AirDBImpl.Vote` | src/airdb_impl.cc:228-274 | Node and answer are those of the handler function, which `TermNews.VoteGivenExactly`, `TermNews.VoteRaisesExactly` and `TermNews.VoteAnswers` determine. |
| `AirDBNode.AirDBImpl.VoteCallBack` | src/airdb_impl.cc:276-301 | Counts, wins or steps down as the handler function says; `ElectionSafety.WinnerHasMajority` and `TermNews.CandidateLearns` are about it. |
| `AirDBNode.AirDBImpl.SwitchToLeader` | src/airdb_impl.cc:303-312 | The node becomes leader of its term with its peers reset and one new entry. |
| `AirDBNode.AirDBImpl.SwitchToFollower` | src/airdb_impl.cc:629-638 | The node is a follower of the term, and otherwise as it was. |
| `AirDBNode.AirDBImpl.StartReplicaLog` | src/airdb_impl.cc:314-339 | The loop resets exactly the peers without a running thread, and one entry of the new term is logged, the one `ClientData.WroteOrigin` tells from a client's. |
| `AirDBNode.AirDBImpl.BuildRequest` | src/airdb_impl.cc:359-405 | The request holds the slots from `next_index_` on, one after a failed call, behind the index and term before them; the maximum computed is that of its terms. |
| `AirDBNode.AirDBImpl.HandleReply` | src/airdb_impl.cc:417-452 | The node after a reply or a failed call is that of the handler function, whose cases are `TermNews.ReplyStepsDown`, `CommitQuorum.AdvanceCommits` and `CatchUp.Round`. |
| `AirDBNode.AirDBImpl.UpdateCommitIndex` | src/airdb_impl.cc:463-484 | The loop that tests the running count at every member has the effect of one test of the full count after it, the form left in the comment. |
| `AirDBNode.AirDBImpl.BroadCastHeartBeat` | src/airdb_impl.cc:488-517 | Exactly the other members are called, with an empty request, if the node leads. |
| `AirDBNode.AirDBImpl.HeartBeatCallBack` | src/airdb_impl.cc:657-671 | A leader steps down exactly for a larger term. |
| `AirDBNode.AirDBImpl.AppendEntriesImpl` | src/airdb_impl.cc:532-627 | Node, log store and answer after a request are those of the handler function with no repair, in all five of its branches; `Refusals` has which branch is taken and `Departures.AppendExact` what it does. |
| `AirDBNode.AirDBImpl.ClientWrite` | src/airdb_impl.cc:673-696 | A leader logs the entry of the request and keeps its response under the entry's index; any other node refuses and is unchanged. |
| `AirDBNode.AirDBImpl.Get` | src/airdb_impl.cc:698-756 | The answer is the model's, branch by branch; an absent key gets none. |
| `AirDBNode.AirDBImpl.ApplyEntry` | src/airdb_impl.cc:103-129 | The part of a round without the lock reads the next slot, of the log or left behind it, and writes its data. |
| `AirDBNode.AirDBImpl.ApplyTag` | src/airdb_impl.cc:130-157 | The part under the lock completes and forgets exactly the responses waiting at the index, if the node leads, and writes the tag. |
| `AirDBNode.AirDBImpl.ApplyPass` | src/airdb_impl.cc:101-159 | The loop applies the entries up to its snapshot of the commit index, each once and in order, and gives exactly the answers waiting for them. |
| `Decimal.StringToIntOfIntToString` | src/binlog.cc:119-131 | Reading back a written number clamps it to 32 bits: it gives the number exactly when it fits. |
| `Decimal.IntToStringInjective` | src/binlog.cc:119-123 | Over all integers, different numbers have different slot keys. |
| `Decimal.Written` | src/binlog.cc:119-123 | Numbers are written in decimal characters, the lowest digit last, a negative one behind a minus sign. |
| `BinLog.SlotIsNotTag` | src/binlog.cc:20-20 | No slot key is the length tag, "#BINLOG_LEN#". |
| `Codec.LoadOfDump` | src/binlog.cc:146-190 | Loading a dumped entry, with any bytes behind it, gives the entry back, for every key, value and 64-bit term whose dump is below 2^31 bytes; no read leaves the dumped bytes. |
| `Codec.DumpLayout` | src/binlog.cc:146-167 | The dump byte for byte: the operation, four bytes of length and the key, the same for the value, eight bytes of term in two's complement, numbers with the lowest byte first. |
| `Codec.DumpPrefixFree` | src/binlog.cc:146-167 | Different entries have different dumps, none the beginning of another. |
| `Codec.DumpBinLogEntry` | src/binlog.cc:146-167 | The copies into the sized buffer produce the dump. |
| `Codec.LoadBinLogEntry` | src/binlog.cc:170-190 | The moving offset reads the entry the buffer holds. |
| `BinLog.WriteImage` | src/binlog.cc:228-243 | One batch of slots and the new length turns the image of a log into the image of the longer one, over whatever slots a truncation left. |
| `BinLog.BinLogger.constructor` | src/binlog.cc:87-97 | A reopened log is the log that was closed, with its length read through 32 bits, and -1 as last term when it is empty. |
| `BinLog.BinLogger.Truncate` | src/binlog.cc:100-117 | Keeps the slots up to the index, all of them still stored; the cached term of a log cut to nothing is not reset. |
| `BinLog.BinLogger.ReadSlot` | src/binlog.cc:133-144 | Finds exactly the slots ever written, dropped or not; below the length it gives the log's entry. |
| `BinLog.BinLogger.WriteEntry` | src/binlog.cc:206-223 | Appends the entry and caches its term. |
| `BinLog.BinLogger.WriteEntryList` | src/binlog.cc:225-245 | Appends the entries as one batch and caches the last term, or none for an empty list. |
| `BinLog.BinLogger.FillBatch` | src/binlog.cc:230-240 | The loop collects exactly the dumped entries under consecutive slot keys. |
| `BinLog.BinLogger.GetLastLogIndexAndTerm` | src/binlog.cc:194-199 | The last index, and the last entry's term for every log that is not empty. |
| `BinLog.BinLogger.GetLength` | src/binlog.cc:201-204 | The length of the log. |
| `BinLog.RunScript` | src/binlog.cc:87-245 | For every sequence of writes, batch writes, truncations and reopenings, the reopenings at a length within 32 bits, the logger holds the plain sequence and, unless that is empty, its last term. |
| `ApplyLoop.AlwaysResumes` | src/airdb_impl.cc:68-73 | A restart between any two writes resumes at the index the loop was at, in every run, if and only if every index fits 32 bits and no entry written to the tag's key breaks the tag. |
| `ApplyLoop.CrashesLeaveNoTrace` | src/airdb_impl.cc:101-158 | For such logs, after any crashes, once the tag of an index is written the store is the one an undisturbed loop has there. |
| `ApplyLoop.EachIndexInOrder` | src/airdb_impl.cc:106-156 | At every moment the data is the fold of what was written so far, indices in order, with at most one repeated write a restart. |
| `ApplyLoop.RestartRewrites` | src/airdb_impl.cc:68-73 | In every run a restart takes up with the entry behind the last tag, and writes it again if it had been written before its tag was. |
| `ApplyLoop.TagKeyRewinds` | src/airdb_impl.cc:154-156 | A client's write to the tag's key and a restart leave an older index over newer data. |
| `ApplyLoop.WriteKeepsTag` | src/airdb_impl.cc:112-129 | An entry's store write leaves the index a restart finds as it was, exactly under a test on its key, operation and index. |
| `GarbageCollection.SafeCleanIndex` | src/airdb_impl.cc:865-890 | The loop over the members arrives one below the smallest answer. |
| `GarbageCollection.RemovedIsApplied` | src/airdb_impl.cc:860-942 | Over every interleaving of rounds of any leaders, late answers, late requests, late removals, restarts and apply steps, a slot removed at any node has been applied by every member. |
| `GarbageCollection.ApplyFindsItsSlot` | src/airdb_impl.cc:106-110 | No apply loop ever comes to a removed slot. |
| `CollectedLogs.CollectsExact` | src/airdb_impl.cc:570-585 | Over every interleaving of collection with a run of the cluster, with any choice of repairs: every slot a handler reads, a follower before the entries or where it cuts, a leader for a request, the apply loop, is still there, if and only if at every action that reads slots some member has not applied three past the lowest of them. |
| `CollectedLogs.ApplyNeverMisses` | src/airdb_impl.cc:103-110 | In every such interleaving the apply loop finds its slot. |
| `SlotReads.FollowerReadsExactly` | src/airdb_impl.cc:558-605 | For every node and request, with any choice of repairs: the slot `CollectsExact` takes as the lowest one read is the lowest on which the effect depends. Any entry put in place of one below it, or of any when none is named, gives the same answer and state with that entry in its slot; of the one named some other entry does not. |
| `SlotReads.LeaderReadsExactly` | src/airdb_impl.cc:359-406 | The same for a leader's request: the slot before `next_index_`, or the first one sent when that is 0. |
| `SlotReads.ApplyReadsExactly` | src/airdb_impl.cc:106-129 | The same for a round of the apply loop: the slot after the last one applied and no other. |
| `LateRequests.LateRequestMisses` | src/airdb_impl.cc:570-573 | With any choice of repairs: a run of two nodes after which a request that arrives again makes the follower read slot 0, which some collection has removed by then. |
| `GarbageCollection.CleanNeverRefused` | src/airdb_impl.cc:918-937 | Every clean request ever sent is for an index its receiver has applied past. |
| `GarbageCollection.RoundCollects` | src/airdb_impl.cc:889-942 | A round carried out at a member leaves exactly the slots from two below the smallest answer on. |
| `GarbageCollection.RoundSendsExactly` | src/airdb_impl.cc:887-911 | In every run a finished round sends clean requests, one to every member for one below its smallest answer, if and only if that is another smallest than in the leader's last round since it started. |
| `GarbageCollection.RestartForgets` | src/airdb_impl.cc:934-942 | In every run a restart drops the removals scheduled at a node: no slot of it goes until another clean request arrives. |
| `PoolModel.StartsOnceInTime` | common/thread_pool.h:138-153 | In every run, with any number of workers, each delayed id starts at most once and not before its time. |
| `PoolModel.IdsAccountedFor` | common/thread_pool.h:84-114 | The ids issued are exactly those pending, started and cancelled, and no id is two of these. |
| `PoolModel.CancelledNeverStarts` | common/thread_pool.h:95-114 | After a CancelTask that returned true the id has not been and never will be started. |
| `PoolModel.CancelsPending` | common/thread_pool.h:95-114 | CancelTask returns true exactly for the ids that are pending. |
| `PoolModel.OneItemEach` | common/thread_pool.h:84-93 | A pending id has exactly one item in the queue, the one the map holds for it. |
| `PoolModel.StartsTheFirst` | common/thread_pool.h:138-151 | A delayed id that starts is the one the map holds, and no pending id comes before it by time and then id. |
| `PoolModel.PendingCounts` | common/thread_pool.h:72-83 | Whenever the mutex is free `pending_num_` is the length of the deque, and every normal entry ever added is queued, running or finished, once. |
| `PoolModel.FirstInFirstOut` | common/thread_pool.h:160-167 | Without AddPriorityTask normal entries start in the order added. |
| `PoolModel.StopWaitsForAll` | common/thread_pool.h:49-66 | If nothing is added after `Stop(true)` saw the count at 0, every normal entry has finished once all workers have left. |
| `PoolModel.CancelWaitsExactly` | common/thread_pool.h:94-114 | CancelTask waits for what is running, in every run, if and only if there is one worker at most. |
| `PoolRequests.DelayOrigin` | common/thread_pool.h:84-93 | In every run, with any number of workers, each delayed start is that of a DelayTask of the run: its own callback, under the id one above the last issued then, and at a clock no earlier than the clock of the call plus its delay. |
| `PoolRequests.StartsAsAsked` | common/thread_pool.h:84-92 | Ids tell the calls apart: a start under the id a DelayTask returned runs that call's callback, no earlier than asked for. |
| `PoolRequests.CancelReturns` | common/thread_pool.h:95-114 | In every run CancelTask waits only for an id whose callback some worker is running, one that was started; for any other it returns at once whether the id is pending. So it never waits for one that has finished. |
| `PoolRequests.WaitsWhileRunning` | common/thread_pool.h:95-114 | With one worker at most it waits exactly while that one runs the id. |
| `PoolRequests.PicksExactly` | common/thread_pool.h:127-168 | In every run an idle worker that looks for work leaves exactly when the pool is stopped; else, if anything delayed is due, takes a due item that nothing in the queue precedes and runs it if its id is still wanted; else starts the front of the deque; else changes nothing. |
| `PoolRequests.PriorityNext` | common/thread_pool.h:78-83 | In every run an entry of AddPriorityTask is the next normal one to start, until another is added by it. |
| `PoolRequests.StopStartsNothing` | common/thread_pool.h:56-60 | In every run nothing starts after the flag of `Stop` is set. |
| `PoolRequests.StopLeaves` | common/thread_pool.h:134-136 | Any worker then leaves at its next look, once what it runs has returned, so `Stop` joins it. |
| `ThreadPools.ThreadPool.constructor` | common/thread_pool.h:17-25 | A new pool has nothing queued and all its workers idle. |
| `ThreadPools.ThreadPool.AddTask` | common/thread_pool.h:72-77 | The entry joins the back of the deque and the count goes up by one, as the model's step has it, so every result about runs of the model is about the object. |
| `ThreadPools.ThreadPool.AddPriorityTask` | common/thread_pool.h:78-83 | The same at the front of the deque. |
| `ThreadPools.ThreadPool.DelayTask` | common/thread_pool.h:84-93 | Makes the model's step, of which `PoolRequests.DelayOrigin` and `PoolModel.IdsAccountedFor` speak, and returns its new id, one above the last. |
| `ThreadPools.ThreadPool.CancelTask` | common/thread_pool.h:95-114 | One pass of its loop makes the model's step and gives the model's answer. |
| `ThreadPools.ThreadPool.LookForWork` | common/thread_pool.h:127-168 | One pass of an idle worker makes the model's step and hands the worker what it is to run. |
| `ThreadPools.ThreadPool.TaskDone` | common/thread_pool.h:147-166 | When a worker takes the lock again its entry counts as finished, or the one field for the running id is cleared, as in the model's step. |
| `ThreadPools.ThreadPool.SetStop` | common/thread_pool.h:56-60 | From here on every worker that looks for work leaves, as in the model's step. |

## Left out

* CatchUp.Replicate: calls that fail and answers that say busy are retried by the code with nothing changed; the rounds modelled are those whose calls return with a verdict, and the logs are related by log matching, which without `align` is an assumption.
* LogMatching.LogMatching: needs `align`; `BadRuns.LogMatchingBreaks` is a run of the code without it, `Transfers.CodeLogMatching` the condition on the code.
* LogMatching.LogTerms: the same; the bound by the node's term is `Provenance.TermsBounded`, without it.
* LogMatching.FollowerLog: speaks of the follower with `align`; `Transfers.FlagExact` has when the follower of the code is that one.
* LeaderCompleteness.LeaderCompleteness: needs `align`; `Transfers.CodeLeaderCompleteness` has the condition on the code.
* CommitQuorum.AdvanceCommits: needs `replies` and `self`, as `BadRuns.OldReplyLosesCommit` and `BadRuns.SelfCountLosesCommit` show.
* CommitQuorum.LeaderCommitsSurvive: needs `align`, `replies` and `self`, each shown by a run of `BadRuns`; `Transfers.CodeCommitsSurvive` has the condition on the code.
* StateMachineSafety.StateMachineSafety: needs every repair but `empty`; `BadRuns.StateMachineSafetyBreaks` is a run of the code, `Transfers.CodeStateMachineSafety` the condition on it.
* StateMachineSafety.AppliedAgree: needs the same repairs.
* StateMachineSafety.StoresAgree: needs the same repairs.
* StateMachineSafety.CommitNeverFalls: needs `commit`; the code may lower the index.
* ClientSuccess.SuccessIsCommitted: a sufficient condition on what requests carry; the exact condition for runs of the code is `Answers.CommittedExactly`.
* ClientSuccess.RepairedSuccessIsCommitted: needs `commit`, as `BadRuns.AnsweredUncommitted` shows.
* Answers.SuccessIsApplied: needs every repair but `empty`; the exact condition for the code is `Answers.AppliedExactly`.
* Answers.SuccessIsDurable: needs the same repairs.
* ClientReads.RequestIsRead: needs every repair but `empty`, or that no slot moves under the loop, which is the exact condition of `Answers.AppliedExactly`.
* CatchUp.ReachableReady: needs `align`, without which logs need not match.
* AirDBNode.AirDBImpl.AppendEntriesImpl: one step, although the lock is released around `WriteEntryList` (`src/airdb_impl.cc:603-606`).
* AirDBNode.AirDBImpl.BuildRequest: reading the slots is part of the locked step before the call, although the code reads them after unlocking.
* AirDBNode.AirDBImpl.ApplyEntry: the slot read and the data write are one step, with no handler between them. The loop index is a 32-bit `int` in the code.
* AirDBNode.AirDBImpl.ApplyPass: the whole loop with no other handler between its rounds; runs in which they come between are those of `Cluster`, `ClientSuccess` and `Answers`.
* AirDBNode.AirDBImpl.ClientWrite: `Put`, `Delete`, `Lock` and `UnLock` are one method. Each kind of response has its own ticket; the code shares one `done` callback between the responses of an index.
* Decimal.StringToIntOfIntToString: parsing is modelled for digits with an optional minus sign; leading blanks and a plus sign, which no writer here produces, read as 0.
* GarbageCollection.SafeCleanIndex: the answers are given; a round in which a member does not answer ends without effect and is no event.
* CollectedLogs.CollectsExact: is about the handlers of running nodes; reopening a store reads its last slot too, and a restart among the collection events only forgets scheduled removals.
* Replication threads: that a thread for a peer starts and ends at any moment is an action of its own, wider than the code, which starts them at elections only.
* Restart of a node in the cluster runs: the term and the votes live in memory only (`src/airdb_impl.h:120-127`). Reopening and crashes belong to `BinLog`, `ApplyLoop` and `GarbageCollection`.
* The leader address sent back with answers other than a refused `Get`; the field it is taken from is that of `LeaderNames`.
* Exclusion by `Lock`: it writes without looking at a holder, so there is none to prove.
* Liveness of elections, timeouts and their floating-point arithmetic, reply paths that never run `done`, and the balance of the mutex in `GarbageClean`.
* The RPC client, protobuf, logging, flags, the SDK and the command line; LevelDB is a map with atomic batches, and removing slots before an index removes exactly those below it.
* What a thread pool entry does when it runs; the waiting loops of `CancelTask`, `Stop` and `ThreadProc` are single passes, which other steps may come between.
