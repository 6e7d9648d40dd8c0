/** The message handlers of a Raft node as functions on its state. Each one takes the branches
    of the handler it models, in the same order. */
module RaftHandlers {
  import opened Wrappers
  import opened RaftTypes
  import opened KeyValueFsm

  // ---------------------------------------------------------------- log access

  function LastIndex(log: Log): LogIndex {
    if log == [] then 0 else log[|log| - 1].index
  }

  function LastTerm(log: Log): Term {
    if log == [] then 0 else log[|log| - 1].term
  }

  /** `get_log_entry`: the entry at position `i`, counting from 1. */
  function EntryAt(log: Log, i: LogIndex): Option<LogEntry> {
    if i == 0 || i > |log| then None else Some(log[i - 1])
  }

  // ---------------------------------------------------------------- configuration

  function Quorum(c: Config): nat {
    (|c.peers| + 1) / 2 + 1
  }

  function Members(s: seq<NodeId>): set<NodeId> {
    set x | x in s
  }

  function InitNode(c: Config): Node {
    Node(c, 0, None, [], 0, 0, Follower(None), EMPTY_FSM)
  }

  // ---------------------------------------------------------------- elections

  function StepDown(n: Node, leader: Option<NodeId>): Node {
    n.(role := Follower(leader))
  }

  function BecomeCandidate(n: Node): Node {
    n.(currentTerm := n.currentTerm + 1,
       votedFor := Some(n.config.id),
       role := Candidate({n.config.id}))
  }

  /** Every peer with the same value. */
  function Uniform<T>(peers: seq<NodeId>, x: T): (r: map<NodeId, T>)
    ensures r.Keys == Members(peers)
    ensures forall p | p in r :: r[p] == x
  {
    if peers == [] then map[]
    else
      var k := |peers| - 1;
      assert peers == peers[..k] + [peers[k]];
      Uniform(peers[..k], x)[peers[k] := x]
  }

  function NoOpAt(n: Node): LogEntry {
    LogEntry(n.currentTerm, LastIndex(n.log) + 1, NoOp, NoOpEntry)
  }

  function BecomeLeader(n: Node): Node {
    n.(role := Leader(Uniform<Pos>(n.config.peers, LastIndex(n.log) + 1), Uniform<LogIndex>(n.config.peers, 0)),
       log := n.log + [NoOpAt(n)])
  }

  /** Section 5.4.1 of the Raft paper: the candidate's log is at least as up-to-date as ours. */
  predicate UpToDate(candTerm: Term, candIndex: LogIndex, log: Log) {
    candTerm > LastTerm(log) || (candTerm == LastTerm(log) && candIndex >= LastIndex(log))
  }

  predicate CanVote(n: Node, candidate: NodeId) {
    n.votedFor == None || n.votedFor == Some(candidate)
  }

  /** Adopting a higher term forgets the vote and steps down. */
  function AdoptTerm(n: Node, t: Term): Node {
    if t > n.currentTerm then n.(currentTerm := t, votedFor := None, role := Follower(None)) else n
  }

  function HandleVoteRequest(n: Node, req: VoteRequest): (Node, VoteResponse) {
    if req.term < n.currentTerm then
      (n, VoteResponse(n.currentTerm, false))
    else
      var n1 := AdoptTerm(n, req.term);
      if CanVote(n1, req.candidateId) && UpToDate(req.lastLogTerm, req.lastLogIndex, n1.log) then
        (n1.(votedFor := Some(req.candidateId)), VoteResponse(n1.currentTerm, true))
      else
        (n1, VoteResponse(n1.currentTerm, false))
  }

  /** The handler as written: a grant is counted whatever (older) term it comes from. */
  function HandleVoteResponse(n: Node, from: NodeId, resp: VoteResponse): Node {
    if resp.term > n.currentTerm then
      AdoptTerm(n, resp.term)
    else if n.role.Candidate? && resp.granted then
      var n1 := n.(role := Candidate(n.role.votes + {from}));
      if |n1.role.votes| >= Quorum(n.config) then BecomeLeader(n1) else n1
    else
      n
  }

  // ---------------------------------------------------------------- replication

  /** One turn of the loop that deletes conflicting entries and appends new ones. */
  function MergeEntry(log: Log, e: LogEntry): Log {
    if e.index <= |log| then
      if log[e.index - 1].term != e.term then log[..e.index - 1] + [e] else log
    else
      log + [e]
  }

  function Merge(log: Log, entries: seq<LogEntry>): Log
    decreases |entries|
  {
    if entries == [] then log else Merge(MergeEntry(log, entries[0]), entries[1..])
  }

  /** The position (from 1) of the first entry of term `t`, or 1 if there is none. */
  function FirstOfTerm(log: Log, t: Term, i: nat): Pos
    requires i <= |log|
    decreases |log| - i
  {
    if i == |log| then 1
    else if log[i].term == t then i + 1
    else FirstOfTerm(log, t, i + 1)
  }

  predicate PrevMatches(log: Log, req: AppendRequest) {
    req.prevLogIndex == 0
    || (EntryAt(log, req.prevLogIndex).Some? && EntryAt(log, req.prevLogIndex).value.term == req.prevLogTerm)
  }

  function Rejection(log: Log, req: AppendRequest): AppendResponse {
    match EntryAt(log, req.prevLogIndex)
    case None => AppendResponse(req.term, false, Some(LastIndex(log) + 1), None)
    case Some(e) => AppendResponse(req.term, false, Some(FirstOfTerm(log, e.term, 0)), Some(e.term))
  }

  /** `apply_committed_entries`. */
  function ApplyCommitted(n: Node): Node
    decreases n.commitIndex - n.lastApplied
  {
    if n.lastApplied < n.commitIndex then
      var i := n.lastApplied + 1;
      ApplyCommitted(n.(lastApplied := i,
                        fsm := match EntryAt(n.log, i)
                               case None => n.fsm
                               case Some(e) => Apply(n.fsm, e)))
    else n
  }

  /** Acknowledging the sender as leader: adopt its term and follow it. */
  function Follow(n: Node, t: Term, leader: NodeId): Node {
    n.(currentTerm := t,
       votedFor := if t > n.currentTerm then None else n.votedFor,
       role := Follower(Some(leader)))
  }

  function AdvanceTo(n: Node, leaderCommit: LogIndex): Node {
    if leaderCommit > n.commitIndex then
      ApplyCommitted(n.(commitIndex := Min(leaderCommit, LastIndex(n.log))))
    else n
  }

  function HandleAppendRequest(n: Node, req: AppendRequest): (Node, AppendResponse) {
    if req.term < n.currentTerm then
      (n, AppendResponse(n.currentTerm, false, None, None))
    else
      var n1 := Follow(n, req.term, req.leaderId);
      if !PrevMatches(n1.log, req) then
        (n1, Rejection(n1.log, req))
      else
        var n2 := n1.(log := Merge(n1.log, req.entries));
        (AdvanceTo(n2, req.leaderCommit), AppendResponse(req.term, true, None, None))
  }

  /** A leader tracks exactly its peers. */
  predicate TracksPeers(n: Node) {
    n.role.Leader? ==> n.role.matchIndex.Keys == Members(n.config.peers)
  }

  /** The match indices of `peers`, in their order. */
  function MatchValues(peers: seq<NodeId>, matched: map<NodeId, LogIndex>): (r: seq<nat>)
    requires forall p | p in peers :: p in matched
    ensures |r| == |peers|
  {
    if peers == [] then [] else [matched[peers[0]]] + MatchValues(peers[1..], matched)
  }

  /** The indices `try_advance_commit_index` sorts: every peer's match index and our last index. */
  function Replicated(n: Node): seq<nat>
    requires n.role.Leader? && TracksPeers(n)
  {
    MatchValues(n.config.peers, n.role.matchIndex) + [LastIndex(n.log)]
  }

  function Insert(x: nat, s: seq<nat>): seq<nat> {
    if s == [] || x <= s[0] then [x] + s else [s[0]] + Insert(x, s[1..])
  }

  function Sort(s: seq<nat>): (r: seq<nat>)
    ensures |r| == |s|
  {
    if s == [] then [] else InsertLength(s[0], Sort(s[1..])); Insert(s[0], Sort(s[1..]))
  }

  lemma InsertLength(x: nat, s: seq<nat>)
    ensures |Insert(x, s)| == |s| + 1
  {
  }

  function QuorumIndex(n: Node): nat
    requires n.role.Leader? && TracksPeers(n)
  {
    var sorted := Sort(Replicated(n));
    sorted[|sorted| - Quorum(n.config)]
  }

  function TryAdvance(n: Node): Node
    requires TracksPeers(n)
  {
    if n.role.Leader? then
      var k := QuorumIndex(n);
      if k > n.commitIndex && EntryAt(n.log, k).Some? && EntryAt(n.log, k).value.term == n.currentTerm then
        ApplyCommitted(n.(commitIndex := k))
      else n
    else n
  }

  /** The handler as written: a success sets the match index to our present last index. */
  function HandleAppendResponse(n: Node, from: NodeId, resp: AppendResponse, sent: nat): Node
    requires TracksPeers(n)
  {
    if resp.term > n.currentTerm then
      AdoptTerm(n, resp.term)
    else if n.role.Leader? then
      if resp.success then TryAdvance(RecordSuccess(n, from, sent)) else RecordFailure(n, from, resp)
    else
      n
  }

  function RecordSuccess(n: Node, from: NodeId, sent: nat): (r: Node)
    requires n.role.Leader?
    ensures TracksPeers(n) ==> TracksPeers(r)
  {
    var next := n.role.nextIndex;
    var matched := n.role.matchIndex;
    n.(role := Leader(if from in next then next[from := next[from] + sent] else next,
                      if from in matched then matched[from := LastIndex(n.log)] else matched))
  }

  function RecordFailure(n: Node, from: NodeId, resp: AppendResponse): (r: Node)
    requires n.role.Leader?
    ensures TracksPeers(n) ==> TracksPeers(r)
  {
    var next := n.role.nextIndex;
    if from in next then
      n.(role := Leader(next[from := match resp.conflictIndex
                                     case Some(i) => i
                                     case None => if next[from] > 1 then next[from] - 1 else next[from]],
                        n.role.matchIndex))
    else n
  }

  // ---------------------------------------------------------------- requests

  function TakeUpTo(s: seq<LogEntry>, k: nat): seq<LogEntry> {
    if |s| <= k then s else s[..k]
  }

  /** The entries at index `next` or later, in log order. */
  function EntriesFrom(log: Log, next: Pos): seq<LogEntry> {
    if log == [] then []
    else (if log[0].index >= next then [log[0]] else []) + EntriesFrom(log[1..], next)
  }

  function BuildVoteRequest(n: Node): VoteRequest {
    VoteRequest(n.currentTerm, n.config.id, LastIndex(n.log), LastTerm(n.log))
  }

  /** A node that is no longer leader builds an empty batch at index 0, still under its own name. */
  function BuildAppendRequest(n: Node, peer: NodeId): AppendRequest {
    if n.role.Leader? then
      var next: Pos := if peer in n.role.nextIndex then n.role.nextIndex[peer] else 1;
      var prevTerm := match EntryAt(n.log, next - 1) case None => 0 case Some(e) => e.term;
      AppendRequest(n.currentTerm, n.config.id, next - 1, prevTerm,
                    TakeUpTo(EntriesFrom(n.log, next), n.config.maxEntries), n.commitIndex)
    else
      AppendRequest(n.currentTerm, n.config.id, 0, 0, [], n.commitIndex)
  }

  // ---------------------------------------------------------------- proposals

  function Proposed(t: Term, start: Pos, commands: seq<Command>): seq<LogEntry> {
    seq(|commands|, i requires 0 <= i < |commands| => LogEntry(t, start + i, commands[i], CommandEntry))
  }

  /** `batch_propose`; `propose` is the case of one command. */
  function Propose(n: Node, commands: seq<Command>): Option<Node> {
    if n.role.Leader? then
      Some(n.(log := n.log + Proposed(n.currentTerm, LastIndex(n.log) + 1, commands)))
    else None
  }
}
