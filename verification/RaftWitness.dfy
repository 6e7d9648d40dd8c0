/** The three hypotheses of the safety theorems are needed: for each one there is a run of three nodes
    that keeps the other two, breaks it once, and ends with the safety property broken. */
module RaftWitness {
  import opened Wrappers
  import opened RaftTypes
  import opened KeyValueFsm
  import opened RaftHandlers
  import opened RaftCluster
  import opened RaftElection
  import opened RaftLogs
  import opened RaftReplication
  import opened RaftQuorum
  import opened RaftSteps
  import opened RaftApply

  datatype Hypothesis = FreshVotes | CurrentAcks | BatchCommits

  predicate Meets(c: Cluster, a: Action, hs: set<Hypothesis>)
    requires Enabled(c, a)
  {
    && (FreshVotes in hs && a.ReceiveVoteReply? ==> VoteIsFresh(c.nodes[a.m.vote.candidateId], a.m.from, a.m.voteResp))
    && (CurrentAcks in hs && a.ReceiveAppendReply? ==>
          AckIsCurrent(c.nodes[a.m.append.leaderId], a.m.from, a.m.append, a.m.appendResp))
    && (BatchCommits in hs && a.ReceiveAppend? ==> CommitsWithinBatch(c.nodes[a.m.to], a.m.append))
  }

  predicate IsRunUnder(s: seq<Cluster>, actions: seq<Action>, hs: set<Hypothesis>) {
    && IsRun(s, actions)
    && forall i {:trigger actions[i]} | 0 <= i < |actions| :: Meets(s[i], actions[i], hs)
  }

  ghost predicate ReachableUnder(c: Cluster, hs: set<Hypothesis>) {
    exists s, actions :: IsRunUnder(s, actions, hs) && s[|actions|] == c
  }

  /** With all three hypotheses these are the runs of the safety theorems. */
  lemma AllHypotheses(s: seq<Cluster>, actions: seq<Action>)
    ensures IsRunUnder(s, actions, {FreshVotes, CurrentAcks, BatchCommits}) <==> IsGuardedRun(s, actions)
    ensures IsRunUnder(s, actions, {FreshVotes}) <==> IsElectionRun(s, actions)
  {
  }

  // ---------------------------------------------------------------- making runs

  lemma ReachInit(c: Cluster, hs: set<Hypothesis>)
    requires Init(c)
    ensures ReachableUnder(c, hs)
  {
    assert IsRunUnder([c], [], hs);
  }

  lemma ReachStep(c: Cluster, a: Action, hs: set<Hypothesis>)
    requires ReachableUnder(c, hs) && Enabled(c, a) && Meets(c, a, hs)
    ensures ReachableUnder(Step(c, a), hs)
  {
    var s, actions :| IsRunUnder(s, actions, hs) && s[|actions|] == c;
    RunGoesOn(s, actions, a, hs);
  }

  lemma RunGoesOn(s: seq<Cluster>, actions: seq<Action>, a: Action, hs: set<Hypothesis>)
    requires IsRunUnder(s, actions, hs) && Enabled(s[|actions|], a) && Meets(s[|actions|], a, hs)
    ensures
      var s', actions' := s + [Step(s[|actions|], a)], actions + [a];
      IsRunUnder(s', actions', hs) && s'[|actions'|] == Step(s[|actions|], a)
  {
    var s', actions' := s + [Step(s[|actions|], a)], actions + [a];
    forall i {:trigger actions'[i]} | 0 <= i < |actions'|
      ensures Enabled(s'[i], actions'[i]) && s'[i + 1] == Step(s'[i], actions'[i]) && Meets(s'[i], actions'[i], hs)
    {
      if i < |actions| {
        assert s'[i] == s[i] && s'[i + 1] == s[i + 1] && actions'[i] == actions[i];
      } else {
        assert s'[i] == s[i] && s'[i + 1] == Step(s[i], a) && actions'[i] == a;
      }
    }
  }

  /** Every step keeps the nodes in shape. */
  lemma StepKeepsShape(c: Cluster, a: Action)
    requires Enabled(c, a)
    ensures WellFormed(Step(c, a).ids, Step(c, a).nodes)
  {
    match a
    case Timeout(v) => WellFormedFrame(c.ids, c.nodes, v, BecomeCandidate(c.nodes[v]));
    case SendVote(v, p) =>
    case ReceiveVote(m) => WellFormedFrame(c.ids, c.nodes, m.to, HandleVoteRequest(c.nodes[m.to], m.vote).0);
    case ReceiveVoteReply(m) =>
      var v := m.vote.candidateId;
      WellFormedFrame(c.ids, c.nodes, v, HandleVoteResponse(c.nodes[v], m.from, m.voteResp));
    case SendAppend(v, p) =>
    case ReceiveAppend(m) =>
      AppendKeepsShape(c.nodes[m.to], m.append);
      WellFormedFrame(c.ids, c.nodes, m.to, HandleAppendRequest(c.nodes[m.to], m.append).0);
    case ReceiveAppendReply(m) =>
      var v := m.append.leaderId;
      AckKeepsShape(c.nodes[v], m.from, m.appendResp, |m.append.entries|);
      WellFormedFrame(c.ids, c.nodes, v, HandleAppendResponse(c.nodes[v], m.from, m.appendResp, |m.append.entries|));
    case ClientPropose(v, commands) => WellFormedFrame(c.ids, c.nodes, v, Propose(c.nodes[v], commands).value);
    case Resign(v, hint) => WellFormedFrame(c.ids, c.nodes, v, StepDown(c.nodes[v], hint));
  }

  lemma ReachedShape(c: Cluster, hs: set<Hypothesis>)
    requires ReachableUnder(c, hs)
    ensures WellFormed(c.ids, c.nodes)
  {
    var s, actions :| IsRunUnder(s, actions, hs) && s[|actions|] == c;
    if actions != [] {
      StepKeepsShape(s[|actions| - 1], actions[|actions| - 1]);
    }
  }

  lemma DoTimeout(c: Cluster, v: NodeId, hs: set<Hypothesis>) returns (c': Cluster)
    requires ReachableUnder(c, hs) && v in c.nodes
    ensures ReachableUnder(c', hs) && c'.net == c.net && c'.nodes == c.nodes[v := BecomeCandidate(c.nodes[v])]
  {
    ReachedShape(c, hs);
    c' := Step(c, Timeout(v));
    ReachStep(c, Timeout(v), hs);
  }

  lemma DoResign(c: Cluster, v: NodeId, hs: set<Hypothesis>) returns (c': Cluster)
    requires ReachableUnder(c, hs) && v in c.nodes
    ensures ReachableUnder(c', hs) && c'.net == c.net && c'.nodes == c.nodes[v := StepDown(c.nodes[v], None)]
  {
    ReachedShape(c, hs);
    c' := Step(c, Resign(v, None));
    ReachStep(c, Resign(v, None), hs);
  }

  lemma DoPropose(c: Cluster, v: NodeId, command: Command, hs: set<Hypothesis>) returns (c': Cluster)
    requires ReachableUnder(c, hs) && v in c.nodes && c.nodes[v].role.Leader?
    ensures ReachableUnder(c', hs) && c'.net == c.net
    ensures
      var n := c.nodes[v];
      var e := LogEntry(n.currentTerm, LastIndex(n.log) + 1, command, CommandEntry);
      c'.nodes == c.nodes[v := n.(log := n.log + [e])]
  {
    ReachedShape(c, hs);
    c' := Step(c, ClientPropose(v, [command]));
    ReachStep(c, ClientPropose(v, [command]), hs);
    ProposesOne(c.nodes[v], command);
  }

  lemma ProposesOne(n: Node, command: Command)
    requires n.role.Leader?
    ensures Propose(n, [command]) ==
            Some(n.(log := n.log + [LogEntry(n.currentTerm, LastIndex(n.log) + 1, command, CommandEntry)]))
  {
    assert Proposed(n.currentTerm, LastIndex(n.log) + 1, [command])
        == [LogEntry(n.currentTerm, LastIndex(n.log) + 1, command, CommandEntry)];
  }

  /** A candidate asks a peer, and the peer answers. */
  lemma DoVote(c: Cluster, cand: NodeId, voter: NodeId, hs: set<Hypothesis>) returns (c': Cluster, m: Message)
    requires ReachableUnder(c, hs) && cand in c.nodes && voter in c.nodes[cand].config.peers && voter in c.nodes
    ensures ReachableUnder(c', hs) && c.net <= c'.net && m in c'.net
    ensures
      var req := BuildVoteRequest(c.nodes[cand]);
      var (n', resp) := HandleVoteRequest(c.nodes[voter], req);
      m == VoteReply(voter, req, resp) && c'.nodes == c.nodes[voter := n']
  {
    ReachedShape(c, hs);
    var ask := VoteAsk(voter, BuildVoteRequest(c.nodes[cand]));
    var c1 := Step(c, SendVote(cand, voter));
    ReachStep(c, SendVote(cand, voter), hs);
    c' := Step(c1, ReceiveVote(ask));
    ReachStep(c1, ReceiveVote(ask), hs);
    var (n', resp) := HandleVoteRequest(c.nodes[voter], ask.vote);
    m := VoteReply(voter, ask.vote, resp);
  }

  lemma DoCount(c: Cluster, m: Message, hs: set<Hypothesis>) returns (c': Cluster)
    requires ReachableUnder(c, hs) && m.VoteReply? && m in c.net && m.vote.candidateId in c.nodes
    requires FreshVotes in hs ==> VoteIsFresh(c.nodes[m.vote.candidateId], m.from, m.voteResp)
    ensures ReachableUnder(c', hs) && c'.net == c.net
    ensures
      var v := m.vote.candidateId;
      c'.nodes == c.nodes[v := HandleVoteResponse(c.nodes[v], m.from, m.voteResp)]
  {
    ReachedShape(c, hs);
    c' := Step(c, ReceiveVoteReply(m));
    ReachStep(c, ReceiveVoteReply(m), hs);
  }

  /** A node replicates to a peer, and the peer answers. */
  lemma DoAppend(c: Cluster, l: NodeId, p: NodeId, hs: set<Hypothesis>) returns (c': Cluster, m: Message)
    requires ReachableUnder(c, hs) && l in c.nodes && p in c.nodes[l].config.peers && p in c.nodes
    requires BatchCommits in hs ==> CommitsWithinBatch(c.nodes[p], BuildAppendRequest(c.nodes[l], p))
    ensures ReachableUnder(c', hs) && c.net <= c'.net && m in c'.net
    ensures
      var req := BuildAppendRequest(c.nodes[l], p);
      var (n', resp) := HandleAppendRequest(c.nodes[p], req);
      m == AppendReply(p, req, resp) && c'.nodes == c.nodes[p := n']
  {
    ReachedShape(c, hs);
    var ask := AppendAsk(p, BuildAppendRequest(c.nodes[l], p));
    var c1 := Step(c, SendAppend(l, p));
    ReachStep(c, SendAppend(l, p), hs);
    c' := Step(c1, ReceiveAppend(ask));
    ReachStep(c1, ReceiveAppend(ask), hs);
    var (n', resp) := HandleAppendRequest(c.nodes[p], ask.append);
    m := AppendReply(p, ask.append, resp);
  }

  lemma AppendKeepsShape(n: Node, req: AppendRequest)
    requires TracksPeers(n)
    ensures HandleAppendRequest(n, req).0.config == n.config && TracksPeers(HandleAppendRequest(n, req).0)
  {
    var n2 := Follow(n, req.term, req.leaderId).(log := Merge(n.log, req.entries));
    ApplyOnly(n2.(commitIndex := Min(req.leaderCommit, LastIndex(n2.log))));
  }

  lemma DoAck(c: Cluster, m: Message, hs: set<Hypothesis>) returns (c': Cluster)
    requires ReachableUnder(c, hs) && m.AppendReply? && m in c.net && m.append.leaderId in c.nodes
    requires CurrentAcks in hs ==> AckIsCurrent(c.nodes[m.append.leaderId], m.from, m.append, m.appendResp)
    ensures ReachableUnder(c', hs) && c'.net == c.net
    ensures TracksPeers(c.nodes[m.append.leaderId])
    ensures
      var v := m.append.leaderId;
      c'.nodes == c.nodes[v := HandleAppendResponse(c.nodes[v], m.from, m.appendResp, |m.append.entries|)]
  {
    ReachedShape(c, hs);
    var n := c.nodes[m.append.leaderId];
    c' := Step(c, ReceiveAppendReply(m));
    ReachStep(c, ReceiveAppendReply(m), hs);
  }

  lemma AckKeepsShape(n: Node, from: NodeId, resp: AppendResponse, sent: nat)
    requires TracksPeers(n)
    ensures
      var n' := HandleAppendResponse(n, from, resp, sent);
      n'.config == n.config && TracksPeers(n')
  {
    if n.role.Leader? {
      var n1 := RecordSuccess(n, from, sent);
      ApplyOnly(n1.(commitIndex := QuorumIndex(n1)));
    }
  }

  // ---------------------------------------------------------------- three nodes

  function Cfg(v: NodeId): Config
    requires v < 3
  {
    Config(v, if v == 0 then [1, 2] else if v == 1 then [0, 2] else [0, 1], 100)
  }

  /** A node of three in term `t` that has committed nothing. */
  predicate Quiet(n: Node, v: NodeId, t: Term, log: Log) {
    && v < 3 && n.config == Cfg(v) && n.currentTerm == t && n.log == log && n.commitIndex == n.lastApplied == 0
    && n.fsm == EMPTY_FSM
  }

  lemma CfgFits(v: NodeId)
    requires v < 3
    ensures ConfigFits({0, 1, 2}, v, Cfg(v))
  {
  }

  lemma StartThree(hs: set<Hypothesis>) returns (c: Cluster)
    ensures ReachableUnder(c, hs) && c.nodes.Keys == {0, 1, 2}
    ensures forall v | v in c.nodes :: Quiet(c.nodes[v], v, 0, [])
  {
    var nodes := map[0 := InitNode(Cfg(0)), 1 := InitNode(Cfg(1)), 2 := InitNode(Cfg(2))];
    c := Cluster({0, 1, 2}, nodes, {}, History(map[], map[], map[]));
    CfgFits(0);
    CfgFits(1);
    CfgFits(2);
    ReachInit(c, hs);
  }

  // ---------------------------------------------------------------- elections of two out of three

  /** The leader that `n` becomes with the vote of `x`. */
  function WonBy(n: Node, x: NodeId): Node {
    BecomeLeader(BecomeCandidate(n).(role := Candidate({n.config.id, x})))
  }

  /** The node that `n` becomes by voting for `v` in a new term `t`. */
  function VotedIn(n: Node, t: Term, v: NodeId): Node {
    AdoptTerm(n, t).(votedFor := Some(v))
  }

  lemma CountSecond(n: Node, x: NodeId, resp: VoteResponse)
    requires n.role == Candidate({n.config.id}) && x != n.config.id && Quorum(n.config) == 2
    requires resp.granted && resp.term <= n.currentTerm
    ensures HandleVoteResponse(n, x, resp) == BecomeLeader(n.(role := Candidate({n.config.id, x})))
  {
  }

  /** All nodes but these are as they were. */
  predicate OthersStay(c: Cluster, c': Cluster, changed: set<NodeId>) {
    c'.nodes.Keys == c.nodes.Keys && forall u | u in c.nodes && u !in changed :: c'.nodes[u] == c.nodes[u]
  }

  /** A node stands and one peer grants it its vote; the grant is still on its way. */
  lemma Stand(c: Cluster, v: NodeId, x: NodeId, hs: set<Hypothesis>) returns (c': Cluster, m: Message)
    requires ReachableUnder(c, hs) && v in c.nodes && x in c.nodes && x in c.nodes[v].config.peers && x != v
    requires c.nodes[x].currentTerm <= c.nodes[v].currentTerm
    requires UpToDate(LastTerm(c.nodes[v].log), LastIndex(c.nodes[v].log), c.nodes[x].log)
    ensures ReachableUnder(c', hs) && m in c'.net && m.VoteReply? && m.from == x
            && m.vote.candidateId == v == c.nodes[v].config.id
    ensures m.voteResp == VoteResponse(c.nodes[v].currentTerm + 1, true)
    ensures OthersStay(c, c', {v, x})
    ensures c'.nodes[v] == BecomeCandidate(c.nodes[v])
            && c'.nodes[x] == VotedIn(c.nodes[x], c.nodes[v].currentTerm + 1, v)
  {
    ReachedShape(c, hs);
    var c1 := DoTimeout(c, v, hs);
    c', m := DoVote(c1, v, x, hs);
  }

  /** A node stands, gets one vote, and wins. */
  lemma Win(c: Cluster, v: NodeId, x: NodeId, hs: set<Hypothesis>) returns (c': Cluster)
    requires ReachableUnder(c, hs) && v in c.nodes && x in c.nodes && x in c.nodes[v].config.peers && x != v
    requires Quorum(c.nodes[v].config) == 2
    requires c.nodes[x].currentTerm <= c.nodes[v].currentTerm
    requires UpToDate(LastTerm(c.nodes[v].log), LastIndex(c.nodes[v].log), c.nodes[x].log)
    ensures ReachableUnder(c', hs) && OthersStay(c, c', {v, x})
    ensures c'.nodes[v] == WonBy(c.nodes[v], x) && c'.nodes[x] == VotedIn(c.nodes[x], c.nodes[v].currentTerm + 1, v)
  {
    var c1, m := Stand(c, v, x, hs);
    CountSecond(c1.nodes[v], x, m.voteResp);
    c' := DoCount(c1, m, hs);
  }

  /** A node stands, gets one vote, stands again before hearing of it, and then wins with it. */
  lemma StaleWin(c: Cluster, v: NodeId, x: NodeId, hs: set<Hypothesis>) returns (c': Cluster)
    requires ReachableUnder(c, hs) && FreshVotes !in hs
    requires v in c.nodes && x in c.nodes && x in c.nodes[v].config.peers && x != v
    requires Quorum(c.nodes[v].config) == 2
    requires c.nodes[x].currentTerm <= c.nodes[v].currentTerm
    requires UpToDate(LastTerm(c.nodes[v].log), LastIndex(c.nodes[v].log), c.nodes[x].log)
    ensures ReachableUnder(c', hs) && OthersStay(c, c', {v, x})
    ensures c'.nodes[v] == WonBy(BecomeCandidate(c.nodes[v]), x)
    ensures c'.nodes[x] == VotedIn(c.nodes[x], c.nodes[v].currentTerm + 1, v)
  {
    var c1, m := Stand(c, v, x, hs);
    var c2 := DoTimeout(c1, v, hs);
    CountSecond(c2.nodes[v], x, m.voteResp);
    c' := DoCount(c2, m, hs);
  }

  /** Without fresh votes: a grant of term 1, handled when its candidate is already in term 2, makes it
      leader of term 2 beside the leader that term 2 elected. */
  lemma StaleVoteElectsTwo() returns (c: Cluster)
    ensures ReachableUnder(c, {CurrentAcks, BatchCommits})
    ensures 0 in c.nodes && 2 in c.nodes && c.nodes[0].role.Leader? && c.nodes[2].role.Leader?
    ensures c.nodes[0].currentTerm == c.nodes[2].currentTerm
  {
    var hs := {CurrentAcks, BatchCommits};
    c := StartThree(hs);
    c := StaleWin(c, 0, 1, hs);
    c := DoTimeout(c, 2, hs);
    c := Win(c, 2, 1, hs);
  }

  // ---------------------------------------------------------------- commitment

  const X := Put([1], [1])
  const Y := Put([1], [2])

  function Entry(t: Term, i: Pos, command: Command): LogEntry {
    LogEntry(t, i, command, if command == NoOp then NoOpEntry else CommandEntry)
  }

  /** A leader whose entry of its own term is on itself and one peer of two picks it. */
  lemma PickSecond(n: Node, p: NodeId)
    requires n.role.Leader? && TracksPeers(n) && |n.config.peers| == 2 && p in n.config.peers
    requires Distinct(n.config.peers) && n.config.id !in n.config.peers
    requires LastIndex(n.log) == |n.log| && n.role.matchIndex[p] == |n.log|
    requires forall q | q in n.role.matchIndex :: n.role.matchIndex[q] <= |n.log|
    ensures QuorumIndex(n) == |n.log|
  {
    var k := |n.log|;
    QuorumIndexIsLargest(n, k);
    QuorumIndexIsLargest(n, k + 1);
    assert {p, n.config.id} <= KnownHolders(n, k);
    SubsetSize({p, n.config.id}, KnownHolders(n, k));
    assert KnownHolders(n, k + 1) == {};
  }

  /** Acknowledging `p` for a log that ends in the leader's term commits and applies all of it. */
  lemma AckCommits(n: Node, p: NodeId, sent: nat)
    requires n.role.Leader? && TracksPeers(n) && |n.config.peers| == 2 && p in n.config.peers
    requires Distinct(n.config.peers) && n.config.id !in n.config.peers
    requires LastIndex(n.log) == |n.log| > n.commitIndex && AppliedOK(n)
    requires LastTerm(n.log) == n.currentTerm
    requires forall q | q in n.role.matchIndex :: n.role.matchIndex[q] <= |n.log|
    ensures
      var n' := HandleAppendResponse(n, p, AppendResponse(n.currentTerm, true, None, None), sent);
      && n'.log == n.log && n'.lastApplied == n'.commitIndex == |n.log|
      && n'.fsm == Replay(EMPTY_FSM, n.log)
      && n'.config == n.config && n'.currentTerm == n.currentTerm && n'.role.Leader?
  {
    var n1 := RecordSuccess(n, p, sent);
    PickSecond(n1, p);
    AppliedTo(n1, |n.log|);
    assert n.log[..|n.log|] == n.log;
  }

  /** A leader that believes its peer to be empty sends its whole log. */
  lemma SendsAll(n: Node, p: NodeId)
    requires n.role.Leader? && Indexed(n.log) && |n.log| <= n.config.maxEntries
    requires p in n.role.nextIndex && n.role.nextIndex[p] == 1
    ensures BuildAppendRequest(n, p) == AppendRequest(n.currentTerm, n.config.id, 0, 0, n.log, n.commitIndex)
  {
    EntriesFromTail(n.log, 0, 1);
  }

  /** An empty follower takes over the whole log and commits nothing. */
  lemma TakesAll(f: Node, req: AppendRequest)
    requires f.log == [] && req.term >= f.currentTerm && req.prevLogIndex == 0 && req.leaderCommit <= f.commitIndex
    requires Consecutive(0, req.entries)
    ensures HandleAppendRequest(f, req) ==
            (Follow(f, req.term, req.leaderId).(log := req.entries), AppendResponse(req.term, true, None, None))
  {
    MergeAppends([], req.entries);
    assert [] + req.entries == req.entries;
  }

  /** A leader of three whose whole log is its own and not yet acknowledged by anyone. */
  predicate NewLeader(n: Node, v: NodeId, t: Term, log: Log) {
    && v < 3 && n.config == Cfg(v) && n.currentTerm == t && n.role.Leader? && n.log == log
    && TracksPeers(n) && n.role.nextIndex.Keys == Members(n.config.peers)
    && (forall p | p in n.config.peers :: n.role.nextIndex[p] == 1 && n.role.matchIndex[p] == 0)
    && n.commitIndex == n.lastApplied == 0 && n.fsm == EMPTY_FSM
  }

  /** A new leader's first batch, taken over by an empty peer. */
  lemma FirstBatch(c: Cluster, v: NodeId, p: NodeId, t: Term, log: Log, hs: set<Hypothesis>)
    returns (c': Cluster, m: Message)
    requires ReachableUnder(c, hs) && v in c.nodes && p in c.nodes && p in c.nodes[v].config.peers
    requires NewLeader(c.nodes[v], v, t, log) && Indexed(log) && |log| <= 100
    requires Quiet(c.nodes[p], p, c.nodes[p].currentTerm, []) && c.nodes[p].currentTerm <= t
    ensures ReachableUnder(c', hs) && m in c'.net && OthersStay(c, c', {p})
    ensures m == AppendReply(p, AppendRequest(t, v, 0, 0, log, 0), AppendResponse(t, true, None, None))
    ensures c'.nodes[p] == Follow(c.nodes[p], t, v).(log := log)
  {
    SendsAll(c.nodes[v], p);
    TakesAll(c.nodes[p], BuildAppendRequest(c.nodes[v], p));
    c', m := DoAppend(c, v, p, hs);
  }

  lemma FirstAck(n: Node, v: NodeId, t: Term, log: Log, p: NodeId, sent: nat)
    requires NewLeader(n, v, t, log) && p in n.config.peers && log != [] && Indexed(log) && LastTerm(log) == t
    ensures
      var n' := HandleAppendResponse(n, p, AppendResponse(t, true, None, None), sent);
      && n'.log == log && n'.lastApplied == n'.commitIndex == |log| && n'.fsm == Replay(EMPTY_FSM, log)
      && n'.config == n.config && n'.currentTerm == t && n'.role.Leader?
  {
    assert Distinct(n.config.peers) && n.config.id !in n.config.peers;
    AckCommits(n, p, sent);
  }

  /** An empty node can win with the vote of another empty one. */
  lemma CanWin(n: Node, v: NodeId, t: Term, f: Node, x: NodeId)
    requires Quiet(n, v, t, []) && x < 3 && x != v && f.log == []
    ensures x in n.config.peers && Quorum(n.config) == 2 && UpToDate(LastTerm(n.log), LastIndex(n.log), f.log)
    ensures NewLeader(WonBy(n, x), v, t + 1, [Entry(t + 1, 1, NoOp)])
  {
  }

  lemma WinFresh(c: Cluster, v: NodeId, x: NodeId, t: Term, hs: set<Hypothesis>) returns (c': Cluster)
    requires ReachableUnder(c, hs) && v in c.nodes && x in c.nodes && v < 3 && x < 3 && x != v
    requires Quiet(c.nodes[v], v, t, []) && Quiet(c.nodes[x], x, c.nodes[x].currentTerm, [])
             && c.nodes[x].currentTerm <= t
    ensures ReachableUnder(c', hs) && OthersStay(c, c', {v, x})
    ensures NewLeader(c'.nodes[v], v, t + 1, [Entry(t + 1, 1, NoOp)]) && Quiet(c'.nodes[x], x, t + 1, [])
  {
    CanWin(c.nodes[v], v, t, c.nodes[x], x);
    c' := Win(c, v, x, hs);
  }

  /** The first leader of three. */
  lemma FirstLeader(v: NodeId, x: NodeId, rest: NodeId, hs: set<Hypothesis>) returns (c: Cluster)
    requires v in {0, 1, 2} && x in {0, 1, 2} && rest in {0, 1, 2} && v != x && x != rest && rest != v
    ensures ReachableUnder(c, hs) && c.nodes.Keys == {0, 1, 2}
    ensures NewLeader(c.nodes[v], v, 1, [Entry(1, 1, NoOp)]) && Quiet(c.nodes[x], x, 1, [])
            && Quiet(c.nodes[rest], rest, 0, [])
  {
    var c0 := StartThree(hs);
    assert Quiet(c0.nodes[v], v, 0, []) && Quiet(c0.nodes[x], x, 0, []) && Quiet(c0.nodes[rest], rest, 0, []);
    c := WinFresh(c0, v, x, 0, hs);
    assert c.nodes[rest] == c0.nodes[rest];
  }

  /** A new leader proposes. */
  lemma ProposeFresh(c: Cluster, v: NodeId, t: Term, command: Command, hs: set<Hypothesis>) returns (c': Cluster)
    requires ReachableUnder(c, hs) && v in c.nodes && NewLeader(c.nodes[v], v, t, [Entry(t, 1, NoOp)])
             && command != NoOp
    ensures ReachableUnder(c', hs) && OthersStay(c, c', {v}) && c.net <= c'.net
    ensures NewLeader(c'.nodes[v], v, t, [Entry(t, 1, NoOp), Entry(t, 2, command)])
  {
    c' := DoPropose(c, v, command, hs);
    assert [Entry(t, 1, NoOp)] + [Entry(t, 2, command)] == [Entry(t, 1, NoOp), Entry(t, 2, command)];
  }

  /** A new leader hears its first success. */
  lemma AckFresh(c: Cluster, m: Message, v: NodeId, t: Term, log: Log, hs: set<Hypothesis>) returns (c': Cluster)
    requires ReachableUnder(c, hs) && m in c.net && v in c.nodes && NewLeader(c.nodes[v], v, t, log)
    requires log != [] && Indexed(log) && LastTerm(log) == t
    requires m.AppendReply? && m.append.leaderId == v && m.appendResp == AppendResponse(t, true, None, None)
    requires m.from in c.nodes[v].config.peers
    requires CurrentAcks in hs ==> m.append.prevLogIndex == 0 && m.append.entries == log
    ensures ReachableUnder(c', hs) && OthersStay(c, c', {v})
    ensures
      var n := c'.nodes[v];
      && n.config == Cfg(v) && n.currentTerm == t && n.log == log
      && n.lastApplied == n.commitIndex == |log| && n.fsm == Replay(EMPTY_FSM, log)
  {
    FirstAck(c.nodes[v], v, t, log, m.from, |m.append.entries|);
    c' := DoAck(c, m, hs);
  }

  lemma LateAckStart(hs: set<Hypothesis>) returns (c: Cluster, m: Message)
    ensures ReachableUnder(c, hs) && m in c.net && c.nodes.Keys == {0, 1, 2}
    ensures NewLeader(c.nodes[0], 0, 1, [Entry(1, 1, NoOp)])
    ensures Quiet(c.nodes[1], 1, 1, [Entry(1, 1, NoOp)]) && Quiet(c.nodes[2], 2, 0, [])
    ensures m == AppendReply(1, AppendRequest(1, 0, 0, 0, [Entry(1, 1, NoOp)], 0), AppendResponse(1, true, None, None))
  {
    c := FirstLeader(0, 1, 2, hs);
    c, m := FirstBatch(c, 0, 1, 1, [Entry(1, 1, NoOp)], hs);
  }

  /** Leader 0 has proposed a second entry and applied both on the reply to the first. */
  lemma LateAckApplies(hs: set<Hypothesis>) returns (c: Cluster)
    requires CurrentAcks !in hs
    ensures ReachableUnder(c, hs) && c.nodes.Keys == {0, 1, 2}
    ensures c.nodes[0].log == [Entry(1, 1, NoOp), Entry(1, 2, X)] && c.nodes[0].lastApplied == 2
            && c.nodes[0].currentTerm == 1
    ensures Quiet(c.nodes[1], 1, 1, [Entry(1, 1, NoOp)]) && Quiet(c.nodes[2], 2, 0, [])
  {
    var m: Message;
    c, m := LateAckStart(hs);
    c := ProposeFresh(c, 0, 1, X, hs);
    c := AckFresh(c, m, 0, 1, [Entry(1, 1, NoOp), Entry(1, 2, X)], hs);
  }

  /** Without current acknowledgements: a leader that proposed after sending takes the old reply for the
      new entry, applies it alone, and a later leader never had it. */
  lemma LateAckLosesEntry() returns (c: Cluster)
    ensures ReachableUnder(c, {FreshVotes, BatchCommits})
    ensures 0 in c.nodes && 1 in c.nodes
    ensures c.nodes[1].role.Leader? && c.nodes[1].currentTerm > c.nodes[0].currentTerm
    ensures c.nodes[0].lastApplied == 2 == |c.nodes[0].log| && !(c.nodes[0].log <= c.nodes[1].log)
  {
    var hs := {FreshVotes, BatchCommits};
    c := LateAckApplies(hs);
    c := Win(c, 1, 2, hs);
    assert c.nodes[0].log[1] != c.nodes[1].log[1];
  }

  lemma StrayCommits(f: Node, req: AppendRequest)
    requires AppliedOK(f) && f.commitIndex == 0 && LastIndex(f.log) == |f.log|
    requires req.term > f.currentTerm && req.prevLogIndex == 0 && req.entries == [] && req.leaderCommit == |f.log| > 0
    ensures
      var n := HandleAppendRequest(f, req).0;
      n.lastApplied == |f.log| && n.log == f.log && n.fsm == Replay(EMPTY_FSM, f.log)
  {
    var n1 := Follow(f, req.term, req.leaderId);
    assert AppliedOK(n1);
    AppliedTo(n1, |f.log|);
    assert f.log[..|f.log|] == f.log;
  }

  /** Leader 2 of term 1 has an entry of its own. */
  lemma OneLog(hs: set<Hypothesis>) returns (c: Cluster)
    ensures ReachableUnder(c, hs) && c.nodes.Keys == {0, 1, 2}
    ensures Quiet(c.nodes[0], 0, 0, []) && Quiet(c.nodes[1], 1, 1, [])
    ensures Quiet(c.nodes[2], 2, 1, [Entry(1, 1, NoOp), Entry(1, 2, Y)])
  {
    c := FirstLeader(2, 1, 0, hs);
    c := ProposeFresh(c, 2, 1, Y, hs);
  }

  /** Leader 0 of term 2 has another entry at the same index. */
  lemma TwoLogs(hs: set<Hypothesis>) returns (c: Cluster)
    ensures ReachableUnder(c, hs) && c.nodes.Keys == {0, 1, 2}
    ensures NewLeader(c.nodes[0], 0, 2, [Entry(2, 1, NoOp), Entry(2, 2, X)])
    ensures Quiet(c.nodes[1], 1, 2, []) && Quiet(c.nodes[2], 2, 1, [Entry(1, 1, NoOp), Entry(1, 2, Y)])
  {
    c := OneLog(hs);
    c := DoTimeout(c, 0, hs);
    c := WinFresh(c, 0, 1, 1, hs);
    c := ProposeFresh(c, 0, 2, X, hs);
  }

  /** Leader 0 has committed and applied its entry on itself and node 1. */
  lemma TwoLogsOneCommitted(hs: set<Hypothesis>) returns (c: Cluster)
    ensures ReachableUnder(c, hs) && c.nodes.Keys == {0, 1, 2}
    ensures
      var n := c.nodes[0];
      && n.config == Cfg(0) && n.currentTerm == 2 && n.log == [Entry(2, 1, NoOp), Entry(2, 2, X)]
      && n.lastApplied == n.commitIndex == 2 && n.fsm == Replay(EMPTY_FSM, n.log)
    ensures Quiet(c.nodes[2], 2, 1, [Entry(1, 1, NoOp), Entry(1, 2, Y)])
  {
    var m: Message;
    c := TwoLogs(hs);
    c, m := FirstBatch(c, 0, 1, 2, [Entry(2, 1, NoOp), Entry(2, 2, X)], hs);
    c := AckFresh(c, m, 0, 2, [Entry(2, 1, NoOp), Entry(2, 2, X)], hs);
  }

  /** Without commits confined to the batch: a node that stepped down still sends a heartbeat with its
      commit index, and a receiver applies its own, different, entries up to it. */
  lemma StrayHeartbeatSplitsState() returns (c: Cluster)
    ensures ReachableUnder(c, {FreshVotes, CurrentAcks})
    ensures 0 in c.nodes && 2 in c.nodes && c.nodes[0].lastApplied == c.nodes[2].lastApplied == 2
    ensures Lookup(c.nodes[0].fsm, [1]) == Some([1]) && Lookup(c.nodes[2].fsm, [1]) == Some([2])
  {
    var hs := {FreshVotes, CurrentAcks};
    var m: Message;
    c := TwoLogsOneCommitted(hs);
    c := DoResign(c, 0, hs);
    var n, d := c.nodes[0], c.nodes[2];
    StrayCommits(d, BuildAppendRequest(n, 2));
    c, m := DoAppend(c, 0, 2, hs);
    ReplayReadsLastWrite(n.log, [1]);
    ReplayReadsLastWrite(d.log, [1]);
  }
}
