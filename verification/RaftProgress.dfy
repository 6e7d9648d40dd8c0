/** What a node must do besides being safe: commit what a quorum is known to hold, say where a rejected batch should
    start, pass the commit index on, and keep proposals in order. */
module RaftProgress {
  import opened Wrappers
  import opened RaftTypes
  import opened KeyValueFsm
  import opened RaftHandlers
  import opened RaftCluster
  import opened RaftElection
  import opened RaftLogs
  import opened RaftQuorum
  import opened RaftSteps
  import opened RaftApply
  import opened RaftReplication
  import opened RaftVoting

  // ---------------------------------------------------------------- committing

  /** An index of the leader's log whose entry is of its own term. */
  predicate OwnIndex(n: Node, x: nat) {
    1 <= x <= |n.log| && n.log[x - 1].term == n.currentTerm
  }

  /** The log of a node: numbered, in ascending terms up to its own. */
  predicate LogFits(n: Node) {
    Shaped(n.log) && TermBelow(n.log, n.currentTerm + 1)
  }

  predicate PeersFit(cfg: Config) {
    Distinct(cfg.peers) && cfg.id !in cfg.peers
  }

  predicate MatchWithin(n: Node)
    requires n.role.Leader? && TracksPeers(n)
  {
    forall p | p in n.config.peers :: n.role.matchIndex[p] <= |n.log|
  }

  predicate QuorumHolds(n: Node, x: nat)
    requires n.role.Leader? && TracksPeers(n)
  {
    |KnownHolders(n, x)| >= Quorum(n.config)
  }

  lemma PickIsWithin(n: Node)
    requires n.role.Leader? && TracksPeers(n) && PeersFit(n.config) && Indexed(n.log) && MatchWithin(n)
    ensures QuorumIndex(n) <= |n.log|
  {
    LastOfIndexed(n.log);
    assert KnownHolders(n, |n.log| + 1) == {};
    QuorumIndexIsLargest(n, |n.log| + 1);
  }

  /** Entries of the own term are the end of the log. */
  lemma OwnIndicesFollow(n: Node, x: nat, k: nat)
    requires LogFits(n) && OwnIndex(n, x) && x <= k <= |n.log|
    ensures OwnIndex(n, k)
  {
    assert n.log[x - 1].term <= n.log[k - 1].term;
  }

  /** Advancing commits every index of the own term that a quorum is known to hold, and beyond what was committed
      nothing else. */
  lemma QuorumIsCommitted(n: Node, x: nat)
    requires n.role.Leader? && TracksPeers(n) && PeersFit(n.config) && LogFits(n) && MatchWithin(n)
    ensures
      var n' := TryAdvance(n);
      && n' == n.(commitIndex := n'.commitIndex, lastApplied := n'.lastApplied, fsm := n'.fsm)
      && n.commitIndex <= n'.commitIndex
      && (OwnIndex(n, x) && QuorumHolds(n, x) ==> x <= n'.commitIndex)
      && (OwnIndex(n, x) && n.commitIndex < x <= n'.commitIndex ==> QuorumHolds(n, x))
      && (n.commitIndex < n'.commitIndex ==> OwnIndex(n, n'.commitIndex) && QuorumHolds(n, n'.commitIndex))
  {
    var k := QuorumIndex(n);
    PickIsWithin(n);
    QuorumIndexIsLargest(n, x);
    QuorumIndexIsLargest(n, k);
    ApplyOnly(n.(commitIndex := k));
    if OwnIndex(n, x) && x <= k {
      OwnIndicesFollow(n, x, k);
    }
  }

  /** The leader has committed exactly the indices of its own term that a quorum is known to hold. */
  ghost predicate CommitExact(n: Node) {
    n.role.Leader? ==>
      && TracksPeers(n) && MatchWithin(n)
      && forall x: nat {:trigger OwnIndex(n, x)} | OwnIndex(n, x) :: x <= n.commitIndex <==> QuorumHolds(n, x)
  }

  /** More is known to be held after a success. */
  lemma HoldersGrow(n: Node, from: NodeId, sent: nat, x: nat)
    requires n.role.Leader? && TracksPeers(n) && Indexed(n.log) && MatchWithin(n)
    ensures
      var n1 := RecordSuccess(n, from, sent);
      MatchWithin(n1) && (QuorumHolds(n, x) ==> QuorumHolds(n1, x))
  {
    LastOfIndexed(n.log);
    SubsetSize(KnownHolders(n, x), KnownHolders(RecordSuccess(n, from, sent), x));
  }

  lemma ExactAfterSuccess(n: Node, from: NodeId, sent: nat)
    requires n.role.Leader? && TracksPeers(n) && PeersFit(n.config) && LogFits(n) && CommitExact(n)
    ensures CommitExact(TryAdvance(RecordSuccess(n, from, sent)))
  {
    var n1 := RecordSuccess(n, from, sent);
    var n' := TryAdvance(n1);
    HoldersGrow(n, from, sent, 0);
    QuorumIsCommitted(n1, 0);
    forall x: nat | OwnIndex(n', x) ensures x <= n'.commitIndex <==> QuorumHolds(n', x) {
      assert OwnIndex(n, x);
      HoldersGrow(n, from, sent, x);
      QuorumIsCommitted(n1, x);
      SameHolders(n1, n', x);
    }
  }

  /** What is known to be held depends on the match indices and on the log's end. */
  lemma SameHolders(n: Node, n': Node, x: nat)
    requires n.role.Leader? && TracksPeers(n) && n'.role.Leader? && TracksPeers(n')
    requires n'.config == n.config && n'.role.matchIndex == n.role.matchIndex
    requires LastIndex(n'.log) >= x <==> LastIndex(n.log) >= x
    ensures QuorumHolds(n', x) <==> QuorumHolds(n, x)
  {
  }

  /** What no peer is known to hold is not known to be held by a quorum, unless there is no peer. */
  lemma AloneIsNoQuorum(n: Node, x: nat)
    requires n.role.Leader? && TracksPeers(n) && n.config.peers != []
    requires forall p | p in n.config.peers :: n.role.matchIndex[p] < x
    ensures !QuorumHolds(n, x)
  {
    assert KnownHolders(n, x) <= {n.config.id};
    SubsetSize(KnownHolders(n, x), {n.config.id});
  }

  lemma ExactAfterProposal(n: Node, commands: seq<Command>)
    requires n.role.Leader? && TracksPeers(n) && Indexed(n.log) && n.commitIndex <= |n.log| && n.config.peers != []
    requires CommitExact(n)
    ensures CommitExact(Propose(n, commands).value)
  {
    var n' := Propose(n, commands).value;
    ProposedKeepNumbers(n, commands);
    LastOfIndexed(n.log);
    LastOfIndexed(n'.log);
    forall x: nat | OwnIndex(n', x) ensures x <= n'.commitIndex <==> QuorumHolds(n', x) {
      if x <= |n.log| {
        assert OwnIndex(n, x);
        SameHolders(n, n', x);
      } else {
        AloneIsNoQuorum(n', x);
      }
    }
  }

  lemma ExactAfterElection(n: Node)
    requires n.config.peers != [] && TermBelow(n.log, n.currentTerm) && n.commitIndex <= |n.log|
    ensures CommitExact(BecomeLeader(n))
  {
    var n' := BecomeLeader(n);
    forall x: nat | OwnIndex(n', x) ensures x <= n'.commitIndex <==> QuorumHolds(n', x) {
      assert x > |n.log|;
      AloneIsNoQuorum(n', x);
    }
  }

  /** A change that leaves a leader's log, commit index and match indices alone. */
  lemma ExactStays(n: Node, n': Node)
    requires TracksPeers(n) && TracksPeers(n') && CommitExact(n)
    requires n'.role.Leader? ==>
               && n.role.Leader? && n'.role.matchIndex == n.role.matchIndex && n'.config == n.config
               && n'.log == n.log && n'.currentTerm == n.currentTerm && n'.commitIndex == n.commitIndex
    ensures CommitExact(n')
  {
    if n'.role.Leader? {
      forall x: nat | OwnIndex(n', x) ensures x <= n'.commitIndex <==> QuorumHolds(n', x) {
        assert OwnIndex(n, x);
        SameHolders(n, n', x);
      }
    }
  }

  /** What is known of a node of a cluster of at least two. */
  predicate NodeFits(n: Node) {
    && TracksPeers(n) && PeersFit(n.config) && n.config.peers != [] && LogFits(n) && n.commitIndex <= |n.log|
    && (n.role.Candidate? ==> TermBelow(n.log, n.currentTerm))
  }

  lemma FitsInCluster(c: Cluster, v: NodeId)
    requires Inv(c) && v in c.nodes && |c.ids| >= 2
    ensures NodeFits(c.nodes[v])
  {
    var n := c.nodes[v];
    assert NodeOK(v, n, c.ids, c.hist) && NodeLogOK(n, c.hist.elect) && AppliedOK(n);
    BackedShape(c.hist.elect, n.log);
    if n.config.peers == [] {
      assert c.ids - {v} == {};
      SubsetSize(c.ids, {v});
    }
  }

  lemma ExactVoteReply(n: Node, from: NodeId, resp: VoteResponse)
    requires NodeFits(n) && CommitExact(n)
    ensures CommitExact(HandleVoteResponse(n, from, resp))
  {
    if resp.term <= n.currentTerm && n.role.Candidate? && resp.granted {
      ExactAfterElection(n.(role := Candidate(n.role.votes + {from})));
    } else {
      ExactStays(n, HandleVoteResponse(n, from, resp));
    }
  }

  lemma ExactAppendReply(n: Node, from: NodeId, resp: AppendResponse, sent: nat)
    requires NodeFits(n) && CommitExact(n)
    ensures CommitExact(HandleAppendResponse(n, from, resp, sent))
  {
    if resp.term <= n.currentTerm && n.role.Leader? && resp.success {
      HoldersGrow(n, from, sent, 0);
      QuorumIsCommitted(RecordSuccess(n, from, sent), 0);
      ExactAfterSuccess(n, from, sent);
    } else {
      ExactStays(n, HandleAppendResponse(n, from, resp, sent));
    }
  }

  ghost predicate ExactInv(nodes: map<NodeId, Node>) {
    forall v {:trigger CommitExact(nodes[v])} | v in nodes :: CommitExact(nodes[v])
  }

  lemma ExactFrame(nodes: map<NodeId, Node>, v: NodeId, n': Node)
    requires ExactInv(nodes) && CommitExact(n')
    ensures ExactInv(nodes[v := n'])
  {
    var after := nodes[v := n'];
    forall u | u in after ensures CommitExact(after[u]) {
      assert u != v ==> after[u] == nodes[u] && CommitExact(nodes[u]);
    }
  }

  /** The one node that a step may change. */
  function Mover(c: Cluster, a: Action): NodeId
    requires Enabled(c, a)
  {
    match a
    case Timeout(v) => v
    case SendVote(v, _) => v
    case ReceiveVote(m) => m.to
    case ReceiveVoteReply(m) => m.vote.candidateId
    case SendAppend(v, _) => v
    case ReceiveAppend(m) => m.to
    case ReceiveAppendReply(m) => m.append.leaderId
    case ClientPropose(v, _) => v
    case Resign(v, _) => v
  }

  lemma OnlyMover(c: Cluster, a: Action)
    requires Enabled(c, a)
    ensures Mover(c, a) in c.nodes && Step(c, a).nodes == c.nodes[Mover(c, a) := Step(c, a).nodes[Mover(c, a)]]
  {
  }

  lemma ExactMove(c: Cluster, a: Action)
    requires Enabled(c, a)
    requires
      var n := c.nodes[Mover(c, a)];
      NodeFits(n) && CommitExact(n)
    ensures CommitExact(Step(c, a).nodes[Mover(c, a)])
  {
    var n, n' := c.nodes[Mover(c, a)], Step(c, a).nodes[Mover(c, a)];
    match a
    case ReceiveVoteReply(m) => ExactVoteReply(n, m.from, m.voteResp);
    case ReceiveAppendReply(m) => ExactAppendReply(n, m.from, m.appendResp, |m.append.entries|);
    case ClientPropose(_, commands) => ExactAfterProposal(n, commands);
    case ReceiveVote(m) =>
      VoteLeaves(n, m.vote);
      ExactStays(n, n');
    case ReceiveAppend(m) =>
      FollowsOrStays(n, m.append);
      ExactStays(n, n');
    case _ => ExactStays(n, n');
  }

  /** Whoever handles a request that is not of an older term follows its sender, and sends clients there. */
  lemma FollowsOrStays(n: Node, req: AppendRequest)
    ensures
      var n' := HandleAppendRequest(n, req).0;
      if req.term < n.currentTerm then n' == n else n'.role == Follower(Some(req.leaderId))
  {
    var n2 := Follow(n, req.term, req.leaderId).(log := Merge(n.log, req.entries));
    ApplyOnly(n2.(commitIndex := Min(req.leaderCommit, LastIndex(n2.log))));
  }

  lemma ExactStep(c: Cluster, a: Action)
    requires Inv(c) && |c.ids| >= 2 && Enabled(c, a) && ExactInv(c.nodes)
    ensures ExactInv(Step(c, a).nodes)
  {
    var v := Mover(c, a);
    OnlyMover(c, a);
    FitsInCluster(c, v);
    assert CommitExact(c.nodes[v]);
    ExactMove(c, a);
    ExactFrame(c.nodes, v, Step(c, a).nodes[v]);
  }

  lemma {:induction false} ExactRun(s: seq<Cluster>, actions: seq<Action>, i: nat)
    requires IsGuardedRun(s, actions) && i < |s| && |s[0].ids| >= 2
    ensures ExactInv(s[i].nodes)
  {
    if i == 0 {
      ExactInit(s[0]);
    } else {
      ExactRun(s, actions, i - 1);
      ExactNext(s, actions, i - 1);
    }
  }

  lemma ExactInit(c: Cluster)
    requires Init(c)
    ensures ExactInv(c.nodes)
  {
  }

  lemma ExactNext(s: seq<Cluster>, actions: seq<Action>, i: nat)
    requires IsGuardedRun(s, actions) && i < |actions| && |s[0].ids| >= 2 && ExactInv(s[i].nodes)
    ensures ExactInv(s[i + 1].nodes)
  {
    RunFacts(s, actions, i);
    ExactStep(s[i], actions[i]);
  }

  lemma RunFacts(s: seq<Cluster>, actions: seq<Action>, i: nat)
    requires IsGuardedRun(s, actions) && i < |actions|
    ensures Inv(s[i]) && s[i].ids == s[0].ids && Enabled(s[i], actions[i]) && s[i + 1] == Step(s[i], actions[i])
  {
    FullRun(s, actions, 0, i);
    GuardedAt(s, actions, i);
  }

  /** In every guarded run of at least two nodes, at every time, a leader has committed an index of its own term if and
      only if a quorum is known to hold it. */
  lemma CommitIsExact(s: seq<Cluster>, actions: seq<Action>, i: nat, v: NodeId, x: nat)
    requires IsGuardedRun(s, actions) && i < |s| && |s[0].ids| >= 2
    requires v in s[i].nodes && s[i].nodes[v].role.Leader? && OwnIndex(s[i].nodes[v], x)
    ensures TracksPeers(s[i].nodes[v])
    ensures x <= s[i].nodes[v].commitIndex <==>
            |KnownHolders(s[i].nodes[v], x)| >= Quorum(s[i].nodes[v].config)
  {
    ExactRun(s, actions, i);
    assert CommitExact(s[i].nodes[v]);
  }

  // ---------------------------------------------------------------- proposing

  lemma ProposedKeepNumbers(n: Node, commands: seq<Command>)
    requires n.role.Leader? && Indexed(n.log)
    ensures
      var log := Propose(n, commands).value.log;
      Indexed(log) && n.log <= log && |log| == |n.log| + |commands|
  {
    LastOfIndexed(n.log);
  }

  /** What a client last wrote to `k` in these commands: nothing, a value or a deletion. */
  function LastOf(commands: seq<Command>, k: Bytes): Option<Option<Bytes>> {
    if commands == [] then None
    else
      match commands[|commands| - 1]
      case Put(k', v) => if k' == k then Some(Some(v)) else LastOf(commands[..|commands| - 1], k)
      case Delete(k') => if k' == k then Some(None) else LastOf(commands[..|commands| - 1], k)
      case _ => LastOf(commands[..|commands| - 1], k)
  }

  lemma {:induction false} AppliedInOrder(log: Log, es: seq<LogEntry>, commands: seq<Command>, k: Bytes)
    requires |es| == |commands| && forall i | 0 <= i < |es| :: es[i].command == commands[i]
    ensures Lookup(Replay(EMPTY_FSM, log + es), k) ==
            match LastOf(commands, k) case None => Lookup(Replay(EMPTY_FSM, log), k) case Some(w) => w
    decreases |es|
  {
    if es == [] {
      assert log + es == log;
    } else {
      var n := |es| - 1;
      assert log + es == (log + es[..n]) + [es[n]];
      ReplayOne(EMPTY_FSM, log + es[..n], es[n]);
      AppliedInOrder(log, es[..n], commands[..n], k);
    }
  }

  /** Entries of these commands, in order and numbered on. */
  predicate Carries(es: seq<LogEntry>, t: Term, start: nat, commands: seq<Command>) {
    && |es| == |commands|
    && forall i | 0 <= i < |es| :: es[i].command == commands[i] && es[i].term == t && es[i].index == start + i
  }

  /** A batch is stored in order behind the log, and once it is applied every key reads as its last command in the batch
      says, or as before if the batch does not write it. */
  lemma ProposalsTakeEffect(n: Node, commands: seq<Command>, k: Bytes)
    requires n.role.Leader?
    ensures
      var log := Propose(n, commands).value.log;
      && n.log <= log && Carries(log[|n.log|..], n.currentTerm, LastIndex(n.log) + 1, commands)
      && Lookup(Replay(EMPTY_FSM, log), k) ==
         match LastOf(commands, k) case None => Lookup(Replay(EMPTY_FSM, n.log), k) case Some(w) => w
  {
    ProposalsAreStored(n, commands);
    ProposalsAreRead(n, commands, k);
  }

  lemma ProposalsAreStored(n: Node, commands: seq<Command>)
    requires n.role.Leader?
    ensures
      var log := Propose(n, commands).value.log;
      n.log <= log && Carries(log[|n.log|..], n.currentTerm, LastIndex(n.log) + 1, commands)
  {
    ProposedCarry(n.currentTerm, LastIndex(n.log) + 1, commands);
    Behind(n.log, Proposed(n.currentTerm, LastIndex(n.log) + 1, commands));
  }

  lemma ProposalsAreRead(n: Node, commands: seq<Command>, k: Bytes)
    requires n.role.Leader?
    ensures Lookup(Replay(EMPTY_FSM, Propose(n, commands).value.log), k) ==
            match LastOf(commands, k) case None => Lookup(Replay(EMPTY_FSM, n.log), k) case Some(w) => w
  {
    AppliedInOrder(n.log, Proposed(n.currentTerm, LastIndex(n.log) + 1, commands), commands, k);
  }

  lemma ProposedCarry(t: Term, start: Pos, commands: seq<Command>)
    ensures Carries(Proposed(t, start, commands), t, start, commands)
  {
  }

  lemma Behind(log: Log, es: seq<LogEntry>)
    ensures (log + es)[|log|..] == es
  {
  }

  // ---------------------------------------------------------------- catching up

  /** A rejection at a position the log has names the term found there and its first index; one beyond the end names the
      index after the last. */
  lemma RejectionNames(n: Node, req: AppendRequest)
    requires n.currentTerm <= req.term && !PrevMatches(n.log, req)
    ensures
      var resp := HandleAppendRequest(n, req).1;
      && !resp.success && resp.term == req.term && resp.conflictIndex.Some?
      && (req.prevLogIndex > |n.log| ==> resp.conflictTerm == None && resp.conflictIndex.value == LastIndex(n.log) + 1)
      && (req.prevLogIndex <= |n.log| ==>
            var t, r := n.log[req.prevLogIndex - 1].term, resp.conflictIndex.value;
            && resp.conflictTerm == Some(t) && t != req.prevLogTerm
            && r <= req.prevLogIndex && n.log[r - 1].term == t
            && forall j | 0 <= j < r - 1 :: n.log[j].term != t)
  {
    if req.prevLogIndex <= |n.log| {
      FirstOfTermAt(n.log, 0, req.prevLogIndex - 1);
    }
  }

  /** An older term is refused with the node's own and no hint. */
  lemma OldTermIsRefused(n: Node, req: AppendRequest)
    requires req.term < n.currentTerm
    ensures HandleAppendRequest(n, req) == (n, AppendResponse(n.currentTerm, false, None, None))
  {
  }

  /** A reply of a later term, to whatever request, makes any node a follower of that term with its vote free; a reply
      to a node that does not lead changes nothing else. */
  lemma LaterTermStepsDown(n: Node, from: NodeId, resp: AppendResponse, sent: nat)
    requires TracksPeers(n) && (resp.term > n.currentTerm || !n.role.Leader?)
    ensures
      var n' := HandleAppendResponse(n, from, resp, sent);
      && (resp.term > n.currentTerm ==> n' == n.(currentTerm := resp.term, votedFor := None, role := Follower(None)))
      && (resp.term <= n.currentTerm ==> n' == n)
  {
  }

  /** Without a hint the next index goes one back, never below 1; with one it goes there. */
  lemma BacksOff(l: Node, p: NodeId, resp: AppendResponse)
    requires l.role.Leader? && TracksPeers(l) && p in l.role.nextIndex && !resp.success && resp.term <= l.currentTerm
    ensures
      var l' := HandleAppendResponse(l, p, resp, 0);
      && l'.role.Leader?
      && NextFor(l', p) == (match resp.conflictIndex case Some(i) => i case None => Max(NextFor(l, p) - 1, 1))
      && l' == l.(role := Leader(l.role.nextIndex[p := NextFor(l', p)], l.role.matchIndex))
  {
    if resp.conflictIndex.None? && NextFor(l, p) == 1 {
      assert l.role.nextIndex == l.role.nextIndex[p := l.role.nextIndex[p]];
    }
  }

  /** A rejected exchange skips a whole term: the next one asks for the end of the follower's log if the last asked
      beyond it, and otherwise for the last entry of an earlier term than the one that did not match. */
  lemma RejectionSkipsTerm(l: Node, f: Node, p: NodeId)
    requires CatchUpReady(l, f, p) && !Synced(l, f, p) && Shaped(f.log)
    ensures
      var prev, next := NextFor(l, p) - 1, NextFor(Exchange(l, f, p).0, p);
      && (prev > |f.log| ==> next == |f.log| + 1)
      && (prev <= |f.log| ==>
            && prev >= 1 && next <= prev
            && (forall j | next - 1 <= j < prev :: f.log[j].term == f.log[prev - 1].term)
            && (next > 1 ==> f.log[next - 2].term < f.log[prev - 1].term))
  {
    var req := BuildAppendRequest(l, p);
    var resp := HandleAppendRequest(f, req).1;
    ExchangeRequest(l, f, p);
    RejectionNames(f, req);
    LastOfIndexed(f.log);
    BacksOff(l, p, resp);
    RejectionIgnoresLength(l, p, resp, |req.entries|);
  }

  lemma RejectionIgnoresLength(l: Node, p: NodeId, resp: AppendResponse, sent: nat)
    requires TracksPeers(l) && !resp.success
    ensures HandleAppendResponse(l, p, resp, sent) == HandleAppendResponse(l, p, resp, 0)
  {
  }

  /** An accepted exchange takes the follower to the leader's commit index, as far as its log goes. */
  lemma CommitIsPassedOn(l: Node, f: Node, p: NodeId)
    requires CatchUpReady(l, f, p) && Synced(l, f, p)
    ensures
      var f' := Exchange(l, f, p).1;
      f'.commitIndex == if l.commitIndex > f.commitIndex then Min(l.commitIndex, |f'.log|) else f.commitIndex
  {
    ExchangeRequest(l, f, p);
    HandledFields(f, BuildAppendRequest(l, p));
    ExchangeStep(l, f, p);
    LastOfIndexed(Exchange(l, f, p).1.log);
  }

  lemma LeaderCommitGrows(l: Node, p: NodeId, resp: AppendResponse, sent: nat)
    requires l.role.Leader? && TracksPeers(l) && resp.term <= l.currentTerm && l.commitIndex <= |l.log|
    ensures
      var l' := HandleAppendResponse(l, p, resp, sent);
      l'.log == l.log && l.commitIndex <= l'.commitIndex <= |l.log|
  {
    var n1 := RecordSuccess(l, p, sent);
    ApplyOnly(n1.(commitIndex := QuorumIndex(n1)));
  }

  lemma ExchangedCommit(l: Node, f: Node, p: NodeId)
    requires CatchUpReady(l, f, p) && l.commitIndex <= |l.log|
    ensures l.commitIndex <= Exchange(l, f, p).0.commitIndex <= |l.log|
  {
    var req := BuildAppendRequest(l, p);
    var resp := HandleAppendRequest(f, req).1;
    RequestFields(l, p);
    assert resp.term == l.currentTerm;
    LeaderCommitGrows(l, p, resp, |req.entries|);
  }

  /** When a follower has caught up, it has committed all that the leader had. */
  lemma {:induction false} CatchUpCommits(l: Node, f: Node, p: NodeId)
    requires CatchUpReady(l, f, p) && l.commitIndex <= |l.log|
    ensures l.commitIndex <= CatchUp(l, f, p).1.commitIndex
    decreases
      if Synced(l, f, p) then 0 else 1,
      if Synced(l, f, p) then |l.log| + 1 - NextFor(l, p) else NextFor(l, p)
  {
    ExchangeStep(l, f, p);
    var (l', f') := Exchange(l, f, p);
    if Synced(l, f, p) && NextFor(l, p) > |l.log| {
      CommitIsPassedOn(l, f, p);
    } else {
      ExchangedCommit(l, f, p);
      CatchUpCommits(l', f', p);
    }
  }

  /** A new leader's first request to a peer carries its no-op alone, behind the log it was elected with. */
  lemma FirstRequest(n: Node, p: NodeId)
    requires Indexed(n.log) && p in n.config.peers && n.config.maxEntries >= 1
    ensures BuildAppendRequest(BecomeLeader(n), p) ==
            AppendRequest(n.currentTerm, n.config.id, |n.log|, LastTerm(n.log),
                          [LogEntry(n.currentTerm, |n.log| + 1, NoOp, NoOpEntry)], n.commitIndex)
  {
    var l := BecomeLeader(n);
    LastOfIndexed(n.log);
    BuildsBatch(l, p);
    assert l.log[|n.log|..|n.log| + 1] == [LogEntry(n.currentTerm, |n.log| + 1, NoOp, NoOpEntry)];
  }
}
