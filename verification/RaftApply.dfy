/** Every guarded step keeps all invariants, never changes what a node has committed, and keeps the
    key-value state equal to the replay of the committed log. */
module RaftApply {
  import opened Wrappers
  import opened RaftTypes
  import opened KeyValueFsm
  import opened RaftHandlers
  import opened RaftCluster
  import opened RaftMoves
  import opened RaftElection
  import opened RaftLogs
  import opened RaftCommit
  import opened RaftSteps

  /** Everything committed is applied, and nothing else. */
  predicate AppliedOK(n: Node) {
    && n.lastApplied == n.commitIndex <= |n.log|
    && n.fsm == Replay(EMPTY_FSM, n.log[..n.commitIndex])
  }

  predicate AppliedInv(nodes: map<NodeId, Node>) {
    forall v {:trigger AppliedOK(nodes[v])} | v in nodes :: AppliedOK(nodes[v])
  }

  ghost predicate Inv(c: Cluster) {
    BaseInv(c) && CommitInv(c) && AppliedInv(c.nodes)
  }

  /** A node's term and its committed entries only grow. */
  predicate Keeps(n: Node, n': Node) {
    && n.currentTerm <= n'.currentTerm
    && n.commitIndex <= n'.commitIndex && n.commitIndex <= |n.log|
    && n.log[..n.commitIndex] <= n'.log
  }

  predicate Advances(c: Cluster, c': Cluster) {
    && c'.ids == c.ids && c'.nodes.Keys == c.nodes.Keys
    && HistoryGrows(c.hist, c'.hist)
    && forall v | v in c.nodes :: Keeps(c.nodes[v], c'.nodes[v])
  }

  lemma AdvancesTransitive(a: Cluster, b: Cluster, c: Cluster)
    requires Advances(a, b) && Advances(b, c)
    ensures Advances(a, c)
  {
  }

  // ---------------------------------------------------------------- applying

  lemma {:induction false} ApplyFolds(n: Node)
    requires n.lastApplied <= n.commitIndex <= |n.log|
    ensures
      var n' := ApplyCommitted(n);
      && n' == n.(lastApplied := n.commitIndex, fsm := n'.fsm)
      && n'.fsm == Replay(n.fsm, n.log[n.lastApplied..n.commitIndex])
    decreases n.commitIndex - n.lastApplied
  {
    if n.lastApplied < n.commitIndex {
      var e := n.log[n.lastApplied];
      var n1 := n.(lastApplied := n.lastApplied + 1, fsm := Apply(n.fsm, e));
      ApplyFolds(n1);
      assert n.log[n.lastApplied..n.commitIndex][1..] == n1.log[n1.lastApplied..n1.commitIndex];
    }
  }

  lemma AppliedTo(n: Node, k: nat)
    requires AppliedOK(n) && n.commitIndex <= k <= |n.log|
    ensures
      var n' := ApplyCommitted(n.(commitIndex := k));
      && AppliedOK(n')
      && n' == n.(commitIndex := k, lastApplied := k, fsm := n'.fsm)
  {
    ApplyFolds(n.(commitIndex := k));
    ReplayConcat(EMPTY_FSM, n.log[..n.commitIndex], n.log[n.commitIndex..k]);
    assert n.log[..n.commitIndex] + n.log[n.commitIndex..k] == n.log[..k];
  }

  // ---------------------------------------------------------------- moves keep what is applied

  lemma Still(c: Cluster, c': Cluster)
    requires AppliedInv(c.nodes) && c'.nodes == c.nodes && c'.hist == c.hist && c'.ids == c.ids
    ensures Advances(c, c')
  {
    forall v | v in c.nodes ensures Keeps(c.nodes[v], c'.nodes[v]) {
      assert AppliedOK(c.nodes[v]);
    }
  }

  /** A move that changes a log only beyond the committed part. */
  lemma AppliedMove(c: Cluster, v: NodeId, n': Node, h': History)
    requires AppliedInv(c.nodes) && v in c.nodes
    requires HistoryGrows(c.hist, h')
    requires c.nodes[v].currentTerm <= n'.currentTerm
    requires c.nodes[v].commitIndex <= |c.nodes[v].log| && c.nodes[v].log[..c.nodes[v].commitIndex] <= n'.log
    requires n' == c.nodes[v].(currentTerm := n'.currentTerm, votedFor := n'.votedFor, role := n'.role, log := n'.log)
    ensures AppliedInv(With(c, v, n').nodes) && Advances(c, With(c, v, n').(hist := h'))
  {
    var n := c.nodes[v];
    assert AppliedOK(n);
    assert n'.log[..n'.commitIndex] == n.log[..n.commitIndex];
    forall u | u in c.nodes ensures Keeps(c.nodes[u], c.nodes[v := n'][u]) {
      assert AppliedOK(c.nodes[u]);
    }
  }

  /** A move that leaves all logs alone. */
  lemma AppliedQuiet(c: Cluster, v: NodeId, n': Node, h': History)
    requires AppliedInv(c.nodes) && v in c.nodes
    requires h'.elect == c.hist.elect && h'.acks == c.hist.acks
    requires c.nodes[v].currentTerm <= n'.currentTerm
    requires n' == c.nodes[v].(currentTerm := n'.currentTerm, votedFor := n'.votedFor, role := n'.role)
    ensures AppliedInv(With(c, v, n').nodes) && Advances(c, With(c, v, n').(hist := h'))
  {
    assert AppliedOK(c.nodes[v]);
    AppliedMove(c, v, n', h');
  }

  lemma AppliedTracked(c: Cluster, v: NodeId, next: map<NodeId, Pos>, matched: map<NodeId, LogIndex>)
    requires AppliedInv(c.nodes) && v in c.nodes
    ensures AppliedInv(Tracked(c, v, next, matched).nodes) && Advances(c, Tracked(c, v, next, matched))
  {
    AppliedQuiet(c, v, Tracked(c, v, next, matched).nodes[v], c.hist);
  }

  lemma AppliedLowered(c: Cluster, v: NodeId, t: Term, hint: Option<NodeId>)
    requires AppliedInv(c.nodes) && v in c.nodes && t >= c.nodes[v].currentTerm
    ensures AppliedInv(Lowered(c, v, t, hint).nodes) && Advances(c, Lowered(c, v, t, hint))
  {
    AppliedQuiet(c, v, Lowered(c, v, t, hint).nodes[v], c.hist);
  }

  lemma AppliedVoted(c: Cluster, v: NodeId, n': Node, t: Term, candidate: NodeId, log: Log)
    requires AppliedInv(c.nodes) && v in c.nodes
    requires c.nodes[v].currentTerm <= n'.currentTerm
    requires n' == c.nodes[v].(currentTerm := n'.currentTerm, votedFor := n'.votedFor, role := n'.role)
    ensures
      var c' := With(c, v, n').(hist := RecordVote(c.hist, t, v, candidate, log));
      AppliedInv(c'.nodes) && Advances(c, c')
  {
    AppliedQuiet(c, v, n', RecordVote(c.hist, t, v, candidate, log));
  }

  lemma AppliedLed(c: Cluster, v: NodeId, n': Node, h': History)
    requires AppliedInv(c.nodes) && v in c.nodes && HistoryGrows(c.hist, h')
    requires c.nodes[v].log <= n'.log
    requires n' == c.nodes[v].(role := n'.role, log := n'.log)
    ensures AppliedInv(With(c, v, n').nodes) && Advances(c, With(c, v, n').(hist := h'))
  {
    assert AppliedOK(c.nodes[v]);
    AppliedMove(c, v, n', h');
  }

  lemma AppliedMerged(c: Cluster, v: NodeId, entries: seq<LogEntry>, k: nat)
    requires AppliedInv(c.nodes) && v in c.nodes
    requires c.nodes[v].commitIndex <= |c.nodes[v].log|
    requires c.nodes[v].log[..c.nodes[v].commitIndex] <= Merge(c.nodes[v].log, entries)
    ensures AppliedInv(Merged(c, v, entries, k).nodes) && Advances(c, Merged(c, v, entries, k))
  {
    var c' := Merged(c, v, entries, k);
    assert HistoryGrows(c.hist, c'.hist);
    AppliedMove(c, v, c'.nodes[v], c'.hist);
  }

  lemma AppliedCommitted(c: Cluster, v: NodeId, k: LogIndex)
    requires AppliedInv(c.nodes) && v in c.nodes && c.nodes[v].commitIndex <= k <= |c.nodes[v].log|
    ensures AppliedInv(CommittedTo(c, v, k).nodes) && Advances(c, CommittedTo(c, v, k))
  {
    assert AppliedOK(c.nodes[v]);
    AppliedTo(c.nodes[v], k);
    forall u | u in c.nodes ensures Keeps(c.nodes[u], CommittedTo(c, v, k).nodes[u]) {
      assert AppliedOK(c.nodes[u]);
    }
  }

  // ---------------------------------------------------------------- moves keep the commit invariant

  lemma CommitCandidacy(c: Cluster, v: NodeId)
    requires VotesOK(c.nodes, c.hist) && CommitInv(c) && v in c.nodes
    ensures CommitInv(Candidacy(c, v))
  {
    var n' := BecomeCandidate(c.nodes[v]);
    assert Candidacy(c, v) == With(c, v, n').(hist := RecordVote(c.hist, n'.currentTerm, v, v, n'.log));
    CommitVoted(c, v, n', v);
  }

  lemma CommitGranted(c: Cluster, v: NodeId, candidate: NodeId)
    requires VotesOK(c.nodes, c.hist) && CommitInv(c) && v in c.nodes
    ensures CommitInv(Granted(c, v, candidate))
  {
    assert NodeCommitOK(c.ids, c.nodes[v], c.hist);
    CommitVoted(c, v, Granted(c, v, candidate).nodes[v], candidate);
  }

  lemma CommitCounted(c: Cluster, v: NodeId, x: NodeId)
    requires VotesOK(c.nodes, c.hist) && CommitInv(c) && v in c.nodes && c.nodes[v].role.Candidate?
    ensures CommitInv(Counted(c, v, x))
  {
    assert NodeCommitOK(c.ids, c.nodes[v], c.hist);
    CommitQuiet(c, v, Counted(c, v, x).nodes[v]);
  }

  lemma CommitTracked(c: Cluster, v: NodeId, next: map<NodeId, Pos>, matched: map<NodeId, LogIndex>)
    requires VotesOK(c.nodes, c.hist) && CommitInv(c) && v in c.nodes
    requires MatchOK(c.nodes[v].(role := Leader(next, matched)), c.hist.acks)
    ensures CommitInv(Tracked(c, v, next, matched))
  {
    assert NodeCommitOK(c.ids, c.nodes[v], c.hist);
    CommitQuiet(c, v, Tracked(c, v, next, matched).nodes[v]);
  }

  lemma CommitCommitted(c: Cluster, v: NodeId, k: LogIndex)
    requires VotesOK(c.nodes, c.hist) && CommitInv(c) && v in c.nodes
    requires Certified(c.ids, c.hist, c.nodes[v].currentTerm, c.nodes[v].log, k)
    ensures CommitInv(CommittedTo(c, v, k))
  {
    assert NodeCommitOK(c.ids, c.nodes[v], c.hist);
    ApplyOnly(c.nodes[v].(commitIndex := k));
    CommitQuiet(c, v, CommittedTo(c, v, k).nodes[v]);
  }

  lemma ElectedHistory(c: Cluster, v: NodeId)
    requires AcksOK(c.nodes, c.hist) && OwnAcksOK(c.hist)
    requires v in c.nodes && c.nodes[v].role.Candidate? && c.nodes[v].currentTerm !in c.hist.elect
    ensures
      var h' := Elected(c, v).hist;
      OnlyAck(c.hist, h', c.nodes[v].currentTerm, v) && Extends(c.hist, h', v) && OwnAcksOK(h')
  {
    assert (c.nodes[v].currentTerm, v) !in c.hist.acks;
  }

  lemma CommitElected(c: Cluster, v: NodeId)
    requires VotesOK(c.nodes, c.hist) && CommitInv(c)
    requires v in c.nodes && c.nodes[v].role.Candidate? && c.nodes[v].currentTerm !in c.hist.elect
    ensures CommitInv(Elected(c, v)) && HistoryGrows(c.hist, Elected(c, v).hist)
  {
    ElectedHistory(c, v);
    CommitLed(c, v, Elected(c, v).nodes[v], Elected(c, v).hist);
  }

  lemma AppendedHistory(h: History, t: Term, v: NodeId, log: Log)
    requires OwnAcksOK(h) && t in h.elect && h.elect[t].leader == v && h.elect[t].log <= log
    ensures
      var h' := RecordGrowth(h, t, v, log);
      OnlyAck(h, h', t, v) && Extends(h, h', v) && OwnAcksOK(h')
  {
  }

  lemma CommitAppended(c: Cluster, v: NodeId, commands: seq<Command>)
    requires VotesOK(c.nodes, c.hist) && CommitInv(c)
    requires v in c.nodes && LeaderOK(v, c.nodes[v], c.hist.elect) && c.nodes[v].role.Leader?
    requires NodeLogOK(c.nodes[v], c.hist.elect)
    ensures CommitInv(Appended(c, v, commands)) && HistoryGrows(c.hist, Appended(c, v, commands).hist)
  {
    var c' := Appended(c, v, commands);
    AppendedHistory(c.hist, c.nodes[v].currentTerm, v, c'.nodes[v].log);
    assert NodeCommitOK(c.ids, c.nodes[v], c.hist);
    CommitLed(c, v, c'.nodes[v], c'.hist);
  }

  // ---------------------------------------------------------------- moves keep everything

  lemma FullSent(c: Cluster, m: Message)
    requires Inv(c) && VoteMessageOK(c.nodes, c.hist.votes, m) && CommitMessageOK(c.ids, c.hist, m)
    requires m.AppendAsk? || m.AppendReply? ==> BatchOK(c.hist.elect, m.append)
    ensures Inv(Sent(c, m)) && Advances(c, Sent(c, m))
  {
    BaseSent(c, m);
    CommitSent(c, m);
    Still(c, Sent(c, m));
  }

  lemma FullLowered(c: Cluster, v: NodeId, t: Term, hint: Option<NodeId>)
    requires Inv(c) && v in c.nodes && t >= c.nodes[v].currentTerm
    ensures Inv(Lowered(c, v, t, hint)) && Advances(c, Lowered(c, v, t, hint))
  {
    BaseLowered(c, v, t, hint);
    CommitLowered(c, v, t, hint);
    AppliedLowered(c, v, t, hint);
  }

  lemma FullCandidacy(c: Cluster, v: NodeId)
    requires Inv(c) && v in c.nodes
    ensures Inv(Candidacy(c, v)) && Advances(c, Candidacy(c, v))
  {
    BaseCandidacy(c, v);
    CommitCandidacy(c, v);
    var n := c.nodes[v];
    AppliedVoted(c, v, BecomeCandidate(n), n.currentTerm + 1, v, n.log);
  }

  lemma FullGranted(c: Cluster, v: NodeId, r: VoteRequest)
    requires Inv(c)
    requires v in c.nodes && VoteAsk(v, r) in c.net && r.term == c.nodes[v].currentTerm
    requires CanVote(c.nodes[v], r.candidateId) && UpToDate(r.lastLogTerm, r.lastLogIndex, c.nodes[v].log)
    ensures Inv(Granted(c, v, r.candidateId)) && Advances(c, Granted(c, v, r.candidateId))
  {
    BaseGranted(c, v, r);
    CommitGranted(c, v, r.candidateId);
    var n := c.nodes[v];
    AppliedVoted(c, v, n.(votedFor := Some(r.candidateId)), n.currentTerm, r.candidateId, n.log);
  }

  lemma FullCounted(c: Cluster, v: NodeId, x: NodeId)
    requires Inv(c)
    requires v in c.nodes && c.nodes[v].role.Candidate? && x in c.ids
    requires (c.nodes[v].currentTerm, x) in c.hist.votes
    requires c.hist.votes[(c.nodes[v].currentTerm, x)].candidate == v
    ensures Inv(Counted(c, v, x)) && Advances(c, Counted(c, v, x))
  {
    BaseCounted(c, v, x);
    CommitCounted(c, v, x);
    AppliedQuiet(c, v, Counted(c, v, x).nodes[v], c.hist);
  }

  lemma FullElected(c: Cluster, v: NodeId)
    requires Inv(c)
    requires v in c.nodes && c.nodes[v].role.Candidate? && c.nodes[v].currentTerm >= 1
    requires |c.nodes[v].role.votes| >= Quorum(c.nodes[v].config)
    ensures Inv(Elected(c, v)) && Advances(c, Elected(c, v))
  {
    BaseElected(c, v);
    CommitElected(c, v);
    AppliedLed(c, v, Elected(c, v).nodes[v], Elected(c, v).hist);
  }

  lemma FullAppended(c: Cluster, v: NodeId, commands: seq<Command>)
    requires Inv(c) && v in c.nodes && c.nodes[v].role.Leader?
    ensures Inv(Appended(c, v, commands)) && Advances(c, Appended(c, v, commands))
  {
    BaseAppended(c, v, commands);
    assert NodeOK(v, c.nodes[v], c.ids, c.hist);
    CommitAppended(c, v, commands);
    AppliedLed(c, v, Appended(c, v, commands).nodes[v], Appended(c, v, commands).hist);
  }

  lemma FullTracked(c: Cluster, v: NodeId, next: map<NodeId, Pos>, matched: map<NodeId, LogIndex>)
    requires Inv(c) && v in c.nodes && c.nodes[v].role.Leader? && matched.Keys == c.nodes[v].role.matchIndex.Keys
    requires MatchOK(c.nodes[v].(role := Leader(next, matched)), c.hist.acks)
    ensures Inv(Tracked(c, v, next, matched)) && Advances(c, Tracked(c, v, next, matched))
  {
    BaseTracked(c, v, next, matched);
    CommitTracked(c, v, next, matched);
    AppliedTracked(c, v, next, matched);
  }

  lemma FullMerged(c: Cluster, v: NodeId, req: AppendRequest)
    requires Inv(c)
    requires v in c.nodes && c.nodes[v].role.Follower? && c.nodes[v].currentTerm == req.term
    requires BatchOK(c.hist.elect, req) && PrevMatches(c.nodes[v].log, req)
    ensures Inv(Merged(c, v, req.entries, BatchEnd(req))) && Advances(c, Merged(c, v, req.entries, BatchEnd(req)))
  {
    BaseMerged(c, v, req);
    CommitMerged(c, v, req);
    assert AppliedOK(c.nodes[v]);
    AppliedMerged(c, v, req.entries, BatchEnd(req));
  }

  lemma FullCommitted(c: Cluster, v: NodeId, k: LogIndex)
    requires Inv(c) && v in c.nodes && !c.nodes[v].role.Candidate?
    requires k >= c.nodes[v].commitIndex && Certified(c.ids, c.hist, c.nodes[v].currentTerm, c.nodes[v].log, k)
    ensures Inv(CommittedTo(c, v, k)) && Advances(c, CommittedTo(c, v, k))
  {
    BaseCommitted(c, v, k);
    CommitCommitted(c, v, k);
    AppliedCommitted(c, v, k);
  }

  // ---------------------------------------------------------------- steps

  lemma FullGrantSent(c: Cluster, v: NodeId, r: VoteRequest, resp: VoteResponse)
    requires Inv(c)
    requires v in c.nodes && VoteAsk(v, r) in c.net && r.term == c.nodes[v].currentTerm == resp.term
    requires CanVote(c.nodes[v], r.candidateId) && UpToDate(r.lastLogTerm, r.lastLogIndex, c.nodes[v].log)
    ensures
      var c' := Sent(Granted(c, v, r.candidateId), VoteReply(v, r, resp));
      Inv(c') && Advances(c, c')
  {
    var c' := Granted(c, v, r.candidateId);
    FullGranted(c, v, r);
    assert NodeOK(v, c'.nodes[v], c'.ids, c'.hist);
    FullSent(c', VoteReply(v, r, resp));
    AdvancesTransitive(c, c', Sent(c', VoteReply(v, r, resp)));
  }

  lemma FullAdopted(c: Cluster, v: NodeId, t: Term)
    requires Inv(c) && v in c.nodes
    ensures Inv(Adopted(c, v, t)) && Advances(c, Adopted(c, v, t))
  {
    if t > c.nodes[v].currentTerm {
      FullLowered(c, v, t, None);
    } else {
      Still(c, c);
    }
  }

  lemma FullVoteRequest(c: Cluster, m: Message)
    requires Inv(c) && Enabled(c, ReceiveVote(m))
    ensures Inv(Step(c, ReceiveVote(m))) && Advances(c, Step(c, ReceiveVote(m)))
  {
    VoteRequestMoves(c, m);
    var v, r := m.to, m.vote;
    FullAdopted(c, v, r.term);
    GrantIsRight(c, v, r);
    FullVoteAnswered(Adopted(c, v, r.term), v, r, HandleVoteRequest(c.nodes[v], r).1);
    AdvancesTransitive(c, Adopted(c, v, r.term), Step(c, ReceiveVote(m)));
  }

  /** A vote is granted in the request's term, to a candidate that may have it. */
  lemma GrantIsRight(c: Cluster, v: NodeId, r: VoteRequest)
    requires v in c.nodes
    ensures
      var n, resp := Adopted(c, v, r.term).nodes[v], HandleVoteRequest(c.nodes[v], r).1;
      resp.granted ==>
        && r.term == n.currentTerm == resp.term
        && CanVote(n, r.candidateId) && UpToDate(r.lastLogTerm, r.lastLogIndex, n.log)
  {
  }

  lemma FullVoteAnswered(c: Cluster, v: NodeId, r: VoteRequest, resp: VoteResponse)
    requires Inv(c) && v in c.nodes && VoteAsk(v, r) in c.net
    requires resp.granted ==>
               && r.term == c.nodes[v].currentTerm == resp.term
               && CanVote(c.nodes[v], r.candidateId) && UpToDate(r.lastLogTerm, r.lastLogIndex, c.nodes[v].log)
    ensures
      var c' := Sent(if resp.granted then Granted(c, v, r.candidateId) else c, VoteReply(v, r, resp));
      Inv(c') && Advances(c, c')
  {
    if resp.granted {
      FullGrantSent(c, v, r, resp);
    } else {
      FullSent(c, VoteReply(v, r, resp));
    }
  }

  lemma FullVoteReply(c: Cluster, m: Message)
    requires Inv(c) && Enabled(c, ReceiveVoteReply(m)) && VotesGuarded(c, ReceiveVoteReply(m))
    ensures Inv(Step(c, ReceiveVoteReply(m))) && Advances(c, Step(c, ReceiveVoteReply(m)))
  {
    VoteReplyMoves(c, m);
    var v, n, resp := m.vote.candidateId, c.nodes[m.vote.candidateId], m.voteResp;
    Still(c, c);
    if resp.term > n.currentTerm {
      FullLowered(c, v, resp.term, None);
    } else if resp.term == n.currentTerm && n.role.Candidate? && resp.granted {
      assert VoteMessageOK(c.nodes, c.hist.votes, m);
      FullCounted(c, v, m.from);
      var c1 := Counted(c, v, m.from);
      if |c1.nodes[v].role.votes| >= Quorum(n.config) {
        assert NodeOK(v, n, c.ids, c.hist);
        FullElected(c1, v);
        AdvancesTransitive(c, c1, Elected(c1, v));
      }
    }
  }

  lemma FullSendAppend(c: Cluster, v: NodeId, p: NodeId)
    requires Inv(c) && Enabled(c, SendAppend(v, p))
    ensures Inv(Step(c, SendAppend(v, p))) && Advances(c, Step(c, SendAppend(v, p)))
  {
    BaseSendAppend(c, v, p);
    var m := AppendAsk(p, BuildAppendRequest(c.nodes[v], p));
    assert m in Step(c, SendAppend(v, p)).net;
    assert NodeCommitOK(c.ids, c.nodes[v], c.hist);
    FullSent(c, m);
  }

  /** An accepted request leaves its batch in the log and, in its term, acknowledged. */
  lemma BatchAcknowledged(c: Cluster, v: NodeId, r: AppendRequest)
    requires LogInv(c) && v in c.nodes && c.nodes[v].currentTerm == r.term
    requires BatchOK(c.hist.elect, r) && PrevMatches(c.nodes[v].log, r)
    ensures
      var c' := Merged(c, v, r.entries, BatchEnd(r));
      && c'.hist.elect == c.hist.elect
      && (BatchEnd(r) > 0 ==>
            && r.term in c.hist.elect
            && BatchEnd(r) <= |c.hist.elect[r.term].log|
            && c.hist.elect[r.term].log[..BatchEnd(r)] <= c'.nodes[v].log
            && (r.term, v) in c'.hist.acks && c'.hist.acks[(r.term, v)] >= BatchEnd(r))
  {
    assert NodeLogOK(c.nodes[v], c.hist.elect);
    AcceptedLog(c.hist.elect, c.nodes[v].log, r);
  }

  lemma FollowerCommits(c: Cluster, v: NodeId, r: AppendRequest, k: nat)
    requires ElectionsOK(c.ids, c.nodes, c.hist) && LogInv(c) && CommitInv(c)
    requires v in c.nodes && c.nodes[v].currentTerm == r.term
    requires Promised(c.ids, c.hist, r.term, r.leaderCommit)
    requires BatchEnd(r) > 0 ==>
               && r.term in c.hist.elect
               && BatchEnd(r) <= |c.hist.elect[r.term].log|
               && c.hist.elect[r.term].log[..BatchEnd(r)] <= c.nodes[v].log
    requires k <= BatchEnd(r) && k <= r.leaderCommit
    ensures Certified(c.ids, c.hist, r.term, c.nodes[v].log, k)
  {
    if k > 0 {
      assert Promised(c.ids, c.hist, r.term, k);
      CertifiedByLeader(c.ids, c.nodes, c.hist, c.nodes[v].log, r.term, BatchEnd(r), k);
    }
  }

  /** The accepting branch, from the follower's term change to just before the reply. */
  lemma FullAccept(c: Cluster, v: NodeId, r: AppendRequest)
    requires Inv(c)
    requires v in c.nodes && c.nodes[v].role.Follower? && c.nodes[v].currentTerm == r.term
    requires BatchOK(c.hist.elect, r) && PrevMatches(c.nodes[v].log, r)
    requires Promised(c.ids, c.hist, r.term, r.leaderCommit)
    requires CommitsWithinBatch(c.nodes[v], r)
    ensures
      var c2 := Merged(c, v, r.entries, BatchEnd(r));
      var c3 := if r.leaderCommit > c2.nodes[v].commitIndex
                then CommittedTo(c2, v, Min(r.leaderCommit, LastIndex(c2.nodes[v].log))) else c2;
      Inv(c3) && Advances(c, c3)
  {
    var c2 := Merged(c, v, r.entries, BatchEnd(r));
    FullMerged(c, v, r);
    if r.leaderCommit > c2.nodes[v].commitIndex {
      var k := Min(r.leaderCommit, LastIndex(c2.nodes[v].log));
      BatchAcknowledged(c, v, r);
      FullFollowerCommit(c2, c.hist, v, r, k);
      AdvancesTransitive(c, c2, CommittedTo(c2, v, k));
    }
  }

  lemma FullFollowerCommit(c: Cluster, before: History, v: NodeId, r: AppendRequest, k: nat)
    requires Inv(c) && HistoryGrows(before, c.hist) && Promised(c.ids, before, r.term, r.leaderCommit)
    requires v in c.nodes && c.nodes[v].role.Follower? && c.nodes[v].currentTerm == r.term
    requires BatchEnd(r) > 0 ==>
               && r.term in c.hist.elect
               && BatchEnd(r) <= |c.hist.elect[r.term].log|
               && c.hist.elect[r.term].log[..BatchEnd(r)] <= c.nodes[v].log
    requires r.leaderCommit > c.nodes[v].commitIndex
             && k == Min(r.leaderCommit, LastIndex(c.nodes[v].log)) <= BatchEnd(r)
    ensures Inv(CommittedTo(c, v, k)) && Advances(c, CommittedTo(c, v, k))
  {
    PromisedGrows(c.ids, before, c.hist, r.term, r.leaderCommit);
    FollowerCommits(c, v, r, k);
    CommitGrows(c, v, k);
    FullCommitted(c, v, k);
  }

  lemma CommitGrows(c: Cluster, v: NodeId, k: nat)
    requires LogInv(c) && AppliedInv(c.nodes) && v in c.nodes
    ensures c.nodes[v].commitIndex <= LastIndex(c.nodes[v].log)
  {
    assert AppliedOK(c.nodes[v]) && NodeLogOK(c.nodes[v], c.hist.elect);
    BackedShape(c.hist.elect, c.nodes[v].log);
  }

  lemma FullAppendRequest(c: Cluster, m: Message)
    requires Inv(c) && Enabled(c, ReceiveAppend(m)) && CommitsGuarded(c, ReceiveAppend(m))
    ensures Inv(Step(c, ReceiveAppend(m))) && Advances(c, Step(c, ReceiveAppend(m)))
  {
    AppendRequestMoves(c, m);
    var v, r := m.to, m.append;
    var (n', resp) := HandleAppendRequest(c.nodes[v], r);
    var reply := AppendReply(v, r, resp);
    BatchStays(c, c, m);
    if r.term < c.nodes[v].currentTerm {
      FullSent(c, reply);
    } else {
      var c1 := Lowered(c, v, r.term, Some(r.leaderId));
      FullLowered(c, v, r.term, Some(r.leaderId));
      if !resp.success {
        FullSent(c1, reply);
        AdvancesTransitive(c, c1, Sent(c1, reply));
      } else {
        assert CommitMessageOK(c.ids, c.hist, m);
        FullAnswered(c1, v, r, resp);
        AdvancesTransitive(c, c1, Step(c, ReceiveAppend(m)));
      }
    }
  }

  /** What a follower answers is recorded, whether or not it commits. */
  lemma AnswerIsTrue(c: Cluster, v: NodeId, r: AppendRequest, resp: AppendResponse)
    requires LogInv(c) && v in c.nodes && v in c.ids && c.nodes[v].currentTerm == r.term == resp.term
    requires BatchOK(c.hist.elect, r) && PrevMatches(c.nodes[v].log, r)
    ensures
      var c2 := Merged(c, v, r.entries, BatchEnd(r));
      CommitMessageOK(c.ids, c2.hist, AppendReply(v, r, resp)) && BatchOK(c2.hist.elect, r)
  {
    BatchAcknowledged(c, v, r);
  }

  /** A follower accepts a batch and says so. */
  lemma FullAnswered(c: Cluster, v: NodeId, r: AppendRequest, resp: AppendResponse)
    requires Inv(c)
    requires v in c.nodes && c.nodes[v].role.Follower? && c.nodes[v].currentTerm == r.term
    requires BatchOK(c.hist.elect, r) && PrevMatches(c.nodes[v].log, r)
    requires Promised(c.ids, c.hist, r.term, r.leaderCommit)
    requires CommitsWithinBatch(c.nodes[v], r) && resp.term == r.term
    ensures
      var c2 := Merged(c, v, r.entries, BatchEnd(r));
      var c3 := if r.leaderCommit > c2.nodes[v].commitIndex
                then CommittedTo(c2, v, Min(r.leaderCommit, LastIndex(c2.nodes[v].log))) else c2;
      Inv(Sent(c3, AppendReply(v, r, resp))) && Advances(c, Sent(c3, AppendReply(v, r, resp)))
  {
    var c2 := Merged(c, v, r.entries, BatchEnd(r));
    var c3 := if r.leaderCommit > c2.nodes[v].commitIndex
              then CommittedTo(c2, v, Min(r.leaderCommit, LastIndex(c2.nodes[v].log))) else c2;
    FullAccept(c, v, r);
    AnswerIsTrue(c, v, r, resp);
    FullSent(c3, AppendReply(v, r, resp));
    AdvancesTransitive(c, c3, Sent(c3, AppendReply(v, r, resp)));
  }

  /** What a current acknowledgement says is true: the peer holds the leader's whole log. */
  lemma AckIsTrue(c: Cluster, m: Message)
    requires CommitInv(c) && Enabled(c, ReceiveAppendReply(m)) && CommitsGuarded(c, ReceiveAppendReply(m))
    requires
      var n := c.nodes[m.append.leaderId];
      n.role.Leader? && m.appendResp.success && m.appendResp.term <= n.currentTerm
    ensures
      var n := c.nodes[m.append.leaderId];
      MatchOK(RecordSuccess(n, m.from, |m.append.entries|), c.hist.acks)
  {
    var n := c.nodes[m.append.leaderId];
    assert CommitMessageOK(c.ids, c.hist, m);
    assert NodeCommitOK(c.ids, n, c.hist);
  }

  lemma FullFailure(c: Cluster, v: NodeId, from: NodeId, resp: AppendResponse)
    requires Inv(c) && v in c.nodes && c.nodes[v].role.Leader?
    ensures
      var n1 := RecordFailure(c.nodes[v], from, resp);
      var c1 := Tracked(c, v, n1.role.nextIndex, n1.role.matchIndex);
      Inv(c1) && Advances(c, c1)
  {
    var n1 := RecordFailure(c.nodes[v], from, resp);
    assert NodeCommitOK(c.ids, c.nodes[v], c.hist);
    FullTracked(c, v, n1.role.nextIndex, n1.role.matchIndex);
  }

  lemma FullSuccess(c: Cluster, v: NodeId, n1: Node)
    requires Inv(c) && v in c.nodes && c.nodes[v].role.Leader?
    requires n1.role.Leader? && n1 == c.nodes[v].(role := n1.role) && TracksPeers(n1)
    requires n1.role.matchIndex.Keys == c.nodes[v].role.matchIndex.Keys
    requires MatchOK(n1, c.hist.acks)
    ensures
      var c1 := Tracked(c, v, n1.role.nextIndex, n1.role.matchIndex);
      var c2 := if TryAdvance(n1) == n1 then c1 else CommittedTo(c1, v, QuorumIndex(n1));
      Inv(c2) && Advances(c, c2)
  {
    FullTracked(c, v, n1.role.nextIndex, n1.role.matchIndex);
    var c1 := Tracked(c, v, n1.role.nextIndex, n1.role.matchIndex);
    if TryAdvance(n1) != n1 {
      FullAdvance(c1, v);
      AdvancesTransitive(c, c1, CommittedTo(c1, v, QuorumIndex(n1)));
    }
  }

  lemma FullAppendReply(c: Cluster, m: Message)
    requires Inv(c) && Enabled(c, ReceiveAppendReply(m)) && CommitsGuarded(c, ReceiveAppendReply(m))
    ensures Inv(Step(c, ReceiveAppendReply(m))) && Advances(c, Step(c, ReceiveAppendReply(m)))
  {
    AppendReplyMoves(c, m);
    var v, n, resp := m.append.leaderId, c.nodes[m.append.leaderId], m.appendResp;
    if resp.term > n.currentTerm {
      FullLowered(c, v, resp.term, None);
    } else if !n.role.Leader? {
      Still(c, c);
    } else if !resp.success {
      FullFailure(c, v, m.from, resp);
    } else {
      AckIsTrue(c, m);
      FullSuccess(c, v, RecordSuccess(n, m.from, |m.append.entries|));
    }
  }

  lemma FullAdvance(c: Cluster, v: NodeId)
    requires Inv(c) && v in c.nodes && c.nodes[v].role.Leader? && TracksPeers(c.nodes[v])
    requires TryAdvance(c.nodes[v]) != c.nodes[v]
    ensures
      var c' := CommittedTo(c, v, QuorumIndex(c.nodes[v]));
      Inv(c') && Advances(c, c')
  {
    assert NodeOK(v, c.nodes[v], c.ids, c.hist);
    CertifiedByQuorum(c, v);
    FullCommitted(c, v, QuorumIndex(c.nodes[v]));
  }

  lemma FullLocal(c: Cluster, a: Action)
    requires Inv(c) && Enabled(c, a) && (a.Timeout? || a.SendVote? || a.ClientPropose? || a.Resign?)
    ensures Inv(Step(c, a)) && Advances(c, Step(c, a))
  {
    LocalMoves(c, a);
    match a {
      case Timeout(v) => FullCandidacy(c, v);
      case SendVote(v, p) => FullSent(c, VoteAsk(p, BuildVoteRequest(c.nodes[v])));
      case ClientPropose(v, commands) => FullAppended(c, v, commands);
      case Resign(v, hint) => FullLowered(c, v, c.nodes[v].currentTerm, hint);
    }
  }

  /** One guarded step keeps everything, and only adds to what is committed. */
  lemma FullStep(c: Cluster, a: Action)
    requires Inv(c) && Enabled(c, a) && VotesGuarded(c, a) && CommitsGuarded(c, a)
    ensures Inv(Step(c, a)) && Advances(c, Step(c, a))
  {
    match a {
      case ReceiveVote(m) => FullVoteRequest(c, m);
      case ReceiveVoteReply(m) => FullVoteReply(c, m);
      case SendAppend(v, p) => FullSendAppend(c, v, p);
      case ReceiveAppend(m) => FullAppendRequest(c, m);
      case ReceiveAppendReply(m) => FullAppendReply(c, m);
      case _ => FullLocal(c, a);
    }
  }

  lemma FullInit(c: Cluster)
    requires Init(c)
    ensures Inv(c)
  {
    BaseInit(c);
  }

  lemma GuardedAt(s: seq<Cluster>, actions: seq<Action>, i: nat)
    requires IsGuardedRun(s, actions) && i < |actions|
    ensures Enabled(s[i], actions[i]) && VotesGuarded(s[i], actions[i]) && CommitsGuarded(s[i], actions[i])
    ensures s[i + 1] == Step(s[i], actions[i])
  {
  }

  lemma {:induction false} FullRun(s: seq<Cluster>, actions: seq<Action>, i: nat, j: nat)
    requires IsGuardedRun(s, actions) && i <= j < |s|
    ensures Inv(s[i]) && Inv(s[j]) && Advances(s[i], s[j])
    decreases j
  {
    if j == 0 {
      FullInit(s[0]);
      Still(s[0], s[0]);
    } else if i == j {
      FullRun(s, actions, j - 1, j - 1);
      GuardedAt(s, actions, j - 1);
      FullStep(s[j - 1], actions[j - 1]);
      Still(s[j], s[j]);
    } else {
      FullRun(s, actions, i, j - 1);
      GuardedAt(s, actions, j - 1);
      FullStep(s[j - 1], actions[j - 1]);
      AdvancesTransitive(s[i], s[j - 1], s[j]);
    }
  }
}
