/** From moves to steps: every step of the cluster keeps the election and log invariants as long as no
    stale vote is counted. */
module RaftSteps {
  import opened Wrappers
  import opened RaftTypes
  import opened KeyValueFsm
  import opened RaftHandlers
  import opened RaftCluster
  import opened RaftMoves
  import opened RaftElection
  import opened RaftLogs

  predicate BaseInv(c: Cluster) {
    ElectionInv(c) && LogInv(c)
  }

  // ---------------------------------------------------------------- moves keep both invariants

  lemma BaseSent(c: Cluster, m: Message)
    requires BaseInv(c) && VoteMessageOK(c.nodes, c.hist.votes, m)
    requires m.AppendAsk? || m.AppendReply? ==> BatchOK(c.hist.elect, m.append)
    ensures BaseInv(Sent(c, m))
  {
  }

  lemma BaseLowered(c: Cluster, v: NodeId, t: Term, hint: Option<NodeId>)
    requires BaseInv(c) && v in c.nodes && t >= c.nodes[v].currentTerm
    ensures BaseInv(Lowered(c, v, t, hint))
  {
    LoweredKeeps(c, v, t, hint);
    assert NodeLogOK(c.nodes[v], c.hist.elect);
    LogFrame(c, v, Lowered(c, v, t, hint).nodes[v], c.hist);
  }

  lemma BaseCandidacy(c: Cluster, v: NodeId)
    requires BaseInv(c) && v in c.nodes
    ensures BaseInv(Candidacy(c, v))
  {
    CandidacyKeeps(c, v);
    LogVoted(c, v, BecomeCandidate(c.nodes[v]), c.nodes[v].currentTerm + 1, v);
  }

  /** What a granted vote changes. */
  lemma GrantedFields(c: Cluster, v: NodeId, candidate: NodeId)
    requires v in c.nodes
    ensures
      var n, c' := c.nodes[v], Granted(c, v, candidate);
      && c' == With(c, v, c'.nodes[v]).(hist := c'.hist)
      && c'.nodes[v] == n.(votedFor := Some(candidate))
      && c'.hist.elect == c.hist.elect && Extends(c.hist, c'.hist, v)
      && forall b | b in c'.hist.votes && b !in c.hist.votes :: c'.hist.votes[b].log == n.log
  {
  }

  lemma BaseGranted(c: Cluster, v: NodeId, r: VoteRequest)
    requires BaseInv(c)
    requires v in c.nodes && VoteAsk(v, r) in c.net && r.term == c.nodes[v].currentTerm
    requires CanVote(c.nodes[v], r.candidateId) && UpToDate(r.lastLogTerm, r.lastLogIndex, c.nodes[v].log)
    ensures BaseInv(Granted(c, v, r.candidateId))
  {
    GrantedKeeps(c, v, r);
    var c' := Granted(c, v, r.candidateId);
    GrantedFields(c, v, r.candidateId);
    assert NodeLogOK(c.nodes[v], c.hist.elect);
    LogFrame(c, v, c'.nodes[v], c'.hist);
  }

  lemma BaseCounted(c: Cluster, v: NodeId, x: NodeId)
    requires BaseInv(c)
    requires v in c.nodes && c.nodes[v].role.Candidate? && x in c.ids
    requires (c.nodes[v].currentTerm, x) in c.hist.votes
    requires c.hist.votes[(c.nodes[v].currentTerm, x)].candidate == v
    ensures BaseInv(Counted(c, v, x))
  {
    CountedKeeps(c, v, x);
    assert NodeLogOK(c.nodes[v], c.hist.elect);
    LogFrame(c, v, Counted(c, v, x).nodes[v], c.hist);
  }

  /** A candidate has voted for itself, so its term is not 0. */
  lemma BaseElected(c: Cluster, v: NodeId)
    requires BaseInv(c)
    requires v in c.nodes && c.nodes[v].role.Candidate? && c.nodes[v].currentTerm >= 1
    requires |c.nodes[v].role.votes| >= Quorum(c.nodes[v].config)
    ensures BaseInv(Elected(c, v))
    ensures c.nodes[v].currentTerm !in c.hist.elect
  {
    QuorumIsMajority(c.ids, v, c.nodes[v].config);
    TermIsFree(c, v);
    ElectedKeeps(c, v);
    assert NodeOK(v, c.nodes[v], c.ids, c.hist);
    LogElected(c, v);
  }

  lemma AcceptedTerms(elect: Elections, log: Log, req: AppendRequest)
    requires LeaderLogsOK(elect) && Backed(elect, log) && BatchOK(elect, req)
    requires PrevMatches(log, req) && TermBelow(log, req.term + 1)
    ensures TermBelow(Merge(log, req.entries), req.term + 1)
  {
    AcceptedLog(elect, log, req);
    if BatchEnd(req) > 0 {
      var e := elect[req.term];
      assert LeaderLogOK(elect, req.term, e);
      forall i | 0 <= i < |e.log| ensures e.log[i].term < req.term + 1 {
        if i < |e.base| {
          assert e.log[i] == e.base[i];
        }
      }
    }
  }

  lemma BaseMerged(c: Cluster, v: NodeId, req: AppendRequest)
    requires BaseInv(c)
    requires v in c.nodes && c.nodes[v].role.Follower? && c.nodes[v].currentTerm == req.term
    requires BatchOK(c.hist.elect, req) && PrevMatches(c.nodes[v].log, req)
    ensures BaseInv(Merged(c, v, req.entries, BatchEnd(req)))
  {
    var c' := Merged(c, v, req.entries, BatchEnd(req));
    assert NodeOK(v, c.nodes[v], c.ids, c.hist) && NodeLogOK(c.nodes[v], c.hist.elect);
    AcceptedTerms(c.hist.elect, c.nodes[v].log, req);
    QuietKeeps(c, v, c'.nodes[v], c'.hist);
    LogMerged(c, v, req, BatchEnd(req));
  }

  lemma {:induction false} ApplyOnly(n: Node)
    ensures
      var n' := ApplyCommitted(n);
      n' == n.(lastApplied := n'.lastApplied, fsm := n'.fsm)
    decreases n.commitIndex - n.lastApplied
  {
    if n.lastApplied < n.commitIndex {
      var i := n.lastApplied + 1;
      ApplyOnly(n.(lastApplied := i,
                   fsm := match EntryAt(n.log, i)
                          case None => n.fsm
                          case Some(e) => Apply(n.fsm, e)));
    }
  }

  lemma BaseCommitted(c: Cluster, v: NodeId, k: LogIndex)
    requires BaseInv(c) && v in c.nodes && !c.nodes[v].role.Candidate?
    ensures BaseInv(CommittedTo(c, v, k))
  {
    ApplyOnly(c.nodes[v].(commitIndex := k));
    assert NodeOK(v, c.nodes[v], c.ids, c.hist) && NodeLogOK(c.nodes[v], c.hist.elect);
    var n' := CommittedTo(c, v, k).nodes[v];
    QuietKeeps(c, v, n', c.hist);
    LogFrame(c, v, n', c.hist);
  }

  lemma BaseTracked(c: Cluster, v: NodeId, next: map<NodeId, Pos>, matched: map<NodeId, LogIndex>)
    requires BaseInv(c) && v in c.nodes && c.nodes[v].role.Leader? && matched.Keys == c.nodes[v].role.matchIndex.Keys
    ensures BaseInv(Tracked(c, v, next, matched))
  {
    assert NodeOK(v, c.nodes[v], c.ids, c.hist) && NodeLogOK(c.nodes[v], c.hist.elect);
    var n' := Tracked(c, v, next, matched).nodes[v];
    QuietKeeps(c, v, n', c.hist);
    LogFrame(c, v, n', c.hist);
  }

  lemma BaseAppended(c: Cluster, v: NodeId, commands: seq<Command>)
    requires BaseInv(c) && v in c.nodes && c.nodes[v].role.Leader?
    ensures BaseInv(Appended(c, v, commands))
  {
    assert NodeOK(v, c.nodes[v], c.ids, c.hist) && NodeLogOK(c.nodes[v], c.hist.elect);
    AppendedKeeps(c, v, commands);
    OtherLeaders(c, v);
    LogAppended(c, v, commands);
  }

  /** What a proposal changes. */
  lemma AppendedFields(c: Cluster, v: NodeId, commands: seq<Command>)
    requires v in c.nodes && TermBelow(c.nodes[v].log, c.nodes[v].currentTerm + 1)
    ensures
      var n, c' := c.nodes[v], Appended(c, v, commands);
      && c' == With(c, v, c'.nodes[v]).(hist := c'.hist)
      && c'.nodes[v] == n.(log := c'.nodes[v].log)
      && TermBelow(c'.nodes[v].log, n.currentTerm + 1)
      && Extends(c.hist, c'.hist, v) && c'.hist.elect.Keys == c.hist.elect.Keys && c'.hist.votes == c.hist.votes
  {
  }

  lemma AppendedKeeps(c: Cluster, v: NodeId, commands: seq<Command>)
    requires ElectionInv(c) && v in c.nodes && c.nodes[v].role.Leader? && NodeLogOK(c.nodes[v], c.hist.elect)
    ensures ElectionInv(Appended(c, v, commands))
  {
    assert NodeOK(v, c.nodes[v], c.ids, c.hist);
    var c' := Appended(c, v, commands);
    AppendedFields(c, v, commands);
    QuietKeeps(c, v, c'.nodes[v], c'.hist);
  }

  /** No other node leads the term of a leader. */
  lemma OtherLeaders(c: Cluster, v: NodeId)
    requires NodesOK(c.ids, c.nodes, c.hist) && v in c.nodes && c.nodes[v].role.Leader?
    ensures forall u | u in c.nodes && u != v && c.nodes[u].role.Leader? ::
            c.nodes[u].currentTerm != c.nodes[v].currentTerm
  {
  }

  // ---------------------------------------------------------------- steps as moves

  lemma Unmoved(c: Cluster, v: NodeId)
    requires v in c.nodes
    ensures With(c, v, c.nodes[v]) == c
  {
  }

  lemma LocalMoves(c: Cluster, a: Action)
    requires Enabled(c, a)
    ensures a.Timeout? ==> Step(c, a) == Candidacy(c, a.id)
    ensures a.SendVote? ==> Step(c, a) == Sent(c, VoteAsk(a.peer, BuildVoteRequest(c.nodes[a.id])))
    ensures a.ClientPropose? ==> Step(c, a) == Appended(c, a.id, a.commands)
    ensures a.Resign? ==> Step(c, a) == Lowered(c, a.id, c.nodes[a.id].currentTerm, a.hint)
  {
  }

  /** The state after adopting the term of a vote request. */
  function Adopted(c: Cluster, v: NodeId, t: Term): Cluster
    requires v in c.nodes
  {
    if t > c.nodes[v].currentTerm then Lowered(c, v, t, None) else c
  }

  lemma VoteRequestMoves(c: Cluster, m: Message)
    requires Enabled(c, ReceiveVote(m))
    ensures
      var v, r := m.to, m.vote;
      var (n', resp) := HandleVoteRequest(c.nodes[v], r);
      var c1 := Adopted(c, v, r.term);
      Step(c, ReceiveVote(m)) ==
        Sent(if resp.granted then Granted(c1, v, r.candidateId) else c1, VoteReply(v, r, resp))
  {
    Unmoved(c, m.to);
    var v, r := m.to, m.vote;
    var c1 := Adopted(c, v, r.term);
    var (n', resp) := HandleVoteRequest(c.nodes[v], r);
    if resp.granted {
      assert c1.nodes[v := n'] == c.nodes[v := n'];
    } else {
      assert c1.nodes == c.nodes[v := n'];
    }
  }

  lemma VoteReplyMoves(c: Cluster, m: Message)
    requires Enabled(c, ReceiveVoteReply(m)) && VotesGuarded(c, ReceiveVoteReply(m))
    ensures
      var v, n, resp := m.vote.candidateId, c.nodes[m.vote.candidateId], m.voteResp;
      Step(c, ReceiveVoteReply(m)) ==
        if resp.term > n.currentTerm then Lowered(c, v, resp.term, None)
        else if resp.term < n.currentTerm || !n.role.Candidate? || !resp.granted then c
        else
          var c1 := Counted(c, v, m.from);
          if |c1.nodes[v].role.votes| >= Quorum(n.config) then Elected(c1, v) else c1
  {
    var v, n, resp := m.vote.candidateId, c.nodes[m.vote.candidateId], m.voteResp;
    Unmoved(c, v);
    if resp.term < n.currentTerm && n.role.Candidate? && resp.granted {
      assert n.role.votes + {m.from} == n.role.votes;
    } else if resp.term == n.currentTerm && n.role.Candidate? && resp.granted {
      var c1 := Counted(c, v, m.from);
      assert c1.nodes[v := BecomeLeader(c1.nodes[v])] == c.nodes[v := BecomeLeader(c1.nodes[v])];
    }
  }

  lemma AppendRequestMoves(c: Cluster, m: Message)
    requires Enabled(c, ReceiveAppend(m))
    ensures
      var v, r := m.to, m.append;
      var (n', resp) := HandleAppendRequest(c.nodes[v], r);
      Step(c, ReceiveAppend(m)) ==
        if r.term < c.nodes[v].currentTerm then Sent(c, AppendReply(v, r, resp))
        else
          var c1 := Lowered(c, v, r.term, Some(r.leaderId));
          if !resp.success then Sent(c1, AppendReply(v, r, resp))
          else
            var c2 := Merged(c1, v, r.entries, BatchEnd(r));
            var k := Min(r.leaderCommit, LastIndex(c2.nodes[v].log));
            Sent(if r.leaderCommit > c2.nodes[v].commitIndex then CommittedTo(c2, v, k) else c2,
                 AppendReply(v, r, resp))
  {
    var v, r := m.to, m.append;
    Unmoved(c, v);
    var (n', resp) := HandleAppendRequest(c.nodes[v], r);
    if r.term >= c.nodes[v].currentTerm && resp.success {
      var c1 := Lowered(c, v, r.term, Some(r.leaderId));
      var c2 := Merged(c1, v, r.entries, BatchEnd(r));
      assert c1.nodes[v := n'] == c.nodes[v := n'];
      assert c2.nodes[v := n'] == c.nodes[v := n'];
      assert c2.nodes == c.nodes[v := c2.nodes[v]];
    }
  }

  lemma AppendReplyMoves(c: Cluster, m: Message)
    requires Enabled(c, ReceiveAppendReply(m))
    ensures
      var v, n, resp := m.append.leaderId, c.nodes[m.append.leaderId], m.appendResp;
      Step(c, ReceiveAppendReply(m)) ==
        if resp.term > n.currentTerm then Lowered(c, v, resp.term, None)
        else if !n.role.Leader? then c
        else if !resp.success then
          var n1 := RecordFailure(n, m.from, resp);
          Tracked(c, v, n1.role.nextIndex, n1.role.matchIndex)
        else
          var n1 := RecordSuccess(n, m.from, |m.append.entries|);
          var c1 := Tracked(c, v, n1.role.nextIndex, n1.role.matchIndex);
          if TryAdvance(n1) == n1 then c1 else CommittedTo(c1, v, QuorumIndex(n1))
  {
    var v, n, resp := m.append.leaderId, c.nodes[m.append.leaderId], m.appendResp;
    Unmoved(c, v);
    if resp.term <= n.currentTerm && n.role.Leader? && resp.success {
      var n1 := RecordSuccess(n, m.from, |m.append.entries|);
      var c1 := Tracked(c, v, n1.role.nextIndex, n1.role.matchIndex);
      assert c1.nodes[v := TryAdvance(n1)] == c.nodes[v := TryAdvance(n1)];
    }
  }

  // ---------------------------------------------------------------- steps keep both invariants

  lemma BaseVoteRequest(c: Cluster, m: Message)
    requires BaseInv(c) && Enabled(c, ReceiveVote(m))
    ensures BaseInv(Step(c, ReceiveVote(m)))
  {
    VoteRequestMoves(c, m);
    var v, r := m.to, m.vote;
    var (n', resp) := HandleVoteRequest(c.nodes[v], r);
    var c1 := Adopted(c, v, r.term);
    if r.term > c.nodes[v].currentTerm {
      BaseLowered(c, v, r.term, None);
    }
    if resp.granted {
      BaseGranted(c1, v, r);
      var c2 := Granted(c1, v, r.candidateId);
      assert NodeOK(v, c2.nodes[v], c2.ids, c2.hist);
      BaseSent(c2, VoteReply(v, r, resp));
    } else {
      BaseSent(c1, VoteReply(v, r, resp));
    }
  }

  lemma BaseVoteReply(c: Cluster, m: Message)
    requires BaseInv(c) && Enabled(c, ReceiveVoteReply(m)) && VotesGuarded(c, ReceiveVoteReply(m))
    ensures BaseInv(Step(c, ReceiveVoteReply(m)))
  {
    VoteReplyMoves(c, m);
    var v, n, resp := m.vote.candidateId, c.nodes[m.vote.candidateId], m.voteResp;
    if resp.term > n.currentTerm {
      BaseLowered(c, v, resp.term, None);
    } else if resp.term == n.currentTerm && n.role.Candidate? && resp.granted {
      assert VoteMessageOK(c.nodes, c.hist.votes, m);
      BaseCounted(c, v, m.from);
      var c1 := Counted(c, v, m.from);
      if |c1.nodes[v].role.votes| >= Quorum(n.config) {
        assert NodeOK(v, n, c.ids, c.hist);
        BaseElected(c1, v);
      }
    }
  }

  lemma BaseAppendRequest(c: Cluster, m: Message)
    requires BaseInv(c) && Enabled(c, ReceiveAppend(m))
    ensures BaseInv(Step(c, ReceiveAppend(m)))
  {
    AppendRequestMoves(c, m);
    var v, r := m.to, m.append;
    var (n', resp) := HandleAppendRequest(c.nodes[v], r);
    var reply := AppendReply(v, r, resp);
    if r.term < c.nodes[v].currentTerm {
      BaseSent(c, reply);
    } else {
      var c1 := Lowered(c, v, r.term, Some(r.leaderId));
      BaseLowered(c, v, r.term, Some(r.leaderId));
      if !resp.success {
        BaseSent(c1, reply);
      } else {
        var c2 := Merged(c1, v, r.entries, BatchEnd(r));
        BaseMerged(c1, v, r);
        BatchStays(c, c2, m);
        if r.leaderCommit > c2.nodes[v].commitIndex {
          var k := Min(r.leaderCommit, LastIndex(c2.nodes[v].log));
          BaseCommitted(c2, v, k);
          BaseSent(CommittedTo(c2, v, k), reply);
        } else {
          BaseSent(c2, reply);
        }
      }
    }
  }

  lemma BatchStays(c: Cluster, c': Cluster, m: Message)
    requires BatchesOK(c.net, c.hist.elect) && m in c.net && m.AppendAsk? && c'.hist.elect == c.hist.elect
    ensures BatchOK(c'.hist.elect, m.append)
  {
  }

  lemma BaseAppendReply(c: Cluster, m: Message)
    requires BaseInv(c) && Enabled(c, ReceiveAppendReply(m))
    ensures BaseInv(Step(c, ReceiveAppendReply(m)))
  {
    AppendReplyMoves(c, m);
    var v, n, resp := m.append.leaderId, c.nodes[m.append.leaderId], m.appendResp;
    if resp.term > n.currentTerm {
      BaseLowered(c, v, resp.term, None);
    } else if n.role.Leader? {
      if !resp.success {
        var n1 := RecordFailure(n, m.from, resp);
        BaseTracked(c, v, n1.role.nextIndex, n1.role.matchIndex);
      } else {
        var n1 := RecordSuccess(n, m.from, |m.append.entries|);
        BaseTracked(c, v, n1.role.nextIndex, n1.role.matchIndex);
        if TryAdvance(n1) != n1 {
          BaseCommitted(Tracked(c, v, n1.role.nextIndex, n1.role.matchIndex), v, QuorumIndex(n1));
        }
      }
    }
  }

  lemma BaseSendAppend(c: Cluster, v: NodeId, p: NodeId)
    requires BaseInv(c) && Enabled(c, SendAppend(v, p))
    ensures BaseInv(Step(c, SendAppend(v, p)))
  {
    var n := c.nodes[v];
    assert NodeLogOK(n, c.hist.elect);
    BackedShape(c.hist.elect, n.log);
    if n.role.Leader? {
      BuildsBatch(n, p);
    }
    BaseSent(c, AppendAsk(p, BuildAppendRequest(n, p)));
  }

  lemma BaseLocal(c: Cluster, a: Action)
    requires BaseInv(c) && Enabled(c, a) && (a.Timeout? || a.SendVote? || a.ClientPropose? || a.Resign?)
    ensures BaseInv(Step(c, a))
  {
    LocalMoves(c, a);
    match a {
      case Timeout(v) => BaseCandidacy(c, v);
      case SendVote(v, p) => BaseSent(c, VoteAsk(p, BuildVoteRequest(c.nodes[v])));
      case ClientPropose(v, commands) => BaseAppended(c, v, commands);
      case Resign(v, hint) => BaseLowered(c, v, c.nodes[v].currentTerm, hint);
    }
  }

  /** One step keeps both invariants. */
  lemma BaseStep(c: Cluster, a: Action)
    requires BaseInv(c) && Enabled(c, a) && VotesGuarded(c, a)
    ensures BaseInv(Step(c, a))
  {
    match a {
      case ReceiveVote(m) => BaseVoteRequest(c, m);
      case ReceiveVoteReply(m) => BaseVoteReply(c, m);
      case SendAppend(v, p) => BaseSendAppend(c, v, p);
      case ReceiveAppend(m) => BaseAppendRequest(c, m);
      case ReceiveAppendReply(m) => BaseAppendReply(c, m);
      case _ => BaseLocal(c, a);
    }
  }

  lemma BaseInit(c: Cluster)
    requires Init(c)
    ensures BaseInv(c)
  {
  }

  lemma {:induction false} BaseRun(s: seq<Cluster>, actions: seq<Action>, i: nat)
    requires IsElectionRun(s, actions) && i < |s|
    ensures BaseInv(s[i])
  {
    if i == 0 {
      BaseInit(s[0]);
    } else {
      BaseRun(s, actions, i - 1);
      BaseStep(s[i - 1], actions[i - 1]);
    }
  }
}
