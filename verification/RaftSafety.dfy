/** The safety properties of Figure 3 of the Raft paper, over all runs and across time. */
module RaftSafety {
  import opened RaftTypes
  import opened KeyValueFsm
  import opened RaftHandlers
  import opened RaftCluster
  import opened RaftMoves
  import opened RaftElection
  import opened RaftLogs
  import opened RaftCommit
  import opened RaftSteps
  import opened RaftApply

  // ---------------------------------------------------------------- elections

  /** The term a candidate wins was not won before. */
  lemma NewTerm(c: Cluster, m: Message)
    requires ElectionInv(c) && Enabled(c, ReceiveVoteReply(m)) && VotesGuarded(c, ReceiveVoteReply(m))
    ensures
      var n := c.nodes[m.vote.candidateId];
      n.role.Candidate? && HandleVoteResponse(n, m.from, m.voteResp).role.Leader? ==> n.currentTerm !in c.hist.elect
  {
    var v, n, resp := m.vote.candidateId, c.nodes[m.vote.candidateId], m.voteResp;
    if resp.term == n.currentTerm && n.role.Candidate? && resp.granted {
      assert VoteMessageOK(c.nodes, c.hist.votes, m);
      CountedIsFree(c, v, m.from);
    }
  }

  lemma CountedIsFree(c: Cluster, v: NodeId, x: NodeId)
    requires ElectionInv(c) && v in c.nodes && c.nodes[v].role.Candidate? && x in c.ids
    requires (c.nodes[v].currentTerm, x) in c.hist.votes
    requires c.hist.votes[(c.nodes[v].currentTerm, x)].candidate == v
    ensures |c.nodes[v].role.votes + {x}| >= Quorum(c.nodes[v].config) ==> c.nodes[v].currentTerm !in c.hist.elect
  {
    var c1 := Counted(c, v, x);
    CountedKeeps(c, v, x);
    QuorumIsMajority(c.ids, v, c.nodes[v].config);
    if |c1.nodes[v].role.votes| >= Quorum(c.nodes[v].config) {
      TermIsFree(c1, v);
    }
  }

  lemma ElectionsGrow(c: Cluster, a: Action)
    requires Enabled(c, a)
    requires a.ReceiveVoteReply? ==>
               var n := c.nodes[a.m.vote.candidateId];
               n.role.Candidate? && HandleVoteResponse(n, a.m.from, a.m.voteResp).role.Leader? ==>
               n.currentTerm !in c.hist.elect
    requires a.ClientPropose? ==> NodeLogOK(c.nodes[a.id], c.hist.elect)
    ensures Grown(c.hist.elect, Step(c, a).hist.elect)
  {
  }

  /** A step never rewrites a recorded election. */
  lemma ElectionsStay(c: Cluster, a: Action)
    requires BaseInv(c) && Enabled(c, a) && VotesGuarded(c, a)
    ensures Grown(c.hist.elect, Step(c, a).hist.elect)
  {
    if a.ReceiveVoteReply? {
      NewTerm(c, a.m);
    }
    ElectionsGrow(c, a);
  }

  lemma GrownTransitive(a: Elections, b: Elections, c: Elections)
    requires Grown(a, b) && Grown(b, c)
    ensures Grown(a, c)
  {
  }

  lemma GrownReflexive(a: Elections)
    ensures Grown(a, a)
  {
  }

  lemma RunElectionsStay(s: seq<Cluster>, actions: seq<Action>, i: nat)
    requires IsElectionRun(s, actions) && i < |actions|
    ensures Grown(s[i].hist.elect, s[i + 1].hist.elect)
  {
    BaseRun(s, actions, i);
    ElectionsStay(s[i], actions[i]);
  }

  lemma {:induction false} GrownChain(s: seq<Cluster>, i: nat, j: nat)
    requires i <= j < |s|
    requires forall k | 0 <= k < |s| - 1 :: Grown(s[k].hist.elect, s[k + 1].hist.elect)
    ensures Grown(s[i].hist.elect, s[j].hist.elect)
  {
    if i < j {
      GrownChain(s, i, j - 1);
      assert Grown(s[j - 1].hist.elect, s[j - 1 + 1].hist.elect);
      GrownTransitive(s[i].hist.elect, s[j - 1].hist.elect, s[j].hist.elect);
    } else {
      GrownReflexive(s[i].hist.elect);
    }
  }

  lemma ElectionsStayInRun(s: seq<Cluster>, actions: seq<Action>, i: nat, j: nat)
    requires IsElectionRun(s, actions) && i <= j < |s|
    ensures Grown(s[i].hist.elect, s[j].hist.elect)
  {
    forall k | 0 <= k < |s| - 1 ensures Grown(s[k].hist.elect, s[k + 1].hist.elect) {
      RunElectionsStay(s, actions, k);
    }
    GrownChain(s, i, j);
  }

  /** Election Safety: in a run that counts no stale vote, a term has at most one leader, ever. */
  lemma ElectionSafety(s: seq<Cluster>, actions: seq<Action>, i: nat, j: nat, u: NodeId, v: NodeId)
    requires IsElectionRun(s, actions) && i <= j < |s|
    requires u in s[i].nodes && s[i].nodes[u].role.Leader?
    requires v in s[j].nodes && s[j].nodes[v].role.Leader?
    requires s[i].nodes[u].currentTerm == s[j].nodes[v].currentTerm
    ensures u == v
  {
    BaseRun(s, actions, i);
    BaseRun(s, actions, j);
    ElectionsStayInRun(s, actions, i, j);
    assert NodeOK(u, s[i].nodes[u], s[i].ids, s[i].hist);
    assert NodeOK(v, s[j].nodes[v], s[j].ids, s[j].hist);
  }

  // ---------------------------------------------------------------- logs

  /** Log Matching: two logs, of any nodes at any two times, that have entries of one term at one index
      agree on everything up to that index. */
  lemma LogMatching(s: seq<Cluster>, actions: seq<Action>, i: nat, j: nat, u: NodeId, v: NodeId)
    requires IsElectionRun(s, actions) && i <= j < |s|
    requires u in s[i].nodes && v in s[j].nodes
    ensures Matching(s[i].nodes[u].log, s[j].nodes[v].log)
  {
    BaseRun(s, actions, i);
    BaseRun(s, actions, j);
    ElectionsStayInRun(s, actions, i, j);
    assert NodeLogOK(s[i].nodes[u], s[i].hist.elect);
    assert NodeLogOK(s[j].nodes[v], s[j].hist.elect);
    BackedGrows(s[i].hist.elect, s[j].hist.elect, s[i].nodes[u].log);
    BackedMatch(s[j].hist.elect, s[i].nodes[u].log, s[j].nodes[v].log);
  }

  /** The same between a log and a request in flight: where they have an entry of one term at one
      index, they agree on the whole batch up to it and on the entry before the batch. */
  lemma RequestMatching(s: seq<Cluster>, actions: seq<Action>, i: nat, m: Message, v: NodeId, x: nat)
    requires IsElectionRun(s, actions) && i < |s|
    requires m in s[i].net && m.AppendAsk? && v in s[i].nodes && x < |m.append.entries|
    requires
      var log, k := s[i].nodes[v].log, m.append.prevLogIndex + x;
      k < |log| && log[k].term == m.append.entries[x].term
    ensures
      var log, p := s[i].nodes[v].log, m.append.prevLogIndex;
      && log[p..p + x + 1] == m.append.entries[..x + 1]
      && PrevMatches(log, m.append)
  {
    RunBatch(s, actions, i, m, v);
    BatchMatches(s[i].hist.elect, s[i].nodes[v].log, m.append, x);
  }

  lemma RunBatch(s: seq<Cluster>, actions: seq<Action>, i: nat, m: Message, v: NodeId)
    requires IsElectionRun(s, actions) && i < |s|
    requires m in s[i].net && m.AppendAsk? && v in s[i].nodes
    ensures LeaderLogsOK(s[i].hist.elect) && BatchOK(s[i].hist.elect, m.append)
            && Backed(s[i].hist.elect, s[i].nodes[v].log)
  {
    BaseRun(s, actions, i);
    assert NodeLogOK(s[i].nodes[v], s[i].hist.elect);
  }

  lemma BatchMatches(elect: Elections, log: Log, r: AppendRequest, x: nat)
    requires LeaderLogsOK(elect) && BatchOK(elect, r) && Backed(elect, log)
    requires x < |r.entries| && r.prevLogIndex + x < |log| && log[r.prevLogIndex + x].term == r.entries[x].term
    ensures log[r.prevLogIndex..r.prevLogIndex + x + 1] == r.entries[..x + 1] && PrevMatches(log, r)
  {
    var p, a := r.prevLogIndex, elect[r.term].log;
    LeaderLogBacked(elect, r.term);
    BackedMatch(elect, a, log);
    assert a[p + x] == r.entries[x];
    assert a[..p + x + 1] == log[..p + x + 1];
    assert log[p..p + x + 1] == a[p..p + x + 1] == r.entries[..x + 1];
    if p > 0 {
      assert log[p - 1] == log[..p + x + 1][p - 1] == a[p - 1];
    }
  }

  /** Every log numbers its entries from 1, with terms that are at least 1 and never fall; so a request
      built from an overrun next index (term 0 before a positive index) is rejected everywhere. */
  lemma LogShape(s: seq<Cluster>, actions: seq<Action>, i: nat, v: NodeId, req: AppendRequest)
    requires IsElectionRun(s, actions) && i < |s| && v in s[i].nodes
    ensures Indexed(s[i].nodes[v].log)
    ensures forall k | 0 <= k < |s[i].nodes[v].log| :: s[i].nodes[v].log[k].term >= 1
    ensures forall k, l | 0 <= k <= l < |s[i].nodes[v].log| :: s[i].nodes[v].log[k].term <= s[i].nodes[v].log[l].term
    ensures req.prevLogIndex > 0 && req.prevLogTerm == 0 ==> !HandleAppendRequest(s[i].nodes[v], req).1.success
  {
    BaseRun(s, actions, i);
    assert NodeLogOK(s[i].nodes[v], s[i].hist.elect);
    BackedShape(s[i].hist.elect, s[i].nodes[v].log);
  }

  // ---------------------------------------------------------------- commitment

  /** Leader Completeness: whatever any node has committed at any time is in the log of every leader of a later term,
      at any time, be it before or after the commit; and of a leader of the node's own term from then on. */
  lemma CommittedReachLeaders(s: seq<Cluster>, actions: seq<Action>, i: nat, j: nat, u: NodeId, v: NodeId)
    requires IsGuardedRun(s, actions) && i < |s| && j < |s|
    requires u in s[i].nodes && v in s[j].nodes && s[j].nodes[v].role.Leader?
    requires
      var t, t' := s[i].nodes[u].currentTerm, s[j].nodes[v].currentTerm;
      t < t' || (t == t' && i <= j)
    ensures s[i].nodes[u].commitIndex <= |s[i].nodes[u].log|
    ensures s[i].nodes[u].log[..s[i].nodes[u].commitIndex] <= s[j].nodes[v].log
  {
    if i <= j {
      CommittedReachLater(s, actions, i, j, u, v);
    } else {
      CommittedReachEarlier(s, actions, i, j, u, v);
    }
  }

  lemma CommittedReachLater(s: seq<Cluster>, actions: seq<Action>, i: nat, j: nat, u: NodeId, v: NodeId)
    requires IsGuardedRun(s, actions) && i <= j < |s|
    requires u in s[i].nodes && v in s[j].nodes && s[j].nodes[v].role.Leader?
    requires s[i].nodes[u].currentTerm <= s[j].nodes[v].currentTerm
    ensures s[i].nodes[u].commitIndex <= |s[i].nodes[u].log|
    ensures s[i].nodes[u].log[..s[i].nodes[u].commitIndex] <= s[j].nodes[v].log
  {
    FullRun(s, actions, i, j);
    var n, n', c' := s[i].nodes[u], s[j].nodes[v], s[j];
    assert NodeCommitOK(s[i].ids, n, s[i].hist) && NodeLogOK(n', c'.hist.elect);
    CertifiedGrows(c'.ids, s[i].hist, c'.hist, n.currentTerm, n'.currentTerm, n.log, n.log, n.commitIndex);
    CertifiedInLeader(c'.ids, c'.nodes, c'.hist, n.log, n'.currentTerm, n.commitIndex);
  }

  /** A leader that led before the commit was learned of. */
  lemma CommittedReachEarlier(s: seq<Cluster>, actions: seq<Action>, i: nat, j: nat, u: NodeId, v: NodeId)
    requires IsGuardedRun(s, actions) && j <= i < |s|
    requires u in s[i].nodes && v in s[j].nodes && s[j].nodes[v].role.Leader?
    requires s[i].nodes[u].currentTerm < s[j].nodes[v].currentTerm
    ensures s[i].nodes[u].commitIndex <= |s[i].nodes[u].log|
    ensures s[i].nodes[u].log[..s[i].nodes[u].commitIndex] <= s[j].nodes[v].log
  {
    var n, t := s[i].nodes[u], s[j].nodes[v].currentTerm;
    LeaderOfTerm(s, actions, j, v);
    FullRun(s, actions, i, i);
    ElectionsStayInRun(s, actions, j, i);
    assert NodeCommitOK(s[i].ids, n, s[i].hist);
    CertifiedInBase(s[i].ids, s[i].nodes, s[i].hist, n.log, n.currentTerm, t, n.commitIndex);
  }

  lemma LeaderOfTerm(s: seq<Cluster>, actions: seq<Action>, j: nat, v: NodeId)
    requires IsGuardedRun(s, actions) && j < |s| && v in s[j].nodes && s[j].nodes[v].role.Leader?
    ensures
      var t, elect := s[j].nodes[v].currentTerm, s[j].hist.elect;
      t in elect && elect[t].base <= s[j].nodes[v].log
  {
    BaseRun(s, actions, j);
    var n, elect := s[j].nodes[v], s[j].hist.elect;
    assert NodeOK(v, n, s[j].ids, s[j].hist) && NodeLogOK(n, elect);
    assert LeaderLogOK(elect, n.currentTerm, elect[n.currentTerm]);
  }

  /** Two certified prefixes are prefixes of one another. */
  lemma CertifiedAgree(c: Cluster, a: Log, k: nat, ta: Term, b: Log, l: nat, tb: Term)
    requires ElectionsOK(c.ids, c.nodes, c.hist) && LeaderLogsOK(c.hist.elect)
    requires VoteLogsOK(c.hist.votes, c.hist.elect) && VotesHold(c.hist)
    requires Certified(c.ids, c.hist, ta, a, k) && Certified(c.ids, c.hist, tb, b, l)
    ensures a[..k] <= b[..l] || b[..l] <= a[..k]
  {
    if k > 0 && l > 0 {
      var s1, m1 := CommitWitness(c.ids, c.hist, ta, a, k);
      var s2, m2 := CommitWitness(c.ids, c.hist, tb, b, l);
      CommittedComparable(c, s1, m1, s2, m2);
      PrefixesAgree(c.hist.elect[s1].log[..m1], k, a, c.hist.elect[s2].log[..m2], l, b);
    }
  }

  lemma CommitWitness(ids: set<NodeId>, h: History, t: Term, log: Log, k: nat) returns (s: Term, m: nat)
    requires Certified(ids, h, t, log, k) && k > 0
    ensures Committed(ids, h, s, m) && k <= m && h.elect[s].log[..m][..k] <= log
  {
    s, m :| s <= t && Committed(ids, h, s, m) && k <= m && h.elect[s].log[..k] <= log;
    assert h.elect[s].log[..m][..k] == h.elect[s].log[..k];
  }

  lemma PrefixesAgree(x: Log, k: nat, a: Log, y: Log, l: nat, b: Log)
    requires k <= |x| && k <= |a| && x[..k] <= a && l <= |y| && l <= |b| && y[..l] <= b
    requires forall i | 0 <= i < |x| && i < |y| :: x[i] == y[i]
    ensures a[..k] <= b[..l] || b[..l] <= a[..k]
  {
  }

  lemma CommittedComparable(c: Cluster, s1: Term, m1: nat, s2: Term, m2: nat)
    requires ElectionsOK(c.ids, c.nodes, c.hist) && LeaderLogsOK(c.hist.elect)
    requires VoteLogsOK(c.hist.votes, c.hist.elect) && VotesHold(c.hist)
    requires Committed(c.ids, c.hist, s1, m1) && Committed(c.ids, c.hist, s2, m2)
    ensures
      var x, y := c.hist.elect[s1].log[..m1], c.hist.elect[s2].log[..m2];
      forall i | 0 <= i < |x| && i < |y| :: x[i] == y[i]
  {
    if s1 < s2 {
      LeaderCompleteness(c.ids, c.nodes, c.hist, s1, m1, s2);
      assert LeaderLogOK(c.hist.elect, s2, c.hist.elect[s2]);
    } else if s2 < s1 {
      LeaderCompleteness(c.ids, c.nodes, c.hist, s2, m2, s1);
      assert LeaderLogOK(c.hist.elect, s1, c.hist.elect[s1]);
    }
  }

  /** State Machine Safety: the sequences of entries that any two nodes have applied, at any two times,
      are prefixes of one another; so no index is ever applied with two different entries. */
  lemma StateMachineSafety(s: seq<Cluster>, actions: seq<Action>, i: nat, j: nat, u: NodeId, v: NodeId)
    requires IsGuardedRun(s, actions) && i <= j < |s|
    requires u in s[i].nodes && v in s[j].nodes
    ensures
      var n, n' := s[i].nodes[u], s[j].nodes[v];
      && n.lastApplied <= |n.log| && n'.lastApplied <= |n'.log|
      && (n.log[..n.lastApplied] <= n'.log[..n'.lastApplied] || n'.log[..n'.lastApplied] <= n.log[..n.lastApplied])
  {
    FullRun(s, actions, i, j);
    var n, n', c' := s[i].nodes[u], s[j].nodes[v], s[j];
    assert AppliedOK(n) && AppliedOK(n');
    assert NodeCommitOK(s[i].ids, n, s[i].hist) && NodeCommitOK(c'.ids, n', c'.hist);
    CertifiedGrows(c'.ids, s[i].hist, c'.hist, n.currentTerm, n.currentTerm, n.log, n.log, n.commitIndex);
    CertifiedAgree(c', n.log, n.commitIndex, n.currentTerm, n'.log, n'.commitIndex, n'.currentTerm);
  }

  /** What a node has applied is never taken back, and its key-value state is exactly the replay of it:
      a read returns what the applied entries last wrote. */
  lemma AppliedState(s: seq<Cluster>, actions: seq<Action>, i: nat, j: nat, v: NodeId, key: Bytes)
    requires IsGuardedRun(s, actions) && i <= j < |s| && v in s[i].nodes
    ensures v in s[j].nodes
    ensures
      var n, n' := s[i].nodes[v], s[j].nodes[v];
      && n.lastApplied == n.commitIndex <= |n.log|
      && n'.lastApplied == n'.commitIndex <= |n'.log|
      && n.currentTerm <= n'.currentTerm
      && n.log[..n.lastApplied] <= n'.log[..n'.lastApplied]
      && n'.fsm == Replay(EMPTY_FSM, n'.log[..n'.lastApplied])
      && Lookup(n'.fsm, key) == LastWrite(n'.log[..n'.lastApplied], key)
  {
    RunKeeps(s, actions, i, j, v);
    var n' := s[j].nodes[v];
    ReplayReadsLastWrite(n'.log[..n'.lastApplied], key);
  }

  lemma RunKeeps(s: seq<Cluster>, actions: seq<Action>, i: nat, j: nat, v: NodeId)
    requires IsGuardedRun(s, actions) && i <= j < |s| && v in s[i].nodes
    ensures v in s[j].nodes && AppliedOK(s[i].nodes[v]) && AppliedOK(s[j].nodes[v])
            && Keeps(s[i].nodes[v], s[j].nodes[v])
  {
    FullRun(s, actions, i, j);
  }

  /** Two nodes that have applied equally many entries hold the same key-value state. */
  lemma ReplicasAgree(s: seq<Cluster>, actions: seq<Action>, i: nat, j: nat, u: NodeId, v: NodeId)
    requires IsGuardedRun(s, actions) && i <= j < |s|
    requires u in s[i].nodes && v in s[j].nodes
    requires s[i].nodes[u].lastApplied == s[j].nodes[v].lastApplied
    ensures s[i].nodes[u].fsm == s[j].nodes[v].fsm
  {
    StateMachineSafety(s, actions, i, j, u, v);
    RunKeeps(s, actions, i, i, u);
    RunKeeps(s, actions, j, j, v);
    var a, b := s[i].nodes[u].log[..s[i].nodes[u].lastApplied], s[j].nodes[v].log[..s[j].nodes[v].lastApplied];
    assert a == b;
  }

  // ---------------------------------------------------------------- match indices

  /** An acknowledgement changes only at a node that is in its term. */
  lemma AckChangesInTerm(c: Cluster, a: Action, b: (Term, NodeId))
    requires Enabled(c, a)
    requires
      var h' := Step(c, a).hist;
      b in h'.acks && (b !in c.hist.acks || h'.acks[b] != c.hist.acks[b])
    ensures b.1 in Step(c, a).nodes && Step(c, a).nodes[b.1].currentTerm == b.0
  {
    if a.ReceiveAppend? {
      var (n', resp) := HandleAppendRequest(c.nodes[a.m.to], a.m.append);
      AppendKeepsTerm(c.nodes[a.m.to], a.m.append);
    }
  }

  lemma AppendKeepsTerm(n: Node, req: AppendRequest)
    ensures HandleAppendRequest(n, req).1.success ==> HandleAppendRequest(n, req).0.currentTerm == req.term
  {
    var n2 := Follow(n, req.term, req.leaderId).(log := Merge(n.log, req.entries));
    ApplyOnly(n2.(commitIndex := Min(req.leaderCommit, LastIndex(n2.log))));
  }

  /** Node `v` has, at or before time `i`, in term `t`, held the leader's first `k` entries. */
  ghost predicate HadHeld(s: seq<Cluster>, i: nat, v: NodeId, t: Term, entries: Log)
    requires i < |s|
  {
    exists l | 0 <= l <= i :: v in s[l].nodes && s[l].nodes[v].currentTerm == t && entries <= s[l].nodes[v].log
  }

  lemma RunAck(s: seq<Cluster>, actions: seq<Action>, i: nat, b: (Term, NodeId))
    requires IsGuardedRun(s, actions) && i < |s| && b in s[i].hist.acks
    ensures AckOK(s[i].nodes, s[i].hist.elect, b.0, b.1, s[i].hist.acks[b])
  {
    FullRun(s, actions, i, i);
  }

  lemma RunAckChanges(s: seq<Cluster>, actions: seq<Action>, i: nat, b: (Term, NodeId))
    requires IsElectionRun(s, actions) && i < |actions| && b in s[i + 1].hist.acks
    requires b.1 in s[i + 1].nodes && s[i + 1].nodes[b.1].currentTerm != b.0
    ensures b in s[i].hist.acks && s[i].hist.acks[b] == s[i + 1].hist.acks[b]
  {
    BaseRun(s, actions, i);
    if b !in s[i].hist.acks || s[i].hist.acks[b] != s[i + 1].hist.acks[b] {
      AckChangesInTerm(s[i], actions[i], b);
    }
  }

  lemma {:induction false} AckWasHeld(s: seq<Cluster>, actions: seq<Action>, i: nat, b: (Term, NodeId))
    requires IsGuardedRun(s, actions) && i < |s| && b in s[i].hist.acks
    ensures b.0 in s[i].hist.elect && s[i].hist.acks[b] <= |s[i].hist.elect[b.0].log|
    ensures HadHeld(s, i, b.1, b.0, s[i].hist.elect[b.0].log[..s[i].hist.acks[b]])
  {
    RunAck(s, actions, i, b);
    var elect, n, k := s[i].hist.elect, s[i].nodes[b.1], s[i].hist.acks[b];
    if n.currentTerm == b.0 {
      assert HeldAt(elect, b.0, k, n.log, b.0);
    } else {
      StartsEmpty(s, actions);
      RunAckChanges(s, actions, i - 1, b);
      AckWasHeld(s, actions, i - 1, b);
      RunElectionsStay(s, actions, i - 1);
      HeldLater(s, i, b.1, b.0, s[i - 1].hist.elect[b.0].log[..k], elect[b.0].log[..k]);
    }
  }

  lemma HeldLater(s: seq<Cluster>, i: nat, v: NodeId, t: Term, a: Log, b: Log)
    requires 0 < i < |s| && HadHeld(s, i - 1, v, t, a) && b <= a
    ensures HadHeld(s, i, v, t, b)
  {
  }

  lemma StartsEmpty(s: seq<Cluster>, actions: seq<Action>)
    requires IsRun(s, actions)
    ensures s[0].hist.acks == map[]
  {
  }

  lemma RunMatch(s: seq<Cluster>, actions: seq<Action>, i: nat, v: NodeId)
    requires IsGuardedRun(s, actions) && i < |s| && v in s[i].nodes
    ensures MatchOK(s[i].nodes[v], s[i].hist.acks) && NodeLogOK(s[i].nodes[v], s[i].hist.elect)
  {
    FullRun(s, actions, i, i);
    assert NodeCommitOK(s[i].ids, s[i].nodes[v], s[i].hist);
  }

  /** A leader's match index for a peer is a length up to which the peer's log really agreed with the
      leader's, in the leader's own term. */
  lemma MatchIndexIsTrue(s: seq<Cluster>, actions: seq<Action>, i: nat, v: NodeId, p: NodeId)
    requires IsGuardedRun(s, actions) && i < |s|
    requires v in s[i].nodes && s[i].nodes[v].role.Leader? && p in s[i].nodes[v].role.matchIndex
    ensures
      var n := s[i].nodes[v];
      var k := n.role.matchIndex[p];
      k > 0 ==> k <= |n.log| && HadHeld(s, i, p, n.currentTerm, n.log[..k])
  {
    RunMatch(s, actions, i, v);
    var n, h := s[i].nodes[v], s[i].hist;
    var k, t := n.role.matchIndex[p], n.currentTerm;
    if k > 0 {
      AckWasHeld(s, actions, i, (t, p));
      var a := h.elect[t].log[..h.acks[(t, p)]];
      var l :| 0 <= l <= i && p in s[l].nodes && s[l].nodes[p].currentTerm == t && a <= s[l].nodes[p].log;
      assert n.log[..k] <= a;
    }
  }
}
