/** Leader Completeness and commit safety: what every move keeps about acknowledged and committed
    entries. */
module RaftCommit {
  import opened Wrappers
  import opened RaftTypes
  import opened RaftHandlers
  import opened RaftCluster
  import opened RaftMoves
  import opened RaftElection
  import opened RaftLogs
  import opened RaftQuorum

  // ---------------------------------------------------------------- committed entries

  /** The nodes that have accepted the leader log of term `s` up to `m`. */
  function Holders(ids: set<NodeId>, acks: map<(Term, NodeId), nat>, s: Term, m: nat): set<NodeId> {
    set x | x in ids && (s, x) in acks && acks[(s, x)] >= m
  }

  /** Section 5.4.2 of the Raft paper: an entry of the leader's own term held by a majority. */
  predicate Committed(ids: set<NodeId>, h: History, s: Term, m: nat) {
    && s in h.elect
    && 0 < m <= |h.elect[s].log|
    && h.elect[s].log[m - 1].term == s
    && |Holders(ids, h.acks, s, m)| >= Majority(|ids|)
  }

  /** Some leader elected after `t`, in a term up to `bound`, started without these entries. */
  predicate Displaced(elect: Elections, t: Term, k: nat, bound: Term)
    requires t in elect && k <= |elect[t].log|
  {
    exists s | s in elect :: t < s <= bound && !(elect[t].log[..k] <= elect[s].base)
  }

  predicate HeldAt(elect: Elections, t: Term, k: nat, log: Log, bound: Term)
    requires t in elect && k <= |elect[t].log|
  {
    elect[t].log[..k] <= log || Displaced(elect, t, k, bound)
  }

  /** A log still has whatever was accepted in term `t`, except what a later leader displaced. */
  predicate Held(elect: Elections, t: Term, k: nat, log: Log, bound: Term) {
    && t in elect && k <= |elect[t].log|
    && forall j | 0 <= j <= k :: HeldAt(elect, t, j, log, bound)
  }

  /** The first `k` entries of `log` are committed, by a leader of a term up to `bound`. */
  ghost predicate Certified(ids: set<NodeId>, h: History, bound: Term, log: Log, k: nat) {
    && k <= |log|
    && (k > 0 ==> exists s: Term, m: nat ::
          s <= bound && Committed(ids, h, s, m) && k <= m && h.elect[s].log[..k] <= log)
  }

  /** A leader of a term up to `bound` has committed `k` entries. */
  ghost predicate Promised(ids: set<NodeId>, h: History, bound: Term, k: nat) {
    k > 0 ==> exists s: Term, m: nat :: s <= bound && Committed(ids, h, s, m) && k <= m
  }

  // ---------------------------------------------------------------- the invariant

  predicate AckOK(nodes: map<NodeId, Node>, elect: Elections, t: Term, v: NodeId, k: nat) {
    v in nodes && t <= nodes[v].currentTerm && Held(elect, t, k, nodes[v].log, nodes[v].currentTerm)
  }

  predicate AcksOK(nodes: map<NodeId, Node>, h: History) {
    forall b | b in h.acks :: AckOK(nodes, h.elect, b.0, b.1, h.acks[b])
  }

  predicate OwnAcksOK(h: History) {
    forall t | t in h.elect ::
      (t, h.elect[t].leader) in h.acks && h.acks[(t, h.elect[t].leader)] == |h.elect[t].log|
  }

  /** What a voter had accepted in an earlier term was in its log when it voted, unless displaced. */
  predicate VoteHolds(h: History, t: Term, v: NodeId, x: Vote) {
    !x.late ==> forall s: Term | s < t && (s, v) in h.acks :: Held(h.elect, s, h.acks[(s, v)], x.log, t - 1)
  }

  predicate VotesHold(h: History) {
    forall b | b in h.votes :: VoteHolds(h, b.0, b.1, h.votes[b])
  }

  predicate MatchOK(n: Node, acks: map<(Term, NodeId), nat>) {
    n.role.Leader? ==>
      forall p | p in n.role.matchIndex && n.role.matchIndex[p] > 0 ::
        (n.currentTerm, p) in acks && acks[(n.currentTerm, p)] >= n.role.matchIndex[p]
  }

  ghost predicate NodeCommitOK(ids: set<NodeId>, n: Node, h: History) {
    MatchOK(n, h.acks) && Certified(ids, h, n.currentTerm, n.log, n.commitIndex)
  }

  ghost predicate NodeCommitsOK(ids: set<NodeId>, nodes: map<NodeId, Node>, h: History) {
    forall v | v in nodes :: NodeCommitOK(ids, nodes[v], h)
  }

  ghost predicate CommitMessageOK(ids: set<NodeId>, h: History, m: Message) {
    match m
    case AppendAsk(_, req) => Promised(ids, h, req.term, req.leaderCommit)
    case AppendReply(v, req, resp) =>
      v in ids
      && (resp.success ==> resp.term == req.term)
      && (resp.success && BatchEnd(req) > 0 ==> (req.term, v) in h.acks && h.acks[(req.term, v)] >= BatchEnd(req))
    case _ => true
  }

  ghost predicate CommitNetOK(ids: set<NodeId>, h: History, net: set<Message>) {
    forall m | m in net :: CommitMessageOK(ids, h, m)
  }

  ghost predicate CommitInv(c: Cluster) {
    && AcksOK(c.nodes, c.hist)
    && OwnAcksOK(c.hist)
    && VotesHold(c.hist)
    && NodeCommitsOK(c.ids, c.nodes, c.hist)
    && CommitNetOK(c.ids, c.hist, c.net)
  }

  // ---------------------------------------------------------------- Leader Completeness

  /** A log that is at least as up-to-date as one holding `entries`, and whose last leader started
      with `entries`, holds them too. */
  lemma UpToDateHolds(elect: Elections, entries: Log, voter: Log, base: Log, t: Term)
    requires LeaderLogsOK(elect) && Backed(elect, voter) && Backed(elect, base)
    requires entries != [] && entries <= voter && entries[|entries| - 1].term == t
    requires UpToDate(LastTerm(base), LastIndex(base), voter)
    requires LastTerm(base) in elect && LastTerm(base) > t ==> entries <= elect[LastTerm(base)].base
    ensures entries <= base
  {
    BackedShape(elect, voter);
    BackedShape(elect, base);
    assert voter[|entries| - 1].term == t;
    assert base != [];
    var u := LastTerm(base);
    assert BackedAt(elect, base, |base| - 1);
    assert base == base[..|base|];
    if u == LastTerm(voter) {
      assert BackedAt(elect, voter, |voter| - 1);
      assert voter == voter[..|voter|] == elect[u].log[..|voter|];
      assert base == elect[u].log[..|base|];
      assert voter <= base;
    } else {
      assert LeaderLogOK(elect, u, elect[u]);
      var b := elect[u].base;
      assert base == elect[u].log[..|base|];
      assert base[|base| - 1] == elect[u].log[|base| - 1];
      assert forall i | 0 <= i < |b| :: elect[u].log[i] == b[i] && b[i].term < u;
      assert b <= base;
    }
  }

  /** Once committed, an entry is in the log of every later leader from its election on. */
  lemma {:induction false} LeaderCompleteness(ids: set<NodeId>, nodes: map<NodeId, Node>, h: History, s: Term, m: nat,
                                              t: Term)
    requires LeaderLogsOK(h.elect) && VoteLogsOK(h.votes, h.elect)
    requires ElectionsOK(ids, nodes, h) && VotesHold(h)
    requires Committed(ids, h, s, m) && t in h.elect && s < t
    ensures h.elect[s].log[..m] <= h.elect[t].base
    decreases t
  {
    var entries, e := h.elect[s].log[..m], h.elect[t];
    forall u | u in h.elect && s < u < t ensures entries <= h.elect[u].base {
      LeaderCompleteness(ids, nodes, h, s, m, u);
    }
    assert MandateOK(ids, h.votes, t, e);
    assert LeaderLogOK(h.elect, t, e);
    var x := QuorumsMeet(ids, Holders(ids, h.acks, s, m), e.voters);
    var voter := h.votes[(t, x)].log;
    assert VoteHolds(h, t, x, h.votes[(t, x)]);
    assert HeldAt(h.elect, s, m, voter, t - 1);
    assert entries <= voter;
    UpToDateHolds(h.elect, entries, voter, e.base, s);
  }

  // ---------------------------------------------------------------- growing histories

  predicate HistoryGrows(h: History, h': History) {
    && Grown(h.elect, h'.elect)
    && (forall b | b in h.acks :: b in h'.acks && h.acks[b] <= h'.acks[b])
  }

  lemma DisplacedGrows(elect: Elections, elect': Elections, t: Term, k: nat, bound: Term, bound': Term)
    requires t in elect && k <= |elect[t].log| && Displaced(elect, t, k, bound)
    requires Grown(elect, elect') && bound <= bound'
    ensures t in elect' && k <= |elect'[t].log| && Displaced(elect', t, k, bound')
  {
  }

  lemma HeldGrows(elect: Elections, elect': Elections, t: Term, k: nat, log: Log, log': Log, bound: Term, bound': Term)
    requires Held(elect, t, k, log, bound)
    requires Grown(elect, elect') && log <= log' && bound <= bound'
    ensures Held(elect', t, k, log', bound')
  {
    forall j | 0 <= j <= k ensures HeldAt(elect', t, j, log', bound') {
      assert HeldAt(elect, t, j, log, bound);
      assert elect'[t].log[..j] == elect[t].log[..j];
      if !(elect[t].log[..j] <= log) {
        DisplacedGrows(elect, elect', t, j, bound, bound');
      }
    }
  }

  lemma CommittedGrows(ids: set<NodeId>, h: History, h': History, s: Term, m: nat)
    requires Committed(ids, h, s, m) && HistoryGrows(h, h')
    ensures Committed(ids, h', s, m)
  {
    assert h'.elect[s].log[m - 1] == h.elect[s].log[m - 1];
    SubsetSize(Holders(ids, h.acks, s, m), Holders(ids, h'.acks, s, m));
  }

  lemma CertifiedGrows(ids: set<NodeId>, h: History, h': History, bound: Term, bound': Term, log: Log, log': Log,
                       k: nat)
    requires Certified(ids, h, bound, log, k) && HistoryGrows(h, h')
    requires bound <= bound' && log <= log'
    ensures Certified(ids, h', bound', log', k)
  {
    if k > 0 {
      var s: Term, m: nat :| s <= bound && Committed(ids, h, s, m) && k <= m && h.elect[s].log[..k] <= log;
      CommittedGrows(ids, h, h', s, m);
      assert h'.elect[s].log[..k] == h.elect[s].log[..k];
    }
  }

  lemma PromisedGrows(ids: set<NodeId>, h: History, h': History, bound: Term, k: nat)
    requires Promised(ids, h, bound, k) && HistoryGrows(h, h')
    ensures Promised(ids, h', bound, k)
  {
    if k > 0 {
      var s: Term, m: nat :| s <= bound && Committed(ids, h, s, m) && k <= m;
      CommittedGrows(ids, h, h', s, m);
    }
  }

  // ---------------------------------------------------------------- what one node's move leaves alone

  /** The history grows, and among acknowledgements only that of `v` in term `t` changes. */
  predicate OnlyAck(h: History, h': History, t: Term, v: NodeId) {
    && HistoryGrows(h, h')
    && forall b | b in h'.acks :: b == (t, v) || (b in h.acks && h'.acks[b] == h.acks[b])
  }

  lemma AcksFrame(nodes: map<NodeId, Node>, h: History, v: NodeId, n': Node, h': History, t: Term)
    requires AcksOK(nodes, h) && OnlyAck(h, h', t, v)
    requires v in nodes
    requires forall b | b in h'.acks && b.1 == v :: AckOK(nodes[v := n'], h'.elect, b.0, v, h'.acks[b])
    ensures AcksOK(nodes[v := n'], h')
  {
    forall b | b in h'.acks && b.1 != v ensures AckOK(nodes[v := n'], h'.elect, b.0, b.1, h'.acks[b]) {
      var u := b.1;
      assert AckOK(nodes, h.elect, b.0, u, h.acks[b]);
      HeldGrows(h.elect, h'.elect, b.0, h.acks[b], nodes[u].log, nodes[u].log, nodes[u].currentTerm,
                nodes[u].currentTerm);
    }
  }

  lemma VoteHoldsFrame(h: History, h': History, t: Term, v: NodeId, x: Vote, s: Term, u: NodeId)
    requires VoteHolds(h, t, v, x) && OnlyAck(h, h', s, u)
    requires v != u || t <= s
    ensures VoteHolds(h', t, v, x)
  {
    if !x.late {
      forall r: Term | r < t && (r, v) in h'.acks ensures Held(h'.elect, r, h'.acks[(r, v)], x.log, t - 1) {
        assert (r, v) in h.acks && h'.acks[(r, v)] == h.acks[(r, v)];
        HeldGrows(h.elect, h'.elect, r, h.acks[(r, v)], x.log, x.log, t - 1, t - 1);
      }
    }
  }

  lemma VotesHoldFrame(nodes: map<NodeId, Node>, h: History, v: NodeId, h': History)
    requires VotesHold(h) && VotesOK(nodes, h)
    requires v in nodes && OnlyAck(h, h', nodes[v].currentTerm, v) && Extends(h, h', v)
    requires forall b | b in h'.votes && b !in h.votes :: VoteHolds(h', b.0, b.1, h'.votes[b])
    ensures VotesHold(h')
  {
    forall b | b in h.votes ensures VoteHolds(h', b.0, b.1, h'.votes[b]) {
      assert VoteOK(nodes, h.elect, b.0, b.1, h.votes[b]);
      assert VoteHolds(h, b.0, b.1, h.votes[b]);
      VoteHoldsFrame(h, h', b.0, b.1, h.votes[b], nodes[v].currentTerm, v);
    }
  }

  lemma NodeCommitsFrame(ids: set<NodeId>, nodes: map<NodeId, Node>, h: History, v: NodeId, n': Node, h': History)
    requires NodeCommitsOK(ids, nodes, h) && HistoryGrows(h, h')
    requires NodeCommitOK(ids, n', h')
    ensures NodeCommitsOK(ids, nodes[v := n'], h')
  {
    forall u | u in nodes && u != v ensures NodeCommitOK(ids, nodes[u], h') {
      assert NodeCommitOK(ids, nodes[u], h);
      CertifiedGrows(ids, h, h', nodes[u].currentTerm, nodes[u].currentTerm, nodes[u].log, nodes[u].log,
                     nodes[u].commitIndex);
    }
  }

  lemma CommitNetFrame(ids: set<NodeId>, h: History, h': History, net: set<Message>)
    requires CommitNetOK(ids, h, net) && HistoryGrows(h, h')
    ensures CommitNetOK(ids, h', net)
  {
    forall m | m in net ensures CommitMessageOK(ids, h', m) {
      assert CommitMessageOK(ids, h, m);
      if m.AppendAsk? {
        PromisedGrows(ids, h, h', m.append.term, m.append.leaderCommit);
      }
    }
  }

  lemma CommitMove(c: Cluster, v: NodeId, n': Node, h': History)
    requires VotesOK(c.nodes, c.hist) && CommitInv(c)
    requires v in c.nodes && OnlyAck(c.hist, h', c.nodes[v].currentTerm, v) && Extends(c.hist, h', v)
    requires forall b | b in h'.acks && b.1 == v :: AckOK(c.nodes[v := n'], h'.elect, b.0, v, h'.acks[b])
    requires OwnAcksOK(h')
    requires forall b | b in h'.votes && b !in c.hist.votes :: VoteHolds(h', b.0, b.1, h'.votes[b])
    requires NodeCommitOK(c.ids, n', h')
    ensures CommitInv(With(c, v, n').(hist := h'))
  {
    AcksFrame(c.nodes, c.hist, v, n', h', c.nodes[v].currentTerm);
    VotesHoldFrame(c.nodes, c.hist, v, h');
    NodeCommitsFrame(c.ids, c.nodes, c.hist, v, n', h');
    CommitNetFrame(c.ids, c.hist, h', c.net);
  }

  // ---------------------------------------------------------------- moves

  lemma CommitSent(c: Cluster, m: Message)
    requires CommitInv(c) && CommitMessageOK(c.ids, c.hist, m)
    ensures CommitInv(Sent(c, m))
  {
  }

  /** A node whose log only gets longer and whose term only grows keeps its acknowledgements. */
  lemma AcksOfGrowing(c: Cluster, v: NodeId, n': Node, h': History)
    requires AcksOK(c.nodes, c.hist) && v in c.nodes
    requires OnlyAck(c.hist, h', c.nodes[v].currentTerm, v)
    requires c.nodes[v].log <= n'.log && c.nodes[v].currentTerm <= n'.currentTerm
    ensures forall b | b in h'.acks && b.1 == v && b in c.hist.acks && h'.acks[b] == c.hist.acks[b] ::
              AckOK(c.nodes[v := n'], h'.elect, b.0, v, h'.acks[b])
  {
    var n := c.nodes[v];
    forall b | b in h'.acks && b.1 == v && b in c.hist.acks && h'.acks[b] == c.hist.acks[b]
      ensures AckOK(c.nodes[v := n'], h'.elect, b.0, v, h'.acks[b])
    {
      assert AckOK(c.nodes, c.hist.elect, b.0, v, c.hist.acks[b]);
      HeldGrows(c.hist.elect, h'.elect, b.0, c.hist.acks[b], n.log, n'.log, n.currentTerm, n'.currentTerm);
    }
  }

  /** Moves that touch no log and no acknowledgement. */
  lemma CommitQuiet(c: Cluster, v: NodeId, n': Node)
    requires VotesOK(c.nodes, c.hist) && CommitInv(c)
    requires v in c.nodes && n'.log == c.nodes[v].log && n'.currentTerm >= c.nodes[v].currentTerm
    requires MatchOK(n', c.hist.acks) && Certified(c.ids, c.hist, n'.currentTerm, n'.log, n'.commitIndex)
    ensures CommitInv(With(c, v, n'))
  {
    AcksOfGrowing(c, v, n', c.hist);
    CommitMove(c, v, n', c.hist);
  }

  lemma CommitLowered(c: Cluster, v: NodeId, t: Term, hint: Option<NodeId>)
    requires VotesOK(c.nodes, c.hist) && CommitInv(c)
    requires v in c.nodes && t >= c.nodes[v].currentTerm
    ensures CommitInv(Lowered(c, v, t, hint))
  {
    var n, n' := c.nodes[v], Lowered(c, v, t, hint).nodes[v];
    assert NodeCommitOK(c.ids, n, c.hist);
    CertifiedGrows(c.ids, c.hist, c.hist, n.currentTerm, t, n.log, n.log, n.commitIndex);
    CommitQuiet(c, v, n');
  }

  /** A vote just cast records the voter's present log, which holds what the voter has accepted. */
  lemma CommitVoted(c: Cluster, v: NodeId, n': Node, candidate: NodeId)
    requires VotesOK(c.nodes, c.hist) && CommitInv(c)
    requires v in c.nodes && n'.log == c.nodes[v].log && n'.commitIndex == c.nodes[v].commitIndex
    requires n'.currentTerm >= c.nodes[v].currentTerm && MatchOK(n', c.hist.acks)
    ensures CommitInv(With(c, v, n').(hist := RecordVote(c.hist, n'.currentTerm, v, candidate, n'.log)))
  {
    var n, h := c.nodes[v], c.hist;
    var t, h' := n'.currentTerm, RecordVote(c.hist, n'.currentTerm, v, candidate, n'.log);
    assert NodeCommitOK(c.ids, n, h);
    CertifiedGrows(c.ids, h, h', n.currentTerm, t, n.log, n.log, n.commitIndex);
    if (t, v) !in h.votes {
      if t !in h.elect {
        forall s: Term | s < t && (s, v) in h.acks ensures Held(h.elect, s, h.acks[(s, v)], n.log, t - 1) {
          assert AckOK(c.nodes, h.elect, s, v, h.acks[(s, v)]);
          HeldBefore(h.elect, s, h.acks[(s, v)], n.log, n.currentTerm, t);
        }
      }
      assert VoteHolds(h', t, v, h'.votes[(t, v)]);
    }
    AcksOfGrowing(c, v, n', h');
    CommitMove(c, v, n', h');
  }

  /** If term `t` has no leader yet, whoever displaced something did so before `t`. */
  lemma HeldBefore(elect: Elections, s: Term, k: nat, log: Log, bound: Term, t: Term)
    requires Held(elect, s, k, log, bound) && bound <= t && t !in elect && s < t
    ensures Held(elect, s, k, log, t - 1)
  {
    var before := t - 1;
    forall j | 0 <= j <= k ensures HeldAt(elect, s, j, log, before) {
      assert HeldAt(elect, s, j, log, bound);
    }
  }

  /** A leader's log grows by entries of its own term, all of which it holds itself. */
  lemma CommitLed(c: Cluster, v: NodeId, n': Node, h': History)
    requires VotesOK(c.nodes, c.hist) && CommitInv(c)
    requires v in c.nodes && n'.currentTerm == c.nodes[v].currentTerm && n'.commitIndex == c.nodes[v].commitIndex
    requires c.nodes[v].log <= n'.log && MatchOK(n', h'.acks)
    requires OnlyAck(c.hist, h', n'.currentTerm, v) && h'.votes == c.hist.votes && Extends(c.hist, h', v)
    requires OwnAcksOK(h')
    requires n'.currentTerm in h'.elect && h'.elect[n'.currentTerm].leader == v
             && h'.elect[n'.currentTerm].log == n'.log
    ensures CommitInv(With(c, v, n').(hist := h'))
  {
    var n, t := c.nodes[v], n'.currentTerm;
    assert NodeCommitOK(c.ids, n, c.hist);
    CertifiedGrows(c.ids, c.hist, h', t, t, n.log, n'.log, n.commitIndex);
    AcksOfGrowing(c, v, n', h');
    assert AckOK(c.nodes[v := n'], h'.elect, t, v, h'.acks[(t, v)]) by {
      forall j | 0 <= j <= |n'.log| ensures HeldAt(h'.elect, t, j, n'.log, t) {
      }
    }
    CommitMove(c, v, n', h');
  }

  /** Taking over `a` up to `k` loses no entries that `a` has. */
  lemma PrefixSurvives(a: Log, k: nat, log: Log, x: Log)
    requires k <= |a| && x <= log && x <= a
    ensures x <= if a[..k] <= log then log else a[..k]
  {
  }

  lemma HeldAfterMerge(elect: Elections, s: Term, j: nat, log: Log, t: Term, k: nat)
    requires LeaderLogsOK(elect) && t in elect && k <= |elect[t].log|
    requires s <= t && Held(elect, s, j, log, t)
    ensures
      var a := elect[t].log[..k];
      Held(elect, s, j, if a <= log then log else a, t)
  {
    var a := elect[t].log;
    var log' := if a[..k] <= log then log else a[..k];
    assert LeaderLogOK(elect, t, elect[t]);
    forall i | 0 <= i <= j ensures HeldAt(elect, s, i, log', t) {
      assert HeldAt(elect, s, i, log, t);
      var x := elect[s].log[..i];
      if x <= log {
        if s == t || x <= elect[t].base {
          PrefixSurvives(a, k, log, x);
        }
      }
    }
  }

  /** What is committed, in any node's view of a term up to `t`, is in the log of the leader of `t`. */
  lemma CertifiedInLeader(ids: set<NodeId>, nodes: map<NodeId, Node>, h: History, log: Log, t: Term, commit: nat)
    requires LeaderLogsOK(h.elect) && VoteLogsOK(h.votes, h.elect)
    requires ElectionsOK(ids, nodes, h) && VotesHold(h)
    requires t in h.elect && Certified(ids, h, t, log, commit)
    ensures log[..commit] <= h.elect[t].log
  {
    if commit > 0 {
      var s: Term, m: nat :| s <= t && Committed(ids, h, s, m) && commit <= m && h.elect[s].log[..commit] <= log;
      CommittedInLog(ids, nodes, h, s, m, t);
      assert log[..commit] == h.elect[s].log[..commit] <= h.elect[s].log[..m];
    }
  }

  /** What is certified up to a term is in what every leader of a later term started with. */
  lemma CommonPrefix(x: Log, m: nat, base: Log, log: Log, commit: nat)
    requires commit <= m <= |x| && x[..m] <= base && x[..commit] <= log
    ensures commit <= |log| && log[..commit] <= base
  {
    assert x[..m][..commit] == x[..commit];
  }

  lemma CertifiedInBase(ids: set<NodeId>, nodes: map<NodeId, Node>, h: History, log: Log, bound: Term, t: Term,
                        commit: nat)
    requires LeaderLogsOK(h.elect) && VoteLogsOK(h.votes, h.elect)
    requires ElectionsOK(ids, nodes, h) && VotesHold(h)
    requires t in h.elect && bound < t && Certified(ids, h, bound, log, commit)
    ensures log[..commit] <= h.elect[t].base
  {
    if commit > 0 {
      var s: Term, m: nat :| s <= bound && Committed(ids, h, s, m) && commit <= m && h.elect[s].log[..commit] <= log;
      LeaderCompleteness(ids, nodes, h, s, m, t);
      CommonPrefix(h.elect[s].log, m, h.elect[t].base, log, commit);
    }
  }

  lemma CertifiedAfterMerge(ids: set<NodeId>, nodes: map<NodeId, Node>, h: History, log: Log, t: Term, k: nat,
                            commit: nat)
    requires LeaderLogsOK(h.elect) && VoteLogsOK(h.votes, h.elect)
    requires ElectionsOK(ids, nodes, h) && VotesHold(h)
    requires t in h.elect && k <= |h.elect[t].log|
    requires Certified(ids, h, t, log, commit)
    ensures
      var a := h.elect[t].log[..k];
      var log' := if a <= log then log else a;
      log[..commit] <= log' && Certified(ids, h, t, log', commit)
  {
    var a := h.elect[t].log;
    var log' := if a[..k] <= log then log else a[..k];
    CertifiedInLeader(ids, nodes, h, log, t, commit);
    PrefixSurvives(a, k, log, log[..commit]);
    if commit > 0 {
      var s: Term, m: nat :| s <= t && Committed(ids, h, s, m) && commit <= m && h.elect[s].log[..commit] <= log;
      assert h.elect[s].log[..commit] == log[..commit];
    }
  }

  lemma AckAfterMerge(elect: Elections, t: Term, k: nat, log: Log, k0: nat)
    requires t in elect && k <= |elect[t].log|
    requires Held(elect, t, k0, log, t)
    ensures
      var a := elect[t].log[..k];
      Held(elect, t, Max(k0, k), if a <= log then log else a, t)
  {
    var a := elect[t].log;
    var log' := if a[..k] <= log then log else a[..k];
    assert a[..k0] <= log by {
      assert HeldAt(elect, t, k0, log, t);
    }
    PrefixSurvives(a, k, log, a[..k0]);
    forall j | 0 <= j <= Max(k0, k) ensures HeldAt(elect, t, j, log', t) {
      if j <= k0 {
        assert a[..j] <= a[..k0];
      } else {
        assert a[..j] <= a[..k];
      }
    }
  }

  lemma AcksAfterMerge(nodes: map<NodeId, Node>, h: History, v: NodeId, n': Node, k: nat)
    requires LeaderLogsOK(h.elect) && AcksOK(nodes, h)
    requires v in nodes && n'.currentTerm == nodes[v].currentTerm
    requires n'.currentTerm in h.elect && k <= |h.elect[n'.currentTerm].log|
    requires
      var a := h.elect[n'.currentTerm].log[..k];
      n'.log == if a <= nodes[v].log then nodes[v].log else a
    ensures
      var h' := RecordAck(h, n'.currentTerm, v, k);
      forall b | b in h'.acks && b.1 == v :: AckOK(nodes[v := n'], h'.elect, b.0, v, h'.acks[b])
  {
    var log, t := nodes[v].log, n'.currentTerm;
    var h' := RecordAck(h, t, v, k);
    var k0 := if (t, v) in h.acks then h.acks[(t, v)] else 0;
    assert Held(h.elect, t, k0, log, t) by {
      if (t, v) in h.acks {
        assert AckOK(nodes, h.elect, t, v, k0);
      } else {
        assert HeldAt(h.elect, t, 0, log, t);
      }
    }
    AckAfterMerge(h.elect, t, k, log, k0);
    forall b | b in h'.acks && b.1 == v ensures AckOK(nodes[v := n'], h'.elect, b.0, v, h'.acks[b]) {
      if b != (t, v) {
        assert AckOK(nodes, h.elect, b.0, v, h.acks[b]);
        HeldAfterMerge(h.elect, b.0, h.acks[b], log, t, k);
      }
    }
  }

  /** A follower that takes over a batch of its term's leader. */
  lemma CommitMerged(c: Cluster, v: NodeId, req: AppendRequest)
    requires VotesOK(c.nodes, c.hist) && ElectionsOK(c.ids, c.nodes, c.hist)
    requires LogInv(c) && CommitInv(c)
    requires v in c.nodes && c.nodes[v].role.Follower? && c.nodes[v].currentTerm == req.term
    requires BatchOK(c.hist.elect, req) && PrevMatches(c.nodes[v].log, req)
    ensures CommitInv(Merged(c, v, req.entries, BatchEnd(req)))
    ensures c.nodes[v].log[..c.nodes[v].commitIndex] <= Merge(c.nodes[v].log, req.entries)
  {
    var n, h, t, k := c.nodes[v], c.hist, req.term, BatchEnd(req);
    var c' := Merged(c, v, req.entries, k);
    assert NodeLogOK(n, h.elect) && NodeCommitOK(c.ids, n, h);
    AcceptedLog(h.elect, n.log, req);
    if t in h.elect {
      CertifiedAfterMerge(c.ids, c.nodes, h, n.log, t, k, n.commitIndex);
      MergedMove(c, v, c'.nodes[v], k);
    } else {
      CommitQuiet(c, v, c'.nodes[v]);
    }
  }

  /** What an acknowledgement changes. */
  lemma AckRecorded(h: History, t: Term, v: NodeId, k: nat)
    requires t in h.elect
    ensures
      var h' := RecordAck(h, t, v, k);
      h'.elect == h.elect && h'.votes == h.votes && OnlyAck(h, h', t, v) && Extends(h, h', v)
  {
  }

  lemma MergedMove(c: Cluster, v: NodeId, n': Node, k: nat)
    requires VotesOK(c.nodes, c.hist) && LeaderLogsOK(c.hist.elect) && CommitInv(c)
    requires v in c.nodes && n'.role.Follower? && n'.currentTerm == c.nodes[v].currentTerm
    requires n'.currentTerm in c.hist.elect && k <= |c.hist.elect[n'.currentTerm].log|
    requires
      var a := c.hist.elect[n'.currentTerm].log[..k];
      n'.log == if a <= c.nodes[v].log then c.nodes[v].log else a
    requires Certified(c.ids, c.hist, n'.currentTerm, n'.log, n'.commitIndex)
    ensures CommitInv(With(c, v, n').(hist := RecordAck(c.hist, n'.currentTerm, v, k)))
  {
    var t, h := n'.currentTerm, c.hist;
    var h' := RecordAck(h, t, v, k);
    AckRecorded(h, t, v, k);
    AcksAfterMerge(c.nodes, h, v, n', k);
    OwnAcksAfterMerge(h, t, v, k);
    CertifiedGrows(c.ids, h, h', t, t, n'.log, n'.log, n'.commitIndex);
    CommitMove(c, v, n', h');
  }

  lemma OwnAcksAfterMerge(h: History, t: Term, v: NodeId, k: nat)
    requires OwnAcksOK(h) && t in h.elect && k <= |h.elect[t].log|
    ensures OwnAcksOK(RecordAck(h, t, v, k))
  {
  }

  /** A follower may commit what its leader has committed, as far as the accepted batch vouches for it. */
  lemma SharedPrefix(x: Log, m: nat, a: Log, k: nat, log: Log, commit: nat)
    requires commit <= m <= |x| && commit <= k <= |a| && x[..m] <= a && a[..k] <= log
    ensures x[..commit] <= log
  {
    assert x[..m][..commit] == x[..commit] && a[..k][..commit] == a[..commit];
  }

  lemma CertifiedByLeader(ids: set<NodeId>, nodes: map<NodeId, Node>, h: History, log: Log, t: Term, k: nat,
                          commit: nat)
    requires LeaderLogsOK(h.elect) && VoteLogsOK(h.votes, h.elect)
    requires ElectionsOK(ids, nodes, h) && VotesHold(h)
    requires t in h.elect && k <= |h.elect[t].log| && h.elect[t].log[..k] <= log
    requires Promised(ids, h, t, commit) && commit <= k
    ensures Certified(ids, h, t, log, commit)
  {
    if commit > 0 {
      var s: Term, m: nat :| s <= t && Committed(ids, h, s, m) && commit <= m;
      var a := h.elect[t].log;
      CommittedInLog(ids, nodes, h, s, m, t);
      SharedPrefix(h.elect[s].log, m, a, k, log, commit);
    }
  }

  lemma CommittedInLog(ids: set<NodeId>, nodes: map<NodeId, Node>, h: History, s: Term, m: nat, t: Term)
    requires LeaderLogsOK(h.elect) && VoteLogsOK(h.votes, h.elect)
    requires ElectionsOK(ids, nodes, h) && VotesHold(h)
    requires Committed(ids, h, s, m) && s <= t && t in h.elect
    ensures h.elect[s].log[..m] <= h.elect[t].log
  {
    if s < t {
      LeaderCompleteness(ids, nodes, h, s, m, t);
      assert LeaderLogOK(h.elect, t, h.elect[t]);
    }
  }

  /** What the leader picks is held by a majority. */
  lemma CertifiedByQuorum(c: Cluster, v: NodeId)
    requires WellFormed(c.ids, c.nodes) && OwnAcksOK(c.hist) && NodeCommitsOK(c.ids, c.nodes, c.hist)
    requires v in c.nodes && c.nodes[v].role.Leader?
    requires LeaderOK(v, c.nodes[v], c.hist.elect) && NodeLogOK(c.nodes[v], c.hist.elect)
    requires
      var n := c.nodes[v];
      var k := QuorumIndex(n);
      EntryAt(n.log, k).Some? && EntryAt(n.log, k).value.term == n.currentTerm
    ensures Certified(c.ids, c.hist, c.nodes[v].currentTerm, c.nodes[v].log, QuorumIndex(c.nodes[v]))
  {
    var n, h := c.nodes[v], c.hist;
    var t, k := n.currentTerm, QuorumIndex(n);
    LeaderQuorum(c.ids, v, n, k);
    KnownAreHolders(c, v, k);
    SubsetSize(KnownHolders(n, k), Holders(c.ids, h.acks, t, k));
    assert Committed(c.ids, h, t, k);
  }

  lemma LeaderQuorum(ids: set<NodeId>, v: NodeId, n: Node, k: nat)
    requires v in ids && ConfigFits(ids, v, n.config) && n.role.Leader? && TracksPeers(n) && k == QuorumIndex(n)
    ensures |KnownHolders(n, k)| >= Majority(|ids|)
  {
    assert v !in Members(n.config.peers);
    QuorumIsMajority(ids, v, n.config);
    QuorumIndexIsLargest(n, k);
  }

  lemma KnownAreHolders(c: Cluster, v: NodeId, k: nat)
    requires WellFormed(c.ids, c.nodes) && OwnAcksOK(c.hist) && NodeCommitsOK(c.ids, c.nodes, c.hist)
    requires v in c.nodes && c.nodes[v].role.Leader? && 0 < k <= |c.nodes[v].log|
    requires c.nodes[v].currentTerm in c.hist.elect
    requires c.hist.elect[c.nodes[v].currentTerm].leader == v
             && c.hist.elect[c.nodes[v].currentTerm].log == c.nodes[v].log
    ensures KnownHolders(c.nodes[v], k) <= Holders(c.ids, c.hist.acks, c.nodes[v].currentTerm, k)
  {
  }
}
