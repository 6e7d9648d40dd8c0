/** Log Matching: every log is, entry by entry, a copy of the log of the leader that wrote the entry. */
module RaftLogs {
  import opened RaftTypes
  import opened RaftHandlers
  import opened RaftCluster
  import opened RaftMoves
  import opened RaftElection

  type Elections = map<Term, Election>

  // ---------------------------------------------------------------- backed logs

  /** Up to its entry `i`, the log is that of the leader of the entry's term. */
  predicate BackedAt(elect: Elections, log: Log, i: nat)
    requires i < |log|
  {
    && log[i].term in elect
    && i < |elect[log[i].term].log|
    && log[..i + 1] == elect[log[i].term].log[..i + 1]
  }

  predicate Backed(elect: Elections, log: Log) {
    forall i | 0 <= i < |log| :: BackedAt(elect, log, i)
  }

  predicate Indexed(log: Log) {
    forall i | 0 <= i < |log| :: log[i].index == i + 1
  }

  /** A leader's log is the log it was elected with, followed by entries of its own term. */
  predicate LeaderLogOK(elect: Elections, t: Term, e: Election) {
    && t >= 1
    && e.base <= e.log && |e.base| < |e.log|
    && TermBelow(e.base, t)
    && (forall i | |e.base| <= i < |e.log| :: e.log[i].term == t)
    && Indexed(e.log)
    && Backed(elect, e.base)
  }

  predicate LeaderLogsOK(elect: Elections) {
    forall t | t in elect :: LeaderLogOK(elect, t, elect[t])
  }

  /** Two logs that have entries of one term at one position agree up to there. */
  predicate Matching(a: Log, b: Log) {
    forall i | 0 <= i < |a| && i < |b| && a[i].term == b[i].term :: a[..i + 1] == b[..i + 1]
  }

  lemma BackedMatch(elect: Elections, a: Log, b: Log)
    requires Backed(elect, a) && Backed(elect, b)
    ensures Matching(a, b)
  {
    forall i | 0 <= i < |a| && i < |b| && a[i].term == b[i].term ensures a[..i + 1] == b[..i + 1] {
      assert BackedAt(elect, a, i) && BackedAt(elect, b, i);
    }
  }

  lemma BackedEntry(elect: Elections, log: Log, i: nat)
    requires LeaderLogsOK(elect) && Backed(elect, log) && i < |log|
    ensures log[i].index == i + 1 && log[i].term >= 1
    ensures forall j | 0 <= j <= i :: log[j].term <= log[i].term
  {
    assert BackedAt(elect, log, i);
    var t := log[i].term;
    var e := elect[t];
    assert LeaderLogOK(elect, t, e);
    assert log[i] == log[..i + 1][i];
    forall j | 0 <= j <= i ensures log[j].term <= t {
      assert log[j] == log[..i + 1][j] == e.log[j];
      if j < |e.base| {
        assert e.log[j] == e.base[j];
      }
    }
  }

  lemma BackedShape(elect: Elections, log: Log)
    requires LeaderLogsOK(elect) && Backed(elect, log)
    ensures Indexed(log) && LastIndex(log) == |log|
    ensures forall i | 0 <= i < |log| :: log[i].term >= 1
    ensures forall i, j | 0 <= i <= j < |log| :: log[i].term <= log[j].term
  {
    forall i | 0 <= i < |log|
      ensures log[i].index == i + 1 && log[i].term >= 1
      ensures forall j | 0 <= j <= i :: log[j].term <= log[i].term
    {
      BackedEntry(elect, log, i);
    }
  }

  lemma BackedPrefix(elect: Elections, log: Log, k: nat)
    requires Backed(elect, log) && k <= |log|
    ensures Backed(elect, log[..k])
  {
    forall i | 0 <= i < k ensures BackedAt(elect, log[..k], i) {
      assert BackedAt(elect, log, i);
      assert log[..k][..i + 1] == log[..i + 1];
    }
  }

  /** A leader's own log is backed too: by itself from its base on. */
  lemma LeaderLogBacked(elect: Elections, t: Term)
    requires LeaderLogsOK(elect) && t in elect
    ensures Backed(elect, elect[t].log)
  {
    var e := elect[t];
    assert LeaderLogOK(elect, t, e);
    forall i | 0 <= i < |e.log| ensures BackedAt(elect, e.log, i) {
      if i < |e.base| {
        assert BackedAt(elect, e.base, i);
        assert e.log[..i + 1] == e.base[..i + 1];
      }
    }
  }

  // ---------------------------------------------------------------- elections grow

  /** Elections are added and leader logs extended; nothing recorded changes. */
  predicate Grown(elect: Elections, elect': Elections) {
    forall t | t in elect :: t in elect' && SameElection(elect[t], elect'[t]) && elect[t].log <= elect'[t].log
  }

  lemma BackedGrows(elect: Elections, elect': Elections, log: Log)
    requires Backed(elect, log) && Grown(elect, elect')
    ensures Backed(elect', log)
  {
    forall i | 0 <= i < |log| ensures BackedAt(elect', log, i) {
      assert BackedAt(elect, log, i);
      var t := log[i].term;
      assert elect'[t].log[..i + 1] == elect[t].log[..i + 1];
    }
  }

  // ---------------------------------------------------------------- merging a batch

  /** Merging a piece of `a` into a log that matches `a` leaves the log alone when it already holds
      the piece, and otherwise turns it into `a` up to the end of the piece. */
  lemma {:induction false} MergeBatch(a: Log, log: Log, p: nat, m: nat)
    requires Indexed(a) && Matching(a, log)
    requires p <= m <= |a| && a[..p] <= log
    ensures Merge(log, a[p..m]) == if a[..m] <= log then log else a[..m]
    decreases m - p
  {
    if p < m {
      var e, rest := a[p], a[p + 1..m];
      assert a[p..m][0] == e && a[p..m][1..] == rest;
      var log' := MergeEntry(log, e);
      if p < |log| && log[p].term == e.term {
        assert log[..p + 1] == a[..p + 1];
        MergeBatch(a, log, p + 1, m);
      } else {
        assert log[..p] == a[..p];
        assert log' == a[..p + 1];
        assert Matching(a, log');
        assert !(a[..m] <= log) by {
          if p < |log| {
            assert a[..m][p] != log[p];
          }
        }
        MergeBatch(a, log', p + 1, m);
      }
    }
  }

  // ---------------------------------------------------------------- requests

  /** The request carries a piece of `a`, with the term of the entry before it. */
  predicate IsBatch(a: Log, req: AppendRequest) {
    && BatchEnd(req) <= |a|
    && req.entries == a[req.prevLogIndex..BatchEnd(req)]
    && (req.prevLogIndex > 0 ==> req.prevLogTerm == a[req.prevLogIndex - 1].term)
  }

  /** A request is a piece of its term's leader log, or an empty one that is either trivially accepted
      (index 0) or always rejected (term 0 at a later index). */
  predicate BatchOK(elect: Elections, req: AppendRequest) {
    || (req.entries == [] && req.prevLogIndex == 0)
    || (req.entries == [] && req.prevLogTerm == 0)
    || (req.term in elect && IsBatch(elect[req.term].log, req))
  }

  lemma {:induction false} EntriesFromTail(log: Log, k: nat, next: Pos)
    requires forall i | 0 <= i < |log| :: log[i].index == k + i + 1
    ensures EntriesFrom(log, next) ==
            if next <= k then log else if next - 1 - k <= |log| then log[next - 1 - k..] else []
  {
    if log != [] {
      var rest := log[1..];
      forall i | 0 <= i < |rest| ensures rest[i].index == k + 1 + i + 1 {
        assert rest[i] == log[i + 1];
      }
      EntriesFromTail(rest, k + 1, next);
      if next <= k + 1 {
        assert log[0].index >= next && log == [log[0]] + rest && log[0..] == log;
      } else if next - 1 - k <= |log| {
        assert log[0].index < next && log[next - 1 - k..] == rest[next - 2 - k..];
      }
    }
  }

  /** The entries a leader sends are the piece of its log from `next` on, as long as the batch allows. */
  lemma BatchIsSlice(log: Log, next: Pos, max: nat)
    requires Indexed(log)
    ensures
      var b := TakeUpTo(EntriesFrom(log, next), max);
      && (next - 1 <= |log| ==> next - 1 + |b| <= |log| && b == log[next - 1..next - 1 + |b|])
      && (next - 1 > |log| ==> b == [])
      && (next - 1 <= |log| ==> |b| == Min(max, |log| - (next - 1)))
  {
    EntriesFromTail(log, 0, next);
    SliceOf(log, next, max, EntriesFrom(log, next));
  }

  lemma SliceOf(log: Log, next: Pos, max: nat, all: seq<LogEntry>)
    requires all == if next - 1 <= |log| then log[next - 1..] else []
    ensures
      var b := TakeUpTo(all, max);
      && (next - 1 <= |log| ==> next - 1 + |b| <= |log| && b == log[next - 1..next - 1 + |b|])
      && (next - 1 > |log| ==> b == [])
      && (next - 1 <= |log| ==> |b| == Min(max, |log| - (next - 1)))
  {
    if next - 1 <= |log| {
      TakenSlice(log, next - 1, max);
    }
  }

  lemma TakenSlice(log: Log, k: nat, max: nat)
    requires k <= |log|
    ensures
      var b := TakeUpTo(log[k..], max);
      k + |b| <= |log| && b == log[k..k + |b|] && |b| == Min(max, |log| - k)
  {
  }

  /** The next index `l` keeps for `p`. */
  function NextFor(l: Node, p: NodeId): Pos
    requires l.role.Leader?
  {
    if p in l.role.nextIndex then l.role.nextIndex[p] else 1
  }

  /** What the leader's request holds. */
  lemma RequestFields(l: Node, p: NodeId)
    requires l.role.Leader?
    ensures
      var req, next := BuildAppendRequest(l, p), NextFor(l, p);
      && req.term == l.currentTerm && req.prevLogIndex == next - 1
      && req.prevLogTerm == (match EntryAt(l.log, next - 1) case None => 0 case Some(e) => e.term)
      && req.entries == TakeUpTo(EntriesFrom(l.log, next), l.config.maxEntries)
  {
  }

  lemma BatchOfSlice(log: Log, next: Pos, req: AppendRequest)
    requires req.prevLogIndex == next - 1
    requires req.prevLogTerm == match EntryAt(log, next - 1) case None => 0 case Some(e) => e.term
    requires next - 1 <= |log| ==>
               next - 1 + |req.entries| <= |log| && req.entries == log[next - 1..next - 1 + |req.entries|]
    ensures next - 1 <= |log| ==> IsBatch(log, req)
    ensures next - 1 > |log| ==> req.prevLogTerm == 0
  {
  }

  lemma SliceRequest(log: Log, next: Pos, max: nat, all: seq<LogEntry>, req: AppendRequest)
    requires all == if next - 1 <= |log| then log[next - 1..] else []
    requires req.prevLogIndex == next - 1 && req.entries == TakeUpTo(all, max)
    requires req.prevLogTerm == match EntryAt(log, next - 1) case None => 0 case Some(e) => e.term
    ensures next - 1 <= |log| ==> IsBatch(log, req) && |req.entries| == Min(max, |log| - next + 1)
    ensures next - 1 > |log| ==> req.entries == [] && req.prevLogTerm == 0
  {
    if next - 1 <= |log| {
      TakenSlice(log, next - 1, max);
    }
    BatchOfSlice(log, next, req);
  }

  /** A leader's request is the piece of its log from the next index on, as long as the limit allows; an overrun next
      index gives an empty request that no log accepts. */
  lemma BuildsBatch(n: Node, peer: NodeId)
    requires n.role.Leader? && Indexed(n.log)
    ensures
      var req, next := BuildAppendRequest(n, peer), NextFor(n, peer);
      && req.term == n.currentTerm && req.prevLogIndex == next - 1
      && (next - 1 <= |n.log| ==> IsBatch(n.log, req) && |req.entries| == Min(n.config.maxEntries, |n.log| - next + 1))
      && (next - 1 > |n.log| ==> req.entries == [] && req.prevLogTerm == 0)
  {
    var next := NextFor(n, peer);
    RequestFields(n, peer);
    EntriesFromTail(n.log, 0, next);
    SliceRequest(n.log, next, n.config.maxEntries, EntriesFrom(n.log, next), BuildAppendRequest(n, peer));
  }

  // ---------------------------------------------------------------- the invariant

  predicate NodeLogOK(n: Node, elect: Elections) {
    && Backed(elect, n.log)
    && (n.role.Leader? ==> n.currentTerm in elect && elect[n.currentTerm].log == n.log)
  }

  predicate NodeLogsOK(nodes: map<NodeId, Node>, elect: Elections) {
    forall v | v in nodes :: NodeLogOK(nodes[v], elect)
  }

  predicate VoteLogsOK(votes: map<(Term, NodeId), Vote>, elect: Elections) {
    forall b | b in votes :: Backed(elect, votes[b].log)
  }

  predicate BatchesOK(net: set<Message>, elect: Elections) {
    forall m | m in net && (m.AppendAsk? || m.AppendReply?) :: BatchOK(elect, m.append)
  }

  predicate LogInv(c: Cluster) {
    && LeaderLogsOK(c.hist.elect)
    && NodeLogsOK(c.nodes, c.hist.elect)
    && VoteLogsOK(c.hist.votes, c.hist.elect)
    && BatchesOK(c.net, c.hist.elect)
  }

  // ---------------------------------------------------------------- moves

  /** A move that adds nothing to the leader logs. */
  lemma LogFrame(c: Cluster, v: NodeId, n': Node, h': History)
    requires LogInv(c)
    requires v in c.nodes && h'.elect == c.hist.elect && Extends(c.hist, h', v)
    requires NodeLogOK(n', c.hist.elect)
    requires forall b | b in h'.votes && b !in c.hist.votes :: h'.votes[b].log == c.nodes[v].log
    ensures LogInv(With(c, v, n').(hist := h'))
  {
  }

  lemma LogVoted(c: Cluster, v: NodeId, n': Node, t: Term, candidate: NodeId)
    requires LogInv(c)
    requires v in c.nodes && n'.log == c.nodes[v].log && !n'.role.Leader?
    ensures LogInv(With(c, v, n').(hist := RecordVote(c.hist, t, v, candidate, n'.log)))
  {
  }

  /** Growing the leader logs keeps everything that was backed. */
  lemma LogGrows(c: Cluster, v: NodeId, n': Node, h': History)
    requires LogInv(c)
    requires v in c.nodes && Grown(c.hist.elect, h'.elect) && h'.votes == c.hist.votes
    requires LeaderLogsOK(h'.elect)
    requires NodeLogOK(n', h'.elect)
    requires forall u | u in c.nodes && u != v && c.nodes[u].role.Leader? ::
               h'.elect[c.nodes[u].currentTerm] == c.hist.elect[c.nodes[u].currentTerm]
    ensures LogInv(With(c, v, n').(hist := h'))
  {
    forall u | u in c.nodes && u != v ensures NodeLogOK(c.nodes[u], h'.elect) {
      assert NodeLogOK(c.nodes[u], c.hist.elect);
      BackedGrows(c.hist.elect, h'.elect, c.nodes[u].log);
    }
    forall b | b in c.hist.votes ensures Backed(h'.elect, c.hist.votes[b].log) {
      BackedGrows(c.hist.elect, h'.elect, c.hist.votes[b].log);
    }
    forall m | m in c.net && (m.AppendAsk? || m.AppendReply?) ensures BatchOK(h'.elect, m.append) {
      assert BatchOK(c.hist.elect, m.append);
      BatchGrows(c.hist.elect, h'.elect, m.append);
    }
  }

  lemma BatchGrows(elect: Elections, elect': Elections, req: AppendRequest)
    requires BatchOK(elect, req) && Grown(elect, elect')
    ensures BatchOK(elect', req)
  {
  }

  lemma LogElected(c: Cluster, v: NodeId)
    requires LogInv(c)
    requires v in c.nodes && c.nodes[v].role.Candidate? && TermsOK(c.nodes[v])
    requires c.nodes[v].currentTerm !in c.hist.elect
    ensures LogInv(Elected(c, v))
  {
    var n, c' := c.nodes[v], Elected(c, v);
    assert NodeLogOK(n, c.hist.elect);
    ElectedLogs(c.hist.elect, c'.hist.elect, n.currentTerm, n.log, c'.nodes[v].log);
    forall u | u in c.nodes && u != v && c.nodes[u].role.Leader?
      ensures c'.hist.elect[c.nodes[u].currentTerm] == c.hist.elect[c.nodes[u].currentTerm]
    {
      assert NodeLogOK(c.nodes[u], c.hist.elect);
    }
    LogGrows(c, v, c'.nodes[v], c'.hist);
  }

  lemma ElectedLogs(elect: Elections, elect': Elections, t: Term, base: Log, log: Log)
    requires LeaderLogsOK(elect) && Backed(elect, base)
    requires t >= 1 && t !in elect && TermBelow(base, t)
    requires t in elect' && elect' == elect[t := elect'[t]] && elect'[t].base == base && elect'[t].log == log
    requires log == base + [LogEntry(t, LastIndex(base) + 1, NoOp, NoOpEntry)]
    ensures LeaderLogsOK(elect') && Grown(elect, elect') && Backed(elect', log)
  {
    BackedShape(elect, base);
    BackedGrows(elect, elect', base);
    LeaderLogsGrow(elect, elect', t);
    LeaderLogBacked(elect', t);
  }

  lemma LeaderLogsGrow(elect: Elections, elect': Elections, t: Term)
    requires LeaderLogsOK(elect) && Grown(elect, elect')
    requires forall s | s in elect' && s != t :: s in elect && elect'[s] == elect[s]
    requires t in elect' && LeaderLogOK(elect', t, elect'[t])
    ensures LeaderLogsOK(elect')
  {
    forall s | s in elect' && s != t ensures LeaderLogOK(elect', s, elect'[s]) {
      assert LeaderLogOK(elect, s, elect[s]);
      BackedGrows(elect, elect', elect[s].base);
    }
  }

  lemma LogAppended(c: Cluster, v: NodeId, commands: seq<Command>)
    requires LogInv(c)
    requires v in c.nodes && c.nodes[v].role.Leader?
    requires forall u | u in c.nodes && u != v && c.nodes[u].role.Leader? ::
             c.nodes[u].currentTerm != c.nodes[v].currentTerm
    ensures LogInv(Appended(c, v, commands))
  {
    var n, c' := c.nodes[v], Appended(c, v, commands);
    assert NodeLogOK(n, c.hist.elect);
    AppendedLogs(c.hist.elect, c'.hist.elect, n.currentTerm, commands);
    forall u | u in c.nodes && u != v && c.nodes[u].role.Leader?
      ensures c'.hist.elect[c.nodes[u].currentTerm] == c.hist.elect[c.nodes[u].currentTerm]
    {
      assert NodeLogOK(c.nodes[u], c.hist.elect);
    }
    LogGrows(c, v, c'.nodes[v], c'.hist);
  }

  lemma AppendedLogs(elect: Elections, elect': Elections, t: Term, commands: seq<Command>)
    requires LeaderLogsOK(elect) && t in elect
    requires
      var log := elect[t].log;
      elect' == elect[t := elect[t].(log := log + Proposed(t, LastIndex(log) + 1, commands))]
    ensures LeaderLogsOK(elect') && Grown(elect, elect') && Backed(elect', elect'[t].log)
  {
    assert LeaderLogOK(elect, t, elect[t]);
    LeaderLogBacked(elect, t);
    BackedShape(elect, elect[t].log);
    BackedGrows(elect, elect', elect[t].base);
    LeaderLogsGrow(elect, elect', t);
    LeaderLogBacked(elect', t);
  }

  /** What an accepted batch does to a follower's log. */
  lemma AcceptedLog(elect: Elections, log: Log, req: AppendRequest)
    requires LeaderLogsOK(elect) && Backed(elect, log) && BatchOK(elect, req)
    requires PrevMatches(log, req)
    ensures Backed(elect, Merge(log, req.entries))
    ensures BatchEnd(req) > 0 ==> req.term in elect && BatchEnd(req) <= |elect[req.term].log|
    ensures
      var merged := Merge(log, req.entries);
      BatchEnd(req) > 0 ==>
        var a := elect[req.term].log[..BatchEnd(req)];
        merged == if a <= log then log else a
    ensures BatchEnd(req) == 0 ==> Merge(log, req.entries) == log
  {
    BackedShape(elect, log);
    if req.term in elect && IsBatch(elect[req.term].log, req) {
      var a, p, m := elect[req.term].log, req.prevLogIndex, BatchEnd(req);
      LeaderLogBacked(elect, req.term);
      BackedShape(elect, a);
      BackedMatch(elect, a, log);
      assert a[..p] <= log by {
        if p > 0 {
          assert a[p - 1].term == log[p - 1].term;
          assert a[..p] == log[..p];
        }
      }
      MergeBatch(a, log, p, m);
      BackedPrefix(elect, a, m);
    }
  }

  lemma LogMerged(c: Cluster, v: NodeId, req: AppendRequest, k: nat)
    requires LogInv(c)
    requires v in c.nodes && BatchOK(c.hist.elect, req) && PrevMatches(c.nodes[v].log, req)
    requires !c.nodes[v].role.Leader?
    ensures LogInv(Merged(c, v, req.entries, k))
  {
    var c' := Merged(c, v, req.entries, k);
    assert NodeLogOK(c.nodes[v], c.hist.elect);
    AcceptedLog(c.hist.elect, c.nodes[v].log, req);
    LogFrame(c, v, c'.nodes[v], c'.hist);
  }
}
