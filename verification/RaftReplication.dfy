/** The replication handlers one call at a time: what an accepted batch does to a log, what repeating it
    does, where the code departs from Figure 2 of the Raft paper, and that catching up a follower ends. */
module RaftReplication {
  import opened Wrappers
  import opened RaftTypes
  import opened RaftHandlers
  import opened RaftCluster
  import opened RaftLogs
  import opened RaftSteps

  // ---------------------------------------------------------------- the shape of a merged log

  /** Entries numbered on from `p`. */
  predicate Consecutive(p: nat, es: seq<LogEntry>) {
    forall i | 0 <= i < |es| :: es[i].index == p + i + 1
  }

  /** Entry `i` of the batch is in the log, by index and term. */
  predicate Has(log: Log, p: nat, es: seq<LogEntry>, i: nat)
    requires i < |es|
  {
    p + i < |log| && log[p + i].term == es[i].term
  }

  /** The first entry of the batch from `k` on that the log does not have, or the batch's length. */
  function AgreeingFrom(log: Log, p: nat, es: seq<LogEntry>, k: nat): (x: nat)
    requires k <= |es|
    ensures k <= x <= |es|
    ensures forall i | k <= i < x :: Has(log, p, es, i)
    ensures x < |es| ==> !Has(log, p, es, x)
    decreases |es| - k
  {
    if k == |es| || !Has(log, p, es, k) then k else AgreeingFrom(log, p, es, k + 1)
  }

  /** How many entries of the batch the log already has. */
  function Agreeing(log: Log, p: nat, es: seq<LogEntry>): nat {
    AgreeingFrom(log, p, es, 0)
  }

  lemma {:induction false} MergeAppends(log: Log, es: seq<LogEntry>)
    requires Consecutive(|log|, es)
    ensures Merge(log, es) == log + es
    decreases |es|
  {
    if es != [] {
      MergeAppends(log + [es[0]], es[1..]);
      assert log + [es[0]] + es[1..] == log + es;
    } else {
      assert log + es == log;
    }
  }

  lemma ConsecutiveRest(p: nat, es: seq<LogEntry>)
    requires es != [] && Consecutive(p, es)
    ensures Consecutive(p + 1, es[1..])
  {
  }

  lemma Rejoin(a: Log, es: seq<LogEntry>)
    requires es != []
    ensures a + [es[0]] + es[1..] == a + es
  {
  }

  /** A conflicting or missing entry cuts the log there, and the rest of the batch follows. */
  lemma MergeCuts(log: Log, p: nat, es: seq<LogEntry>)
    requires es != [] && Consecutive(p, es) && p <= |log| && !Has(log, p, es, 0)
    ensures Merge(log, es) == log[..p] + es
  {
    CutAt(log, es[0]);
    ConsecutiveRest(p, es);
    MergeAppends(log[..p] + [es[0]], es[1..]);
    Rejoin(log[..p], es);
  }

  lemma CutAt(log: Log, e: LogEntry)
    requires e.index - 1 <= |log| && (e.index <= |log| ==> log[e.index - 1].term != e.term)
    ensures MergeEntry(log, e) == log[..e.index - 1] + [e]
  {
  }

  lemma {:induction false} MergeShapeFrom(log: Log, p: nat, es: seq<LogEntry>, k: nat)
    requires k <= |es| && p + k <= |log| && Consecutive(p, es)
    ensures
      var x := AgreeingFrom(log, p, es, k);
      p + x <= |log| && Merge(log, es[k..]) == if x == |es| then log else log[..p + x] + es[x..]
    decreases |es| - k
  {
    if k < |es| {
      var rest := es[k..];
      if Has(log, p, es, k) {
        assert MergeEntry(log, rest[0]) == log && rest[1..] == es[k + 1..];
        MergeShapeFrom(log, p, es, k + 1);
      } else {
        MergeCuts(log, p + k, rest);
      }
    }
  }

  /** The log up to the first conflict (or its end), followed by the rest of the batch; a log that has
      the whole batch is left as it is, whatever follows. */
  lemma MergeShape(log: Log, p: nat, es: seq<LogEntry>)
    requires p <= |log| && Consecutive(p, es)
    ensures
      var x := Agreeing(log, p, es);
      p + x <= |log| && Merge(log, es) == if x == |es| then log else log[..p + x] + es[x..]
  {
    assert es[0..] == es;
    MergeShapeFrom(log, p, es, 0);
  }

  /** A request as leaders build it, at a position the log reaches. */
  predicate WellFormedRequest(req: AppendRequest) {
    Consecutive(req.prevLogIndex, req.entries)
  }

  /** A delayed request whose entries are all there, by term, changes no log. */
  lemma DelayedRequestKeepsLog(n: Node, req: AppendRequest)
    requires WellFormedRequest(req) && PrevMatches(n.log, req)
    requires Agreeing(n.log, req.prevLogIndex, req.entries) == |req.entries|
    ensures HandleAppendRequest(n, req).0.log == n.log
  {
    MergeShape(n.log, req.prevLogIndex, req.entries);
    HandledFields(n, req);
  }

  lemma HandledFields(n: Node, req: AppendRequest)
    ensures
      var n' := HandleAppendRequest(n, req).0;
      var accepted := req.term >= n.currentTerm && PrevMatches(n.log, req);
      var log := if accepted then Merge(n.log, req.entries) else n.log;
      && HandleAppendRequest(n, req).1.success == accepted
      && n'.config == n.config
      && n'.log == log
      && n'.currentTerm == Max(n.currentTerm, req.term)
      && n'.commitIndex ==
         if accepted && req.leaderCommit > n.commitIndex then Min(req.leaderCommit, LastIndex(log)) else n.commitIndex
  {
    var n2 := Follow(n, req.term, req.leaderId).(log := Merge(n.log, req.entries));
    ApplyOnly(n2.(commitIndex := Min(req.leaderCommit, LastIndex(n2.log))));
  }

  /** After merging, the whole batch is there. */
  lemma MergedAgrees(log: Log, p: nat, es: seq<LogEntry>)
    requires p <= |log| && Consecutive(p, es)
    ensures p <= |Merge(log, es)| && Merge(log, es)[..p] == log[..p]
    ensures Agreeing(Merge(log, es), p, es) == |es|
  {
    MergeShape(log, p, es);
    forall i | 0 <= i < |es| ensures Has(Merge(log, es), p, es, i) {
      HasAfter(log, p, es, i);
    }
  }

  lemma HasAfter(log: Log, p: nat, es: seq<LogEntry>, i: nat)
    requires p <= |log| && Consecutive(p, es) && i < |es|
    ensures Has(Merge(log, es), p, es, i)
  {
    MergeShape(log, p, es);
    var x := Agreeing(log, p, es);
    if i < x {
      assert Has(log, p, es, i);
    } else {
      assert (log[..p + x] + es[x..])[p + i] == es[i];
    }
  }

  lemma MergeTwice(log: Log, p: nat, es: seq<LogEntry>)
    requires p <= |log| && Consecutive(p, es)
    ensures p <= |Merge(log, es)| && Merge(log, es)[..p] == log[..p]
    ensures Merge(Merge(log, es), es) == Merge(log, es)
  {
    MergedAgrees(log, p, es);
    MergeShape(Merge(log, es), p, es);
  }

  lemma PrevKept(a: Log, b: Log, req: AppendRequest)
    requires PrevMatches(a, req) && req.prevLogIndex <= |a| && req.prevLogIndex <= |b|
    requires a[..req.prevLogIndex] == b[..req.prevLogIndex]
    ensures PrevMatches(b, req)
  {
  }

  /** Handling the same request twice leaves log and commit index as after the first time. */
  lemma AppendIsIdempotent(n: Node, req: AppendRequest)
    requires WellFormedRequest(req)
    ensures
      var (n1, r1) := HandleAppendRequest(n, req);
      var (n2, r2) := HandleAppendRequest(n1, req);
      && n2.log == n1.log && n2.commitIndex == n1.commitIndex && n2.currentTerm == n1.currentTerm
      && r2.success == r1.success
  {
    var (n1, r1) := HandleAppendRequest(n, req);
    HandledFields(n, req);
    HandledFields(n1, req);
    if r1.success {
      MergeTwice(n.log, req.prevLogIndex, req.entries);
      PrevKept(n.log, n1.log, req);
    }
  }

  // ---------------------------------------------------------------- Figure 2

  /** The same value for every peer. */
  function ForPeers<T>(peers: seq<NodeId>, x: T): map<NodeId, T> {
    map p | p in peers :: x
  }

  /** Figure 2 of the Raft paper steps down for a later term, ignores replies of earlier ones, and counts grants until
      they are from a majority. */
  function Figure2VoteResponse(n: Node, from: NodeId, resp: VoteResponse): Node {
    if resp.term > n.currentTerm then
      n.(currentTerm := resp.term, votedFor := None, role := Follower(None))
    else if resp.term < n.currentTerm || !n.role.Candidate? || !resp.granted then n
    else if 2 * |n.role.votes + {from}| > |n.config.peers| + 1 then
      var next: Pos := LastIndex(n.log) + 1;
      n.(role := Leader(ForPeers<Pos>(n.config.peers, next), ForPeers<LogIndex>(n.config.peers, 0)),
         log := n.log + [LogEntry(n.currentTerm, next, NoOp, NoOpEntry)])
    else n.(role := Candidate(n.role.votes + {from}))
  }

  /** The vote handler is Figure 2's exactly when the reply meets the first hypothesis. */
  lemma VoteFollowsFigure2(n: Node, from: NodeId, resp: VoteResponse)
    ensures HandleVoteResponse(n, from, resp) == Figure2VoteResponse(n, from, resp) <==> VoteIsFresh(n, from, resp)
  {
    if resp.term <= n.currentTerm && n.role.Candidate? && resp.granted {
      CountsGrant(n, from, resp);
      assert n.role.votes + {from} == n.role.votes <==> from in n.role.votes;
    }
  }

  lemma CountsGrant(n: Node, from: NodeId, resp: VoteResponse)
    requires resp.term <= n.currentTerm && n.role.Candidate? && resp.granted
    ensures
      var votes, n' := n.role.votes + {from}, HandleVoteResponse(n, from, resp);
      && (n'.role.Leader? <==> |votes| >= Quorum(n.config))
      && (resp.term == n.currentTerm ==> n' == Figure2VoteResponse(n, from, resp))
      && (!n'.role.Leader? ==> n' == n.(role := Candidate(votes)))
  {
    if |n.role.votes + {from}| >= Quorum(n.config) {
      LeadsAs(n, n.role.votes + {from});
    }
  }

  /** A candidate that wins, in Figure 2's words. */
  lemma LeadsAs(n: Node, votes: set<NodeId>)
    ensures
      var next: Pos := LastIndex(n.log) + 1;
      BecomeLeader(n.(role := Candidate(votes))) ==
        n.(role := Leader(ForPeers<Pos>(n.config.peers, next), ForPeers<LogIndex>(n.config.peers, 0)),
           log := n.log + [LogEntry(n.currentTerm, next, NoOp, NoOpEntry)])
  {
    UniformIs<Pos>(n.config.peers, LastIndex(n.log) + 1);
    UniformIs<LogIndex>(n.config.peers, 0);
  }

  lemma UniformIs<T>(peers: seq<NodeId>, x: T)
    ensures Uniform(peers, x) == ForPeers(peers, x)
  {
  }

  /** Figure 2 raises a match index to the end of the acknowledged batch and goes on behind the batch; a reply of an
      earlier term changes nothing. */
  function Figure2Success(n: Node, from: NodeId, req: AppendRequest, resp: AppendResponse): (r: Node)
    requires n.role.Leader?
    ensures r.role.Leader?
  {
    var next, matched := n.role.nextIndex, n.role.matchIndex;
    if resp.term < n.currentTerm then n
    else
      n.(role := Leader(if from in next then next[from := BatchEnd(req) + 1] else next,
                        if from in matched then matched[from := Max(matched[from], BatchEnd(req))] else matched))
  }

  /** The second hypothesis is that a success changes match indices as in Figure 2. */
  lemma AckIsFigure2Match(n: Node, from: NodeId, req: AppendRequest, resp: AppendResponse)
    requires n.role.Leader? && resp.success && resp.term <= n.currentTerm
    ensures RecordSuccess(n, from, |req.entries|).role.matchIndex == Figure2Success(n, from, req, resp).role.matchIndex
            <==> AckIsCurrent(n, from, req, resp)
  {
    var matched := n.role.matchIndex;
    if from in matched {
      assert matched == matched[from := matched[from]];
      assert RecordSuccess(n, from, |req.entries|).role.matchIndex[from] == LastIndex(n.log);
    }
  }

  /** The reply to a request that this leader built meets the second hypothesis exactly if the peer was known to have
      the whole log already, or nothing was proposed since and the limit did not cut the batch. */
  lemma AckIsCurrentIff(n0: Node, n: Node, p: NodeId, resp: AppendResponse)
    requires n0.role.Leader? && n.role.Leader? && p in n0.role.nextIndex && p in n.role.matchIndex
    requires Indexed(n0.log) && Indexed(n.log) && n0.log <= n.log && n.role.matchIndex[p] <= |n.log|
    requires n0.role.nextIndex[p] - 1 <= |n0.log| && resp.success && resp.term == n.currentTerm
    ensures AckIsCurrent(n, p, BuildAppendRequest(n0, p), resp) <==>
            || n.role.matchIndex[p] == |n.log|
            || (n.log == n0.log && |EntriesFrom(n0.log, n0.role.nextIndex[p])| <= n0.config.maxEntries)
  {
    var next := n0.role.nextIndex[p];
    EntriesFromTail(n0.log, 0, next);
    BatchIsSlice(n0.log, next, n0.config.maxEntries);
    LastOfIndexed(n.log);
    assert |n0.log| == |n.log| ==> n0.log == n.log;
  }

  /** A success moves the next index to the end of the acknowledged batch, as in Figure 2, exactly if the request was
      built from the next index as it is now; replies that come twice or late overrun it. */
  lemma NextIsCurrentIff(n: Node, from: NodeId, req: AppendRequest)
    requires n.role.Leader? && from in n.role.nextIndex
    ensures RecordSuccess(n, from, |req.entries|).role.nextIndex[from] == BatchEnd(req) + 1
            <==> req.prevLogIndex + 1 == n.role.nextIndex[from]
  {
  }

  /** The success of a request that this leader built is recorded as in Figure 2 exactly if the next index has not moved
      since the request, and either the peer was known to have the whole log or nothing was proposed since and the limit
      did not cut the batch. */
  lemma AckFollowsFigure2(n0: Node, n: Node, p: NodeId, resp: AppendResponse)
    requires n0.role.Leader? && n.role.Leader? && p in n0.role.nextIndex && p in n.role.nextIndex
    requires p in n.role.matchIndex && n.role.matchIndex[p] <= |n.log|
    requires Indexed(n0.log) && Indexed(n.log) && n0.log <= n.log
    requires n0.role.nextIndex[p] - 1 <= |n0.log| && resp.success && resp.term == n.currentTerm
    ensures
      var req := BuildAppendRequest(n0, p);
      RecordSuccess(n, p, |req.entries|) == Figure2Success(n, p, req, resp) <==>
        && n.role.nextIndex[p] == n0.role.nextIndex[p]
        && (|| n.role.matchIndex[p] == |n.log|
            || (n.log == n0.log && |EntriesFrom(n0.log, n0.role.nextIndex[p])| <= n0.config.maxEntries))
  {
    var req := BuildAppendRequest(n0, p);
    AckIsFigure2Match(n, p, req, resp);
    AckIsCurrentIff(n0, n, p, resp);
    NextIsCurrentIff(n, p, req);
    NextIsFigure2Next(n, p, req, resp);
  }

  lemma NextIsFigure2Next(n: Node, from: NodeId, req: AppendRequest, resp: AppendResponse)
    requires n.role.Leader? && from in n.role.nextIndex && resp.term == n.currentTerm
    ensures RecordSuccess(n, from, |req.entries|).role.nextIndex == Figure2Success(n, from, req, resp).role.nextIndex
            <==> RecordSuccess(n, from, |req.entries|).role.nextIndex[from] == BatchEnd(req) + 1
  {
    var figure2 := Figure2Success(n, from, req, resp).role.nextIndex;
    assert figure2[from] == BatchEnd(req) + 1;
  }

  /** Figure 2 commits up to the last entry of the batch at most. */
  function Figure2Commit(n: Node, req: AppendRequest): LogIndex {
    if req.term >= n.currentTerm && PrevMatches(n.log, req) && req.leaderCommit > n.commitIndex then
      Min(Min(req.leaderCommit, BatchEnd(req)), LastIndex(Merge(n.log, req.entries)))
    else n.commitIndex
  }

  /** A request moves the commit index as in Figure 2 exactly when it meets the third hypothesis. */
  lemma CommitFollowsFigure2(n: Node, req: AppendRequest)
    ensures HandleAppendRequest(n, req).0.commitIndex == Figure2Commit(n, req) <==> CommitsWithinBatch(n, req)
  {
    HandledFields(n, req);
  }

  /** Requests that carry the leader's log to its end meet the third hypothesis wherever they go, as
      long as the leader has committed no more than its log. */
  lemma TailBatchCommitsWithin(leader: Node, peer: NodeId, n: Node)
    requires leader.role.Leader? && Indexed(leader.log) && leader.commitIndex <= |leader.log|
    requires
      var next := if peer in leader.role.nextIndex then leader.role.nextIndex[peer] else 1;
      |EntriesFrom(leader.log, next)| <= leader.config.maxEntries
    requires forall i | 0 <= i < |n.log| :: n.log[i].term >= 1
    ensures CommitsWithinBatch(n, BuildAppendRequest(leader, peer))
  {
    var next: Pos := if peer in leader.role.nextIndex then leader.role.nextIndex[peer] else 1;
    EntriesFromTail(leader.log, 0, next);
  }

  // ---------------------------------------------------------------- catching up

  /** A leader and a follower of the same or an earlier term whose logs match. */
  predicate CatchUpReady(l: Node, f: Node, p: NodeId) {
    && l.role.Leader? && TracksPeers(l) && p in l.role.nextIndex && p in l.role.matchIndex
    && f.currentTerm <= l.currentTerm
    && l.config.maxEntries >= 1
    && Indexed(l.log) && Indexed(f.log) && Matching(l.log, f.log)
    && (forall i | 0 <= i < |f.log| :: f.log[i].term >= 1)
    && (forall i | 0 <= i < |l.log| :: l.log[i].term >= 1)
  }

  /** The follower has the leader's log up to just before the next index. */
  predicate Synced(l: Node, f: Node, p: NodeId)
    requires l.role.Leader?
  {
    NextFor(l, p) - 1 <= |l.log| && l.log[..NextFor(l, p) - 1] <= f.log
  }

  /** One exchange: the leader builds a request, the follower handles it, the leader handles the reply. */
  function Exchange(l: Node, f: Node, p: NodeId): (Node, Node)
    requires CatchUpReady(l, f, p)
  {
    var req := BuildAppendRequest(l, p);
    var (f', resp) := HandleAppendRequest(f, req);
    (HandleAppendResponse(l, p, resp, |req.entries|), f')
  }

  /** The scan finds the first entry of a term that occurs. */
  lemma {:induction false} FirstOfTermAt(log: Log, i: nat, k: nat)
    requires i <= k < |log|
    ensures
      var r := FirstOfTerm(log, log[k].term, i);
      i < r <= k + 1 && log[r - 1].term == log[k].term && forall j | i <= j < r - 1 :: log[j].term != log[k].term
    decreases k - i
  {
    if i < k && log[i].term != log[k].term {
      FirstOfTermAt(log, i + 1, k);
    }
  }

  lemma LastOfIndexed(log: Log)
    requires Indexed(log)
    ensures LastIndex(log) == |log|
  {
  }

  lemma ExchangeBatch(l: Node, p: NodeId)
    requires l.role.Leader? && p in l.role.nextIndex && Indexed(l.log) && l.config.maxEntries >= 1
    ensures
      var req, next := BuildAppendRequest(l, p), NextFor(l, p);
      && req.term == l.currentTerm && req.prevLogIndex == next - 1
      && (next - 1 <= |l.log| ==> IsBatch(l.log, req))
      && (next - 1 > |l.log| ==> req.entries == [] && req.prevLogTerm == 0)
      && (next <= |l.log| ==> req.entries != [])
  {
    BuildsBatch(l, p);
  }

  /** The follower accepts exactly the requests that continue a synced log. */
  lemma AcceptsIfSynced(a: Log, log: Log, req: AppendRequest)
    requires Matching(a, log) && forall i | 0 <= i < |log| :: log[i].term >= 1
    requires if req.prevLogIndex <= |a| then IsBatch(a, req) else req.prevLogTerm == 0
    ensures PrevMatches(log, req) <==> req.prevLogIndex <= |a| && a[..req.prevLogIndex] <= log
  {
  }

  /** The request the leader builds, and whether the follower accepts it. */
  lemma ExchangeRequest(l: Node, f: Node, p: NodeId)
    requires CatchUpReady(l, f, p)
    ensures
      var req, next := BuildAppendRequest(l, p), NextFor(l, p);
      && req.term == l.currentTerm && req.prevLogIndex == next - 1
      && (next - 1 <= |l.log| ==> IsBatch(l.log, req))
      && (next - 1 > |l.log| ==> req.entries == [])
      && (next <= |l.log| ==> req.entries != [])
      && (PrevMatches(f.log, req) <==> Synced(l, f, p))
  {
    ExchangeBatch(l, p);
    AcceptsIfSynced(l.log, f.log, BuildAppendRequest(l, p));
  }

  /** What one exchange does: a rejection lowers the next index, an acceptance raises it by the batch. */
  lemma ExchangeStep(l: Node, f: Node, p: NodeId)
    requires CatchUpReady(l, f, p)
    ensures
      var (l', f') := Exchange(l, f, p);
      && CatchUpReady(l', f', p)
      && l'.log == l.log && l'.config == l.config
      && f'.currentTerm == l.currentTerm
      && (!Synced(l, f, p) ==> NextFor(l', p) < NextFor(l, p))
      && (Synced(l, f, p) ==>
            && Synced(l', f', p)
            && (NextFor(l, p) <= |l.log| ==> NextFor(l', p) > NextFor(l, p))
            && (NextFor(l, p) > |l.log| ==>
                  l.log <= f'.log && NextFor(l', p) == NextFor(l, p) && l'.role.matchIndex[p] == |l.log|))
  {
    var req := BuildAppendRequest(l, p);
    var (f', resp) := HandleAppendRequest(f, req);
    ExchangeRequest(l, f, p);
    HandledFields(f, req);
    LastOfIndexed(l.log);
    LastOfIndexed(f.log);
    if Synced(l, f, p) {
      SyncedExchange(l, f, p);
    } else {
      RejectedExchange(l, f, p);
    }
  }

  lemma RejectedExchange(l: Node, f: Node, p: NodeId)
    requires CatchUpReady(l, f, p) && !Synced(l, f, p)
    ensures
      var (l', f') := Exchange(l, f, p);
      CatchUpReady(l', f', p) && l'.log == l.log && l'.config == l.config && NextFor(l', p) < NextFor(l, p)
  {
    var req := BuildAppendRequest(l, p);
    ExchangeRequest(l, f, p);
    HandledFields(f, req);
    LastOfIndexed(f.log);
    if EntryAt(f.log, req.prevLogIndex).Some? {
      FirstOfTermAt(f.log, 0, req.prevLogIndex - 1);
    }
  }

  /** An accepted batch reaches the follower's log. */
  lemma FollowerSynced(l: Node, f: Node, p: NodeId)
    requires CatchUpReady(l, f, p) && Synced(l, f, p)
    ensures
      var req := BuildAppendRequest(l, p);
      var (f', resp) := HandleAppendRequest(f, req);
      && resp == AppendResponse(l.currentTerm, true, None, None)
      && BatchEnd(req) <= |l.log| && l.log[..BatchEnd(req)] <= f'.log
      && (f'.log == f.log || f'.log == l.log[..BatchEnd(req)])
      && f'.currentTerm == l.currentTerm
  {
    var req := BuildAppendRequest(l, p);
    ExchangeRequest(l, f, p);
    HandledFields(f, req);
    MergeBatch(l.log, f.log, req.prevLogIndex, BatchEnd(req));
  }

  /** A success moves the next index past the batch and the match index to the end of the log. */
  lemma LeaderRecords(l: Node, p: NodeId, sent: nat)
    requires l.role.Leader? && TracksPeers(l) && p in l.role.nextIndex && p in l.role.matchIndex
    ensures
      var l' := HandleAppendResponse(l, p, AppendResponse(l.currentTerm, true, None, None), sent);
      && l'.role == RecordSuccess(l, p, sent).role && l'.log == l.log && l'.config == l.config
      && l'.currentTerm == l.currentTerm
  {
    var n1 := RecordSuccess(l, p, sent);
    ApplyOnly(n1.(commitIndex := QuorumIndex(n1)));
  }

  lemma SyncedExchange(l: Node, f: Node, p: NodeId)
    requires CatchUpReady(l, f, p) && Synced(l, f, p)
    ensures
      var (l', f') := Exchange(l, f, p);
      && CatchUpReady(l', f', p) && Synced(l', f', p)
      && l'.log == l.log && l'.config == l.config
      && (NextFor(l, p) <= |l.log| ==> NextFor(l', p) > NextFor(l, p))
      && (NextFor(l, p) > |l.log| ==>
            l.log <= f'.log && NextFor(l', p) == NextFor(l, p) && l'.role.matchIndex[p] == |l.log|)
  {
    var req := BuildAppendRequest(l, p);
    ExchangeRequest(l, f, p);
    FollowerSynced(l, f, p);
    LeaderRecords(l, p, |req.entries|);
    var (l', f') := Exchange(l, f, p);
    SyncedResult(l, f, l', f', p, |req.entries|);
  }

  lemma SyncedResult(l: Node, f: Node, l': Node, f': Node, p: NodeId, sent: nat)
    requires CatchUpReady(l, f, p)
    requires NextFor(l, p) - 1 + sent <= |l.log| && (NextFor(l, p) <= |l.log| ==> sent > 0)
    requires l'.role == RecordSuccess(l, p, sent).role && l'.log == l.log && l'.config == l.config
    requires f'.currentTerm == l'.currentTerm == l.currentTerm
    requires l.log[..NextFor(l, p) - 1 + sent] <= f'.log
    requires f'.log == f.log || f'.log == l.log[..NextFor(l, p) - 1 + sent]
    ensures CatchUpReady(l', f', p) && Synced(l', f', p)
    ensures NextFor(l, p) <= |l.log| ==> NextFor(l', p) > NextFor(l, p)
    ensures NextFor(l, p) > |l.log| ==>
            l.log <= f'.log && NextFor(l', p) == NextFor(l, p) && l'.role.matchIndex[p] == |l.log|
  {
    LastOfIndexed(l.log);
    StillReady(l.log, f.log, f'.log, NextFor(l, p) - 1 + sent);
    if NextFor(l, p) > |l.log| {
      assert l.log[..NextFor(l, p) - 1 + sent] == l.log;
    }
  }

  lemma StillReady(a: Log, log: Log, log': Log, m: nat)
    requires m <= |a| && Indexed(a) && Indexed(log) && Matching(a, log) && (log' == log || log' == a[..m])
    requires forall i | 0 <= i < |log| :: log[i].term >= 1
    requires forall i | 0 <= i < |a| :: a[i].term >= 1
    ensures Indexed(log') && Matching(a, log') && forall i | 0 <= i < |log'| :: log'[i].term >= 1
  {
  }

  /** Exchanges until the follower has acknowledged the leader's whole log. */
  ghost function CatchUp(l: Node, f: Node, p: NodeId): (r: (Node, Node))
    requires CatchUpReady(l, f, p)
    ensures r.0.role.Leader? && r.0.log == l.log && l.log <= r.1.log
    ensures p in r.0.role.matchIndex && r.0.role.matchIndex[p] == |l.log| && NextFor(r.0, p) == |l.log| + 1
    decreases
      if Synced(l, f, p) then 0 else 1,
      if Synced(l, f, p) then |l.log| + 1 - NextFor(l, p) else NextFor(l, p)
  {
    ExchangeStep(l, f, p);
    var (l', f') := Exchange(l, f, p);
    if Synced(l, f, p) && NextFor(l, p) > |l.log| then (l', f') else CatchUp(l', f', p)
  }
}
