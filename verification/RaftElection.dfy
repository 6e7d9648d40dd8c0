/** Election Safety: what every move keeps about terms, votes and leaders. */
module RaftElection {
  import opened Wrappers
  import opened RaftTypes
  import opened RaftHandlers
  import opened RaftCluster
  import opened RaftMoves

  // ---------------------------------------------------------------- quorums

  lemma {:induction false} SubsetSize(a: set<NodeId>, b: set<NodeId>)
    requires a <= b
    ensures |a| <= |b|
  {
    if a != {} {
      var x :| x in a;
      SubsetSize(a - {x}, b - {x});
    }
  }

  /** Any two majorities of one set share a member. */
  lemma QuorumsMeet(ids: set<NodeId>, a: set<NodeId>, b: set<NodeId>) returns (x: NodeId)
    requires a <= ids && b <= ids
    requires |a| >= Majority(|ids|) && |b| >= Majority(|ids|)
    ensures x in a && x in b
  {
    assert a * b != {} by {
      SubsetSize(a + b, ids);
      assert |a + b| == |a| + |b| - |a * b|;
    }
    x :| x in a * b;
  }

  lemma DistinctTail(s: seq<NodeId>)
    requires Distinct(s) && s != []
    ensures Distinct(s[1..]) && s[0] !in s[1..]
  {
  }

  lemma MembersOfCons(s: seq<NodeId>)
    requires s != []
    ensures Members(s) == {s[0]} + Members(s[1..])
  {
  }

  lemma {:induction false} DistinctSize(s: seq<NodeId>)
    requires Distinct(s)
    ensures |Members(s)| == |s|
  {
    if s != [] {
      DistinctTail(s);
      DistinctSize(s[1..]);
      MembersOfCons(s);
    }
  }

  /** What a node computes from its peer list is a majority of the cluster. */
  lemma QuorumIsMajority(ids: set<NodeId>, v: NodeId, cfg: Config)
    requires v in ids && ConfigFits(ids, v, cfg)
    ensures Quorum(cfg) == Majority(|ids|)
  {
    DistinctSize(cfg.peers);
    assert Members(cfg.peers) == ids - {v};
    assert ids == (ids - {v}) + {v};
  }

  // ---------------------------------------------------------------- the invariant

  predicate TermBelow(log: Log, t: Term) {
    forall i | 0 <= i < |log| :: log[i].term < t
  }

  /** A log's terms never exceed the node's; a candidate has nothing of its own term yet. */
  predicate TermsOK(n: Node) {
    TermBelow(n.log, n.currentTerm + 1) && (n.role.Candidate? ==> n.currentTerm >= 1 && TermBelow(n.log, n.currentTerm))
  }

  /** A node that leads a term is the one elected in it. */
  predicate LeaderOK(v: NodeId, n: Node, elect: map<Term, Election>) {
    n.role.Leader? ==> n.currentTerm in elect && elect[n.currentTerm].leader == v
  }

  /** Whoever was elected has reached that term and is no candidate in it. */
  predicate WinnerOK(nodes: map<NodeId, Node>, t: Term, e: Election) {
    && e.leader in nodes
    && nodes[e.leader].currentTerm >= t
    && (nodes[e.leader].role.Candidate? ==> nodes[e.leader].currentTerm > t)
  }

  /** A vote belongs to a term its voter and its candidate have reached, and while the candidate is
      still running, the voter's log was no more up-to-date than the candidate's. */
  predicate VoteOK(nodes: map<NodeId, Node>, elect: map<Term, Election>, t: Term, v: NodeId, x: Vote) {
    && v in nodes && t <= nodes[v].currentTerm
    && x.candidate in nodes && t <= nodes[x.candidate].currentTerm
    && (x.late ==> t in elect)
    && (nodes[x.candidate].role.Candidate? && nodes[x.candidate].currentTerm == t ==>
          UpToDate(LastTerm(nodes[x.candidate].log), LastIndex(nodes[x.candidate].log), x.log))
  }

  /** `voted_for` is the vote of the current term. */
  predicate BallotOK(v: NodeId, n: Node, votes: map<(Term, NodeId), Vote>) {
    n.votedFor == if (n.currentTerm, v) in votes then Some(votes[(n.currentTerm, v)].candidate) else None
  }

  /** A candidate counts only votes it was given in its term. */
  predicate TallyOK(v: NodeId, n: Node, ids: set<NodeId>, votes: map<(Term, NodeId), Vote>) {
    n.role.Candidate? ==>
      n.role.votes <= ids
      && forall x | x in n.role.votes :: (n.currentTerm, x) in votes && votes[(n.currentTerm, x)].candidate == v
  }

  /** An elected leader had a majority whose votes were cast before the term had a leader. */
  predicate MandateOK(ids: set<NodeId>, votes: map<(Term, NodeId), Vote>, t: Term, e: Election) {
    && e.voters <= ids && |e.voters| >= Majority(|ids|)
    && forall x | x in e.voters ::
         && (t, x) in votes && votes[(t, x)].candidate == e.leader && !votes[(t, x)].late
         && UpToDate(LastTerm(e.base), LastIndex(e.base), votes[(t, x)].log)
  }

  /** A request for votes carries the candidate's log position; a grant stands for a recorded vote. */
  predicate VoteMessageOK(nodes: map<NodeId, Node>, votes: map<(Term, NodeId), Vote>, m: Message) {
    match m
    case VoteAsk(_, r) =>
      && r.candidateId in nodes
      && r.term <= nodes[r.candidateId].currentTerm
      && (nodes[r.candidateId].role.Candidate? && nodes[r.candidateId].currentTerm == r.term ==>
            r.lastLogIndex == LastIndex(nodes[r.candidateId].log)
            && r.lastLogTerm == LastTerm(nodes[r.candidateId].log))
    case VoteReply(v, r, resp) =>
      v in nodes && (resp.granted ==> (resp.term, v) in votes && votes[(resp.term, v)].candidate == r.candidateId)
    case _ => true
  }

  predicate NodeOK(v: NodeId, n: Node, ids: set<NodeId>, h: History) {
    TermsOK(n) && LeaderOK(v, n, h.elect) && BallotOK(v, n, h.votes) && TallyOK(v, n, ids, h.votes)
  }

  predicate NodesOK(ids: set<NodeId>, nodes: map<NodeId, Node>, h: History) {
    forall v | v in nodes :: NodeOK(v, nodes[v], ids, h)
  }

  predicate ElectionsOK(ids: set<NodeId>, nodes: map<NodeId, Node>, h: History) {
    forall t | t in h.elect :: WinnerOK(nodes, t, h.elect[t]) && MandateOK(ids, h.votes, t, h.elect[t])
  }

  predicate VotesOK(nodes: map<NodeId, Node>, h: History) {
    forall b | b in h.votes :: VoteOK(nodes, h.elect, b.0, b.1, h.votes[b])
  }

  predicate VoteNetOK(nodes: map<NodeId, Node>, votes: map<(Term, NodeId), Vote>, net: set<Message>) {
    forall m | m in net :: VoteMessageOK(nodes, votes, m)
  }

  predicate ElectionInv(c: Cluster) {
    && WellFormed(c.ids, c.nodes)
    && NodesOK(c.ids, c.nodes, c.hist)
    && ElectionsOK(c.ids, c.nodes, c.hist)
    && VotesOK(c.nodes, c.hist)
    && VoteNetOK(c.nodes, c.hist.votes, c.net)
  }

  // ---------------------------------------------------------------- what one node's move leaves alone

  /** Terms only grow, and a node is a candidate only in a new term or as it was. */
  predicate Onward(n: Node, n': Node) {
    && n'.config == n.config
    && n'.currentTerm >= n.currentTerm
    && (n'.role.Candidate? ==> n'.currentTerm > n.currentTerm || (n.role.Candidate? && n'.log == n.log))
  }

  /** Recorded elections and votes stay; new votes are those of `v`. */
  predicate Extends(h: History, h': History, v: NodeId) {
    && (forall t | t in h.elect :: t in h'.elect && SameElection(h.elect[t], h'.elect[t]))
    && (forall b | b in h.votes :: b in h'.votes && h'.votes[b] == h.votes[b])
    && (forall b | b in h'.votes :: b in h.votes || b.1 == v)
  }

  predicate SameElection(e: Election, e': Election) {
    e' == e.(log := e'.log)
  }

  lemma WellFormedFrame(ids: set<NodeId>, nodes: map<NodeId, Node>, v: NodeId, n': Node)
    requires WellFormed(ids, nodes) && v in nodes && n'.config == nodes[v].config && TracksPeers(n')
    ensures WellFormed(ids, nodes[v := n'])
  {
  }

  lemma NodesFrame(ids: set<NodeId>, nodes: map<NodeId, Node>, h: History, v: NodeId, n': Node, h': History)
    requires NodesOK(ids, nodes, h)
    requires v in nodes && NodeOK(v, n', ids, h')
    requires Extends(h, h', v)
    ensures NodesOK(ids, nodes[v := n'], h')
  {
  }

  lemma VotesFrame(nodes: map<NodeId, Node>, h: History, v: NodeId, n': Node, h': History)
    requires VotesOK(nodes, h)
    requires v in nodes && Onward(nodes[v], n')
    requires Extends(h, h', v)
    requires forall b | b in h'.votes && b !in h.votes :: VoteOK(nodes[v := n'], h'.elect, b.0, b.1, h'.votes[b])
    ensures VotesOK(nodes[v := n'], h')
  {
  }

  lemma ElectionsFrame(ids: set<NodeId>, nodes: map<NodeId, Node>, h: History, v: NodeId, n': Node, h': History)
    requires ElectionsOK(ids, nodes, h)
    requires v in nodes && Onward(nodes[v], n')
    requires Extends(h, h', v)
    requires forall t | t in h'.elect && t !in h.elect ::
               WinnerOK(nodes[v := n'], t, h'.elect[t]) && MandateOK(ids, h'.votes, t, h'.elect[t])
    ensures ElectionsOK(ids, nodes[v := n'], h')
  {
    forall t | t in h.elect
      ensures WinnerOK(nodes[v := n'], t, h'.elect[t]) && MandateOK(ids, h'.votes, t, h'.elect[t])
    {
      assert WinnerOK(nodes, t, h.elect[t]);
      assert MandateOK(ids, h.votes, t, h.elect[t]);
    }
  }

  lemma VoteNetFrame(nodes: map<NodeId, Node>, h: History, net: set<Message>, v: NodeId, n': Node, h': History)
    requires VoteNetOK(nodes, h.votes, net)
    requires v in nodes && Onward(nodes[v], n')
    requires Extends(h, h', v)
    ensures VoteNetOK(nodes[v := n'], h'.votes, net)
  {
  }

  /** All four frames at once. */
  lemma MoveKeeps(c: Cluster, v: NodeId, n': Node, h': History)
    requires ElectionInv(c)
    requires v in c.nodes && Onward(c.nodes[v], n') && TracksPeers(n')
    requires Extends(c.hist, h', v)
    requires NodeOK(v, n', c.ids, h')
    requires forall b | b in h'.votes && b !in c.hist.votes :: VoteOK(c.nodes[v := n'], h'.elect, b.0, b.1, h'.votes[b])
    requires forall t | t in h'.elect && t !in c.hist.elect ::
               WinnerOK(c.nodes[v := n'], t, h'.elect[t]) && MandateOK(c.ids, h'.votes, t, h'.elect[t])
    ensures ElectionInv(With(c, v, n').(hist := h'))
  {
    WellFormedFrame(c.ids, c.nodes, v, n');
    NodesFrame(c.ids, c.nodes, c.hist, v, n', h');
    VotesFrame(c.nodes, c.hist, v, n', h');
    ElectionsFrame(c.ids, c.nodes, c.hist, v, n', h');
    VoteNetFrame(c.nodes, c.hist, c.net, v, n', h');
  }

  // ---------------------------------------------------------------- moves

  lemma LoweredKeeps(c: Cluster, v: NodeId, t: Term, hint: Option<NodeId>)
    requires ElectionInv(c)
    requires v in c.nodes && t >= c.nodes[v].currentTerm
    ensures ElectionInv(Lowered(c, v, t, hint))
  {
    var n := c.nodes[v];
    var c' := Lowered(c, v, t, hint);
    assert NodeOK(v, n, c.ids, c.hist);
    assert BallotOK(v, c'.nodes[v], c.hist.votes) by {
      if (t, v) in c.hist.votes {
        assert VoteOK(c.nodes, c.hist.elect, t, v, c.hist.votes[(t, v)]);
      }
    }
    MoveKeeps(c, v, c'.nodes[v], c.hist);
  }

  lemma CandidacyKeeps(c: Cluster, v: NodeId)
    requires ElectionInv(c)
    requires v in c.nodes
    ensures ElectionInv(Candidacy(c, v))
  {
    var n, n' := c.nodes[v], BecomeCandidate(c.nodes[v]);
    var c' := Candidacy(c, v);
    assert NodeOK(v, n, c.ids, c.hist);
    assert (n'.currentTerm, v) !in c.hist.votes;
    MoveKeeps(c, v, n', c'.hist);
  }

  lemma GrantedKeeps(c: Cluster, v: NodeId, r: VoteRequest)
    requires ElectionInv(c)
    requires v in c.nodes && VoteAsk(v, r) in c.net && r.term == c.nodes[v].currentTerm
    requires CanVote(c.nodes[v], r.candidateId) && UpToDate(r.lastLogTerm, r.lastLogIndex, c.nodes[v].log)
    ensures ElectionInv(Granted(c, v, r.candidateId))
  {
    var c' := Granted(c, v, r.candidateId);
    assert NodeOK(v, c.nodes[v], c.ids, c.hist);
    assert VoteMessageOK(c.nodes, c.hist.votes, VoteAsk(v, r));
    MoveKeeps(c, v, c'.nodes[v], c'.hist);
  }

  lemma CountedKeeps(c: Cluster, v: NodeId, x: NodeId)
    requires ElectionInv(c)
    requires v in c.nodes && c.nodes[v].role.Candidate? && x in c.ids
    requires (c.nodes[v].currentTerm, x) in c.hist.votes
    requires c.hist.votes[(c.nodes[v].currentTerm, x)].candidate == v
    ensures ElectionInv(Counted(c, v, x))
  {
    var c' := Counted(c, v, x);
    assert NodeOK(v, c.nodes[v], c.ids, c.hist);
    MoveKeeps(c, v, c'.nodes[v], c.hist);
  }

  /** Winning needs a majority, so a term already won was won by this candidate; but a winner is no
      longer a candidate. */
  lemma TermIsFree(c: Cluster, v: NodeId)
    requires ElectionInv(c)
    requires v in c.nodes && c.nodes[v].role.Candidate?
    requires |c.nodes[v].role.votes| >= Majority(|c.ids|)
    ensures c.nodes[v].currentTerm !in c.hist.elect
  {
    var n := c.nodes[v];
    var t := n.currentTerm;
    assert NodeOK(v, n, c.ids, c.hist);
    if t in c.hist.elect {
      var e := c.hist.elect[t];
      assert WinnerOK(c.nodes, t, e) && MandateOK(c.ids, c.hist.votes, t, e);
      var x := QuorumsMeet(c.ids, n.role.votes, e.voters);
      assert false;
    }
  }

  lemma ElectedKeeps(c: Cluster, v: NodeId)
    requires ElectionInv(c)
    requires v in c.nodes && c.nodes[v].role.Candidate?
    requires |c.nodes[v].role.votes| >= Majority(|c.ids|)
    ensures ElectionInv(Elected(c, v))
  {
    var n, c' := c.nodes[v], Elected(c, v);
    TermIsFree(c, v);
    assert NodeOK(v, n, c.ids, c.hist);
    NewMandate(c, v);
    assert NodeOK(v, c'.nodes[v], c.ids, c'.hist);
    assert Extends(c.hist, c'.hist, v);
    MoveKeeps(c, v, c'.nodes[v], c'.hist);
  }

  lemma NewMandate(c: Cluster, v: NodeId)
    requires VotesOK(c.nodes, c.hist) && v in c.nodes && c.nodes[v].role.Candidate?
    requires TallyOK(v, c.nodes[v], c.ids, c.hist.votes) && c.nodes[v].currentTerm !in c.hist.elect
    requires |c.nodes[v].role.votes| >= Majority(|c.ids|)
    ensures MandateOK(c.ids, c.hist.votes, c.nodes[v].currentTerm, Elected(c, v).hist.elect[c.nodes[v].currentTerm])
  {
  }

  /** A move that changes no term, vote or tally. */
  lemma QuietKeeps(c: Cluster, v: NodeId, n': Node, h': History)
    requires ElectionInv(c)
    requires v in c.nodes && TracksPeers(n') && TermBelow(n'.log, n'.currentTerm + 1)
    requires n'.config == c.nodes[v].config
    requires n'.currentTerm == c.nodes[v].currentTerm && n'.votedFor == c.nodes[v].votedFor
    requires !n'.role.Candidate? && (n'.role.Leader? ==> c.nodes[v].role.Leader?)
    requires Extends(c.hist, h', v) && h'.elect.Keys == c.hist.elect.Keys && h'.votes == c.hist.votes
    ensures ElectionInv(With(c, v, n').(hist := h'))
  {
    assert NodeOK(v, c.nodes[v], c.ids, c.hist);
    MoveKeeps(c, v, n', h');
  }
}
