/** When a vote must be granted and when an election must be won: the other half of what the safety proofs use. */
module RaftVoting {
  import opened Wrappers
  import opened RaftTypes
  import opened RaftHandlers
  import opened RaftLogs
  import Election = RaftElection

  // ---------------------------------------------------------------- granting

  /** A vote is granted exactly if the request is not of an older term, the vote of its term is free or already the
      candidate's, and the log's last entry, if any, is not ahead of the candidate's in term and then index. */
  lemma VoteGrantedIff(n: Node, req: VoteRequest)
    ensures HandleVoteRequest(n, req).1.granted <==>
            && n.currentTerm <= req.term
            && (n.currentTerm < req.term || n.votedFor == None || n.votedFor == Some(req.candidateId))
            && (n.log != [] ==>
                  var last := n.log[|n.log| - 1];
                  last.term < req.lastLogTerm || (last.term == req.lastLogTerm && last.index <= req.lastLogIndex))
  {
  }

  /** Either way the node ends in the later of the two terms, which it answers with; a vote of an earlier term is
      forgotten, one of this term stays unless it is given now. */
  lemma VoteLeaves(n: Node, req: VoteRequest)
    ensures
      var (n', resp) := HandleVoteRequest(n, req);
      && n'.currentTerm == resp.term == Max(n.currentTerm, req.term)
      && (resp.granted ==> n'.votedFor == Some(req.candidateId))
      && (!resp.granted ==> n'.votedFor == if n.currentTerm < req.term then None else n.votedFor)
      && n'.role == (if n.currentTerm < req.term then Follower(None) else n.role)
      && n' == n.(currentTerm := n'.currentTerm, votedFor := n'.votedFor, role := n'.role)
  {
  }

  /** Entries are numbered from 1 and terms never fall, as in every reachable log. */
  predicate Shaped(log: Log) {
    Indexed(log) && forall i, j | 0 <= i <= j < |log| :: log[i].term <= log[j].term
  }

  /** A candidate whose log extends the voter's gets a vote that is free. */
  lemma ExtensionIsGranted(voter: Node, candidate: Node)
    requires Shaped(candidate.log) && voter.log <= candidate.log
    requires voter.currentTerm < candidate.currentTerm
             || (voter.currentTerm == candidate.currentTerm && voter.votedFor == None)
    ensures HandleVoteRequest(voter, BuildVoteRequest(candidate)).1.granted
  {
    VoteGrantedIff(voter, BuildVoteRequest(candidate));
  }

  /** `v` would get the vote of `u` in a term that is new to both. */
  predicate WouldGrant(u: Node, v: Node) {
    var candidate := BecomeCandidate(v.(currentTerm := Max(u.currentTerm, v.currentTerm)));
    HandleVoteRequest(u, BuildVoteRequest(candidate)).1.granted
  }

  /** Of any two nodes one would vote for the other. */
  lemma OneOfTwo(u: Node, v: Node)
    ensures WouldGrant(u, v) || WouldGrant(v, u)
  {
  }

  lemma GrantsChain(u: Node, v: Node, w: Node)
    requires WouldGrant(u, v) && WouldGrant(v, w)
    ensures WouldGrant(u, w)
  {
  }

  /** In every cluster some node would get every vote. */
  lemma {:induction false} SomeNodeCanWin(nodes: map<NodeId, Node>) returns (v: NodeId)
    requires nodes != map[]
    ensures v in nodes && forall u | u in nodes :: WouldGrant(nodes[u], nodes[v])
    decreases |nodes|
  {
    var x :| x in nodes;
    var rest := nodes - {x};
    OneOfTwo(nodes[x], nodes[x]);
    if rest == map[] {
      v := x;
      forall u | u in nodes ensures u == x {
        assert u != x ==> u in rest;
      }
    } else {
      var y := SomeNodeCanWin(rest);
      OneOfTwo(nodes[x], nodes[y]);
      v := if WouldGrant(nodes[x], nodes[y]) then y else x;
      forall u | u in nodes ensures WouldGrant(nodes[u], nodes[v]) {
        if u != x {
          assert u in rest && WouldGrant(nodes[u], nodes[y]);
          if v == x {
            GrantsChain(nodes[u], nodes[y], nodes[x]);
          }
        }
      }
    }
  }

  // ---------------------------------------------------------------- winning

  /** The node after grants of its own term arrive from `voters`, one after the other. */
  function AfterGrants(n: Node, voters: seq<NodeId>): Node
    decreases |voters|
  {
    if voters == [] then n
    else AfterGrants(HandleVoteResponse(n, voters[0], VoteResponse(n.currentTerm, true)), voters[1..])
  }

  predicate IsMajority(votes: set<NodeId>, cfg: Config) {
    2 * |votes| > |cfg.peers| + 1
  }

  /** What a node that wins starts with. */
  predicate Starts(n: Node, leader: Node) {
    && leader.role.Leader?
    && leader == n.(role := leader.role, log := leader.log)
    && leader.log == n.log + [LogEntry(n.currentTerm, LastIndex(n.log) + 1, NoOp, NoOpEntry)]
    && leader.role.nextIndex.Keys == leader.role.matchIndex.Keys == Members(n.config.peers)
    && forall p | p in n.config.peers ::
         leader.role.nextIndex[p] == LastIndex(n.log) + 1 && leader.role.matchIndex[p] == 0
  }

  lemma OneGrant(n: Node, x: NodeId)
    requires n.role.Candidate?
    ensures
      var n' := HandleVoteResponse(n, x, VoteResponse(n.currentTerm, true));
      if IsMajority(n.role.votes + {x}, n.config) then Starts(n, n')
      else n' == n.(role := Candidate(n.role.votes + {x}))
  {
  }

  lemma {:induction false} LeaderIgnoresGrants(n: Node, voters: seq<NodeId>)
    requires n.role.Leader?
    ensures AfterGrants(n, voters) == n
    decreases |voters|
  {
    if voters != [] {
      LeaderIgnoresGrants(n, voters[1..]);
    }
  }

  lemma {:induction false} GrantsCount(n: Node, voters: seq<NodeId>)
    requires n.role.Candidate? && voters != []
    ensures
      var votes := n.role.votes + Members(voters);
      if IsMajority(votes, n.config) then Starts(n, AfterGrants(n, voters))
      else AfterGrants(n, voters) == n.(role := Candidate(votes))
    decreases |voters|
  {
    var x, rest := voters[0], voters[1..];
    var n' := HandleVoteResponse(n, x, VoteResponse(n.currentTerm, true));
    var votes := n.role.votes + Members(voters);
    assert voters == [x] + rest;
    assert votes == n.role.votes + {x} + Members(rest);
    OneGrant(n, x);
    if n'.role.Leader? {
      LeaderIgnoresGrants(n', rest);
      Election.SubsetSize(n.role.votes + {x}, votes);
    } else if rest != [] {
      GrantsCount(n', rest);
    }
  }

  /** A node that stands and then gets grants from `voters`, in any order and with repetitions, leads its new term
      exactly if they and itself are a majority; until then it counts them. */
  lemma GrantsElect(n: Node, voters: seq<NodeId>)
    requires voters != []
    ensures
      var votes := {n.config.id} + Members(voters);
      var standing, r := BecomeCandidate(n), AfterGrants(BecomeCandidate(n), voters);
      && r.currentTerm == n.currentTerm + 1 && r.votedFor == Some(n.config.id)
      && (IsMajority(votes, n.config) ==> Starts(standing, r))
      && (!IsMajority(votes, n.config) ==> r.role == Candidate(votes) && r.log == n.log)
  {
    GrantsCount(BecomeCandidate(n), voters);
  }
}
