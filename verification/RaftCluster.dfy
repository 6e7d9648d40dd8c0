/** A cluster of Raft nodes as a state machine. Its steps are the places where the event loop, a timer
    or a spawned reply task takes a node's lock. The network is a growing set of messages: a
    message may be handled late, several times, out of order, or never. */
module RaftCluster {
  import opened Wrappers
  import opened RaftTypes
  import opened RaftHandlers

  /** A reply travels with the request it answers: the sender of the request handles the reply. */
  datatype Message =
    | VoteAsk(to: NodeId, vote: VoteRequest)
    | VoteReply(from: NodeId, vote: VoteRequest, voteResp: VoteResponse)
    | AppendAsk(to: NodeId, append: AppendRequest)
    | AppendReply(from: NodeId, append: AppendRequest, appendResp: AppendResponse)

  datatype Action =
    | Timeout(id: NodeId)
    | SendVote(id: NodeId, peer: NodeId)
    | ReceiveVote(m: Message)
    | ReceiveVoteReply(m: Message)
    | SendAppend(id: NodeId, peer: NodeId)
    | ReceiveAppend(m: Message)
    | ReceiveAppendReply(m: Message)
    | ClientPropose(id: NodeId, commands: seq<Command>)
    | Resign(id: NodeId, hint: Option<NodeId>)

  /** Bookkeeping for the proofs. It is written by steps and never read by them. */
  datatype Election = Election(leader: NodeId, voters: set<NodeId>, base: Log, log: Log)
  datatype Vote = Vote(candidate: NodeId, log: Log, late: bool)
  datatype History = History(
    elect: map<Term, Election>,            // who won a term, with which log, and the log it has led to
    votes: map<(Term, NodeId), Vote>,      // whom a node voted for in a term, and its log at the time
    acks: map<(Term, NodeId), nat>)        // how much of the term's leader log a node has accepted

  datatype Cluster = Cluster(ids: set<NodeId>, nodes: map<NodeId, Node>, net: set<Message>, hist: History)

  function Majority(n: nat): nat {
    n / 2 + 1
  }

  // ---------------------------------------------------------------- well-formed clusters

  predicate Distinct(s: seq<NodeId>) {
    forall i, j | 0 <= i < j < |s| :: s[i] != s[j]
  }

  /** Every node lists all the others, once each, as peers. */
  predicate ConfigFits(ids: set<NodeId>, v: NodeId, cfg: Config) {
    cfg.id == v && Distinct(cfg.peers) && Members(cfg.peers) == ids - {v}
  }

  predicate WellFormed(ids: set<NodeId>, nodes: map<NodeId, Node>) {
    && nodes.Keys == ids
    && forall v | v in nodes :: ConfigFits(ids, v, nodes[v].config) && TracksPeers(nodes[v])
  }

  predicate Init(c: Cluster) {
    && WellFormed(c.ids, c.nodes)
    && (forall v | v in c.nodes :: c.nodes[v] == InitNode(c.nodes[v].config))
    && c.net == {}
    && c.hist == History(map[], map[], map[])
  }

  // ---------------------------------------------------------------- steps

  predicate Enabled(c: Cluster, a: Action) {
    && WellFormed(c.ids, c.nodes)
    && match a
       case Timeout(v) => v in c.nodes
       case SendVote(v, p) => v in c.nodes && p in c.nodes[v].config.peers
       case ReceiveVote(m) => m in c.net && m.VoteAsk? && m.to in c.nodes
       case ReceiveVoteReply(m) => m in c.net && m.VoteReply? && m.vote.candidateId in c.nodes
       case SendAppend(v, p) => v in c.nodes && p in c.nodes[v].config.peers
       case ReceiveAppend(m) => m in c.net && m.AppendAsk? && m.to in c.nodes
       case ReceiveAppendReply(m) => m in c.net && m.AppendReply? && m.append.leaderId in c.nodes
       case ClientPropose(v, _) => v in c.nodes && c.nodes[v].role.Leader?
       case Resign(v, _) => v in c.nodes
  }

  function BatchEnd(req: AppendRequest): nat {
    req.prevLogIndex + |req.entries|
  }

  function RecordVote(h: History, t: Term, v: NodeId, candidate: NodeId, log: Log): History {
    if (t, v) in h.votes then h
    else h.(votes := h.votes[(t, v) := Vote(candidate, log, t in h.elect)])
  }

  function RecordAck(h: History, t: Term, v: NodeId, k: nat): History {
    if t in h.elect then
      h.(acks := h.acks[(t, v) := if (t, v) in h.acks then Max(h.acks[(t, v)], k) else k])
    else h
  }

  function RecordElection(h: History, t: Term, v: NodeId, voters: set<NodeId>, base: Log, log: Log): History {
    RecordAck(h.(elect := h.elect[t := Election(v, voters, base, log)]), t, v, |log|)
  }

  function RecordGrowth(h: History, t: Term, v: NodeId, log: Log): History {
    if t in h.elect then
      RecordAck(h.(elect := h.elect[t := h.elect[t].(log := log)]), t, v, |log|)
    else h
  }

  function Step(c: Cluster, a: Action): Cluster
    requires Enabled(c, a)
  {
    match a
    case Timeout(v) =>
      var n := c.nodes[v];
      c.(nodes := c.nodes[v := BecomeCandidate(n)],
         hist := RecordVote(c.hist, n.currentTerm + 1, v, v, n.log))

    case SendVote(v, p) =>
      c.(net := c.net + {VoteAsk(p, BuildVoteRequest(c.nodes[v]))})

    case ReceiveVote(m) =>
      var n := c.nodes[m.to];
      var (n', resp) := HandleVoteRequest(n, m.vote);
      c.(nodes := c.nodes[m.to := n'],
         net := c.net + {VoteReply(m.to, m.vote, resp)},
         hist := if resp.granted then RecordVote(c.hist, resp.term, m.to, m.vote.candidateId, n.log) else c.hist)

    case ReceiveVoteReply(m) =>
      var v := m.vote.candidateId;
      var n := c.nodes[v];
      var n' := HandleVoteResponse(n, m.from, m.voteResp);
      c.(nodes := c.nodes[v := n'],
         hist := if n.role.Candidate? && n'.role.Leader?
                 then RecordElection(c.hist, n.currentTerm, v, n.role.votes + {m.from}, n.log, n'.log)
                 else c.hist)

    case SendAppend(v, p) =>
      c.(net := c.net + {AppendAsk(p, BuildAppendRequest(c.nodes[v], p))})

    case ReceiveAppend(m) =>
      var (n', resp) := HandleAppendRequest(c.nodes[m.to], m.append);
      c.(nodes := c.nodes[m.to := n'],
         net := c.net + {AppendReply(m.to, m.append, resp)},
         hist := if resp.success then RecordAck(c.hist, m.append.term, m.to, BatchEnd(m.append)) else c.hist)

    case ReceiveAppendReply(m) =>
      var v := m.append.leaderId;
      c.(nodes := c.nodes[v := HandleAppendResponse(c.nodes[v], m.from, m.appendResp, |m.append.entries|)])

    case ClientPropose(v, commands) =>
      var n := c.nodes[v];
      var n' := Propose(n, commands).value;
      c.(nodes := c.nodes[v := n'],
         hist := RecordGrowth(c.hist, n.currentTerm, v, n'.log))

    case Resign(v, hint) =>
      c.(nodes := c.nodes[v := StepDown(c.nodes[v], hint)])
  }

  /** A run: a sequence of states, each the step of its predecessor. */
  predicate IsRun(s: seq<Cluster>, actions: seq<Action>) {
    && |s| == |actions| + 1
    && Init(s[0])
    && forall i {:trigger actions[i]} | 0 <= i < |actions| ::
       Enabled(s[i], actions[i]) && s[i + 1] == Step(s[i], actions[i])
  }

  // ---------------------------------------------------------------- the hypotheses of the safety theorems

  /** A grant counts only in the term it was given in. */
  predicate VoteIsFresh(n: Node, from: NodeId, resp: VoteResponse) {
    resp.term < n.currentTerm && n.role.Candidate? && resp.granted
    ==> from in n.role.votes && |n.role.votes| < Quorum(n.config)
  }

  /** A success moves the match index only to where the acknowledged batch ends. */
  predicate AckIsCurrent(n: Node, from: NodeId, req: AppendRequest, resp: AppendResponse) {
    resp.term <= n.currentTerm && n.role.Leader? && resp.success && from in n.role.matchIndex
    ==> LastIndex(n.log) ==
          if resp.term == n.currentTerm then Max(n.role.matchIndex[from], BatchEnd(req)) else n.role.matchIndex[from]
  }

  /** An accepted request commits nothing beyond the entries it vouches for. */
  predicate CommitsWithinBatch(n: Node, req: AppendRequest) {
    req.term >= n.currentTerm && PrevMatches(n.log, req) && req.leaderCommit > n.commitIndex
    ==> Min(req.leaderCommit, LastIndex(Merge(n.log, req.entries))) <= BatchEnd(req)
  }

  predicate VotesGuarded(c: Cluster, a: Action)
    requires Enabled(c, a)
  {
    a.ReceiveVoteReply? ==> VoteIsFresh(c.nodes[a.m.vote.candidateId], a.m.from, a.m.voteResp)
  }

  predicate CommitsGuarded(c: Cluster, a: Action)
    requires Enabled(c, a)
  {
    match a
    case ReceiveAppend(m) => CommitsWithinBatch(c.nodes[m.to], m.append)
    case ReceiveAppendReply(m) => AckIsCurrent(c.nodes[m.append.leaderId], m.from, m.append, m.appendResp)
    case _ => true
  }

  /** Runs in which no stale vote is counted. */
  predicate IsElectionRun(s: seq<Cluster>, actions: seq<Action>) {
    && IsRun(s, actions)
    && forall i {:trigger actions[i]} | 0 <= i < |actions| :: VotesGuarded(s[i], actions[i])
  }

  /** Runs that keep all three hypotheses. */
  predicate IsGuardedRun(s: seq<Cluster>, actions: seq<Action>) {
    && IsElectionRun(s, actions)
    && forall i {:trigger actions[i]} | 0 <= i < |actions| :: CommitsGuarded(s[i], actions[i])
  }
}
