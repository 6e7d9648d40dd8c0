/** Every step of the cluster is a short sequence of moves, each changing one thing. The invariants
    are proved move by move and lifted to steps at the end. */
module RaftMoves {
  import opened Wrappers
  import opened RaftTypes
  import opened RaftHandlers
  import opened RaftCluster

  function With(c: Cluster, v: NodeId, n: Node): Cluster {
    c.(nodes := c.nodes[v := n])
  }

  /** A message enters the network. */
  function Sent(c: Cluster, m: Message): Cluster {
    c.(net := c.net + {m})
  }

  /** A node becomes a follower in its own or a later term. */
  function Lowered(c: Cluster, v: NodeId, t: Term, hint: Option<NodeId>): Cluster
    requires v in c.nodes && t >= c.nodes[v].currentTerm
  {
    var n := c.nodes[v];
    With(c, v, n.(currentTerm := t,
                  votedFor := if t > n.currentTerm then None else n.votedFor,
                  role := Follower(hint)))
  }

  /** A node starts an election and votes for itself. */
  function Candidacy(c: Cluster, v: NodeId): Cluster
    requires v in c.nodes
  {
    var n := c.nodes[v];
    With(c, v, BecomeCandidate(n)).(hist := RecordVote(c.hist, n.currentTerm + 1, v, v, n.log))
  }

  /** A node gives its vote of the current term. */
  function Granted(c: Cluster, v: NodeId, candidate: NodeId): Cluster
    requires v in c.nodes
  {
    var n := c.nodes[v];
    With(c, v, n.(votedFor := Some(candidate))).(hist := RecordVote(c.hist, n.currentTerm, v, candidate, n.log))
  }

  /** A candidate counts a vote. */
  function Counted(c: Cluster, v: NodeId, x: NodeId): Cluster
    requires v in c.nodes && c.nodes[v].role.Candidate?
  {
    var n := c.nodes[v];
    With(c, v, n.(role := Candidate(n.role.votes + {x})))
  }

  /** A candidate takes office. */
  function Elected(c: Cluster, v: NodeId): Cluster
    requires v in c.nodes && c.nodes[v].role.Candidate?
  {
    var n := c.nodes[v];
    var n' := BecomeLeader(n);
    With(c, v, n').(hist := RecordElection(c.hist, n.currentTerm, v, n.role.votes, n.log, n'.log))
  }

  /** A follower takes over a batch and thereby acknowledges the leader's log up to `k`. */
  function Merged(c: Cluster, v: NodeId, entries: seq<LogEntry>, k: nat): Cluster
    requires v in c.nodes
  {
    var n := c.nodes[v];
    With(c, v, n.(log := Merge(n.log, entries))).(hist := RecordAck(c.hist, n.currentTerm, v, k))
  }

  /** A node commits and applies everything up to `k`. */
  function CommittedTo(c: Cluster, v: NodeId, k: LogIndex): Cluster
    requires v in c.nodes
  {
    With(c, v, ApplyCommitted(c.nodes[v].(commitIndex := k)))
  }

  /** A leader changes what it knows of its peers. */
  function Tracked(c: Cluster, v: NodeId, next: map<NodeId, Pos>, matched: map<NodeId, LogIndex>): Cluster
    requires v in c.nodes
  {
    With(c, v, c.nodes[v].(role := Leader(next, matched)))
  }

  /** A leader appends entries of its own term. */
  function Appended(c: Cluster, v: NodeId, commands: seq<Command>): Cluster
    requires v in c.nodes
  {
    var n := c.nodes[v];
    var log := n.log + Proposed(n.currentTerm, LastIndex(n.log) + 1, commands);
    With(c, v, n.(log := log)).(hist := RecordGrowth(c.hist, n.currentTerm, v, log))
  }
}
