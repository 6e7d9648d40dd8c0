/** The data of a Raft node and of its RPCs.

    Identifiers, terms and indices are `u64` in the source; here they are natural
    numbers, so wrap-around after 2^64 steps is not part of the model. */
module RaftTypes {
  import opened Wrappers

  type NodeId = nat
  type Term = nat
  type LogIndex = nat

  /** An index of a stored entry, or a `next_index`: never 0. */
  type Pos = n: nat | n >= 1 witness 1

  newtype Byte = x: int | 0 <= x < 256
  type Bytes = seq<Byte>

  datatype Command =
    | Put(key: Bytes, value: Bytes)
    | Delete(key: Bytes)
    | Get(key: Bytes)
    | NoOp

  datatype EntryType = CommandEntry | ConfigurationEntry | NoOpEntry

  datatype LogEntry = LogEntry(term: Term, index: Pos, command: Command, entryType: EntryType)

  type Log = seq<LogEntry>

  /** The static part of a node: its id, its peers and `max_entries_per_rpc`. */
  datatype Config = Config(id: NodeId, peers: seq<NodeId>, maxEntries: nat)

  datatype Role =
    | Follower(leaderId: Option<NodeId>)
    | Candidate(votes: set<NodeId>)
    | Leader(nextIndex: map<NodeId, Pos>, matchIndex: map<NodeId, LogIndex>)

  /** The key-value state machine: its data and the last entry applied to it. */
  datatype Fsm = Fsm(data: map<Bytes, Bytes>, lastIndex: LogIndex, lastTerm: Term)

  datatype Node = Node(
    config: Config,
    currentTerm: Term,
    votedFor: Option<NodeId>,
    log: Log,
    commitIndex: LogIndex,
    lastApplied: LogIndex,
    role: Role,
    fsm: Fsm)

  datatype VoteRequest = VoteRequest(term: Term, candidateId: NodeId, lastLogIndex: LogIndex, lastLogTerm: Term)

  datatype VoteResponse = VoteResponse(term: Term, granted: bool)

  datatype AppendRequest = AppendRequest(
    term: Term,
    leaderId: NodeId,
    prevLogIndex: LogIndex,
    prevLogTerm: Term,
    entries: seq<LogEntry>,
    leaderCommit: LogIndex)

  /** A rejection carries the index to retry from; every place that builds one makes it at least 1. */
  datatype AppendResponse = AppendResponse(
    term: Term,
    success: bool,
    conflictIndex: Option<Pos>,
    conflictTerm: Option<Term>)

  function Min(a: nat, b: nat): nat {
    if a <= b then a else b
  }

  function Max(a: nat, b: nat): nat {
    if a <= b then b else a
  }
}
