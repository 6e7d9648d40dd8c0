/** The node as the object it is: fields updated in place by its handlers, each proved to do what the
    corresponding function on node states says. */
module RaftNode {
  import opened Wrappers
  import opened RaftTypes
  import opened KeyValueFsm
  import opened RaftHandlers

  datatype Proposal = Accepted(indices: seq<LogIndex>) | NotLeader(hint: Option<NodeId>)

  class RaftServer {
    const config: Config
    const fsm: KeyValueStore
    var currentTerm: Term
    var votedFor: Option<NodeId>
    var log: Log
    var commitIndex: LogIndex
    var lastApplied: LogIndex
    var role: Role

    function State(): Node
      reads this, fsm
    {
      Node(config, currentTerm, votedFor, log, commitIndex, lastApplied, role, fsm.State())
    }

    constructor (config: Config)
      ensures State() == InitNode(config) && fresh(fsm)
    {
      this.config := config;
      this.fsm := new KeyValueStore();
      currentTerm, votedFor, log := 0, None, [];
      commitIndex, lastApplied, role := 0, 0, Follower(None);
    }

    method LastLog() returns (index: LogIndex, term: Term)
      ensures index == LastIndex(log) && term == LastTerm(log)
    {
      if |log| == 0 {
        index, term := 0, 0;
      } else {
        index, term := log[|log| - 1].index, log[|log| - 1].term;
      }
    }

    // -------------------------------------------------------------- elections

    method TransitionToFollower(leader: Option<NodeId>)
      modifies this
      ensures State() == StepDown(old(State()), leader)
    {
      role := Follower(leader);
    }

    method TransitionToCandidate()
      modifies this
      ensures State() == BecomeCandidate(old(State()))
    {
      currentTerm := currentTerm + 1;
      votedFor := Some(config.id);
      role := Candidate({config.id});
    }

    method TransitionToLeader()
      modifies this
      ensures State() == BecomeLeader(old(State()))
    {
      var lastIndex, _ := LastLog();
      var next: map<NodeId, Pos>, matched: map<NodeId, LogIndex> := map[], map[];
      for i := 0 to |config.peers|
        invariant next == Uniform<Pos>(config.peers[..i], lastIndex + 1)
        invariant matched == Uniform<LogIndex>(config.peers[..i], 0)
      {
        assert config.peers[..i + 1][..i] == config.peers[..i];
        next := next[config.peers[i] := lastIndex + 1];
        matched := matched[config.peers[i] := 0];
      }
      assert config.peers[..|config.peers|] == config.peers;
      role := Leader(next, matched);
      log := log + [LogEntry(currentTerm, lastIndex + 1, NoOp, NoOpEntry)];
    }

    method HandleRequestVote(req: VoteRequest) returns (resp: VoteResponse)
      modifies this
      ensures (State(), resp) == HandleVoteRequest(old(State()), req)
    {
      if req.term < currentTerm {
        return VoteResponse(currentTerm, false);
      }
      if req.term > currentTerm {
        currentTerm := req.term;
        votedFor := None;
        TransitionToFollower(None);
      }
      var canVote := votedFor == None || votedFor == Some(req.candidateId);
      var lastIndex, lastTerm := LastLog();
      var logOk := req.lastLogTerm > lastTerm || (req.lastLogTerm == lastTerm && req.lastLogIndex >= lastIndex);
      if canVote && logOk {
        votedFor := Some(req.candidateId);
        resp := VoteResponse(currentTerm, true);
      } else {
        resp := VoteResponse(currentTerm, false);
      }
    }

    method HandleRequestVoteResponse(from: NodeId, resp: VoteResponse)
      modifies this
      ensures State() == HandleVoteResponse(old(State()), from, resp)
    {
      if resp.term > currentTerm {
        currentTerm := resp.term;
        votedFor := None;
        TransitionToFollower(None);
        return;
      }
      if role.Candidate? && resp.granted {
        role := Candidate(role.votes + {from});
        var quorum := (|config.peers| + 1) / 2 + 1;
        if |role.votes| >= quorum {
          TransitionToLeader();
        }
      }
    }

    // -------------------------------------------------------------- replication

    /** The loop that scans for the first entry of the conflicting term. */
    method FirstIndexOfTerm(t: Term) returns (index: Pos)
      ensures index == FirstOfTerm(log, t, 0)
      ensures (exists e | e in log :: e.term == t) ==>
                index <= |log| && log[index - 1].term == t && forall j | 0 <= j < index - 1 :: log[j].term != t
    {
      for i := 0 to |log|
        invariant FirstOfTerm(log, t, 0) == FirstOfTerm(log, t, i)
        invariant forall j | 0 <= j < i :: log[j].term != t
      {
        if log[i].term == t {
          return i + 1;
        }
      }
      index := 1;
    }

    /** The loop that deletes conflicting entries and appends new ones. */
    method MergeEntries(entries: seq<LogEntry>)
      modifies this`log
      ensures log == Merge(old(log), entries)
    {
      for i := 0 to |entries|
        invariant Merge(log, entries[i..]) == Merge(old(log), entries)
      {
        var e := entries[i];
        assert entries[i..][0] == e && entries[i..][1..] == entries[i + 1..];
        if e.index <= |log| {
          if log[e.index - 1].term != e.term {
            log := log[..e.index - 1];
            log := log + [e];
          }
        } else {
          log := log + [e];
        }
      }
    }

    method ApplyCommittedEntries()
      modifies this`lastApplied, fsm
      ensures State() == ApplyCommitted(old(State()))
    {
      while lastApplied < commitIndex
        invariant ApplyCommitted(State()) == ApplyCommitted(old(State()))
        decreases commitIndex - lastApplied
      {
        lastApplied := lastApplied + 1;
        if 0 < lastApplied <= |log| {
          var _ := fsm.ApplyEntry(log[lastApplied - 1]);
        }
      }
    }

    method HandleAppendEntries(req: AppendRequest) returns (resp: AppendResponse)
      modifies this, fsm
      ensures (State(), resp) == HandleAppendRequest(old(State()), req)
    {
      if req.term < currentTerm {
        return AppendResponse(currentTerm, false, None, None);
      }
      if req.term > currentTerm {
        currentTerm := req.term;
        votedFor := None;
      }
      TransitionToFollower(Some(req.leaderId));

      if req.prevLogIndex > 0 {
        if req.prevLogIndex > |log| {
          var lastIndex, _ := LastLog();
          return AppendResponse(currentTerm, false, Some(lastIndex + 1), None);
        }
        var entry := log[req.prevLogIndex - 1];
        if entry.term != req.prevLogTerm {
          var conflictIndex := FirstIndexOfTerm(entry.term);
          return AppendResponse(currentTerm, false, Some(conflictIndex), Some(entry.term));
        }
      }

      ghost var followed := State();
      MergeEntries(req.entries);
      assert followed == Follow(old(State()), req.term, req.leaderId) && PrevMatches(followed.log, req);
      assert State() == followed.(log := Merge(followed.log, req.entries));

      if req.leaderCommit > commitIndex {
        var lastIndex, _ := LastLog();
        commitIndex := if req.leaderCommit <= lastIndex then req.leaderCommit else lastIndex;
        ApplyCommittedEntries();
      }
      resp := AppendResponse(currentTerm, true, None, None);
    }

    /** The match indices of the peers, in their order. */
    method MatchIndices() returns (indices: seq<LogIndex>)
      requires role.Leader? && TracksPeers(State())
      ensures indices == MatchValues(config.peers, role.matchIndex)
    {
      indices := [];
      for i := 0 to |config.peers|
        invariant indices + MatchValues(config.peers[i..], role.matchIndex) ==
                  MatchValues(config.peers, role.matchIndex)
      {
        assert config.peers[i..][0] == config.peers[i] && config.peers[i..][1..] == config.peers[i + 1..];
        indices := indices + [role.matchIndex[config.peers[i]]];
      }
    }

    method TryAdvanceCommitIndex()
      requires TracksPeers(State())
      modifies this, fsm
      ensures State() == TryAdvance(old(State()))
    {
      if role.Leader? {
        var indices := MatchIndices();
        var lastIndex, _ := LastLog();
        indices := Sort(indices + [lastIndex]);
        var quorum := (|config.peers| + 1) / 2 + 1;
        var newCommit := indices[|indices| - quorum];
        if newCommit > commitIndex && newCommit <= |log| && log[newCommit - 1].term == currentTerm {
          commitIndex := newCommit;
          ApplyCommittedEntries();
        }
      }
    }

    method HandleAppendEntriesResponse(from: NodeId, resp: AppendResponse, entriesSent: nat)
      requires TracksPeers(State())
      modifies this, fsm
      ensures State() == HandleAppendResponse(old(State()), from, resp, entriesSent)
    {
      if resp.term > currentTerm {
        currentTerm := resp.term;
        votedFor := None;
        TransitionToFollower(None);
        return;
      }
      if role.Leader? {
        if resp.success {
          NoteSuccess(from, entriesSent);
          TryAdvanceCommitIndex();
        } else {
          NoteFailure(from, resp);
        }
      }
    }

    method NoteSuccess(from: NodeId, entriesSent: nat)
      requires role.Leader?
      modifies this`role
      ensures State() == RecordSuccess(old(State()), from, entriesSent)
    {
      var lastIndex, _ := LastLog();
      var next, matched := role.nextIndex, role.matchIndex;
      if from in next {
        next := next[from := next[from] + entriesSent];
      }
      if from in matched {
        matched := matched[from := lastIndex];
      }
      role := Leader(next, matched);
    }

    method NoteFailure(from: NodeId, resp: AppendResponse)
      requires role.Leader?
      modifies this`role
      ensures State() == RecordFailure(old(State()), from, resp)
    {
      var next := role.nextIndex;
      if from in next {
        match resp.conflictIndex {
          case Some(i) =>
            next := next[from := i];
          case None =>
            if next[from] > 1 {
              next := next[from := next[from] - 1];
            }
        }
        role := Leader(next, role.matchIndex);
      }
    }

    /** The entries from `next` on, as many as one request may carry. */
    method EntriesForPeer(next: Pos) returns (entries: seq<LogEntry>)
      ensures entries == TakeUpTo(EntriesFrom(log, next), config.maxEntries)
    {
      entries := [];
      for i := 0 to |log|
        invariant entries + EntriesFrom(log[i..], next) == EntriesFrom(log, next)
      {
        assert log[i..][0] == log[i] && log[i..][1..] == log[i + 1..];
        if log[i].index >= next {
          entries := entries + [log[i]];
        }
      }
      if |entries| > config.maxEntries {
        entries := entries[..config.maxEntries];
      }
    }

    /** `get_entries_for_peer` and `build_append_entries_request`. */
    method BuildAppendEntriesRequest(peer: NodeId) returns (req: AppendRequest)
      ensures req == BuildAppendRequest(State(), peer)
    {
      if !role.Leader? {
        return AppendRequest(currentTerm, config.id, 0, 0, [], commitIndex);
      }
      var next: Pos := if peer in role.nextIndex then role.nextIndex[peer] else 1;
      var prevTerm := if 0 < next - 1 <= |log| then log[next - 2].term else 0;
      var entries := EntriesForPeer(next);
      req := AppendRequest(currentTerm, config.id, next - 1, prevTerm, entries, commitIndex);
    }

    method BuildRequestVoteRequest() returns (req: VoteRequest)
      ensures req == BuildVoteRequest(State())
    {
      var index, term := LastLog();
      req := VoteRequest(currentTerm, config.id, index, term);
    }

    // -------------------------------------------------------------- proposals

    function LeaderId(): Option<NodeId>
      reads this
    {
      match role
      case Leader(_, _) => Some(config.id)
      case Follower(hint) => hint
      case Candidate(_) => None
    }

    /** Only a leader takes proposals. It stores them in order behind its log, numbered on from its last index. */
    method BatchPropose(commands: seq<Command>) returns (r: Proposal)
      modifies this`log
      ensures r.Accepted? <==> role.Leader?
      ensures r.NotLeader? ==> r.hint == if role.Follower? then role.leaderId else None
      ensures r.Accepted? ==>
                && |r.indices| == |commands| && |log| == |old(log)| + |commands| && old(log) <= log
                && forall i | 0 <= i < |commands| ::
                     var e := log[|old(log)| + i];
                     e.command == commands[i] && e.index == r.indices[i] && e.term == currentTerm
                     && e.entryType == CommandEntry
      ensures match Propose(old(State()), commands)
              case None => State() == old(State()) && r == NotLeader(LeaderId())
              case Some(n) =>
                State() == n
                && r == Accepted(seq(|commands|, i requires 0 <= i < |commands| => LastIndex(old(log)) + 1 + i))
    {
      if !role.Leader? {
        return NotLeader(LeaderId());
      }
      var lastIndex, _ := LastLog();
      var indices: seq<LogIndex> := [];
      for i := 0 to |commands|
        invariant log == old(log) + Proposed(currentTerm, lastIndex + 1, commands)[..i]
        invariant indices == seq(i, j requires 0 <= j < i => lastIndex + 1 + j)
      {
        var e := LogEntry(currentTerm, lastIndex + 1 + i, commands[i], CommandEntry);
        assert Proposed(currentTerm, lastIndex + 1, commands)[..i + 1]
            == Proposed(currentTerm, lastIndex + 1, commands)[..i] + [e];
        log := log + [e];
        indices := indices + [lastIndex + 1 + i];
      }
      r := Accepted(indices);
    }
  }
}
