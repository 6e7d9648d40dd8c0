/** The replicated key-value state machine, its replay and its snapshots. */
module KeyValueFsm {
  import opened Wrappers
  import opened RaftTypes

  datatype ApplyResult = Success | Value(value: Option<Bytes>)

  /** A serializer for the map of keys to values; only that it can be undone is used. */
  datatype DataCodec = DataCodec(encode: map<Bytes, Bytes> -> Bytes, decode: Bytes -> Option<map<Bytes, Bytes>>) {
    ghost predicate Valid() {
      forall m: map<Bytes, Bytes> :: decode(encode(m)) == Some(m)
    }
  }

  datatype Snapshot = Snapshot(lastIncludedIndex: LogIndex, lastIncludedTerm: Term, data: Bytes)

  const EMPTY_FSM := Fsm(map[], 0, 0)

  function Apply(f: Fsm, e: LogEntry): Fsm {
    Fsm(match e.command
        case Put(k, v) => f.data[k := v]
        case Delete(k) => f.data - {k}
        case Get(_) => f.data
        case NoOp => f.data,
        e.index, e.term)
  }

  function Outcome(f: Fsm, e: LogEntry): ApplyResult {
    if e.command.Get? then Value(Lookup(f, e.command.key)) else Success
  }

  function Lookup(f: Fsm, k: Bytes): Option<Bytes> {
    if k in f.data then Some(f.data[k]) else None
  }

  /** The state after applying `es` in order to `f`. */
  function Replay(f: Fsm, es: seq<LogEntry>): Fsm
    decreases |es|
  {
    if es == [] then f else Replay(Apply(f, es[0]), es[1..])
  }

  /** What a client last wrote to `k` in `es`, if anything: the meaning of a log, read backwards. */
  function LastWrite(es: seq<LogEntry>, k: Bytes): Option<Bytes> {
    if es == [] then None
    else
      match es[|es| - 1].command
      case Put(k', v) => if k' == k then Some(v) else LastWrite(es[..|es| - 1], k)
      case Delete(k') => if k' == k then None else LastWrite(es[..|es| - 1], k)
      case _ => LastWrite(es[..|es| - 1], k)
  }

  lemma {:induction false} ReplayConcat(f: Fsm, a: seq<LogEntry>, b: seq<LogEntry>)
    ensures Replay(f, a + b) == Replay(Replay(f, a), b)
    decreases |a|
  {
    if a == [] {
      assert a + b == b;
    } else {
      assert (a + b)[1..] == a[1..] + b;
      ReplayConcat(Apply(f, a[0]), a[1..], b);
    }
  }

  lemma ReplayOne(f: Fsm, es: seq<LogEntry>, e: LogEntry)
    ensures Replay(f, es + [e]) == Apply(Replay(f, es), e)
  {
    ReplayConcat(f, es, [e]);
  }

  /** The state machine remembers index and term of the last entry applied to it. */
  lemma {:induction false} ReplayRemembersLast(f: Fsm, es: seq<LogEntry>)
    requires es != []
    ensures
      var last := es[|es| - 1];
      Replay(f, es).lastIndex == last.index && Replay(f, es).lastTerm == last.term
    decreases |es|
  {
    if |es| > 1 {
      ReplayRemembersLast(Apply(f, es[0]), es[1..]);
    }
  }

  /** Reading a key after replaying a log gives the last value the log wrote to it. */
  lemma {:induction false} ReplayReadsLastWrite(es: seq<LogEntry>, k: Bytes)
    ensures Lookup(Replay(EMPTY_FSM, es), k) == LastWrite(es, k)
  {
    if es != [] {
      var init, last := es[..|es| - 1], es[|es| - 1];
      assert es == init + [last];
      ReplayOne(EMPTY_FSM, init, last);
      ReplayReadsLastWrite(init, k);
    }
  }

  /** Applying a read after a log returns what the log last wrote to that key; nothing else returns a value. */
  lemma OutcomeIsLastWrite(es: seq<LogEntry>, e: LogEntry)
    ensures Outcome(Replay(EMPTY_FSM, es), e) ==
            if e.command.Get? then Value(LastWrite(es, e.command.key)) else Success
  {
    if e.command.Get? {
      ReplayReadsLastWrite(es, e.command.key);
    }
  }

  function TakeSnapshot(codec: DataCodec, f: Fsm): Snapshot {
    Snapshot(f.lastIndex, f.lastTerm, codec.encode(f.data))
  }

  /** A snapshot whose data cannot be decoded leaves the state machine as it was. */
  function Restore(codec: DataCodec, f: Fsm, s: Snapshot): (Fsm, bool) {
    match codec.decode(s.data)
    case None => (f, false)
    case Some(data) => (Fsm(data, s.lastIncludedIndex, s.lastIncludedTerm), true)
  }

  /** Restoring a snapshot taken after `done` into any state machine and replaying `rest`
      is the same as replaying everything. */
  lemma SnapshotThenReplay(codec: DataCodec, done: seq<LogEntry>, rest: seq<LogEntry>, before: Fsm)
    requires codec.Valid()
    ensures
      var (f, ok) := Restore(codec, before, TakeSnapshot(codec, Replay(EMPTY_FSM, done)));
      ok && Replay(f, rest) == Replay(EMPTY_FSM, done + rest)
  {
    ReplayConcat(EMPTY_FSM, done, rest);
  }

  /** The object form: `apply`, `get`, `snapshot` and `restore` update or read its three fields. */
  class KeyValueStore {
    var data: map<Bytes, Bytes>
    var lastAppliedIndex: LogIndex
    var lastAppliedTerm: Term

    function State(): Fsm
      reads this
    {
      Fsm(data, lastAppliedIndex, lastAppliedTerm)
    }

    constructor ()
      ensures State() == EMPTY_FSM
    {
      data := map[];
      lastAppliedIndex := 0;
      lastAppliedTerm := 0;
    }

    method ApplyEntry(e: LogEntry) returns (r: ApplyResult)
      modifies this
      ensures State() == Apply(old(State()), e)
      ensures r == Outcome(old(State()), e)
    {
      lastAppliedIndex := e.index;
      lastAppliedTerm := e.term;
      match e.command {
        case Put(k, v) =>
          data := data[k := v];
          r := Success;
        case Delete(k) =>
          data := data - {k};
          r := Success;
        case Get(k) =>
          r := Value(if k in data then Some(data[k]) else None);
        case NoOp =>
          r := Success;
      }
    }

    method RestoreFrom(codec: DataCodec, s: Snapshot) returns (ok: bool)
      modifies this
      ensures (State(), ok) == Restore(codec, old(State()), s)
    {
      match codec.decode(s.data) {
        case None =>
          ok := false;
        case Some(d) =>
          data := d;
          lastAppliedIndex := s.lastIncludedIndex;
          lastAppliedTerm := s.lastIncludedTerm;
          ok := true;
      }
    }
  }
}
