/** Whole runs of a write-ahead log over any number of sessions, and the one kind of crash that loses entries
    appended later. */
module WalRuns {
  import opened Wrappers
  import opened RaftTypes
  import opened WalFormat
  import opened WalNames
  import opened WalSessions

  datatype Event =
    | Appended(es: seq<LogEntry>)
    | Reopened(listing: seq<string>)
    | Crashed(keep: nat, listing: seq<string>)

  ghost predicate Enabled(c: EntryCodec, w: Wal, e: Event) {
    match e
    case Appended(es) => CanAppend(c, w, es)
    case Reopened(listing) => IsListing(w.disk, listing)
    case Crashed(keep, listing) => IsListing(Crash(w, keep), listing)
  }

  /** A crash leaves nothing of the open segment, or at least its first record. */
  ghost predicate Clean(c: EntryCodec, w: Wal, e: Event) {
    e.Crashed? ==> CleanCrash(c, w, e.keep)
  }

  ghost function Next(c: EntryCodec, w: Wal, e: Event): Result<Wal>
    requires Enabled(c, w, e)
  {
    match e
    case Appended(es) => Ok(Append(c, w, es))
    case Reopened(listing) => Open(c, w.disk, listing)
    case Crashed(keep, listing) => Open(c, Crash(w, keep), listing)
  }

  /** The entries the log should hold after an event. */
  function Expected(c: EntryCodec, w: Wal, e: Event): seq<LogEntry> {
    match e
    case Appended(es) => w.entries + es
    case Reopened(_) => w.entries
    case Crashed(keep, _) => Survivors(c, w, keep)
  }

  /** A log before its first session, in a directory without segments. */
  predicate Init(w: Wal) {
    w.entries == [] && w.current == None && forall name | name in w.disk :: !IsLogName(name)
  }

  /** A run, with crashes at any byte. An opening that fails leaves the log in any state. */
  ghost predicate IsRun(c: EntryCodec, s: seq<Wal>, events: seq<Event>) {
    && |s| == |events| + 1
    && Init(s[0])
    && forall i {:trigger events[i]} | 0 <= i < |events| :: IsStep(c, s[i], events[i], s[i + 1])
  }

  ghost predicate IsStep(c: EntryCodec, w: Wal, e: Event, w': Wal) {
    Enabled(c, w, e) && (Next(c, w, e).Ok? ==> w' == Next(c, w, e).value)
  }

  /** The event is possible, and the opening it makes, if any, succeeds. */
  ghost predicate Leads(c: EntryCodec, w: Wal, e: Event, w': Wal) {
    Enabled(c, w, e) && Next(c, w, e) == Ok(w')
  }

  /** A run in which every opening succeeds. */
  ghost predicate IsGoodRun(c: EntryCodec, s: seq<Wal>, events: seq<Event>) {
    IsRun(c, s, events) && forall i {:trigger events[i]} | 0 <= i < |events| :: Leads(c, s[i], events[i], s[i + 1])
  }

  ghost predicate IsCleanRun(c: EntryCodec, s: seq<Wal>, events: seq<Event>) {
    IsRun(c, s, events) && forall i {:trigger events[i]} | 0 <= i < |events| :: Clean(c, s[i], events[i])
  }

  ghost predicate Durable(c: EntryCodec, w: Wal) {
    exists layout :: WalOK(c, w, layout)
  }

  /** Every event succeeds and leaves exactly the expected entries. */
  lemma StepIsExact(c: EntryCodec, w: Wal, e: Event)
    requires c.Valid() && Durable(c, w) && Enabled(c, w, e) && Clean(c, w, e)
    ensures
      var r := Next(c, w, e);
      r.Ok? && r.value.entries == Expected(c, w, e) && Durable(c, r.value)
  {
    var layout :| WalOK(c, w, layout);
    match e
    case Appended(es) =>
      var layout' := AppendKeeps(c, w, es, layout);
    case Reopened(listing) =>
      OpenReads(c, w.disk, w.entries, layout, listing);
      assert w.current.None? ==> WalOK(c, Wal(w.disk, w.entries, None), layout);
      if w.current.Some? {
        assert WalOK(c, Wal(w.disk, w.entries, None), layout);
      }
    case Crashed(keep, listing) =>
      var layout' := CrashKeeps(c, w, keep, layout);
      OpenReads(c, Crash(w, keep), Survivors(c, w, keep), layout', listing);
  }

  lemma StartIsDurable(c: EntryCodec, w: Wal)
    requires Init(w)
    ensures Durable(c, w)
  {
    assert Names([]) == [] && Flatten([]) == [];
    assert WalOK(c, w, []);
  }

  /** In every run of appends, restarts and crashes that leave nothing or a whole record of the open segment,
      every opening succeeds and gives back exactly the entries that were there, less the torn ones. */
  lemma {:induction false} RecoveryIsExact(c: EntryCodec, s: seq<Wal>, events: seq<Event>, i: nat)
    requires c.Valid() && IsCleanRun(c, s, events) && i <= |events|
    ensures Durable(c, s[i])
    ensures i > 0 ==> Enabled(c, s[i - 1], events[i - 1]) && Next(c, s[i - 1], events[i - 1]) == Ok(s[i])
                      && s[i].entries == Expected(c, s[i - 1], events[i - 1])
  {
    if i == 0 {
      StartIsDurable(c, s[0]);
    } else {
      RecoveryIsExact(c, s, events, i - 1);
      StepIsExact(c, s[i - 1], events[i - 1]);
    }
  }

  lemma RunStep(c: EntryCodec, s: seq<Wal>, events: seq<Event>, i: nat)
    requires c.Valid() && IsCleanRun(c, s, events) && i < |events|
    ensures !events[i].Crashed? ==>
              s[i + 1].entries == s[i].entries + if events[i].Appended? then events[i].es else []
  {
    RecoveryIsExact(c, s, events, i + 1);
    assert s[i].entries + [] == s[i].entries;
  }

  function AllAppended(events: seq<Event>): seq<LogEntry> {
    if events == [] then []
    else
      var e := events[|events| - 1];
      AllAppended(events[..|events| - 1]) + if e.Appended? then e.es else []
  }

  lemma AppendedSnoc(events: seq<Event>, i: nat)
    requires i < |events|
    ensures AllAppended(events[..i + 1]) ==
            AllAppended(events[..i]) + if events[i].Appended? then events[i].es else []
  {
    assert events[..i + 1][..i] == events[..i];
  }

  /** Without crashes, a log that is opened holds everything that was ever appended, in order. */
  lemma {:induction false} SessionsLoseNothing(c: EntryCodec, s: seq<Wal>, events: seq<Event>, i: nat)
    requires c.Valid() && IsCleanRun(c, s, events) && i <= |events|
    requires forall k | 0 <= k < |events| :: !events[k].Crashed?
    ensures s[i].entries == AllAppended(events[..i])
  {
    if i > 0 {
      SessionsLoseNothing(c, s, events, i - 1);
      RunStep(c, s, events, i - 1);
      assert !events[i - 1].Crashed?;
      AppendedSnoc(events, i - 1);
    }
  }

  // ---------------------------------------------------------------- a torn first record

  lemma TornFirst(c: EntryCodec, seg: seq<LogEntry>, keep: nat)
    requires seg != [] && keep < |Record(c, seg[0])|
    ensures WholeRecords(c, seg, keep) == 0 && keep <= |Encode(c, seg)|
    ensures Encode(c, seg)[..keep] == Record(c, seg[0])[..keep]
  {
  }

  /** The directory after a crash that tore the first record of the open segment and an append to the same file. */
  function TornThenAppended(c: EntryCodec, w: Wal, keep: nat, es: seq<LogEntry>): Disk {
    Append(c, Wal(Crash(w, keep), Survivors(c, w, keep), None), es).disk
  }

  lemma TornSurvivors(c: EntryCodec, w: Wal, init: Layout, p: Piece, keep: nat)
    requires WalOK(c, w, init + [p]) && w.current.Some? && p.entries != [] && keep < |Record(c, p.entries[0])|
    ensures OpenSegment(w) == p.entries && Survivors(c, w, keep) == Flatten(init)
    ensures NextBase(Flatten(init)) == p.base
    ensures Crash(w, keep) == w.disk[Name(p.base) := Record(c, p.entries[0])[..keep]]
  {
    OpenSegmentIs(c, w, init, p);
    TornFirst(c, p.entries, keep);
    assert Survivors(c, w, keep) == Flatten(init);
    SurvivorsNumbered(c, w, keep);
    StoredIsNumbered(Flatten(init));
    ChainedSnoc(init, p, 1);
    TornCrash(c, w, init, p, keep);
  }

  lemma TornCrash(c: EntryCodec, w: Wal, init: Layout, p: Piece, keep: nat)
    requires WalOK(c, w, init + [p]) && w.current.Some? && p.entries != [] && keep < |Record(c, p.entries[0])|
    ensures Crash(w, keep) == w.disk[Name(p.base) := Record(c, p.entries[0])[..keep]]
  {
    TornFirst(c, p.entries, keep);
    LastContent(c, w, init, p);
  }

  /** The bytes of the open segment are its records. */
  lemma LastContent(c: EntryCodec, w: Wal, init: Layout, p: Piece)
    requires WalOK(c, w, init + [p]) && w.current.Some?
    ensures w.current == Some(p.base) && FileOf(w.disk, Name(p.base)) == Encode(c, p.entries)
  {
    var layout := init + [p];
    assert layout[|layout| - 1] == p && p in layout && IsFile(c, w.disk, p);
    assert Encode(c, p.entries) + [] == Encode(c, p.entries);
  }

  lemma TornFile(c: EntryCodec, w: Wal, init: Layout, p: Piece, keep: nat, es: seq<LogEntry>)
    requires WalOK(c, w, init + [p]) && w.current.Some? && p.entries != [] && keep < |Record(c, p.entries[0])|
    ensures TornThenAppended(c, w, keep, es) == w.disk[Name(p.base) := Record(c, p.entries[0])[..keep] + Encode(c, es)]
  {
    TornSurvivors(c, w, init, p, keep);
    AppendedTo(c, w.disk, p.base, Record(c, p.entries[0])[..keep], Flatten(init), es);
  }

  lemma AppendedTo(c: EntryCodec, disk: Disk, base: nat, bytes: Bytes, entries: seq<LogEntry>, es: seq<LogEntry>)
    requires NextBase(entries) == base
    ensures Append(c, Wal(disk[Name(base) := bytes], entries, None), es).disk ==
            disk[Name(base) := bytes + Encode(c, es)]
  {
  }

  /** The file with the torn record at its front. */
  function TornBytes(c: EntryCodec, first: LogEntry, keep: nat, es: seq<LogEntry>): Bytes
    requires keep < |Record(c, first)|
  {
    Record(c, first)[..keep] + Encode(c, es)
  }

  lemma ReadOne(c: EntryCodec, disk: Disk, name: string)
    requires name in disk
    ensures ReadAll(c, disk, [name]) == Parse(c, disk[name])
  {
    var r := Parse(c, disk[name]);
    assert [name][1..] == [] && ReadAll(c, disk, [name][1..]) == Ok([]);
    assert r.Ok? ==> r.value + [] == r.value;
  }

  lemma {:induction false} ReadsThen(c: EntryCodec, disk: Disk, init: Layout, name: string)
    requires c.Valid() && PiecesOK(c, init) && name in disk
    requires forall p {:trigger IsFile(c, disk, p)} | p in init :: IsFile(c, disk, p)
    ensures forall x | x in Names(init) + [name] :: x in disk
    ensures ReadAll(c, disk, Names(init) + [name]) == PrependAll(Flatten(init), Parse(c, disk[name]))
    decreases |init|
  {
    var all := Names(init) + [name];
    if init == [] {
      assert all == [name];
      ReadOne(c, disk, name);
      PrependMore([], Parse(c, disk[name]));
    } else {
      var p := init[0];
      assert PieceOK(c, p) && IsFile(c, disk, p) && init == [p] + init[1..];
      ParsePiece(c, p);
      ReadsThen(c, disk, init[1..], name);
      assert all[0] == Name(p.base) && all[1..] == Names(init[1..]) + [name];
      PrependTwice(p.entries, Flatten(init[1..]), Parse(c, disk[name]));
    }
  }

  /** A last file with any bytes: opening reads the others and what of it can be read. */
  lemma OpensWithLast(c: EntryCodec, disk: Disk, init: Layout, base: nat, bytes: Bytes, listing: seq<string>)
    requires c.Valid() && PiecesOK(c, init) && OnDisk(c, disk, init + [Piece(base, [], bytes)])
    requires Chained(init + [Piece(base, [], bytes)], 1) && |Flatten(init)| + 1 < NAME_LIMIT && IsListing(disk, listing)
    ensures Open(c, disk, listing) ==
            match Parse(c, bytes) case Err => Err case Ok(rs) => Ok(Wal(disk, Flatten(init) + rs, None))
  {
    var p := Piece(base, [], bytes);
    var layout := init + [p];
    FlattenSnoc(init, p);
    NamesAscending(layout, 1);
    NamesOfDisk(c, disk, layout, listing);
    SortOfListing(LogNames(listing), Names(layout));
    assert Names(layout) == Names(init) + [Name(base)];
    forall q | q in init ensures IsFile(c, disk, q) {
      assert q in layout;
    }
    assert p in layout && IsFile(c, disk, p) && Content(c, p) == bytes;
    ReadsThen(c, disk, init, Name(base));
  }

  lemma TornLayout(c: EntryCodec, w: Wal, init: Layout, p: Piece, bytes: Bytes)
    requires WalOK(c, w, init + [p])
    ensures OnDisk(c, w.disk[Name(p.base) := bytes], init + [Piece(p.base, [], bytes)])
    ensures Chained(init + [Piece(p.base, [], bytes)], 1) && |Flatten(init)| + 1 < NAME_LIMIT && PiecesOK(c, init)
  {
    var p' := Piece(p.base, [], bytes);
    LastOnDisk(c, w.disk, init, p, p', bytes);
    ChainedSnoc(init, p, 1);
    ChainedSnoc(init, p', 1);
    FlattenSnoc(init, p);
    forall q | q in init ensures PieceOK(c, q) {
      assert q in init + [p];
    }
  }

  lemma OpensTorn(c: EntryCodec, w: Wal, init: Layout, p: Piece, bytes: Bytes, listing: seq<string>)
    requires c.Valid() && WalOK(c, w, init + [p]) && IsListing(w.disk[Name(p.base) := bytes], listing)
    ensures
      var disk := w.disk[Name(p.base) := bytes];
      Open(c, disk, listing) ==
        match Parse(c, bytes) case Err => Err case Ok(rs) => Ok(Wal(disk, Flatten(init) + rs, None))
  {
    TornLayout(c, w, init, p, bytes);
    OpensWithLast(c, w.disk[Name(p.base) := bytes], init, p.base, bytes, listing);
  }

  /** After a crash that tears the first record of the open segment, the next session writes into the same file behind
      the torn bytes. The opening after that gives the survivors and what the bytes of that file happen to say. */
  lemma TornThenOpened(c: EntryCodec, w: Wal, layout: Layout, keep: nat, es: seq<LogEntry>, listing: seq<string>)
    requires c.Valid() && WalOK(c, w, layout) && OpenSegment(w) != [] && keep < |Record(c, OpenSegment(w)[0])|
    requires IsListing(TornThenAppended(c, w, keep, es), listing)
    ensures
      var disk := TornThenAppended(c, w, keep, es);
      Open(c, disk, listing) ==
        match Parse(c, TornBytes(c, OpenSegment(w)[0], keep, es))
        case Err => Err
        case Ok(rs) => Ok(Wal(disk, Survivors(c, w, keep) + rs, None))
  {
    var init, p := OpenPiece(c, w, layout);
    TornPieceOpened(c, w, init, p, keep, es, listing);
  }

  lemma OpenPiece(c: EntryCodec, w: Wal, layout: Layout) returns (init: Layout, p: Piece)
    requires WalOK(c, w, layout) && OpenSegment(w) != []
    ensures w.current.Some? && WalOK(c, w, init + [p]) && OpenSegment(w) == p.entries
  {
    init, p := layout[..|layout| - 1], layout[|layout| - 1];
    assert layout == init + [p];
    OpenSegmentIs(c, w, init, p);
  }

  lemma TornPieceOpened(c: EntryCodec, w: Wal, init: Layout, p: Piece, keep: nat, es: seq<LogEntry>,
                        listing: seq<string>)
    requires c.Valid() && WalOK(c, w, init + [p]) && w.current.Some?
    requires p.entries != [] && keep < |Record(c, p.entries[0])|
    requires IsListing(TornThenAppended(c, w, keep, es), listing)
    ensures
      var disk := TornThenAppended(c, w, keep, es);
      Open(c, disk, listing) ==
        match Parse(c, TornBytes(c, p.entries[0], keep, es))
        case Err => Err
        case Ok(rs) => Ok(Wal(disk, Survivors(c, w, keep) + rs, None))
  {
    TornSurvivors(c, w, init, p, keep);
    TornFile(c, w, init, p, keep, es);
    OpensTorn(c, w, init, p, TornBytes(c, p.entries[0], keep, es), listing);
  }

  /** So the appended entries are all gone exactly if no whole record with a right checksum is at the front of the
      torn bytes and what follows them. */
  lemma TornFirstRecordLosesAppends(c: EntryCodec, w: Wal, layout: Layout, keep: nat, es: seq<LogEntry>,
                                    listing: seq<string>)
    requires c.Valid() && WalOK(c, w, layout) && OpenSegment(w) != [] && keep < |Record(c, OpenSegment(w)[0])|
    requires IsListing(TornThenAppended(c, w, keep, es), listing)
    ensures
      var disk := TornThenAppended(c, w, keep, es);
      Open(c, disk, listing) == Ok(Wal(disk, Survivors(c, w, keep), None))
      <==> !Intact(c, TornBytes(c, OpenSegment(w)[0], keep, es))
  {
    TornThenOpened(c, w, layout, keep, es, listing);
    var r := Parse(c, TornBytes(c, OpenSegment(w)[0], keep, es));
    assert r.Ok? ==> |Survivors(c, w, keep) + r.value| == |Survivors(c, w, keep)| + |r.value|;
    assert r == Ok([]) ==> Survivors(c, w, keep) + r.value == Survivors(c, w, keep);
  }

  // ---------------------------------------------------------------- a run that loses an entry

  /** The directory of a log with one segment that starts at 1. */
  function OneFile(bytes: Bytes): Disk {
    map[Name(1) := bytes]
  }

  lemma OneFileListing(bytes: Bytes)
    ensures IsListing(OneFile(bytes), [Name(1)])
  {
  }

  function LossEvents(keep: nat, e: LogEntry, e': LogEntry): seq<Event> {
    [Appended([e]), Crashed(keep, [Name(1)]), Appended([e']), Reopened([Name(1)])]
  }

  function LossStates(c: EntryCodec, keep: nat, e: LogEntry, e': LogEntry): seq<Wal>
    requires keep < |Record(c, e)|
  {
    var torn := Record(c, e)[..keep];
    [Wal(map[], [], None),
     Wal(OneFile(Record(c, e)), [e], Some(1)),
     Wal(OneFile(torn), [], None),
     Wal(OneFile(torn + Record(c, e')), [e'], Some(1)),
     Wal(OneFile(torn + Record(c, e')), [], None)]
  }

  lemma OpenFile(c: EntryCodec, bytes: Bytes)
    ensures IsListing(OneFile(bytes), [Name(1)])
    ensures Open(c, OneFile(bytes), [Name(1)]) ==
            match Parse(c, bytes) case Err => Err case Ok(es) => Ok(Wal(OneFile(bytes), es, None))
  {
    OneFileListing(bytes);
    ListedNames(OneFile(bytes), [Name(1)]);
    NameIsLog(1);
    assert [Name(1)][1..] == [];
    assert LogNames([Name(1)]) == [Name(1)];
    assert Sort([Name(1)]) == [Name(1)];
    ReadOne(c, OneFile(bytes), Name(1));
  }

  lemma OpenOne(c: EntryCodec, bytes: Bytes)
    requires !Intact(c, bytes)
    ensures IsListing(OneFile(bytes), [Name(1)])
    ensures Open(c, OneFile(bytes), [Name(1)]) == Ok(Wal(OneFile(bytes), [], None))
  {
    OpenFile(c, bytes);
  }

  lemma EncodeOne(c: EntryCodec, e: LogEntry)
    ensures Encode(c, [e]) == Record(c, e)
  {
    assert Record(c, e) + [] == Record(c, e);
  }

  lemma AppendOne(c: EntryCodec, w: Wal, e: LogEntry)
    requires w.entries == [] && w.current == None && e.index == 1 && |c.encode(e)| < 0x1_0000_0000
    ensures CanAppend(c, w, [e])
    ensures Append(c, w, [e]) == Wal(w.disk[Name(1) := FileOf(w.disk, Name(1)) + Record(c, e)], [e], Some(1))
  {
    EncodeOne(c, e);
    assert [] + [e] == [e];
  }

  /** Append, a crash that tears that first record, append, reopen: every opening succeeds and the second entry is
      gone. */
  lemma LossIsRun(c: EntryCodec, keep: nat, e: LogEntry, e': LogEntry)
    requires c.Valid() && e.index == e'.index == 1
    requires |c.encode(e)| < 0x1_0000_0000 && |c.encode(e')| < 0x1_0000_0000
    requires keep < |Record(c, e)| && !Intact(c, Record(c, e)[..keep] + Record(c, e'))
    ensures IsGoodRun(c, LossStates(c, keep, e, e'), LossEvents(keep, e, e'))
  {
    LossBegins(c, keep, e);
    LossEnds(c, Record(c, e)[..keep], e');
    var s, events := LossStates(c, keep, e, e'), LossEvents(keep, e, e');
    forall i {:trigger events[i]} | 0 <= i < 4 ensures Leads(c, s[i], events[i], s[i + 1]) {
      if i == 0 {
        assert Leads(c, s[0], events[0], s[1]);
      } else if i == 1 {
        assert Leads(c, s[1], events[1], s[2]);
      } else if i == 2 {
        assert Leads(c, s[2], events[2], s[3]);
      }
    }
    LeadsAreRun(c, s, events);
  }

  lemma LeadIsStep(c: EntryCodec, w: Wal, e: Event, w': Wal)
    requires Leads(c, w, e, w')
    ensures IsStep(c, w, e, w')
  {
  }

  lemma LeadsAreRun(c: EntryCodec, s: seq<Wal>, events: seq<Event>)
    requires |s| == |events| + 1 && Init(s[0])
    requires forall i {:trigger events[i]} | 0 <= i < |events| :: Leads(c, s[i], events[i], s[i + 1])
    ensures IsGoodRun(c, s, events)
  {
    forall i {:trigger events[i]} | 0 <= i < |events| ensures IsStep(c, s[i], events[i], s[i + 1]) {
      LeadIsStep(c, s[i], events[i], s[i + 1]);
    }
  }

  lemma LossBegins(c: EntryCodec, keep: nat, e: LogEntry)
    requires c.Valid() && e.index == 1 && |c.encode(e)| < 0x1_0000_0000 && keep < |Record(c, e)|
    ensures
      var w, w', torn := Wal(map[], [], None), Wal(OneFile(Record(c, e)), [e], Some(1)), Record(c, e)[..keep];
      Leads(c, w, Appended([e]), w') && Leads(c, w', Crashed(keep, [Name(1)]), Wal(OneFile(torn), [], None))
  {
    FirstAppend(c, e);
    CrashOne(Record(c, e), [e], keep);
    TornIsNotIntact(c, e, keep);
    OpenOne(c, Record(c, e)[..keep]);
  }

  lemma FirstAppend(c: EntryCodec, e: LogEntry)
    requires e.index == 1 && |c.encode(e)| < 0x1_0000_0000
    ensures Leads(c, Wal(map[], [], None), Appended([e]), Wal(OneFile(Record(c, e)), [e], Some(1)))
  {
    AppendOne(c, Wal(map[], [], None), e);
    var none: Bytes := [];
    assert none + Record(c, e) == Record(c, e);
  }

  lemma CrashOne(bytes: Bytes, es: seq<LogEntry>, keep: nat)
    requires keep <= |bytes|
    ensures Crash(Wal(OneFile(bytes), es, Some(1)), keep) == OneFile(bytes[..keep])
  {
    assert FileOf(OneFile(bytes), Name(1)) == bytes;
  }

  lemma LossEnds(c: EntryCodec, torn: Bytes, e: LogEntry)
    requires e.index == 1 && |c.encode(e)| < 0x1_0000_0000 && !Intact(c, torn + Record(c, e))
    ensures
      var w, disk := Wal(OneFile(torn), [], None), OneFile(torn + Record(c, e));
      && Leads(c, w, Appended([e]), Wal(disk, [e], Some(1)))
      && Leads(c, Wal(disk, [e], Some(1)), Reopened([Name(1)]), Wal(disk, [], None))
  {
    AppendOne(c, Wal(OneFile(torn), [], None), e);
    OneFileWith(torn, torn + Record(c, e));
    OpenOne(c, torn + Record(c, e));
  }

  lemma OneFileWith(bytes: Bytes, bytes': Bytes)
    ensures OneFile(bytes)[Name(1) := bytes'] == OneFile(bytes')
  {
  }

  /** Whatever the codec, a tear of one byte loses the next session's first entry, if its encoding is neither empty nor
      of 2^24 bytes or more. */
  lemma OneByteTearLosesEntry(c: EntryCodec, e: LogEntry, e': LogEntry) returns (s: seq<Wal>, events: seq<Event>)
    requires c.Valid() && e.index == e'.index == 1
    requires |c.encode(e)| < 0x1_0000_0000 && 1 <= |c.encode(e')| < 0x100_0000
    ensures IsGoodRun(c, s, events) && |events| == 4
    ensures events[0] == Appended([e]) && events[1].Crashed? && events[2] == Appended([e']) && events[3].Reopened?
    ensures s[3].entries == [e'] && s[4].entries == []
  {
    OneByteTearHides(c, e, e');
    LossIsRun(c, 1, e, e');
    s, events := LossStates(c, 1, e, e'), LossEvents(1, e, e');
  }
}
