/** Sessions of the write-ahead log on one directory: opening, appending, crashing, opening again. */
module WalSessions {
  import opened Wrappers
  import opened RaftTypes
  import opened WalFormat
  import opened WalNames

  type Disk = map<string, Bytes>

  /** The log as its owner sees it, and its directory. `current` is the base index of the open segment. */
  datatype Wal = Wal(disk: Disk, entries: seq<LogEntry>, current: Option<nat>)

  /** A directory listing names every file once, in any order. */
  ghost predicate IsListing(disk: Disk, listing: seq<string>) {
    Distinct(listing) && forall x :: x in listing <==> x in disk
  }

  /** The files are read one after the other. */
  function ReadAll(c: EntryCodec, disk: Disk, names: seq<string>): Result<seq<LogEntry>>
    requires forall x | x in names :: x in disk
  {
    if names == [] then Ok([])
    else
      match Parse(c, disk[names[0]])
      case Err => Err
      case Ok(es) => PrependAll(es, ReadAll(c, disk, names[1..]))
  }

  lemma ListedNames(disk: Disk, listing: seq<string>)
    requires IsListing(disk, listing)
    ensures forall x | x in Sort(LogNames(listing)) :: x in disk
  {
    LogNamesAre(listing);
    SortHolds(LogNames(listing));
  }

  function Open(c: EntryCodec, disk: Disk, listing: seq<string>): Result<Wal>
    requires IsListing(disk, listing)
  {
    ListedNames(disk, listing);
    match ReadAll(c, disk, Sort(LogNames(listing)))
    case Err => Err
    case Ok(es) => Ok(Wal(disk, es, None))
  }

  function NextBase(es: seq<LogEntry>): nat {
    if es == [] then 1 else es[|es| - 1].index + 1
  }

  function SegmentBase(w: Wal): nat {
    match w.current case Some(base) => base case None => NextBase(w.entries)
  }

  /** The bytes of a file that is opened for appending. */
  function FileOf(disk: Disk, name: string): Bytes {
    if name in disk then disk[name] else []
  }

  function Append(c: EntryCodec, w: Wal, es: seq<LogEntry>): Wal {
    var base := SegmentBase(w);
    var name := Name(base);
    Wal(w.disk[name := FileOf(w.disk, name) + Encode(c, es)], w.entries + es, Some(base))
  }

  /** A crash leaves the first `keep` bytes of the open segment. */
  function Crash(w: Wal, keep: nat): Disk {
    match w.current
    case None => w.disk
    case Some(base) =>
      var bytes := FileOf(w.disk, Name(base));
      w.disk[Name(base) := bytes[..Min(keep, |bytes|)]]
  }

  // ---------------------------------------------------------------- what is on disk

  /** A segment: its entries, and what is left of a record that was being written in a crash. */
  datatype Piece = Piece(base: nat, entries: seq<LogEntry>, junk: Bytes)

  type Layout = seq<Piece>

  function Flatten(layout: Layout): seq<LogEntry> {
    if layout == [] then [] else layout[0].entries + Flatten(layout[1..])
  }

  function Names(layout: Layout): (names: seq<string>)
    ensures |names| == |layout|
    ensures forall i | 0 <= i < |layout| :: names[i] == Name(layout[i].base)
  {
    if layout == [] then [] else [Name(layout[0].base)] + Names(layout[1..])
  }

  function Content(c: EntryCodec, p: Piece): Bytes {
    Encode(c, p.entries) + p.junk
  }

  ghost predicate PieceOK(c: EntryCodec, p: Piece) {
    Storable(c, p.entries) && !Intact(c, p.junk)
  }

  /** Each segment starts where the one before ends; only the last one may be empty. */
  predicate Chained(layout: Layout, start: nat) {
    layout != [] ==>
      && layout[0].base == start
      && (|layout| > 1 ==> layout[0].entries != [])
      && Chained(layout[1..], start + |layout[0].entries|)
  }

  predicate IsFile(c: EntryCodec, disk: Disk, p: Piece) {
    Name(p.base) in disk && disk[Name(p.base)] == Content(c, p)
  }

  ghost predicate OnDisk(c: EntryCodec, disk: Disk, layout: Layout) {
    && (forall name {:trigger IsLogName(name)} | name in disk && IsLogName(name) :: name in Names(layout))
    && (forall p {:trigger IsFile(c, disk, p)} | p in layout :: IsFile(c, disk, p))
  }

  ghost predicate PiecesOK(c: EntryCodec, layout: Layout) {
    forall p {:trigger PieceOK(c, p)} | p in layout :: PieceOK(c, p)
  }

  predicate Numbered(es: seq<LogEntry>, from: nat) {
    forall i | 0 <= i < |es| :: es[i].index == from + i + 1
  }

  /** The directory holds the entries in segments, and opening it gives them back. */
  ghost predicate Stored(c: EntryCodec, disk: Disk, es: seq<LogEntry>, layout: Layout) {
    && OnDisk(c, disk, layout)
    && Chained(layout, 1)
    && PiecesOK(c, layout)
    && Flatten(layout) == es
    && Numbered(es, 0)
    && |es| + 1 < NAME_LIMIT
  }

  // ---------------------------------------------------------------- opening

  lemma {:induction false} ChainBases(layout: Layout, start: nat, i: nat)
    requires Chained(layout, start) && i < |layout|
    ensures start <= layout[i].base <= start + |Flatten(layout)| - |layout[i].entries|
    ensures i > 0 ==> start < layout[i].base
    decreases |layout|
  {
    if i > 0 {
      ChainBases(layout[1..], start + |layout[0].entries|, i - 1);
    }
  }

  lemma {:induction false} ChainAscends(layout: Layout, start: nat, i: nat, j: nat)
    requires Chained(layout, start) && i < j < |layout|
    ensures layout[i].base < layout[j].base
    decreases |layout|
  {
    if i == 0 {
      ChainBases(layout, start, j);
    } else {
      ChainAscends(layout[1..], start + |layout[0].entries|, i - 1, j - 1);
    }
  }

  lemma NamesAscending(layout: Layout, start: nat)
    requires Chained(layout, start) && start + |Flatten(layout)| < NAME_LIMIT
    ensures Ascending(Names(layout))
  {
    forall i, j | 0 <= i < j < |layout| ensures Less(Names(layout)[i], Names(layout)[j]) {
      ChainAscends(layout, start, i, j);
      ChainBases(layout, start, j);
      NamesAscend(layout[i].base, layout[j].base);
    }
  }

  lemma ParsePiece(c: EntryCodec, p: Piece)
    requires c.Valid() && PieceOK(c, p)
    ensures Parse(c, Content(c, p)) == Ok(p.entries)
  {
    ParseEncoded(c, p.entries, p.junk);
    assert p.entries + [] == p.entries;
  }

  lemma {:induction false} ReadsLayout(c: EntryCodec, disk: Disk, layout: Layout)
    requires c.Valid() && PiecesOK(c, layout)
    requires forall p {:trigger IsFile(c, disk, p)} | p in layout :: IsFile(c, disk, p)
    ensures forall x | x in Names(layout) :: x in disk
    ensures ReadAll(c, disk, Names(layout)) == Ok(Flatten(layout))
    decreases |layout|
  {
    if layout != [] {
      var p := layout[0];
      assert PieceOK(c, p) && IsFile(c, disk, p);
      ParsePiece(c, p);
      assert layout == [p] + layout[1..];
      ReadsLayout(c, disk, layout[1..]);
      assert Names(layout)[1..] == Names(layout[1..]);
    }
  }

  lemma NamesOfDisk(c: EntryCodec, disk: Disk, layout: Layout, listing: seq<string>)
    requires OnDisk(c, disk, layout) && IsListing(disk, listing)
    ensures SameNames(LogNames(listing), Names(layout)) && Distinct(LogNames(listing))
  {
    LogNamesAre(listing);
    forall x ensures x in LogNames(listing) <==> x in Names(layout) {
      assert x in LogNames(listing) <==> x in disk && IsLogName(x);
      if x in Names(layout) {
        var i :| 0 <= i < |layout| && x == Names(layout)[i];
        assert IsFile(c, disk, layout[i]);
        NameIsLog(layout[i].base);
      }
    }
  }

  /** Opening a directory gives back exactly the entries stored in it, whatever the order of the listing. */
  lemma OpenReads(c: EntryCodec, disk: Disk, es: seq<LogEntry>, layout: Layout, listing: seq<string>)
    requires c.Valid() && Stored(c, disk, es, layout) && IsListing(disk, listing)
    ensures Open(c, disk, listing) == Ok(Wal(disk, es, None))
  {
    NamesAscending(layout, 1);
    NamesOfDisk(c, disk, layout, listing);
    SortOfListing(LogNames(listing), Names(layout));
    ReadsLayout(c, disk, layout);
  }

  // ---------------------------------------------------------------- appending

  lemma {:induction false} FlattenSnoc(init: Layout, p: Piece)
    ensures Flatten(init + [p]) == Flatten(init) + p.entries
  {
    if init == [] {
      assert init + [p] == [p] && Flatten([p]) == p.entries + Flatten([]);
    } else {
      assert (init + [p])[1..] == init[1..] + [p];
      FlattenSnoc(init[1..], p);
    }
  }

  predicate AllFull(layout: Layout) {
    forall p | p in layout :: p.entries != []
  }

  lemma {:induction false} ChainedSnoc(init: Layout, p: Piece, start: nat)
    ensures Chained(init + [p], start) <==> Chained(init, start) && AllFull(init) && p.base == start + |Flatten(init)|
    decreases |init|
  {
    if init == [] {
      assert init + [p] == [p];
    } else {
      assert (init + [p])[1..] == init[1..] + [p];
      ChainedSnoc(init[1..], p, start + |init[0].entries|);
      assert init == [init[0]] + init[1..];
    }
  }

  /** The segment being written is whole; with none being written, an empty last segment is clean. */
  ghost predicate WalOK(c: EntryCodec, w: Wal, layout: Layout) {
    && Stored(c, w.disk, w.entries, layout)
    && match w.current
       case Some(base) => layout != [] && layout[|layout| - 1].base == base && layout[|layout| - 1].junk == []
       case None => layout != [] && layout[|layout| - 1].entries == [] ==> layout[|layout| - 1].junk == []
  }

  ghost predicate CanAppend(c: EntryCodec, w: Wal, es: seq<LogEntry>) {
    Storable(c, es) && Numbered(es, |w.entries|) && |w.entries| + |es| + 1 < NAME_LIMIT
  }

  /** A file that grows: the layout with another last piece. */
  lemma LastOnDisk(c: EntryCodec, disk: Disk, init: Layout, p: Piece, p': Piece, bytes: Bytes)
    requires OnDisk(c, disk, init + [p]) && Chained(init + [p], 1) && |Flatten(init + [p])| + 1 < NAME_LIMIT
    requires p'.base == p.base && bytes == Content(c, p')
    ensures OnDisk(c, disk[Name(p.base) := bytes], init + [p'])
  {
    var name, before, after := Name(p.base), init + [p], init + [p'];
    SameBases(init, p, p');
    assert IsFile(c, disk, before[|init|]);
    forall q | q in after ensures IsFile(c, disk[name := bytes], q) {
      if q != p' {
        var i :| 0 <= i < |init| && init[i] == q;
        assert before[i] == q && IsFile(c, disk, before[i]);
        OtherName(before, i);
      }
    }
  }

  lemma SameBases(init: Layout, p: Piece, p': Piece)
    requires p.base == p'.base
    ensures Names(init + [p]) == Names(init + [p'])
  {
  }

  lemma OtherName(layout: Layout, i: nat)
    requires Chained(layout, 1) && |Flatten(layout)| + 1 < NAME_LIMIT && i < |layout| - 1
    ensures Name(layout[i].base) != Name(layout[|layout| - 1].base)
  {
    ChainAscends(layout, 1, i, |layout| - 1);
    ChainBases(layout, 1, |layout| - 1);
    NamesAscend(layout[i].base, layout[|layout| - 1].base);
  }

  /** Replacing the last piece by one with the same base. */
  lemma StoredLast(c: EntryCodec, disk: Disk, es: seq<LogEntry>, init: Layout, p: Piece, p': Piece, es': seq<LogEntry>)
    requires Stored(c, disk, es, init + [p]) && p'.base == p.base && PieceOK(c, p')
    requires es' == Flatten(init) + p'.entries && Numbered(es', 0) && |es'| + 1 < NAME_LIMIT
    ensures Stored(c, disk[Name(p.base) := Content(c, p')], es', init + [p'])
  {
    LastOnDisk(c, disk, init, p, p', Content(c, p'));
    ChainedSnoc(init, p, 1);
    ChainedSnoc(init, p', 1);
    FlattenSnoc(init, p');
    forall q | q in init + [p'] ensures PieceOK(c, q) {
      if q != p' {
        assert q in init + [p] && PieceOK(c, q);
      }
    }
  }

  /** A new last piece, in a file of its own. */
  lemma StoredNew(c: EntryCodec, disk: Disk, es: seq<LogEntry>, layout: Layout, p: Piece)
    requires Stored(c, disk, es, layout) && AllFull(layout) && p.base == |es| + 1 && PieceOK(c, p)
    requires Numbered(es + p.entries, 0) && |es + p.entries| + 1 < NAME_LIMIT
    ensures Name(p.base) !in disk
    ensures Stored(c, disk[Name(p.base) := Content(c, p)], es + p.entries, layout + [p])
  {
    NameIsFree(c, disk, es, layout);
    ChainedSnoc(layout, p, 1);
    FlattenSnoc(layout, p);
    NewOnDisk(c, disk, layout, p);
    forall q | q in layout + [p] ensures PieceOK(c, q) {
      if q != p {
        assert q in layout && PieceOK(c, q);
      }
    }
  }

  lemma NewOnDisk(c: EntryCodec, disk: Disk, layout: Layout, p: Piece)
    requires OnDisk(c, disk, layout) && Name(p.base) !in disk
    ensures OnDisk(c, disk[Name(p.base) := Content(c, p)], layout + [p])
  {
    var disk' := disk[Name(p.base) := Content(c, p)];
    assert Names(layout + [p]) == Names(layout) + [Name(p.base)];
    forall q | q in layout + [p] ensures IsFile(c, disk', q) {
      if q != p {
        assert q in layout && IsFile(c, disk, q);
      }
    }
  }

  lemma BaseIsFree(layout: Layout, base: nat, i: nat)
    requires Chained(layout, 1) && AllFull(layout) && base == |Flatten(layout)| + 1 < NAME_LIMIT && i < |layout|
    ensures Name(layout[i].base) != Name(base)
  {
    assert layout[i] in layout;
    ChainBases(layout, 1, i);
    NamesAscend(layout[i].base, base);
  }

  lemma NameIsUnused(layout: Layout, base: nat)
    requires Chained(layout, 1) && AllFull(layout) && base == |Flatten(layout)| + 1 < NAME_LIMIT
    ensures Name(base) !in Names(layout)
  {
    var name, names := Name(base), Names(layout);
    forall i | 0 <= i < |names| ensures names[i] != name {
      BaseIsFree(layout, base, i);
    }
  }

  lemma NameIsFree(c: EntryCodec, disk: Disk, es: seq<LogEntry>, layout: Layout)
    requires Stored(c, disk, es, layout) && AllFull(layout)
    ensures Name(|es| + 1) !in disk
  {
    NameIsLog(|es| + 1);
    NameIsUnused(layout, |es| + 1);
  }

  lemma StoredIsNumbered(es: seq<LogEntry>)
    requires Numbered(es, 0)
    ensures NextBase(es) == |es| + 1
  {
  }

  /** Appending keeps the log stored. */
  lemma AppendKeeps(c: EntryCodec, w: Wal, es: seq<LogEntry>, layout: Layout) returns (layout': Layout)
    requires c.Valid() && WalOK(c, w, layout) && CanAppend(c, w, es)
    ensures WalOK(c, Append(c, w, es), layout')
  {
    StoredIsNumbered(w.entries);
    assert Numbered(w.entries + es, 0);
    if layout != [] && (w.current.Some? || layout[|layout| - 1].entries == []) {
      var init, p := layout[..|layout| - 1], layout[|layout| - 1];
      assert layout == init + [p];
      LastPiece(c, w.disk, w.entries, init, p);
      layout' := AppendToLast(c, w, es, init, p);
    } else {
      layout' := AppendToNew(c, w, es, layout);
    }
  }

  lemma LastPiece(c: EntryCodec, disk: Disk, es: seq<LogEntry>, init: Layout, p: Piece)
    requires Stored(c, disk, es, init + [p])
    ensures p.base == 1 + |Flatten(init)| && es == Flatten(init) + p.entries && PieceOK(c, p) && IsFile(c, disk, p)
  {
    assert (init + [p])[|init|] == p && p in init + [p];
    ChainedSnoc(init, p, 1);
    FlattenSnoc(init, p);
  }

  lemma AppendToLast(c: EntryCodec, w: Wal, es: seq<LogEntry>, init: Layout, p: Piece) returns (layout': Layout)
    requires Stored(c, w.disk, w.entries, init + [p]) && CanAppend(c, w, es) && Numbered(w.entries + es, 0)
    requires SegmentBase(w) == p.base && p.junk == []
    ensures WalOK(c, Append(c, w, es), layout')
  {
    var p' := Piece(p.base, p.entries + es, []);
    layout' := init + [p'];
    LastPiece(c, w.disk, w.entries, init, p);
    GrownFile(c, w.disk, p, es);
    Regroup(Flatten(init), p.entries, es);
    StoredLast(c, w.disk, w.entries, init, p, p', w.entries + es);
    assert layout'[|layout'| - 1] == p';
  }

  lemma Regroup(a: seq<LogEntry>, b: seq<LogEntry>, c: seq<LogEntry>)
    ensures (a + b) + c == a + (b + c)
  {
  }

  lemma GrownFile(c: EntryCodec, disk: Disk, p: Piece, es: seq<LogEntry>)
    requires PieceOK(c, p) && IsFile(c, disk, p) && p.junk == [] && Storable(c, es)
    ensures
      var p' := Piece(p.base, p.entries + es, []);
      PieceOK(c, p') && FileOf(disk, Name(p.base)) + Encode(c, es) == Content(c, p')
  {
    EncodeConcat(c, p.entries, es);
    assert Encode(c, p.entries) + [] == Encode(c, p.entries);
    assert Encode(c, p.entries + es) + [] == Encode(c, p.entries + es);
  }

  lemma AppendToNew(c: EntryCodec, w: Wal, es: seq<LogEntry>, layout: Layout) returns (layout': Layout)
    requires c.Valid() && WalOK(c, w, layout) && CanAppend(c, w, es) && NextBase(w.entries) == |w.entries| + 1
    requires w.current.None? && (layout != [] ==> layout[|layout| - 1].entries != []) && Numbered(w.entries + es, 0)
    ensures WalOK(c, Append(c, w, es), layout')
  {
    var p := Piece(|w.entries| + 1, es, []);
    layout' := layout + [p];
    AllButLastFull(layout, 1);
    StoredNew(c, w.disk, w.entries, layout, p);
    assert FileOf(w.disk, Name(p.base)) + Encode(c, es) == Content(c, p);
  }

  lemma AllButLastFull(layout: Layout, start: nat)
    requires Chained(layout, start) && (layout != [] ==> layout[|layout| - 1].entries != [])
    ensures AllFull(layout)
  {
  }

  /** A session that has not appended yet will open an empty file, so the offsets it notes are right. */
  lemma NextFileIsEmpty(c: EntryCodec, w: Wal, layout: Layout)
    requires WalOK(c, w, layout) && w.current.None?
    ensures FileOf(w.disk, Name(NextBase(w.entries))) == []
  {
    StoredIsNumbered(w.entries);
    if layout != [] && layout[|layout| - 1].entries == [] {
      var init, p := layout[..|layout| - 1], layout[|layout| - 1];
      assert layout == init + [p];
      LastPiece(c, w.disk, w.entries, init, p);
    } else {
      AllButLastFull(layout, 1);
      NameIsFree(c, w.disk, w.entries, layout);
    }
  }

  // ---------------------------------------------------------------- crashing

  /** The entries of the open segment. */
  function OpenSegment(w: Wal): seq<LogEntry> {
    match w.current
    case Some(base) => if 1 <= base <= |w.entries| then w.entries[base - 1..] else []
    case None => []
  }

  /** What a crash leaves of the entries: those of closed segments and the whole records of the open one. */
  function Survivors(c: EntryCodec, w: Wal, keep: nat): seq<LogEntry> {
    var seg := OpenSegment(w);
    w.entries[..|w.entries| - |seg|] + seg[..WholeRecords(c, seg, keep)]
  }

  /** The crash leaves nothing of the open segment, or at least its first record. */
  ghost predicate CleanCrash(c: EntryCodec, w: Wal, keep: nat) {
    OpenSegment(w) == [] || keep == 0 || WholeRecords(c, OpenSegment(w), keep) > 0
  }

  lemma OpenSegmentIs(c: EntryCodec, w: Wal, init: Layout, p: Piece)
    requires WalOK(c, w, init + [p]) && w.current.Some?
    ensures OpenSegment(w) == p.entries && w.entries[..|w.entries| - |p.entries|] == Flatten(init)
    ensures w.current == Some(p.base) && Name(p.base) in w.disk && w.disk[Name(p.base)] == Encode(c, p.entries)
    ensures Storable(c, p.entries)
  {
    assert (init + [p])[|init|] == p;
    LastPiece(c, w.disk, w.entries, init, p);
    assert Encode(c, p.entries) + [] == Encode(c, p.entries);
  }

  lemma {:induction false} KeepAll(c: EntryCodec, es: seq<LogEntry>, keep: nat)
    ensures WholeRecords(c, es, Min(keep, |Encode(c, es)|)) == WholeRecords(c, es, keep)
    decreases |es|
  {
    if es != [] && keep >= |Record(c, es[0])| {
      KeepAll(c, es[1..], keep - |Record(c, es[0])|);
    }
  }

  /** After a crash the directory stores exactly the survivors; after a clean one it can be appended to. */
  lemma CrashKeeps(c: EntryCodec, w: Wal, keep: nat, layout: Layout) returns (layout': Layout)
    requires c.Valid() && WalOK(c, w, layout)
    ensures Stored(c, Crash(w, keep), Survivors(c, w, keep), layout')
    ensures CleanCrash(c, w, keep) ==> WalOK(c, Wal(Crash(w, keep), Survivors(c, w, keep), None), layout')
  {
    if w.current.None? {
      layout' := layout;
      assert Survivors(c, w, keep) == w.entries;
    } else {
      var init, p := layout[..|layout| - 1], layout[|layout| - 1];
      assert layout == init + [p];
      layout' := CutLast(c, w, keep, init, p);
    }
  }

  lemma CutLast(c: EntryCodec, w: Wal, keep: nat, init: Layout, p: Piece) returns (layout': Layout)
    requires c.Valid() && WalOK(c, w, init + [p]) && w.current.Some?
    ensures Stored(c, Crash(w, keep), Survivors(c, w, keep), layout') && layout' != []
    ensures CleanCrash(c, w, keep) && layout'[|layout'| - 1].entries == [] ==> layout'[|layout'| - 1].junk == []
  {
    OpenSegmentIs(c, w, init, p);
    var p' := CutPiece(c, p, keep);
    layout' := init + [p'];
    assert layout'[|layout'| - 1] == p';
    CutStored(c, w, keep, init, p, p');
  }

  lemma CutStored(c: EntryCodec, w: Wal, keep: nat, init: Layout, p: Piece, p': Piece)
    requires WalOK(c, w, init + [p]) && w.current.Some? && p'.base == p.base && PieceOK(c, p')
    requires p'.entries == p.entries[..WholeRecords(c, p.entries, keep)]
    requires Encode(c, p.entries)[..Min(keep, |Encode(c, p.entries)|)] == Content(c, p')
    ensures Stored(c, Crash(w, keep), Survivors(c, w, keep), init + [p'])
  {
    OpenSegmentIs(c, w, init, p);
    assert Survivors(c, w, keep) == Flatten(init) + p'.entries;
    SurvivorsNumbered(c, w, keep);
    StoredLast(c, w.disk, w.entries, init, p, p', Survivors(c, w, keep));
  }

  lemma SurvivorsNumbered(c: EntryCodec, w: Wal, keep: nat)
    requires Numbered(w.entries, 0)
    ensures Survivors(c, w, keep) <= w.entries && Numbered(Survivors(c, w, keep), 0)
  {
    var seg := OpenSegment(w);
    PrefixByParts(w.entries, |w.entries| - |seg|, WholeRecords(c, seg, keep));
  }

  lemma PrefixByParts(es: seq<LogEntry>, k: nat, n: nat)
    requires k + n <= |es|
    ensures es[..k] + es[k..][..n] == es[..k + n]
  {
  }

  /** What a cut leaves of a segment without junk. */
  lemma CutPiece(c: EntryCodec, p: Piece, keep: nat) returns (p': Piece)
    requires c.Valid() && Storable(c, p.entries)
    ensures p'.base == p.base && p'.entries == p.entries[..WholeRecords(c, p.entries, keep)] && PieceOK(c, p')
    ensures Encode(c, p.entries)[..Min(keep, |Encode(c, p.entries)|)] == Content(c, p')
    ensures keep == 0 || p.entries == [] ==> p'.junk == []
  {
    var k := Min(keep, |Encode(c, p.entries)|);
    KeepAll(c, p.entries, keep);
    var junk := CutShape(c, p.entries, k);
    p' := Piece(p.base, p.entries[..WholeRecords(c, p.entries, keep)], junk);
  }
}
