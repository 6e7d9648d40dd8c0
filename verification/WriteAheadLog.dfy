/** The write-ahead log as an object: the loops that read and write segment files, proved against the sessions. */
module WriteAheadLog {
  import opened Wrappers
  import opened RaftTypes
  import opened WalFormat
  import opened WalNames
  import Sessions = WalSessions
  import Runs = WalRuns

  datatype Segment = Segment(baseIndex: nat, byteOffset: nat)

  /** Where a record lies: its segment, the offset of its header and the length of its data. */
  datatype LogPosition = LogPosition(segmentId: nat, offset: nat, length: nat)

  type Index = map<LogIndex, LogPosition>

  predicate PointsTo(c: EntryCodec, disk: Sessions.Disk, pos: LogPosition, e: LogEntry) {
    && Name(pos.segmentId) in disk
    && pos.offset + 8 + pos.length <= |disk[Name(pos.segmentId)]|
    && disk[Name(pos.segmentId)][pos.offset..pos.offset + 8 + pos.length] == Record(c, e)
  }

  /** The index leads from log indices to the records of their entries. */
  ghost predicate IndexTrue(c: EntryCodec, disk: Sessions.Disk, entries: seq<LogEntry>, index: Index) {
    forall i {:trigger index[i]} | i in index :: 1 <= i <= |entries| && PointsTo(c, disk, index[i], entries[i - 1])
  }

  /** The index has exactly the log indices above those of the recovered entries. */
  ghost predicate Covers(index: Index, recovered: nat, length: nat) {
    forall i {:trigger i in index} :: i in index <==> recovered < i <= length
  }

  /** Growing a file at its end moves no record. */
  lemma RecordStays(c: EntryCodec, disk: Sessions.Disk, pos: LogPosition, e: LogEntry, base: nat, more: Bytes)
    requires PointsTo(c, disk, pos, e)
    ensures PointsTo(c, disk[Name(base) := Sessions.FileOf(disk, Name(base)) + more], pos, e)
  {
    var name, end := Name(pos.segmentId), pos.offset + 8 + pos.length;
    if Name(base) == name {
      assert (disk[name] + more)[pos.offset..end] == disk[name][pos.offset..end];
    }
  }

  lemma RecordAtEnd(c: EntryCodec, disk: Sessions.Disk, base: nat, bytes: Bytes, e: LogEntry)
    ensures PointsTo(c, disk[Name(base) := bytes + Record(c, e)], LogPosition(base, |bytes|, |c.encode(e)|), e)
  {
    assert (bytes + Record(c, e))[|bytes|..|bytes| + |Record(c, e)|] == Record(c, e);
  }

  lemma IndexGrows(c: EntryCodec, disk: Sessions.Disk, entries: seq<LogEntry>, index: Index,
                   base: nat, e: LogEntry)
    requires IndexTrue(c, disk, entries, index) && e.index == |entries| + 1
    ensures
      var bytes := Sessions.FileOf(disk, Name(base));
      IndexTrue(c, disk[Name(base) := bytes + Record(c, e)], entries + [e],
                index[e.index := LogPosition(base, |bytes|, |c.encode(e)|)])
  {
    var bytes := Sessions.FileOf(disk, Name(base));
    var disk' := disk[Name(base) := bytes + Record(c, e)];
    var index' := index[e.index := LogPosition(base, |bytes|, |c.encode(e)|)];
    RecordAtEnd(c, disk, base, bytes, e);
    forall i | i in index' ensures 1 <= i <= |entries + [e]| && PointsTo(c, disk', index'[i], (entries + [e])[i - 1]) {
      if i != e.index {
        assert index'[i] == index[i] && PointsTo(c, disk, index[i], entries[i - 1]);
        RecordStays(c, disk, index[i], entries[i - 1], base, Record(c, e));
      }
    }
  }

  lemma IndexOpens(c: EntryCodec, disk: Sessions.Disk, entries: seq<LogEntry>, index: Index, base: nat)
    requires IndexTrue(c, disk, entries, index)
    ensures IndexTrue(c, disk[Name(base) := Sessions.FileOf(disk, Name(base))], entries, index)
  {
    var bytes := Sessions.FileOf(disk, Name(base));
    assert bytes + [] == bytes;
    forall i | i in index ensures PointsTo(c, disk[Name(base) := bytes], index[i], entries[i - 1]) {
      RecordStays(c, disk, index[i], entries[i - 1], base, []);
    }
  }

  class WriteAheadLog {
    const codec: EntryCodec
    var disk: Sessions.Disk
    var entries: seq<LogEntry>
    var current: Option<Segment>
    var index: Index

    ghost function View(): Sessions.Wal
      reads this
    {
      Sessions.Wal(disk, entries, match current case None => None case Some(s) => Some(s.baseIndex))
    }

    /** Positions are right, and the open segment's offset is where its file ends. */
    ghost predicate OffsetsTrue()
      reads this
    {
      && IndexTrue(codec, disk, entries, index)
      && (current.Some? ==> current.value.byteOffset == |Sessions.FileOf(disk, Name(current.value.baseIndex))|)
    }

    constructor (codec: EntryCodec, disk: Sessions.Disk)
      ensures this.codec == codec && Valid() && View() == Sessions.Wal(disk, [], None)
      ensures index == map[] && OffsetsTrue()
    {
      this.codec := codec;
      this.disk := disk;
      entries, current, index := [], None, map[];
    }

    /** Reads the records of one file; a log whose reading fails is given up. */
    method ReadSegment(name: string) returns (ok: bool)
      requires name in disk
      modifies this`entries
      ensures ok <==> Parse(codec, disk[name]).Ok?
      ensures ok ==> entries == old(entries) + Parse(codec, disk[name]).value
    {
      var r := ReadRecords(codec, disk[name]);
      ok := r.Ok?;
      if ok {
        entries := entries + r.value;
      }
    }

    /** Reads the files one after the other. */
    method ReadSegments(names: seq<string>) returns (ok: bool)
      requires forall x | x in names :: x in disk
      modifies this`entries
      ensures ok <==> Sessions.ReadAll(codec, disk, names).Ok?
      ensures ok ==> entries == old(entries) + Sessions.ReadAll(codec, disk, names).value
    {
      var i := 0;
      ghost var done: seq<LogEntry> := [];
      assert names[0..] == names;
      PrependMore([], Sessions.ReadAll(codec, disk, names));
      while i < |names|
        invariant 0 <= i <= |names|
        invariant entries == old(entries) + done
        invariant Sessions.ReadAll(codec, disk, names) == PrependAll(done, Sessions.ReadAll(codec, disk, names[i..]))
      {
        ReadStep(codec, disk, names, i, done);
        var read := ReadSegment(names[i]);
        if !read {
          return false;
        }
        Regroup(old(entries), done, Parse(codec, disk[names[i]]).value);
        done := done + Parse(codec, disk[names[i]]).value;
        i := i + 1;
      }
      ok := true;
    }

    /** Reads the files with the extension "log" in the order of their names; the index is left as it is. */
    method Recover(listing: seq<string>) returns (ok: bool)
      requires Sessions.IsListing(disk, listing)
      modifies this`entries
      ensures ok <==> Sessions.Open(codec, disk, listing).Ok?
      ensures ok ==> entries == old(entries) + Sessions.Open(codec, disk, listing).value.entries
      ensures index == old(index)
    {
      Sessions.ListedNames(disk, listing);
      ok := ReadSegments(Sort(LogNames(listing)));
    }

    /** The file of the open segment exists. */
    ghost predicate Valid()
      reads this
    {
      current.Some? ==> Name(current.value.baseIndex) in disk
    }

    /** Opens the file of the next base index for appending, creating it if need be; its offset starts at 0. */
    method CreateNewSegment()
      modifies this`disk, this`current
      ensures
        var base := Sessions.NextBase(old(entries));
        && Valid()
        && current == Some(Segment(base, 0))
        && disk == old(disk)[Name(base) := Sessions.FileOf(old(disk), Name(base))]
      ensures IndexTrue(codec, old(disk), entries, index) ==> IndexTrue(codec, disk, entries, index)
    {
      var base := if |entries| == 0 then 1 else entries[|entries| - 1].index + 1;
      if IndexTrue(codec, disk, entries, index) {
        IndexOpens(codec, disk, entries, index, base);
      }
      if Name(base) !in disk {
        disk := disk[Name(base) := []];
      }
      current := Some(Segment(base, 0));
    }

    /** Writes one record at the end of the open segment and notes where it is. */
    method AppendEntry(entry: LogEntry)
      requires Valid() && current.Some?
      modifies this
      ensures Valid() && current.Some? && current.value.baseIndex == old(current).value.baseIndex
      ensures entries == old(entries) + [entry]
      ensures
        var name := Name(current.value.baseIndex);
        disk == old(disk)[name := old(disk)[name] + Record(codec, entry)]
      ensures
        var base, offset, length := old(current).value.baseIndex, old(current).value.byteOffset, |codec.encode(entry)|;
        && current == Some(Segment(base, offset + 8 + length))
        && index == old(index)[entry.index := LogPosition(base, offset, Low32(length))]
      ensures old(OffsetsTrue()) && entry.index == |old(entries)| + 1 && |codec.encode(entry)| < 0x1_0000_0000 ==>
              OffsetsTrue()
    {
      var base, offset := current.value.baseIndex, current.value.byteOffset;
      var data := codec.encode(entry);
      var crc := codec.crc(data);
      if OffsetsTrue() && entry.index == |entries| + 1 && |data| < 0x1_0000_0000 {
        IndexGrows(codec, disk, entries, index, base, entry);
      }
      var file := disk[Name(base)];
      file := file + Le32(|data|);
      file := file + Le32(crc);
      file := file + data;
      assert file == disk[Name(base)] + Record(codec, entry);
      disk := disk[Name(base) := file];
      index := index[entry.index := LogPosition(base, offset, Low32(|data|))];
      current := Some(Segment(base, offset + 8 + |data|));
      entries := entries + [entry];
    }

    /** Writes the records one after the other. */
    method AppendAll(es: seq<LogEntry>)
      requires Valid() && current.Some?
      modifies this
      ensures Valid() && current.Some? && current.value.baseIndex == old(current).value.baseIndex
      ensures entries == old(entries) + es
      ensures
        var name := Name(current.value.baseIndex);
        disk == old(disk)[name := old(disk)[name] + Encode(codec, es)]
      ensures index == NoteAll(codec, old(index), old(current).value, es)
      ensures index.Keys == old(index).Keys + Indices(es)
      ensures old(OffsetsTrue()) && Storable(codec, es) && Sessions.Numbered(es, |old(entries)|) ==> OffsetsTrue()
    {
      ghost var start, base := disk, current.value.baseIndex;
      ghost var noted, segment := index, current.value;
      ghost var file := start[Name(base)];
      ghost var fits := OffsetsTrue() && Storable(codec, es) && Sessions.Numbered(es, |entries|);
      assert file + Encode(codec, es[..0]) == file;
      var i := 0;
      while i < |es|
        invariant 0 <= i <= |es| && Valid() && current.Some? && current.value.baseIndex == base
        invariant disk == start[Name(base) := file + Encode(codec, es[..i])]
        invariant entries == old(entries) + es[..i]
        invariant current.value == EndOf(codec, segment, es[..i]) && index == NoteAll(codec, noted, segment, es[..i])
        invariant fits ==> OffsetsTrue()
      {
        AppendEntry(es[i]);
        EncodeNext(codec, file, es, i);
        NoteNext(codec, noted, segment, es, i);
        i := i + 1;
      }
      assert es[..i] == es;
      NotedIndices(codec, noted, segment, es);
    }

    /** Appends entries to the open segment, opening one first if there is none. */
    method Append(es: seq<LogEntry>)
      requires Valid()
      modifies this
      ensures Valid() && View() == Sessions.Append(codec, old(View()), es)
      ensures
        var segment := match old(current) case Some(s) => s case None => Segment(Sessions.NextBase(old(entries)), 0);
        index == NoteAll(codec, old(index), segment, es)
      ensures index.Keys == old(index).Keys + Indices(es)
      ensures forall k: nat {:trigger Covers(old(index), k, |old(entries)|)} | k <= |old(entries)| ::
                Covers(old(index), k, |old(entries)|) && Sessions.Numbered(es, |old(entries)|) ==>
                Covers(index, k, |entries|)
      ensures old(OffsetsTrue()) && Sessions.CanAppend(codec, old(View()), es)
              && (old(current).None? ==> Sessions.FileOf(old(disk), Name(Sessions.NextBase(old(entries)))) == [])
              ==> OffsetsTrue()
    {
      if current.None? {
        CreateNewSegment();
      }
      AppendAll(es);
      forall k: nat | k <= |old(entries)| && Covers(old(index), k, |old(entries)|)
                      && Sessions.Numbered(es, |old(entries)|)
        ensures Covers(index, k, |entries|)
      {
        CoversMore(old(index), index, k, |old(entries)|, es);
      }
    }
  }

  /** A log is opened by recovering into a new one, whose index stays empty. */
  method Open(codec: EntryCodec, disk: Sessions.Disk, listing: seq<string>) returns (r: Result<WriteAheadLog>)
    requires Sessions.IsListing(disk, listing)
    ensures r.Ok? <==> Sessions.Open(codec, disk, listing).Ok?
    ensures r.Ok? ==>
              && fresh(r.value) && r.value.codec == codec && r.value.Valid()
              && Sessions.Open(codec, disk, listing) == Ok(r.value.View())
              && r.value.index == map[]
  {
    var log := new WriteAheadLog(codec, disk);
    var ok := log.Recover(listing);
    if !ok {
      return Err;
    }
    ghost var none, read: seq<LogEntry> := [], Sessions.Open(codec, disk, listing).value.entries;
    assert none + read == read;
    r := Ok(log);
  }

  /** Opening and then appending: a log index is in the index if and only if it lies above the recovered ones, and
      then, in a durable log, leads to its record. */
  method OpenThenAppend(codec: EntryCodec, disk: Sessions.Disk, listing: seq<string>, es: seq<LogEntry>)
    returns (r: Result<WriteAheadLog>)
    requires Sessions.IsListing(disk, listing)
    ensures r.Ok? <==> Sessions.Open(codec, disk, listing).Ok?
    ensures r.Ok? ==>
              var found := Sessions.Open(codec, disk, listing).value;
              && fresh(r.value) && r.value.codec == codec && r.value.Valid()
              && r.value.View() == Sessions.Append(codec, found, es)
              && r.value.index.Keys == Indices(es)
              && (Sessions.Numbered(es, |found.entries|) ==>
                    forall i :: i in r.value.index <==> |found.entries| < i <= |r.value.entries|)
              && (Sessions.CanAppend(codec, found, es) && Runs.Durable(codec, found) ==>
                    IndexTrue(codec, r.value.disk, r.value.entries, r.value.index))
  {
    r := Open(codec, disk, listing);
    if r.Ok? {
      ghost var found := Sessions.Open(codec, disk, listing).value;
      if Runs.Durable(codec, found) {
        var layout :| Sessions.WalOK(codec, found, layout);
        Sessions.NextFileIsEmpty(codec, found, layout);
      }
      assert Covers(r.value.index, |found.entries|, |found.entries|);
      r.value.Append(es);
    }
  }

  /** So a recovered entry is not found: of a stored entry and one appended after opening, the index has the second. */
  method RecoveredIsNotFound(codec: EntryCodec, e: LogEntry, e': LogEntry) returns (log: WriteAheadLog)
    requires codec.Valid() && e.index == 1 && e'.index == 2
    requires |codec.encode(e)| < 0x1_0000_0000 && |codec.encode(e')| < 0x1_0000_0000
    ensures fresh(log) && log.entries == [e, e'] && 1 !in log.index && 2 in log.index
  {
    var disk, listing := Runs.OneFile(Record(codec, e)), [Name(1)];
    OpenStored(codec, e);
    var r := OpenThenAppend(codec, disk, listing, [e']);
    log := r.value;
  }

  /** A directory with one record. */
  lemma OpenStored(c: EntryCodec, e: LogEntry)
    requires c.Valid() && |c.encode(e)| < 0x1_0000_0000
    ensures
      var disk := Runs.OneFile(Record(c, e));
      Sessions.IsListing(disk, [Name(1)]) && Sessions.Open(c, disk, [Name(1)]) == Ok(Sessions.Wal(disk, [e], None))
  {
    Runs.EncodeOne(c, e);
    ParseEncoded(c, [e], []);
    assert Record(c, e) + [] == Record(c, e) && [e] + [] == [e];
    Runs.OpenFile(c, Record(c, e));
  }

  lemma CoversMore(index: Index, index': Index, k: nat, length: nat, es: seq<LogEntry>)
    requires k <= length && Covers(index, k, length) && Sessions.Numbered(es, length)
    requires index'.Keys == index.Keys + Indices(es)
    ensures Covers(index', k, length + |es|)
  {
    NumberedIndices(es, length);
    forall i: LogIndex ensures i in index' <==> k < i <= length + |es| {
      assert i in index' <==> i in index || i in Indices(es);
    }
  }

  lemma NumberedIndices(es: seq<LogEntry>, from: nat)
    requires Sessions.Numbered(es, from)
    ensures forall i: LogIndex :: i in Indices(es) <==> from < i <= from + |es|
  {
    forall i: LogIndex | from < i <= from + |es| ensures i in Indices(es) {
      assert es[i - from - 1].index == i && es[i - from - 1] in es;
    }
  }

  lemma Regroup(a: seq<LogEntry>, b: seq<LogEntry>, c: seq<LogEntry>)
    ensures a + b + c == a + (b + c)
  {
  }

  lemma ReadStep(c: EntryCodec, disk: Sessions.Disk, names: seq<string>, i: nat, done: seq<LogEntry>)
    requires i < |names| && (forall x | x in names :: x in disk)
    requires Sessions.ReadAll(c, disk, names) == PrependAll(done, Sessions.ReadAll(c, disk, names[i..]))
    ensures
      var r := Parse(c, disk[names[i]]);
      Sessions.ReadAll(c, disk, names) ==
        if r.Err? then Err else PrependAll(done + r.value, Sessions.ReadAll(c, disk, names[i + 1..]))
  {
    assert names[i..][0] == names[i] && names[i..][1..] == names[i + 1..];
    var r := Parse(c, disk[names[i]]);
    if r.Ok? {
      PrependTwice(done, r.value, Sessions.ReadAll(c, disk, names[i + 1..]));
    }
  }

  function Indices(es: seq<LogEntry>): set<LogIndex> {
    set e | e in es :: e.index
  }

  /** The segment after the records of `es` are written to it. */
  function EndOf(c: EntryCodec, segment: Segment, es: seq<LogEntry>): Segment {
    Segment(segment.baseIndex, segment.byteOffset + |Encode(c, es)|)
  }

  /** The index after `es` are written one behind the other; an index that is written twice leads to the later
      record. */
  function NoteAll(c: EntryCodec, index: Index, segment: Segment, es: seq<LogEntry>): Index {
    if es == [] then index
    else
      var init, last := es[..|es| - 1], es[|es| - 1];
      var offset := EndOf(c, segment, init).byteOffset;
      NoteAll(c, index, segment, init)[last.index := LogPosition(segment.baseIndex, offset, Low32(|c.encode(last)|))]
  }

  lemma NoteNext(c: EntryCodec, index: Index, segment: Segment, es: seq<LogEntry>, i: nat)
    requires i < |es|
    ensures
      var before, length := EndOf(c, segment, es[..i]), |c.encode(es[i])|;
      && EndOf(c, segment, es[..i + 1]) == Segment(segment.baseIndex, before.byteOffset + 8 + length)
      && NoteAll(c, index, segment, es[..i + 1]) ==
         NoteAll(c, index, segment, es[..i])[
           es[i].index := LogPosition(segment.baseIndex, before.byteOffset, Low32(length))]
  {
    assert es[..i + 1][..i] == es[..i] && es[..i + 1][i] == es[i];
    EncodeNext(c, [], es, i);
    assert |([] + Encode(c, es[..i])) + Record(c, es[i])| == |Encode(c, es[..i])| + 8 + |c.encode(es[i])|;
  }

  lemma {:induction false} NotedIndices(c: EntryCodec, index: Index, segment: Segment,
                                        es: seq<LogEntry>)
    ensures NoteAll(c, index, segment, es).Keys == index.Keys + Indices(es)
  {
    if es == [] {
      assert Indices(es) == {};
    } else {
      var init, last := es[..|es| - 1], es[|es| - 1];
      assert es == init + [last];
      NotedIndices(c, index, segment, init);
      assert Indices(es) == Indices(init) + {last.index};
    }
  }

  function Low32(n: nat): (r: nat)
    ensures n < 0x1_0000_0000 ==> r == n
  {
    n % 0x1_0000_0000
  }

  lemma EncodeNext(c: EntryCodec, file: Bytes, es: seq<LogEntry>, i: nat)
    requires i < |es|
    ensures (file + Encode(c, es[..i])) + Record(c, es[i]) == file + Encode(c, es[..i + 1])
    ensures es[..i] + [es[i]] == es[..i + 1]
  {
    assert es[..i + 1] == es[..i] + [es[i]];
    EncodeConcat(c, es[..i], [es[i]]);
    assert Encode(c, [es[i]]) == Record(c, es[i]) + [];
  }

  /** Reads records until the first that is not intact. */
  method ReadRecords(c: EntryCodec, buffer: Bytes) returns (r: Result<seq<LogEntry>>)
    ensures r == Parse(c, buffer)
  {
    var offset := 0;
    var done: seq<LogEntry> := [];
    assert buffer[0..] == buffer;
    PrependMore([], Parse(c, buffer));
    while offset + 8 <= |buffer|
      invariant 0 <= offset <= |buffer|
      invariant Parse(c, buffer) == PrependAll(done, Parse(c, buffer[offset..]))
    {
      var read := ReadRecord(c, buffer, offset);
      if read.Torn? {
        break;
      }
      if read.Undecodable? {
        return Err;
      }
      PrependNext(done, read.entry, Parse(c, buffer[read.next..]));
      done := done + [read.entry];
      offset := read.next;
    }
    ParseEnds(c, buffer, offset, done);
    r := Ok(done);
  }

  /** A record that is cut off or has a wrong checksum, one that cannot be decoded, or an entry and where it ends. */
  datatype RecordRead = Torn | Undecodable | Whole(entry: LogEntry, next: nat)

  /** Reads one record. */
  method ReadRecord(c: EntryCodec, buffer: Bytes, offset: nat) returns (r: RecordRead)
    requires offset + 8 <= |buffer|
    ensures r.Torn? <==> !Intact(c, buffer[offset..])
    ensures r.Undecodable? ==> Parse(c, buffer[offset..]) == Err
    ensures r.Whole? ==>
              && offset < r.next <= |buffer|
              && Parse(c, buffer[offset..]) == Prepend(r.entry, Parse(c, buffer[r.next..]))
  {
    var length, storedCrc := ReadHeader(buffer, offset);
    if offset + 8 + length > |buffer| {
      return Torn;
    }
    DataAt(buffer, offset, length);
    var data := buffer[offset + 8..offset + 8 + length];
    if c.crc(data) != storedCrc {
      return Torn;
    }
    var entry := c.decode(data);
    if entry.None? {
      return Undecodable;
    }
    ParseFront(c, buffer[offset..], entry.value);
    r := Whole(entry.value, offset + 8 + length);
  }

  /** Length and checksum of the record at `offset`. */
  method ReadHeader(buffer: Bytes, offset: nat) returns (length: nat, crc: nat)
    requires offset + 8 <= |buffer|
    ensures length == HeaderLength(buffer[offset..]) && crc == HeaderCrc(buffer[offset..])
  {
    HeaderAt(buffer, offset);
    length := FromLe32(buffer[offset..offset + 4]);
    crc := FromLe32(buffer[offset + 4..offset + 8]);
  }

  /** The slices the loop takes are those of the rest of the buffer. */
  lemma HeaderAt(buffer: Bytes, offset: nat)
    requires offset + 8 <= |buffer|
    ensures buffer[offset..][..4] == buffer[offset..offset + 4]
    ensures buffer[offset..][4..8] == buffer[offset + 4..offset + 8]
  {
  }

  lemma DataAt(buffer: Bytes, offset: nat, length: nat)
    requires offset <= |buffer|
    ensures offset + 8 + length <= |buffer| ==>
              && buffer[offset..][8..8 + length] == buffer[offset + 8..offset + 8 + length]
              && buffer[offset..][8 + length..] == buffer[offset + 8 + length..]
  {
  }

  lemma ParseEnds(c: EntryCodec, buffer: Bytes, offset: nat, done: seq<LogEntry>)
    requires offset <= |buffer| && !Intact(c, buffer[offset..])
    requires Parse(c, buffer) == PrependAll(done, Parse(c, buffer[offset..]))
    ensures Parse(c, buffer) == Ok(done)
  {
    assert done + [] == done;
  }

  lemma ParseFront(c: EntryCodec, b: Bytes, e: LogEntry)
    requires Intact(c, b) && c.decode(b[8..8 + HeaderLength(b)]) == Some(e)
    ensures Parse(c, b) == Prepend(e, Parse(c, b[8 + HeaderLength(b)..]))
  {
  }

  lemma PrependNext(done: seq<LogEntry>, e: LogEntry, r: Result<seq<LogEntry>>)
    ensures PrependAll(done, Prepend(e, r)) == PrependAll(done + [e], r)
  {
    if r.Ok? {
      assert done + ([e] + r.value) == done + [e] + r.value;
    }
  }
}
