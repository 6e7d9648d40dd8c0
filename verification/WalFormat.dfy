/** The byte format of a log segment: records of length, checksum and data, and the loop that reads them back. */
module WalFormat {
  import opened Wrappers
  import opened RaftTypes

  /** Serialization and checksum; only that serialization can be undone is used of them. */
  datatype EntryCodec = EntryCodec(encode: LogEntry -> Bytes, decode: Bytes -> Option<LogEntry>, crc: Bytes -> nat) {
    ghost predicate Valid() {
      && (forall e: LogEntry :: decode(encode(e)) == Some(e))
      && (forall b: Bytes :: crc(b) < 0x1_0000_0000)
    }
  }

  // ---------------------------------------------------------------- numbers

  /** The four bytes of the lower 32 bits, lowest first. */
  function Le32(n: nat): (b: Bytes)
    ensures |b| == 4
  {
    var a := n / 256;
    var b := a / 256;
    var c := b / 256;
    [(n % 256) as Byte, (a % 256) as Byte, (b % 256) as Byte, (c % 256) as Byte]
  }

  function FromLe32(b: Bytes): nat
    requires |b| == 4
  {
    b[0] as nat + 256 * (b[1] as nat + 256 * (b[2] as nat + 256 * b[3] as nat))
  }

  lemma LowPart(n: nat, r: nat, d: nat)
    requires r < 0x1_0000_0000 && n == r + 0x1_0000_0000 * d
    ensures n % 0x1_0000_0000 == r
  {
  }

  lemma FourDigits(n: nat, a: nat, b: nat, c: nat, d: nat, x: nat, y: nat, z: nat, w: nat)
    requires n == x + 256 * a && a == y + 256 * b && b == z + 256 * c && c == w + 256 * d
    requires x < 256 && y < 256 && z < 256 && w < 256
    ensures n % 0x1_0000_0000 == x + 256 * (y + 256 * (z + 256 * w))
  {
    LowPart(n, x + 256 * (y + 256 * (z + 256 * w)), d);
  }

  lemma Le32RoundTrip(n: nat)
    ensures FromLe32(Le32(n)) == n % 0x1_0000_0000
  {
    var a := n / 256;
    var b := a / 256;
    var c := b / 256;
    FourDigits(n, a, b, c, c / 256, n % 256, a % 256, b % 256, c % 256);
  }

  lemma Stored32(b: Bytes, n: nat)
    requires n < 0x1_0000_0000 && b == Le32(n)
    ensures FromLe32(b) == n
  {
  }

  // ---------------------------------------------------------------- records

  function Record(c: EntryCodec, e: LogEntry): (r: Bytes)
    ensures |r| == 8 + |c.encode(e)|
  {
    var data := c.encode(e);
    Le32(|data|) + Le32(c.crc(data)) + data
  }

  function Encode(c: EntryCodec, es: seq<LogEntry>): Bytes {
    if es == [] then [] else Record(c, es[0]) + Encode(c, es[1..])
  }

  /** The length of a record is stored in 32 bits. */
  ghost predicate Storable(c: EntryCodec, es: seq<LogEntry>) {
    forall e | e in es :: |c.encode(e)| < 0x1_0000_0000
  }

  /** What the header at the front of `b` says. */
  function HeaderLength(b: Bytes): nat
    requires |b| >= 8
  {
    FromLe32(b[..4])
  }

  function HeaderCrc(b: Bytes): nat
    requires |b| >= 8
  {
    FromLe32(b[4..8])
  }

  /** A whole record with the right checksum is at the front of `b`. */
  predicate Intact(c: EntryCodec, b: Bytes) {
    && |b| >= 8
    && 8 + HeaderLength(b) <= |b|
    && c.crc(b[8..8 + HeaderLength(b)]) == HeaderCrc(b)
  }

  function Prepend(e: LogEntry, r: Result<seq<LogEntry>>): Result<seq<LogEntry>> {
    match r case Err => Err case Ok(es) => Ok([e] + es)
  }

  function PrependAll(es: seq<LogEntry>, r: Result<seq<LogEntry>>): Result<seq<LogEntry>> {
    match r case Err => Err case Ok(more) => Ok(es + more)
  }

  /** Reading stops at the first record that is not intact; a record that cannot be deserialized is an error. */
  function Parse(c: EntryCodec, b: Bytes): Result<seq<LogEntry>>
    decreases |b|
  {
    if !Intact(c, b) then Ok([])
    else
      match c.decode(b[8..8 + HeaderLength(b)])
      case None => Err
      case Some(e) => Prepend(e, Parse(c, b[8 + HeaderLength(b)..]))
  }

  lemma Slices(a: Bytes, b: Bytes, data: Bytes, tail: Bytes)
    requires |a| == 4 && |b| == 4
    ensures
      var all := a + b + data + tail;
      all[..4] == a && all[4..8] == b && all[8..8 + |data|] == data && all[8 + |data|..] == tail
  {
  }

  lemma HeaderOf(c: EntryCodec, e: LogEntry, b: Bytes)
    requires c.Valid() && |c.encode(e)| < 0x1_0000_0000
    requires |b| >= 8 && b[..4] == Le32(|c.encode(e)|) && b[4..8] == Le32(c.crc(c.encode(e)))
    ensures HeaderLength(b) == |c.encode(e)| && HeaderCrc(b) == c.crc(c.encode(e))
  {
    Stored32(b[..4], |c.encode(e)|);
    Stored32(b[4..8], c.crc(c.encode(e)));
  }

  lemma RecordIsIntact(c: EntryCodec, e: LogEntry, tail: Bytes)
    requires c.Valid() && |c.encode(e)| < 0x1_0000_0000
    ensures
      var b := Record(c, e) + tail;
      Intact(c, b) && b[8..8 + HeaderLength(b)] == c.encode(e) && b[8 + HeaderLength(b)..] == tail
  {
    var data := c.encode(e);
    Slices(Le32(|data|), Le32(c.crc(data)), data, tail);
    HeaderOf(c, e, Record(c, e) + tail);
  }

  lemma ParseRecord(c: EntryCodec, e: LogEntry, tail: Bytes)
    requires c.Valid() && |c.encode(e)| < 0x1_0000_0000
    ensures Parse(c, Record(c, e) + tail) == Prepend(e, Parse(c, tail))
  {
    RecordIsIntact(c, e, tail);
  }

  lemma PrependMore(es: seq<LogEntry>, r: Result<seq<LogEntry>>)
    ensures es == [] ==> PrependAll(es, r) == r
    ensures es != [] ==> Prepend(es[0], PrependAll(es[1..], r)) == PrependAll(es, r)
  {
    if r.Ok? {
      if es == [] {
        assert es + r.value == r.value;
      } else {
        assert [es[0]] + (es[1..] + r.value) == es + r.value;
      }
    }
  }

  lemma PrependTwice(a: seq<LogEntry>, b: seq<LogEntry>, r: Result<seq<LogEntry>>)
    ensures PrependAll(a, PrependAll(b, r)) == PrependAll(a + b, r)
  {
    if r.Ok? {
      assert a + (b + r.value) == a + b + r.value;
    }
  }

  /** Records are read back whatever follows them. */
  lemma {:induction false} ParseEncoded(c: EntryCodec, es: seq<LogEntry>, tail: Bytes)
    requires c.Valid() && Storable(c, es)
    ensures Parse(c, Encode(c, es) + tail) == PrependAll(es, Parse(c, tail))
    decreases |es|
  {
    PrependMore(es, Parse(c, tail));
    if es == [] {
      assert Encode(c, es) + tail == tail;
    } else {
      ParseEncoded(c, es[1..], tail);
      EncodedFront(c, es, tail);
      ParseRecord(c, es[0], Encode(c, es[1..]) + tail);
    }
  }

  lemma EncodedFront(c: EntryCodec, es: seq<LogEntry>, tail: Bytes)
    requires es != []
    ensures Encode(c, es) + tail == Record(c, es[0]) + (Encode(c, es[1..]) + tail)
  {
  }

  /** A piece of a record is not intact. */
  lemma TornIsNotIntact(c: EntryCodec, e: LogEntry, k: nat)
    requires |c.encode(e)| < 0x1_0000_0000 && k < |Record(c, e)|
    ensures !Intact(c, Record(c, e)[..k])
  {
  }

  /** How many records lie wholly within the first `k` bytes. */
  function WholeRecords(c: EntryCodec, es: seq<LogEntry>, k: nat): (j: nat)
    ensures j <= |es|
  {
    if es == [] || k < |Record(c, es[0])| then 0 else 1 + WholeRecords(c, es[1..], k - |Record(c, es[0])|)
  }

  lemma {:induction false} EncodeConcat(c: EntryCodec, a: seq<LogEntry>, b: seq<LogEntry>)
    ensures Encode(c, a + b) == Encode(c, a) + Encode(c, b)
    decreases |a|
  {
    if a == [] {
      assert a + b == b;
    } else {
      assert (a + b)[1..] == a[1..] + b;
      EncodeConcat(c, a[1..], b);
    }
  }

  /** It is the longest such prefix. */
  lemma {:induction false} WholeRecordsIsLongest(c: EntryCodec, es: seq<LogEntry>, k: nat, j: nat)
    requires j <= |es|
    ensures j <= WholeRecords(c, es, k) <==> |Encode(c, es[..j])| <= k
    decreases |es|
  {
    if j > 0 {
      var n := |Record(c, es[0])|;
      assert es[..j][1..] == es[1..][..j - 1] && es[..j][0] == es[0];
      if k >= n {
        WholeRecordsIsLongest(c, es[1..], k - n, j - 1);
      }
    }
  }

  lemma CutFront(c: EntryCodec, es: seq<LogEntry>, k: nat)
    requires es != [] && k <= |Encode(c, es)|
    ensures
      var r := Record(c, es[0]);
      if k < |r| then Encode(c, es)[..k] == r[..k]
      else k - |r| <= |Encode(c, es[1..])| && Encode(c, es)[..k] == r + Encode(c, es[1..])[..k - |r|]
  {
  }

  /** The whole records before a cut, and a piece of the next one. */
  lemma {:induction false} CutShape(c: EntryCodec, es: seq<LogEntry>, k: nat) returns (junk: Bytes)
    requires c.Valid() && Storable(c, es) && k <= |Encode(c, es)|
    ensures Encode(c, es)[..k] == Encode(c, es[..WholeRecords(c, es, k)]) + junk && !Intact(c, junk)
    decreases |es|
  {
    if es == [] {
      junk := [];
      assert Encode(c, es)[..k] == [] == Encode(c, es[..0]) + junk;
    } else {
      var n := |Record(c, es[0])|;
      CutFront(c, es, k);
      if k < n {
        junk := Record(c, es[0])[..k];
        TornIsNotIntact(c, es[0], k);
        assert Encode(c, es)[..k] == Encode(c, es[..0]) + junk;
      } else {
        junk := CutShape(c, es[1..], k - n);
        CutLonger(c, es, WholeRecords(c, es[1..], k - n), junk);
      }
    }
  }

  lemma CutLonger(c: EntryCodec, es: seq<LogEntry>, j: nat, junk: Bytes)
    requires es != [] && j <= |es[1..]|
    ensures Record(c, es[0]) + (Encode(c, es[1..][..j]) + junk) == Encode(c, es[..j + 1]) + junk
  {
    assert es[..j + 1][0] == es[0] && es[..j + 1][1..] == es[1..][..j];
  }

  /** Reading a segment cut anywhere gives exactly the records that lie wholly before the cut. */
  lemma TornTail(c: EntryCodec, es: seq<LogEntry>, k: nat)
    requires c.Valid() && Storable(c, es) && k <= |Encode(c, es)|
    ensures Parse(c, Encode(c, es)[..k]) == Ok(es[..WholeRecords(c, es, k)])
  {
    var junk := CutShape(c, es, k);
    var kept := es[..WholeRecords(c, es, k)];
    ParseEncoded(c, kept, junk);
    assert kept + [] == kept;
  }

  /** A tear in a file's first record, with `more` behind it: the file is readable exactly if `more` completes a
      record whose length and checksum are the old ones, as far as the tear left them. */
  lemma TornFirstRecordHides(c: EntryCodec, e: LogEntry, k: nat, more: Bytes)
    requires c.Valid() && |c.encode(e)| < 0x1_0000_0000 && k < |Record(c, e)|
    ensures
      var b := Record(c, e)[..k] + more;
      Intact(c, b) <==>
        && |b| >= 8
        && var length := if k >= 4 then |c.encode(e)| else HeaderLength(b);
           var crc := if k >= 8 then c.crc(c.encode(e)) else HeaderCrc(b);
           8 + length <= |b| && c.crc(b[8..8 + length]) == crc
  {
    var data := c.encode(e);
    var r := Record(c, e);
    var b := r[..k] + more;
    Slices(Le32(|data|), Le32(c.crc(data)), data, []);
    assert r + [] == r;
    if k >= 4 && |b| >= 8 {
      assert b[..4] == r[..4];
      Stored32(b[..4], |data|);
    }
    if k >= 8 {
      assert b[4..8] == r[4..8];
      Stored32(b[4..8], c.crc(data));
    }
  }

  /** After a tear of one byte, the next record's length is read shifted by a byte and is far too large. */
  lemma OneByteTearHides(c: EntryCodec, e: LogEntry, e': LogEntry)
    requires c.Valid() && 1 <= |c.encode(e')| < 0x100_0000
    ensures !Intact(c, Record(c, e)[..1] + Record(c, e'))
  {
    var n := |c.encode(e')|;
    var b := Record(c, e)[..1] + Record(c, e');
    Slices(Le32(n), Le32(c.crc(c.encode(e'))), c.encode(e'), []);
    assert Record(c, e') + [] == Record(c, e');
    assert b[1] == Le32(n)[0] && b[2] == Le32(n)[1] && b[3] == Le32(n)[2];
    ShiftedLength(n, b[..4]);
  }

  lemma ShiftedLength(n: nat, b: Bytes)
    requires 1 <= n < 0x100_0000 && |b| == 4
    requires b[1] == Le32(n)[0] && b[2] == Le32(n)[1] && b[3] == Le32(n)[2]
    ensures FromLe32(b) >= 256 * n
  {
    Le32RoundTrip(n);
    assert Le32(n)[3] == 0;
  }
}
