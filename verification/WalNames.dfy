/** Segment file names and the order in which recovery reads them. */
module WalNames {
  /** `n` in decimal, padded with zeros to `width` digits. */
  function Pad(n: nat, width: nat): (s: string)
    ensures |s| == width
  {
    if width == 0 then "" else Pad(n / 10, width - 1) + [Digit(n % 10)]
  }

  function Digit(d: nat): char
    requires d < 10
  {
    '0' + d as char
  }

  const NAME_LIMIT := 100_000_000_000_000_000_000

  /** The file of the segment that starts at `base`. */
  function Name(base: nat): string {
    Pad(base, 20) + ".log"
  }

  /** The extension of a file name is "log". */
  predicate IsLogName(s: string) {
    |s| > 4 && s[|s| - 4..] == ".log"
  }

  /** Names compare character by character. */
  predicate Less(a: string, b: string) {
    if b == "" then false
    else if a == "" then true
    else a[0] < b[0] || (a[0] == b[0] && Less(a[1..], b[1..]))
  }

  function Pow10(k: nat): nat {
    if k == 0 then 1 else 10 * Pow10(k - 1)
  }

  lemma {:induction false} LessAppend(a: string, b: string, x: string, y: string)
    requires |a| == |b|
    ensures Less(a, b) ==> Less(a + x, b + y)
    ensures a == b ==> (Less(a + x, b + y) <==> Less(x, y))
  {
    if a == "" {
      assert a + x == x && b + y == y;
    } else {
      LessAppend(a[1..], b[1..], x, y);
      assert (a + x)[1..] == a[1..] + x && (b + y)[1..] == b[1..] + y;
      assert a == b <==> a[0] == b[0] && a[1..] == b[1..];
    }
  }

  lemma {:induction false} PadAscends(a: nat, b: nat, width: nat)
    requires a < b < Pow10(width)
    ensures Less(Pad(a, width), Pad(b, width))
    decreases width
  {
    var x, y := Pad(a / 10, width - 1), Pad(b / 10, width - 1);
    LessAppend(x, y, [Digit(a % 10)], [Digit(b % 10)]);
    if a / 10 < b / 10 {
      PadAscends(a / 10, b / 10, width - 1);
    }
  }

  lemma TwentyDigits()
    ensures Pow10(20) == NAME_LIMIT
  {
    assert Pow10(10) == 10_000_000_000;
  }

  /** The order of the names is the order of the base indices. */
  lemma NamesAscend(a: nat, b: nat)
    requires a < b < NAME_LIMIT
    ensures Less(Name(a), Name(b)) && Name(a) != Name(b)
  {
    TwentyDigits();
    PadAscends(a, b, 20);
    LessAppend(Pad(a, 20), Pad(b, 20), ".log", ".log");
    LessIrreflexive(Name(a));
  }

  lemma NameIsLog(base: nat)
    ensures IsLogName(Name(base))
  {
  }

  // ---------------------------------------------------------------- a total order

  lemma {:induction false} LessIrreflexive(a: string)
    ensures !Less(a, a)
  {
    if a != "" {
      LessIrreflexive(a[1..]);
    }
  }

  lemma {:induction false} LessTransitive(a: string, b: string, c: string)
    requires Less(a, b) && Less(b, c)
    ensures Less(a, c)
  {
    if a != "" && a[0] == b[0] == c[0] {
      LessTransitive(a[1..], b[1..], c[1..]);
    }
  }

  lemma {:induction false} LessTotal(a: string, b: string)
    ensures a == b || Less(a, b) || Less(b, a)
  {
    if a != "" && b != "" && a[0] == b[0] {
      LessTotal(a[1..], b[1..]);
      assert a == [a[0]] + a[1..] && b == [b[0]] + b[1..];
    }
  }

  // ---------------------------------------------------------------- sorting

  predicate Ascending(names: seq<string>) {
    forall i, j | 0 <= i < j < |names| :: Less(names[i], names[j])
  }

  /** Puts a name where it belongs in an ascending sequence of others. */
  function Insert(name: string, names: seq<string>): seq<string> {
    if names == [] || Less(name, names[0]) then [name] + names else [names[0]] + Insert(name, names[1..])
  }

  function Sort(names: seq<string>): seq<string> {
    if names == [] then [] else Insert(names[0], Sort(names[1..]))
  }

  /** Two sequences have the same elements. */
  ghost predicate SameNames(a: seq<string>, b: seq<string>) {
    forall x :: x in a <==> x in b
  }

  lemma {:induction false} InsertHolds(name: string, names: seq<string>)
    ensures SameNames(Insert(name, names), [name] + names)
  {
    if names != [] && !Less(name, names[0]) {
      assert names == [names[0]] + names[1..];
      InsertHolds(name, names[1..]);
    }
  }

  lemma {:induction false} SortHolds(names: seq<string>)
    ensures SameNames(Sort(names), names)
  {
    if names != [] {
      assert names == [names[0]] + names[1..];
      SortHolds(names[1..]);
      InsertHolds(names[0], Sort(names[1..]));
    }
  }

  lemma {:induction false} InsertAscends(name: string, names: seq<string>)
    requires Ascending(names) && name !in names
    ensures Ascending(Insert(name, names))
  {
    if names != [] {
      if Less(name, names[0]) {
        forall i | 0 < i < |names| ensures Less(name, names[i]) {
          LessTransitive(name, names[0], names[i]);
        }
      } else {
        LessTotal(name, names[0]);
        InsertAscends(name, names[1..]);
        InsertHolds(name, names[1..]);
        var rest := Insert(name, names[1..]);
        forall i | 0 <= i < |rest| ensures Less(names[0], rest[i]) {
          assert rest[i] in [name] + names[1..];
        }
      }
    }
  }

  predicate Distinct(names: seq<string>) {
    forall i, j | 0 <= i < j < |names| :: names[i] != names[j]
  }

  lemma {:induction false} SortAscends(names: seq<string>)
    requires Distinct(names)
    ensures Ascending(Sort(names))
  {
    if names != [] {
      SortAscends(names[1..]);
      SortHolds(names[1..]);
      assert names[0] !in names[1..];
      InsertAscends(names[0], Sort(names[1..]));
    }
  }

  lemma FirstIsLeast(a: seq<string>, x: string)
    requires Ascending(a) && x in a
    ensures x == a[0] || Less(a[0], x)
  {
  }

  lemma TailOf(a: seq<string>, x: string)
    requires Ascending(a) && a != []
    ensures x in a[1..] <==> x in a && x != a[0]
  {
    assert a == [a[0]] + a[1..];
    LessIrreflexive(a[0]);
  }

  /** There is only one ascending order. */
  lemma {:induction false} AscendingIsUnique(a: seq<string>, b: seq<string>)
    requires Ascending(a) && Ascending(b) && SameNames(a, b)
    ensures a == b
  {
    if b != [] {
      NotEmpty(a, b);
    }
    if a != [] {
      NotEmpty(b, a);
      assert a[0] in b && b[0] in a;
      FirstIsLeast(a, b[0]);
      FirstIsLeast(b, a[0]);
      SameFirst(a[0], b[0]);
      forall x ensures x in a[1..] <==> x in b[1..] {
        TailOf(a, x);
        TailOf(b, x);
      }
      AscendingIsUnique(a[1..], b[1..]);
      assert a == [a[0]] + a[1..] && b == [b[0]] + b[1..];
    }
  }

  lemma NotEmpty(a: seq<string>, b: seq<string>)
    requires SameNames(a, b) && b != []
    ensures a != []
  {
    assert b[0] in b;
  }

  lemma SameFirst(x: string, y: string)
    requires (y == x || Less(x, y)) && (x == y || Less(y, x))
    ensures x == y
  {
  }

  /** Any listing of ascending names is sorted into them. */
  lemma SortOfListing(listing: seq<string>, names: seq<string>)
    requires Distinct(listing) && Ascending(names) && SameNames(listing, names)
    ensures Sort(listing) == names
  {
    SortAscends(listing);
    SortHolds(listing);
    AscendingIsUnique(Sort(listing), names);
  }

  // ---------------------------------------------------------------- the directory

  /** The files with the extension "log", in the order of the listing. */
  function LogNames(listing: seq<string>): seq<string> {
    if listing == [] then []
    else (if IsLogName(listing[0]) then [listing[0]] else []) + LogNames(listing[1..])
  }

  lemma {:induction false} LogNamesAre(listing: seq<string>)
    ensures forall x :: x in LogNames(listing) <==> x in listing && IsLogName(x)
    ensures Distinct(listing) ==> Distinct(LogNames(listing))
  {
    if listing != [] {
      assert listing == [listing[0]] + listing[1..];
      LogNamesAre(listing[1..]);
    }
  }
}
