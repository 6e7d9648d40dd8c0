/** The range assignor of the consumer: each topic's partitions, sorted, are cut into one range per member. */
module RangeAssignor {
  import opened LogTypes
  import Remainders

  type Assignment = map<string, seq<TopicPartition>>

  // ---------------------------------------------------------------- the cuts

  /** The first `extra` members get one more than `perMember`. */
  function Count(perMember: nat, extra: nat, i: nat): nat {
    perMember + if i < extra then 1 else 0
  }

  /** Where member `i` starts, after the ranges of those before it. */
  function StartAt(perMember: nat, extra: nat, i: nat): nat {
    if i == 0 then 0 else StartAt(perMember, extra, i - 1) + Count(perMember, extra, i - 1)
  }

  // Division by repeated subtraction keeps nonlinear arithmetic out of the proofs; `DivisionIs` is the bridge.

  function Quotient(n: nat, m: nat): nat
    requires m > 0
  {
    if n < m then 0 else Quotient(n - m, m) + 1
  }

  function Remainder(n: nat, m: nat): nat
    requires m > 0
  {
    if n < m then n else Remainder(n - m, m)
  }

  lemma {:induction false} Division(n: nat, m: nat)
    requires m > 0
    ensures n == m * Quotient(n, m) + Remainder(n, m) && Remainder(n, m) < m
  {
    if n >= m {
      Division(n - m, m);
      assert m * (Quotient(n - m, m) + 1) == m * Quotient(n - m, m) + m;
    }
  }

  lemma DivisionIs(n: nat, m: nat)
    requires m > 0
    ensures Quotient(n, m) == n / m && Remainder(n, m) == n % m
  {
    Division(n, m);
    Remainders.SameQuotient(m, Quotient(n, m), Remainder(n, m), n / m, n % m);
  }

  /** How many of `n` partitions member `i` of `m` gets. */
  function Size(n: nat, m: nat, i: nat): nat
    requires m > 0
  {
    Count(Quotient(n, m), Remainder(n, m), i)
  }

  /** Where the range of member `i` starts. */
  function Start(n: nat, m: nat, i: nat): nat
    requires m > 0
  {
    StartAt(Quotient(n, m), Remainder(n, m), i)
  }

  lemma {:induction false} StartIs(perMember: nat, extra: nat, i: nat)
    ensures StartAt(perMember, extra, i) == i * perMember + if i < extra then i else extra
  {
    if i > 0 {
      StartIs(perMember, extra, i - 1);
      assert i * perMember == (i - 1) * perMember + perMember;
    }
  }

  lemma {:induction false} StartAscends(perMember: nat, extra: nat, i: nat, j: nat)
    requires i <= j
    ensures StartAt(perMember, extra, i) <= StartAt(perMember, extra, j)
    decreases j - i
  {
    if i < j {
      StartAscends(perMember, extra, i, j - 1);
    }
  }

  /** The ranges end where the partitions end. */
  lemma LastStart(n: nat, m: nat)
    requires m > 0
    ensures Start(n, m, m) == n
  {
    StartIs(Quotient(n, m), Remainder(n, m), m);
    Division(n, m);
  }

  predicate InRange(n: nat, m: nat, i: nat, k: nat)
    requires m > 0
  {
    Start(n, m, i) <= k < Start(n, m, i + 1)
  }

  lemma {:induction false} OwnerBelow(n: nat, m: nat, k: nat, hi: nat) returns (i: nat)
    requires m > 0 && k < Start(n, m, hi)
    ensures i < hi && InRange(n, m, i, k)
  {
    if Start(n, m, hi - 1) <= k {
      i := hi - 1;
    } else {
      i := OwnerBelow(n, m, k, hi - 1);
    }
  }

  /** Every position lies in exactly one range. */
  lemma OneOwner(n: nat, m: nat, k: nat) returns (i: nat)
    requires m > 0 && k < n
    ensures i < m && InRange(n, m, i, k)
    ensures forall j | 0 <= j && InRange(n, m, j, k) :: j == i
  {
    LastStart(n, m);
    i := OwnerBelow(n, m, k, m);
    forall j | 0 <= j && InRange(n, m, j, k) ensures j == i {
      if j < i {
        StartAscends(Quotient(n, m), Remainder(n, m), j + 1, i);
      } else if i < j {
        StartAscends(Quotient(n, m), Remainder(n, m), i + 1, j);
      }
    }
  }

  /** No two members' ranges differ by more than one, and no later one is longer. */
  lemma SizesAreBalanced(n: nat, m: nat, i: nat, j: nat)
    requires m > 0 && i <= j
    ensures Size(n, m, j) <= Size(n, m, i) <= Size(n, m, j) + 1
  {
  }

  // ---------------------------------------------------------------- topics

  function OfTopic(ps: seq<TopicPartition>, topic: string): seq<TopicPartition> {
    if ps == [] then [] else (if ps[0].topic == topic then [ps[0]] else []) + OfTopic(ps[1..], topic)
  }

  function InsertSorted(p: TopicPartition, ps: seq<TopicPartition>): seq<TopicPartition> {
    if ps == [] || p.partition <= ps[0].partition then [p] + ps else [ps[0]] + InsertSorted(p, ps[1..])
  }

  /** Stable, by partition number. */
  function SortByPartition(ps: seq<TopicPartition>): seq<TopicPartition> {
    if ps == [] then [] else InsertSorted(ps[0], SortByPartition(ps[1..]))
  }

  /** The sorted partitions of a topic. */
  function TopicList(ps: seq<TopicPartition>, topic: string): seq<TopicPartition> {
    SortByPartition(OfTopic(ps, topic))
  }

  lemma {:induction false} InsertHolds(p: TopicPartition, ps: seq<TopicPartition>)
    ensures multiset(InsertSorted(p, ps)) == multiset{p} + multiset(ps)
  {
    if ps != [] {
      assert ps == [ps[0]] + ps[1..];
      InsertHolds(p, ps[1..]);
    }
  }

  lemma {:induction false} SortHolds(ps: seq<TopicPartition>)
    ensures multiset(SortByPartition(ps)) == multiset(ps)
  {
    if ps != [] {
      assert ps == [ps[0]] + ps[1..];
      SortHolds(ps[1..]);
      InsertHolds(ps[0], SortByPartition(ps[1..]));
    }
  }

  predicate Ascending(ps: seq<TopicPartition>) {
    forall i, j | 0 <= i < j < |ps| :: ps[i].partition <= ps[j].partition
  }

  lemma InsertedIs(p: TopicPartition, ps: seq<TopicPartition>, i: nat)
    requires i < |InsertSorted(p, ps)|
    ensures InsertSorted(p, ps)[i] == p || InsertSorted(p, ps)[i] in ps
  {
    InsertHolds(p, ps);
    assert InsertSorted(p, ps)[i] in multiset(InsertSorted(p, ps));
  }

  lemma AscendsOn(first: TopicPartition, rest: seq<TopicPartition>)
    requires Ascending(rest) && forall i | 0 <= i < |rest| :: first.partition <= rest[i].partition
    ensures Ascending([first] + rest)
  {
  }

  lemma {:induction false} InsertAscends(p: TopicPartition, ps: seq<TopicPartition>)
    requires Ascending(ps)
    ensures Ascending(InsertSorted(p, ps))
  {
    if ps != [] && p.partition > ps[0].partition {
      var rest := InsertSorted(p, ps[1..]);
      InsertAscends(p, ps[1..]);
      forall i | 0 <= i < |rest| ensures ps[0].partition <= rest[i].partition {
        InsertedIs(p, ps[1..], i);
      }
      AscendsOn(ps[0], rest);
    }
  }

  /** A topic's list is its partitions in ascending order. */
  lemma {:induction false} SortAscends(ps: seq<TopicPartition>)
    ensures Ascending(SortByPartition(ps))
  {
    if ps != [] {
      SortAscends(ps[1..]);
      InsertAscends(ps[0], SortByPartition(ps[1..]));
    }
  }

  lemma {:induction false} OfTopicHas(ps: seq<TopicPartition>, topic: string, p: TopicPartition)
    ensures multiset(OfTopic(ps, topic))[p] == if p.topic == topic then multiset(ps)[p] else 0
  {
    if ps != [] {
      assert ps == [ps[0]] + ps[1..];
      OfTopicHas(ps[1..], topic, p);
    }
  }

  lemma TopicListHas(ps: seq<TopicPartition>, topic: string, p: TopicPartition)
    ensures multiset(TopicList(ps, topic))[p] == if p.topic == topic then multiset(ps)[p] else 0
  {
    SortHolds(OfTopic(ps, topic));
    OfTopicHas(ps, topic, p);
  }

  // ---------------------------------------------------------------- shares

  /** The range of member `i` of `m` in a list. */
  function Cut(list: seq<TopicPartition>, m: nat, i: nat): seq<TopicPartition>
    requires i < m
  {
    CutBounds(|list|, m, i);
    list[Start(|list|, m, i)..Start(|list|, m, i + 1)]
  }

  lemma CutBounds(n: nat, m: nat, i: nat)
    requires i < m
    ensures Start(n, m, i) <= Start(n, m, i + 1) <= n
  {
    StartAscends(Quotient(n, m), Remainder(n, m), i + 1, m);
    LastStart(n, m);
  }

  /** What member `i` gets of the topics in `order`. */
  function Share(ps: seq<TopicPartition>, order: seq<string>, m: nat, i: nat): seq<TopicPartition>
    requires i < m
  {
    if order == [] then []
    else Share(ps, order[..|order| - 1], m, i) + Cut(TopicList(ps, order[|order| - 1]), m, i)
  }

  predicate DistinctNames(s: seq<string>) {
    forall i, j | 0 <= i < j < |s| :: s[i] != s[j]
  }

  ghost predicate HasTopic(ps: seq<TopicPartition>, topic: string) {
    exists p | p in ps :: p.topic == topic
  }

  /** `order` lists the topics of `ps`, each once: some iteration order of the grouping. */
  ghost predicate IsTopicOrder(ps: seq<TopicPartition>, order: seq<string>) {
    DistinctNames(order) && forall t {:trigger HasTopic(ps, t)} :: t in order <==> HasTopic(ps, t)
  }

  lemma CutTopics(ps: seq<TopicPartition>, topic: string, m: nat, i: nat, p: TopicPartition)
    requires i < m && p.topic != topic
    ensures multiset(Cut(TopicList(ps, topic), m, i))[p] == 0
  {
    TopicListHas(ps, topic, p);
    CutWithin(TopicList(ps, topic), m, i, p);
  }

  lemma CutWithin(list: seq<TopicPartition>, m: nat, i: nat, p: TopicPartition)
    requires i < m
    ensures multiset(Cut(list, m, i))[p] <= multiset(list)[p]
  {
    CutBounds(|list|, m, i);
    var lo, hi := Start(|list|, m, i), Start(|list|, m, i + 1);
    assert list == list[..lo] + list[lo..hi] + list[hi..];
  }

  /** A share holds of a partition what the cut of its own topic holds. */
  lemma {:induction false} ShareHas(ps: seq<TopicPartition>, order: seq<string>, m: nat, i: nat, p: TopicPartition)
    requires i < m && DistinctNames(order)
    ensures multiset(Share(ps, order, m, i))[p]
         == if p.topic in order then multiset(Cut(TopicList(ps, p.topic), m, i))[p] else 0
    decreases |order|
  {
    if order != [] {
      var init, last := order[..|order| - 1], order[|order| - 1];
      assert order == init + [last];
      ShareHas(ps, init, m, i, p);
      if last != p.topic {
        CutTopics(ps, last, m, i, p);
      } else {
        assert p.topic !in init;
      }
    }
  }

  lemma NotInSlice(list: seq<TopicPartition>, lo: nat, hi: nat, p: TopicPartition)
    requires lo <= hi <= |list| && forall j | lo <= j < hi :: list[j] != p
    ensures multiset(list[lo..hi])[p] == 0
  {
    assert p !in list[lo..hi];
  }

  lemma OnceInSlice(list: seq<TopicPartition>, lo: nat, hi: nat, k: nat, p: TopicPartition)
    requires lo <= hi <= |list| && k < |list| && list[k] == p
    requires forall j | 0 <= j < |list| && list[j] == p :: j == k
    ensures multiset(list[lo..hi])[p] == if lo <= k < hi then 1 else 0
  {
    if lo <= k < hi {
      NotInSlice(list, lo, k, p);
      NotInSlice(list, k + 1, hi, p);
      assert list[lo..hi] == list[lo..k] + [p] + list[k + 1..hi];
    } else {
      NotInSlice(list, lo, hi, p);
    }
  }

  lemma OnePlace(list: seq<TopicPartition>, p: TopicPartition) returns (k: nat)
    requires multiset(list)[p] == 1
    ensures k < |list| && list[k] == p && forall j | 0 <= j < |list| && list[j] == p :: j == k
  {
    assert p in list;
    k :| 0 <= k < |list| && list[k] == p;
    var a, b := list[..k], list[k + 1..];
    assert list == a + [p] + b;
    assert multiset(list)[p] == multiset(a)[p] + 1 + multiset(b)[p];
    assert p !in a && p !in b;
    forall j | 0 <= j < |list| && j != k ensures list[j] != p {
      assert if j < k then list[j] == a[j] else list[j] == b[j - k - 1];
    }
  }

  lemma CutOnce(list: seq<TopicPartition>, m: nat, i: nat, k: nat, p: TopicPartition)
    requires i < m && k < |list| && list[k] == p
    requires forall j | 0 <= j < |list| && list[j] == p :: j == k
    ensures multiset(Cut(list, m, i))[p] == if InRange(|list|, m, i, k) then 1 else 0
  {
    CutBounds(|list|, m, i);
    OnceInSlice(list, Start(|list|, m, i), Start(|list|, m, i + 1), k, p);
  }

  lemma TopicListed(ps: seq<TopicPartition>, order: seq<string>, p: TopicPartition)
    requires IsTopicOrder(ps, order) && multiset(ps)[p] > 0
    ensures p.topic in order
  {
    assert p in ps && HasTopic(ps, p.topic);
  }

  /** Every partition is in the share of exactly one member, once. */
  lemma ExactCover(ps: seq<TopicPartition>, order: seq<string>, m: nat, p: TopicPartition) returns (i: nat)
    requires m > 0 && IsTopicOrder(ps, order) && multiset(ps)[p] == 1
    ensures i < m && forall j | 0 <= j < m :: multiset(Share(ps, order, m, j))[p] == if j == i then 1 else 0
  {
    var list := TopicList(ps, p.topic);
    TopicListHas(ps, p.topic, p);
    TopicListed(ps, order, p);
    var k := OnePlace(list, p);
    i := OneOwner(|list|, m, k);
    forall j | 0 <= j < m ensures multiset(Share(ps, order, m, j))[p] == if j == i then 1 else 0 {
      ShareHas(ps, order, m, j, p);
      CutOnce(list, m, j, k, p);
    }
  }

  /** Nothing but the given partitions is assigned. */
  lemma NothingElse(ps: seq<TopicPartition>, order: seq<string>, m: nat, i: nat, p: TopicPartition)
    requires i < m && DistinctNames(order)
    ensures multiset(Share(ps, order, m, i))[p] <= multiset(ps)[p]
  {
    ShareHas(ps, order, m, i, p);
    CutWithin(TopicList(ps, p.topic), m, i, p);
    TopicListHas(ps, p.topic, p);
  }

  /** What a member gets does not depend on the order in which the topics are visited. */
  lemma OrderDoesNotMatter(ps: seq<TopicPartition>, order: seq<string>, order': seq<string>, m: nat, i: nat)
    requires i < m && IsTopicOrder(ps, order) && IsTopicOrder(ps, order')
    ensures multiset(Share(ps, order, m, i)) == multiset(Share(ps, order', m, i))
  {
    forall p: TopicPartition ensures multiset(Share(ps, order, m, i))[p] == multiset(Share(ps, order', m, i))[p] {
      ShareHas(ps, order, m, i, p);
      ShareHas(ps, order', m, i, p);
      assert HasTopic(ps, p.topic) <==> p.topic in order;
      assert HasTopic(ps, p.topic) <==> p.topic in order';
    }
  }

  // ---------------------------------------------------------------- the assignor

  function Lookup(a: Assignment, member: string): seq<TopicPartition> {
    if member in a then a[member] else []
  }

  /** Groups partitions by topic, in the order given. */
  method GroupByTopic(ps: seq<TopicPartition>) returns (byTopic: map<string, seq<TopicPartition>>)
    ensures forall t {:trigger HasTopic(ps, t)} :: t in byTopic <==> HasTopic(ps, t)
    ensures forall t {:trigger byTopic[t]} | t in byTopic :: byTopic[t] == OfTopic(ps, t)
  {
    byTopic := map[];
    var i := 0;
    while i < |ps|
      invariant 0 <= i <= |ps|
      invariant forall t :: t in byTopic <==> OfTopic(ps[..i], t) != []
      invariant forall t | t in byTopic :: byTopic[t] == OfTopic(ps[..i], t)
    {
      var t := ps[i].topic;
      forall u ensures OfTopic(ps[..i + 1], u) == OfTopic(ps[..i], u) + if u == t then [ps[i]] else [] {
        assert ps[..i + 1] == ps[..i] + [ps[i]];
        OfTopicSnoc(ps[..i], ps[i], u);
      }
      byTopic := byTopic[t := Lookup(byTopic, t) + [ps[i]]];
      i := i + 1;
    }
    assert ps[..i] == ps;
    forall t ensures t in byTopic <==> HasTopic(ps, t) {
      OfTopicEmpty(ps, t);
    }
  }

  lemma {:induction false} OfTopicSnoc(ps: seq<TopicPartition>, p: TopicPartition, t: string)
    ensures OfTopic(ps + [p], t) == OfTopic(ps, t) + if p.topic == t then [p] else []
  {
    if ps == [] {
      assert ps + [p] == [p] && [p][1..] == [];
    } else {
      var first := if ps[0].topic == t then [ps[0]] else [];
      var last := if p.topic == t then [p] else [];
      assert (ps + [p])[0] == ps[0] && (ps + [p])[1..] == ps[1..] + [p];
      OfTopicSnoc(ps[1..], p, t);
      assert first + (OfTopic(ps[1..], t) + last) == (first + OfTopic(ps[1..], t)) + last;
    }
  }

  lemma {:induction false} OfTopicEmpty(ps: seq<TopicPartition>, t: string)
    ensures OfTopic(ps, t) != [] <==> HasTopic(ps, t)
  {
    if ps != [] {
      OfTopicEmpty(ps[1..], t);
      assert ps == [ps[0]] + ps[1..];
    }
  }

  /** The first `i` members have got their ranges, the others nothing. */
  predicate Given(members: seq<string>, cuts: seq<seq<TopicPartition>>, before: Assignment, after: Assignment, i: nat)
    requires i <= |members| == |cuts|
  {
    && (forall j {:trigger Lookup(after, members[j])} | 0 <= j < i ::
          Lookup(after, members[j]) == Lookup(before, members[j]) + cuts[j])
    && (forall j {:trigger Lookup(after, members[j])} | i <= j < |members| ::
          Lookup(after, members[j]) == Lookup(before, members[j]))
  }

  lemma GiveNext(members: seq<string>, cuts: seq<seq<TopicPartition>>, before: Assignment, after: Assignment, i: nat)
    requires i < |members| == |cuts| && DistinctNames(members) && Given(members, cuts, before, after, i)
    ensures Given(members, cuts, before, after[members[i] := Lookup(after, members[i]) + cuts[i]], i + 1)
  {
    var after' := after[members[i] := Lookup(after, members[i]) + cuts[i]];
    forall j | 0 <= j < |members| && j != i ensures Lookup(after', members[j]) == Lookup(after, members[j]) {
      assert members[j] != members[i];
    }
  }

  function Cuts(list: seq<TopicPartition>, m: nat): (cuts: seq<seq<TopicPartition>>)
    ensures |cuts| == m && forall i | 0 <= i < m :: cuts[i] == Cut(list, m, i)
  {
    seq(m, i requires 0 <= i < m => Cut(list, m, i))
  }

  /** The range of member `i`, if the first `extra` of them get one more than `perMember`. */
  predicate IsRange(list: seq<TopicPartition>, perMember: nat, extra: nat, i: nat, range: seq<TopicPartition>) {
    var lo, hi := StartAt(perMember, extra, i), StartAt(perMember, extra, i + 1);
    lo <= hi <= |list| && range == list[lo..hi]
  }

  ghost predicate IsSplit(list: seq<TopicPartition>, perMember: nat, extra: nat, cuts: seq<seq<TopicPartition>>) {
    forall i {:trigger cuts[i]} | 0 <= i < |cuts| :: IsRange(list, perMember, extra, i, cuts[i])
  }

  lemma SplitIs(list: seq<TopicPartition>, m: nat)
    requires m > 0
    ensures IsSplit(list, Quotient(|list|, m), Remainder(|list|, m), Cuts(list, m))
  {
    var cuts := Cuts(list, m);
    var q, r := Quotient(|list|, m), Remainder(|list|, m);
    forall i {:trigger cuts[i]} | 0 <= i < m ensures IsRange(list, q, r, i, cuts[i]) {
      CutBounds(|list|, m, i);
      assert cuts[i] == Cut(list, m, i);
    }
  }

  function Joined(cuts: seq<seq<TopicPartition>>): seq<TopicPartition> {
    if cuts == [] then [] else Joined(cuts[..|cuts| - 1]) + cuts[|cuts| - 1]
  }

  lemma {:induction false} JoinedUpTo(list: seq<TopicPartition>, m: nat, i: nat)
    requires m > 0 && i <= m
    ensures Start(|list|, m, i) <= |list| && Joined(Cuts(list, m)[..i]) == list[..Start(|list|, m, i)]
  {
    if i > 0 {
      JoinedUpTo(list, m, i - 1);
      CutBounds(|list|, m, i - 1);
      JoinedNext(Cuts(list, m), i - 1);
      assert Cuts(list, m)[i - 1] == Cut(list, m, i - 1);
      PrefixGoesOn(list, Start(|list|, m, i - 1), Start(|list|, m, i));
    }
  }

  lemma JoinedNext(cuts: seq<seq<TopicPartition>>, i: nat)
    requires i < |cuts|
    ensures Joined(cuts[..i + 1]) == Joined(cuts[..i]) + cuts[i]
  {
    assert cuts[..i + 1][..i] == cuts[..i];
  }

  lemma PrefixGoesOn(list: seq<TopicPartition>, lo: nat, hi: nat)
    requires lo <= hi <= |list|
    ensures list[..lo] + list[lo..hi] == list[..hi]
  {
  }

  /** The ranges of the members, in member order, make up the list. */
  lemma RangesJoin(list: seq<TopicPartition>, m: nat)
    requires m > 0
    ensures Joined(Cuts(list, m)) == list
  {
    JoinedUpTo(list, m, m);
    LastStart(|list|, m);
    assert Cuts(list, m)[..m] == Cuts(list, m);
  }

  lemma {:induction false} OfTopicConcat(a: seq<TopicPartition>, b: seq<TopicPartition>, t: string)
    ensures OfTopic(a + b, t) == OfTopic(a, t) + OfTopic(b, t)
    decreases |b|
  {
    if b == [] {
      assert a + b == a && OfTopic(a, t) + [] == OfTopic(a, t);
    } else {
      var n := |b| - 1;
      assert a + b == (a + b[..n]) + [b[n]] && b == b[..n] + [b[n]];
      OfTopicSnoc(a + b[..n], b[n], t);
      OfTopicSnoc(b[..n], b[n], t);
      OfTopicConcat(a, b[..n], t);
    }
  }

  lemma {:induction false} AllOrNone(list: seq<TopicPartition>, u: string, t: string)
    requires forall p | p in list :: p.topic == u
    ensures OfTopic(list, t) == if u == t then list else []
  {
    if list != [] {
      assert list[0] in list && list == [list[0]] + list[1..];
      AllOrNone(list[1..], u, t);
    }
  }

  lemma InCut(list: seq<TopicPartition>, m: nat, i: nat, p: TopicPartition)
    requires i < m && p in Cut(list, m, i)
    ensures multiset(list)[p] > 0
  {
    CutBounds(|list|, m, i);
    var lo, hi := Start(|list|, m, i), Start(|list|, m, i + 1);
    assert list == list[..lo] + list[lo..hi] + list[hi..];
  }

  lemma CutOfTopic(ps: seq<TopicPartition>, u: string, m: nat, i: nat, t: string)
    requires i < m
    ensures OfTopic(Cut(TopicList(ps, u), m, i), t) == if u == t then Cut(TopicList(ps, u), m, i) else []
  {
    var list := TopicList(ps, u);
    forall p | p in Cut(list, m, i) ensures p.topic == u {
      InCut(list, m, i, p);
      TopicListHas(ps, u, p);
    }
    AllOrNone(Cut(list, m, i), u, t);
  }

  /** What a member gets of a topic is its range of that topic's list, in order. */
  lemma {:induction false} ShareOfTopic(ps: seq<TopicPartition>, order: seq<string>, m: nat, i: nat, t: string)
    requires i < m && DistinctNames(order)
    ensures OfTopic(Share(ps, order, m, i), t) == if t in order then Cut(TopicList(ps, t), m, i) else []
    decreases |order|
  {
    if order != [] {
      var init, last := order[..|order| - 1], order[|order| - 1];
      assert order == init + [last];
      ShareOfTopic(ps, init, m, i, t);
      OfTopicConcat(Share(ps, init, m, i), Cut(TopicList(ps, last), m, i), t);
      CutOfTopic(ps, last, m, i, t);
    }
  }

  /** Exactly those of `names` have been added, and nobody else's list has changed. */
  ghost predicate Holders(before: Assignment, names: seq<string>, after: Assignment) {
    && (forall x {:trigger x in after} :: x in after <==> x in before || x in names)
    && (forall x {:trigger Lookup(after, x)} | x !in names :: Lookup(after, x) == Lookup(before, x))
  }

  lemma HoldersNext(before: Assignment, members: seq<string>, i: nat, after: Assignment, share: seq<TopicPartition>)
    requires i < |members| && Holders(before, members[..i], after)
    ensures Holders(before, members[..i + 1], after[members[i] := share])
  {
    assert members[..i + 1] == members[..i] + [members[i]];
    var after' := after[members[i] := share];
    forall x | x !in members[..i + 1] ensures Lookup(after', x) == Lookup(before, x) {
      assert x != members[i] && x !in members[..i] && Lookup(after', x) == Lookup(after, x);
    }
  }

  /** Gives every member the next range of the list. */
  method GiveRanges(members: seq<string>, list: seq<TopicPartition>, perMember: nat, extra: nat, before: Assignment,
                    ghost cuts: seq<seq<TopicPartition>>) returns (after: Assignment)
    requires IsSplit(list, perMember, extra, cuts) && |cuts| == |members|
    ensures Holders(before, members, after)
    ensures DistinctNames(members) ==> Given(members, cuts, before, after, |members|)
  {
    after := before;
    var idx, i := 0, 0;
    while i < |members|
      invariant 0 <= i <= |members| && idx == StartAt(perMember, extra, i)
      invariant Holders(before, members[..i], after)
      invariant DistinctNames(members) ==> Given(members, cuts, before, after, i)
    {
      var end := idx + Count(perMember, extra, i);
      assert IsRange(list, perMember, extra, i, cuts[i]);
      if DistinctNames(members) {
        GiveNext(members, cuts, before, after, i);
      }
      HoldersNext(before, members, i, after, Lookup(after, members[i]) + cuts[i]);
      after := after[members[i] := Lookup(after, members[i]) + list[idx..end]];
      idx, i := end, i + 1;
    }
    assert members[..i] == members;
  }

  /** Gives every member its range of one topic's list. */
  method AssignTopic(members: seq<string>, list: seq<TopicPartition>, before: Assignment) returns (after: Assignment)
    requires members != []
    ensures Holders(before, members, after)
    ensures DistinctNames(members) ==> Given(members, Cuts(list, |members|), before, after, |members|)
  {
    var m, n := |members|, |list|;
    SplitIs(list, m);
    DivisionIs(n, m);
    after := GiveRanges(members, list, n / m, n % m, before, Cuts(list, m));
  }

  /** Every member holds its shares of these topics. */
  ghost predicate HaveShares(ps: seq<TopicPartition>, topics: seq<string>, members: seq<string>, a: Assignment) {
    forall i {:trigger Share(ps, topics, |members|, i)} | 0 <= i < |members| ::
      Lookup(a, members[i]) == Share(ps, topics, |members|, i)
  }

  lemma ShareNext(ps: seq<TopicPartition>, order: seq<string>, k: nat, m: nat, i: nat)
    requires k < |order| && i < m
    ensures Share(ps, order[..k + 1], m, i) == Share(ps, order[..k], m, i) + Cut(TopicList(ps, order[k]), m, i)
  {
    var topics := order[..k + 1];
    assert |topics| - 1 == k && topics[..k] == order[..k] && topics[k] == order[k];
  }

  lemma SharesNext(ps: seq<TopicPartition>, order: seq<string>, k: nat, members: seq<string>,
                   before: Assignment, after: Assignment)
    requires k < |order| && HaveShares(ps, order[..k], members, before)
    requires Given(members, Cuts(TopicList(ps, order[k]), |members|), before, after, |members|)
    ensures HaveShares(ps, order[..k + 1], members, after)
  {
    forall i | 0 <= i < |members| ensures Lookup(after, members[i]) == Share(ps, order[..k + 1], |members|, i) {
      ShareNext(ps, order, k, |members|, i);
      assert Lookup(before, members[i]) == Share(ps, order[..k], |members|, i);
      assert Lookup(after, members[i]) == Lookup(before, members[i]) + Cuts(TopicList(ps, order[k]), |members|)[i];
    }
  }

  /** Exactly the members hold something, once there was a topic. */
  ghost predicate HeldBy(members: seq<string>, started: bool, a: Assignment) {
    forall x {:trigger x in a} :: x in a <==> started && x in members
  }

  lemma HeldNext(members: seq<string>, started: bool, before: Assignment, after: Assignment)
    requires HeldBy(members, started, before) && Holders(before, members, after)
    ensures HeldBy(members, true, after)
  {
  }

  /** Gives every member its range of the `k`th topic. */
  method AssignNext(members: seq<string>, list: seq<TopicPartition>, before: Assignment,
                    ghost ps: seq<TopicPartition>, ghost order: seq<string>, ghost k: nat) returns (after: Assignment)
    requires members != [] && k < |order| && list == TopicList(ps, order[k])
    requires HeldBy(members, k > 0, before)
    requires DistinctNames(members) ==> HaveShares(ps, order[..k], members, before)
    ensures HeldBy(members, true, after)
    ensures DistinctNames(members) ==> HaveShares(ps, order[..k + 1], members, after)
  {
    after := AssignTopic(members, list, before);
    HeldNext(members, k > 0, before, after);
    if DistinctNames(members) {
      SharesNext(ps, order, k, members, before, after);
    }
  }

  /** The whole assignment; `order` is the order in which the groups are visited. */
  method Assign(members: seq<string>, ps: seq<TopicPartition>, order: seq<string>) returns (assignment: Assignment)
    requires members != [] || ps == []
    requires IsTopicOrder(ps, order)
    ensures HeldBy(members, ps != [], assignment)
    ensures DistinctNames(members) ==> HaveShares(ps, order, members, assignment)
  {
    var byTopic := GroupByTopic(ps);
    assignment := map[];
    NoShares(ps, order, members);
    var k := 0;
    while k < |order|
      invariant 0 <= k <= |order|
      invariant HeldBy(members, k > 0, assignment)
      invariant DistinctNames(members) ==> HaveShares(ps, order[..k], members, assignment)
    {
      TopicGrouped(ps, order, k);
      var list := SortByPartition(byTopic[order[k]]);
      assignment := AssignNext(members, list, assignment, ps, order, k);
      k := k + 1;
    }
    assert order[..k] == order;
    OrderEmpty(ps, order);
  }

  lemma TopicGrouped(ps: seq<TopicPartition>, order: seq<string>, k: nat)
    requires k < |order| && IsTopicOrder(ps, order)
    ensures HasTopic(ps, order[k])
  {
    assert order[k] in order;
  }

  lemma NoShares(ps: seq<TopicPartition>, order: seq<string>, members: seq<string>)
    ensures HaveShares(ps, order[..0], members, map[])
  {
  }

  lemma OrderEmpty(ps: seq<TopicPartition>, order: seq<string>)
    requires IsTopicOrder(ps, order)
    ensures order == [] <==> ps == []
  {
    if ps != [] {
      assert ps[0] in ps && HasTopic(ps, ps[0].topic);
    }
    if order != [] {
      assert order[0] in order && HasTopic(ps, order[0]);
    }
  }
}
