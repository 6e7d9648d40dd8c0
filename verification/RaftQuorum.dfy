/** The commit rule's arithmetic: the entry picked from the sorted match indices is the highest one
    that a quorum, counting the leader, has reached. */
module RaftQuorum {
  import opened RaftTypes
  import opened RaftHandlers
  import opened RaftCluster
  import opened RaftElection

  function CountAtLeast(s: seq<nat>, x: nat): (r: nat)
    ensures r <= |s|
  {
    if s == [] then 0 else (if s[0] >= x then 1 else 0) + CountAtLeast(s[1..], x)
  }

  predicate Ascending(s: seq<nat>) {
    |s| > 1 ==> s[0] <= s[1] && Ascending(s[1..])
  }

  lemma {:induction false} AscendingFirst(s: seq<nat>, k: nat)
    requires Ascending(s) && k < |s|
    ensures s[0] <= s[k]
  {
    if k > 0 {
      AscendingFirst(s[1..], k - 1);
    }
  }

  lemma {:induction false} CountConcat(a: seq<nat>, b: seq<nat>, x: nat)
    ensures CountAtLeast(a + b, x) == CountAtLeast(a, x) + CountAtLeast(b, x)
  {
    if a == [] {
      assert a + b == b;
    } else {
      assert (a + b)[1..] == a[1..] + b;
      CountConcat(a[1..], b, x);
    }
  }

  lemma {:induction false} InsertHolds(y: nat, s: seq<nat>)
    ensures multiset(Insert(y, s)) == multiset(s) + multiset{y}
  {
    if s != [] && y > s[0] {
      InsertHolds(y, s[1..]);
      assert s == [s[0]] + s[1..];
    }
  }

  lemma AscendingCons(first: nat, rest: seq<nat>)
    requires Ascending(rest) && (rest != [] ==> first <= rest[0])
    ensures Ascending([first] + rest)
  {
    assert ([first] + rest)[1..] == rest;
  }

  lemma {:induction false} InsertSorts(y: nat, s: seq<nat>)
    requires Ascending(s)
    ensures Ascending(Insert(y, s))
  {
    if s != [] && y > s[0] {
      InsertSorts(y, s[1..]);
      AscendingCons(s[0], Insert(y, s[1..]));
    } else {
      AscendingCons(y, s);
    }
  }

  lemma {:induction false} SortSorts(s: seq<nat>)
    ensures Ascending(Sort(s)) && multiset(Sort(s)) == multiset(s)
  {
    if s != [] {
      SortSorts(s[1..]);
      InsertSorts(s[0], Sort(s[1..]));
      InsertHolds(s[0], Sort(s[1..]));
      assert s == [s[0]] + s[1..];
    }
  }

  lemma {:induction false} CountInsert(y: nat, s: seq<nat>, x: nat)
    ensures CountAtLeast(Insert(y, s), x) == CountAtLeast(s, x) + if y >= x then 1 else 0
  {
    if !(s == [] || y <= s[0]) {
      CountInsert(y, s[1..], x);
    }
  }

  lemma {:induction false} CountSort(s: seq<nat>, x: nat)
    ensures CountAtLeast(Sort(s), x) == CountAtLeast(s, x)
  {
    if s != [] {
      CountSort(s[1..], x);
      CountInsert(s[0], Sort(s[1..]), x);
    }
  }

  lemma {:induction false} CountAscending(s: seq<nat>, k: nat, x: nat)
    requires Ascending(s) && k < |s|
    ensures s[k] >= x ==> CountAtLeast(s, x) >= |s| - k
    ensures s[k] < x ==> CountAtLeast(s, x) < |s| - k
  {
    if k > 0 {
      AscendingFirst(s, k);
      CountAscending(s[1..], k - 1, x);
    } else if |s| > 1 {
      CountAscending(s[1..], 0, x);
    }
  }

  /** The element at distance `q` from the end of the sorted sequence is the largest value that at
      least `q` elements reach. */
  lemma PickIsLargest(s: seq<nat>, q: nat, x: nat)
    requires 1 <= q <= |s|
    ensures Sort(s)[|s| - q] >= x <==> CountAtLeast(s, x) >= q
  {
    SortSorts(s);
    CountSort(s, x);
    CountAscending(Sort(s), |s| - q, x);
  }

  /** The peers known to hold `x` entries. */
  function PeersAt(peers: seq<NodeId>, matched: map<NodeId, LogIndex>, x: nat): set<NodeId>
    requires forall p | p in peers :: p in matched
  {
    set p | p in peers && matched[p] >= x
  }

  lemma {:induction false} CountPeers(peers: seq<NodeId>, matched: map<NodeId, LogIndex>, x: nat)
    requires forall p | p in peers :: p in matched
    requires Distinct(peers)
    ensures |PeersAt(peers, matched, x)| == CountAtLeast(MatchValues(peers, matched), x)
  {
    if peers != [] {
      var p, rest := peers[0], peers[1..];
      DistinctTail(peers);
      CountPeers(rest, matched, x);
      assert peers == [p] + rest;
      assert PeersAt(peers, matched, x) == PeersAt(rest, matched, x) + if matched[p] >= x then {p} else {};
    }
  }

  /** The nodes that hold `x` entries as far as leader `n` knows, itself included. */
  function KnownHolders(n: Node, x: nat): set<NodeId>
    requires n.role.Leader? && TracksPeers(n)
  {
    PeersAt(n.config.peers, n.role.matchIndex, x) + if LastIndex(n.log) >= x then {n.config.id} else {}
  }

  lemma CountHolders(n: Node, x: nat)
    requires n.role.Leader? && TracksPeers(n)
    requires Distinct(n.config.peers) && n.config.id !in n.config.peers
    ensures |KnownHolders(n, x)| == CountAtLeast(Replicated(n), x)
  {
    var peers, matched := n.config.peers, n.role.matchIndex;
    CountConcat(MatchValues(peers, matched), [LastIndex(n.log)], x);
    CountPeers(peers, matched, x);
    assert CountAtLeast([LastIndex(n.log)], x) == if LastIndex(n.log) >= x then 1 else 0;
    var others := PeersAt(peers, matched, x);
    assert n.config.id !in others;
    assert |others + {n.config.id}| == |others| + 1;
  }

  /** The pick never underflows, and an index is at most the pick exactly when a quorum holds it. */
  lemma QuorumIndexIsLargest(n: Node, x: nat)
    requires n.role.Leader? && TracksPeers(n)
    requires Distinct(n.config.peers) && n.config.id !in n.config.peers
    ensures 1 <= Quorum(n.config) <= |Replicated(n)|
    ensures QuorumIndex(n) >= x <==> |KnownHolders(n, x)| >= Quorum(n.config)
  {
    CountHolders(n, x);
    PickIsLargest(Replicated(n), Quorum(n.config), x);
  }
}
