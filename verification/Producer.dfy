/** The producer: routing of records to partitions, batching, and the requests that carry the batches away. */
module Producer {
  import opened Wrappers
  import opened LogTypes
  import Remainders

  type Bytes = seq<nat>

  datatype Record = Record(key: Option<Bytes>, value: Option<Bytes>, headers: seq<(string, Bytes)>)

  datatype ProducerRecord = ProducerRecord(topic: string, partition: Option<nat>, record: Record)

  datatype PartitionData = PartitionData(partition: nat, records: seq<Record>)

  type Batches = map<TopicPartition, seq<Record>>

  const DEFAULT_PARTITION_COUNT := 3
  const U32 := 0x1_0000_0000

  function Get(b: Batches, tp: TopicPartition): seq<Record> {
    if tp in b then b[tp] else []
  }

  function Length(b: Option<Bytes>): nat {
    match b case None => 0 case Some(v) => |v|
  }

  function RecordSize(r: Record): nat {
    Length(r.key) + Length(r.value)
  }

  function TotalSize(rs: seq<Record>): nat {
    if rs == [] then 0 else TotalSize(rs[..|rs| - 1]) + RecordSize(rs[|rs| - 1])
  }

  function BytesOf(b: Option<Bytes>): Bytes {
    match b case None => [] case Some(v) => v
  }

  /** The keys and values of a batch, one behind the other. */
  function Payload(rs: seq<Record>): Bytes {
    if rs == [] then []
    else Payload(rs[..|rs| - 1]) + BytesOf(rs[|rs| - 1].key) + BytesOf(rs[|rs| - 1].value)
  }

  /** The size of a batch is the number of its key and value bytes. */
  lemma {:induction false} SizeIsPayload(rs: seq<Record>)
    ensures TotalSize(rs) == |Payload(rs)|
  {
    if rs != [] {
      SizeIsPayload(rs[..|rs| - 1]);
    }
  }

  function CountOf(counts: map<string, nat>, topic: string): nat {
    if topic in counts then counts[topic] else DEFAULT_PARTITION_COUNT
  }

  /** Where a record goes: its own partition, the hash of its key, or the next one in turn. */
  function Route(crc: Bytes -> nat, counts: map<string, nat>, counter: nat, r: ProducerRecord): TopicPartition
    requires CountOf(counts, r.topic) > 0
  {
    var n := CountOf(counts, r.topic);
    TopicPartition(r.topic,
                   match r.partition
                   case Some(p) => p
                   case None => match r.record.key case Some(k) => crc(k) % n case None => counter % n)
  }

  /** By the checksum of its key, or in turn, among the partitions of its topic. */
  predicate IsPlaced(crc: Bytes -> nat, counts: map<string, nat>, counter: nat, r: ProducerRecord, partition: nat) {
    var n := CountOf(counts, r.topic);
    n > 0 && partition == match r.record.key case Some(k) => crc(k) % n case None => counter % n
  }

  lemma PlacedIsRoute(crc: Bytes -> nat, counts: map<string, nat>, counter: nat, r: ProducerRecord, partition: nat)
    requires CountOf(counts, r.topic) > 0
    requires match r.partition case Some(p) => partition == p case None => IsPlaced(crc, counts, counter, r, partition)
    ensures Route(crc, counts, counter, r) == TopicPartition(r.topic, partition)
    ensures r.partition.None? ==> partition < CountOf(counts, r.topic)
  {
  }

  /** The counter moves on for records without partition and key only. */
  function NextCounter(counter: nat, r: ProducerRecord): nat {
    if r.partition.None? && r.record.key.None? then (counter + 1) % U32 else counter
  }

  /** What was sent to a partition is what was drained from it followed by what is held, in order. */
  ghost predicate Conserved(sent: Batches, drained: Batches, batches: Batches) {
    forall tp: TopicPartition {:trigger Get(sent, tp)} :: Get(sent, tp) == Get(drained, tp) + Get(batches, tp)
  }

  /** The sizes are those of what is held, and no empty batch is kept. */
  ghost predicate Sized(batches: Batches, sizes: map<TopicPartition, nat>) {
    && sizes.Keys == batches.Keys
    && forall tp {:trigger sizes[tp]} | tp in batches :: batches[tp] != [] && sizes[tp] == TotalSize(batches[tp])
  }

  lemma AppendConserves(sent: Batches, drained: Batches, batches: Batches, tp: TopicPartition, r: Record)
    requires Conserved(sent, drained, batches)
    ensures Conserved(sent[tp := Get(sent, tp) + [r]], drained, batches[tp := Get(batches, tp) + [r]])
  {
    var sent', batches' := sent[tp := Get(sent, tp) + [r]], batches[tp := Get(batches, tp) + [r]];
    forall q: TopicPartition ensures Get(sent', q) == Get(drained, q) + Get(batches', q) {
      assert Get(sent, q) == Get(drained, q) + Get(batches, q);
    }
  }

  lemma DrainConserves(sent: Batches, drained: Batches, batches: Batches, tp: TopicPartition)
    requires Conserved(sent, drained, batches)
    ensures Conserved(sent, drained[tp := Get(drained, tp) + Get(batches, tp)], batches - {tp})
  {
  }

  /** A batch is ready when it holds enough bytes. */
  predicate BatchIsReady(batches: Batches, tp: TopicPartition, batchSize: nat) {
    tp in batches && |Payload(batches[tp])| >= batchSize
  }

  function WithRecord(batches: Batches, tp: TopicPartition, r: Record): Batches {
    batches[tp := Get(batches, tp) + [r]]
  }

  lemma SizeSnoc(rs: seq<Record>, r: Record)
    ensures TotalSize(rs + [r]) == TotalSize(rs) + RecordSize(r) == |Payload(rs + [r])|
  {
    assert (rs + [r])[..|rs|] == rs;
    SizeIsPayload(rs + [r]);
  }

  lemma AppendSizes(batches: Batches, sizes: map<TopicPartition, nat>, tp: TopicPartition, r: Record, batchSize: nat)
    requires Sized(batches, sizes)
    ensures
      var size, batches' := (if tp in sizes then sizes[tp] else 0) + RecordSize(r), WithRecord(batches, tp, r);
      && Sized(batches', sizes[tp := size])
      && (size >= batchSize <==> BatchIsReady(batches', tp, batchSize))
  {
    SizeSnoc(Get(batches, tp), r);
  }

  // ---------------------------------------------------------------- requests

  type Request = map<string, seq<PartitionData>>

  /** The batches of the partitions of one topic, in the order of `tps`. */
  function ForTopic(tps: seq<TopicPartition>, batches: Batches, topic: string): seq<PartitionData> {
    if tps == [] then []
    else
      var tp := tps[|tps| - 1];
      ForTopic(tps[..|tps| - 1], batches, topic)
      + if tp.topic == topic then [PartitionData(tp.partition, Get(batches, tp))] else []
  }

  /** The request holds exactly the batches of `tps`, by topic. */
  ghost predicate Carries(request: Request, tps: seq<TopicPartition>, batches: Batches) {
    forall t: string {:trigger ForTopic(tps, batches, t)} ::
      (t in request <==> ForTopic(tps, batches, t) != []) && (t in request ==> request[t] == ForTopic(tps, batches, t))
  }

  function WithData(request: Request, topic: string, data: PartitionData): Request {
    request[topic := (if topic in request then request[topic] else []) + [data]]
  }

  lemma CarriesMore(request: Request, tps: seq<TopicPartition>, tp: TopicPartition, batches: Batches)
    requires Carries(request, tps, batches)
    ensures
      var data := PartitionData(tp.partition, Get(batches, tp));
      Carries(WithData(request, tp.topic, data), tps + [tp], batches)
  {
  }

  predicate DistinctPartitions(tps: seq<TopicPartition>) {
    forall i, j | 0 <= i < j < |tps| :: tps[i] != tps[j]
  }

  /** The drained map after the batches of `tps` are taken. */
  function DrainAll(drained: Batches, batches: Batches, tps: seq<TopicPartition>): Batches {
    if tps == [] then drained
    else
      var tp := tps[|tps| - 1];
      var d := DrainAll(drained, batches, tps[..|tps| - 1]);
      d[tp := Get(d, tp) + Get(batches, tp)]
  }

  lemma DrainAllSnoc(drained: Batches, batches: Batches, tps: seq<TopicPartition>, tp: TopicPartition)
    ensures
      var d := DrainAll(drained, batches, tps);
      DrainAll(drained, batches, tps + [tp]) == d[tp := Get(d, tp) + Get(batches, tp)]
  {
  }

  function PartitionSet(tps: seq<TopicPartition>): set<TopicPartition> {
    set tp | tp in tps
  }

  /** Exactly the partitions with a ready batch. */
  ghost predicate HoldsReady(ready: seq<TopicPartition>, batches: Batches, batchSize: nat) {
    forall tp: TopicPartition {:trigger BatchIsReady(batches, tp, batchSize)} ::
      tp in ready <==> BatchIsReady(batches, tp, batchSize)
  }

  class Producer {
    const crc: Bytes -> nat
    const batchSize: nat
    var batches: Batches
    var sizes: map<TopicPartition, nat>
    var counter: nat
    var counts: map<string, nat>
    ghost var sent: Batches
    ghost var drained: Batches

    /** Nothing is lost, duplicated or reordered, and the sizes are those of what is held. */
    ghost predicate Valid()
      reads this
    {
      && Conserved(sent, drained, batches)
      && Sized(batches, sizes)
      && (forall t | t in counts :: counts[t] > 0)
      && counter < U32
    }

    constructor (crc: Bytes -> nat, batchSize: nat)
      ensures Valid() && batches == sent == drained == map[] && this.crc == crc && this.batchSize == batchSize
      ensures counter == 0 && forall t :: CountOf(counts, t) == DEFAULT_PARTITION_COUNT
    {
      this.crc, this.batchSize := crc, batchSize;
      batches, sizes, counter, counts := map[], map[], 0, map[];
      sent, drained := map[], map[];
    }

    /** A count of zero is ignored, so records can always be routed. */
    method SetPartitionCount(topic: string, count: nat)
      requires Valid()
      modifies this`counts
      ensures Valid() && counts == if count > 0 then old(counts)[topic := count] else old(counts)
      ensures forall t :: CountOf(counts, t) == if count > 0 && t == topic then count else CountOf(old(counts), t)
    {
      if count > 0 {
        counts := counts[topic := count];
      }
    }

    /** Adds a record to the batch of its partition and tells whether the batch is ready. */
    method Append(tp: TopicPartition, r: Record) returns (ready: bool)
      requires Valid()
      modifies this`batches, this`sizes, this`sent
      ensures Valid() && batches == old(batches)[tp := Get(old(batches), tp) + [r]]
      ensures sent == old(sent)[tp := Get(old(sent), tp) + [r]]
      ensures ready <==> BatchIsReady(batches, tp, batchSize)
    {
      var size := Length(r.key) + Length(r.value);
      var current := (if tp in sizes then sizes[tp] else 0) + size;
      AppendConserves(sent, drained, batches, tp, r);
      AppendSizes(batches, sizes, tp, r, batchSize);
      sizes := sizes[tp := current];
      batches := batches[tp := Get(batches, tp) + [r]];
      sent := sent[tp := Get(sent, tp) + [r]];
      ready := current >= batchSize;
    }

    /** The partition of a record that names none: by its key, or the next one in turn. */
    method PartitionFor(r: ProducerRecord) returns (partition: nat)
      requires Valid() && r.partition.None?
      modifies this`counter
      ensures Valid() && counter == NextCounter(old(counter), r)
      ensures IsPlaced(crc, counts, old(counter), r, partition)
    {
      var n := if r.topic in counts then counts[r.topic] else DEFAULT_PARTITION_COUNT;
      match r.record.key {
        case Some(k) => partition := crc(k) % n;
        case None =>
          partition := counter % n;
          counter := (counter + 1) % U32;
      }
    }

    /** Routes a record and adds it to its batch. */
    method Send(r: ProducerRecord) returns (tp: TopicPartition)
      requires Valid()
      modifies this`batches, this`sizes, this`sent, this`counter
      ensures Valid() && CountOf(counts, r.topic) > 0
      ensures tp == Route(crc, counts, old(counter), r) && counter == NextCounter(old(counter), r)
      ensures tp.topic == r.topic && (r.partition.Some? ==> tp.partition == r.partition.value)
      ensures r.partition.None? ==>
                IsPlaced(crc, counts, old(counter), r, tp.partition) && tp.partition < CountOf(counts, r.topic)
      ensures sent == old(sent)[tp := Get(old(sent), tp) + [r.record]]
      ensures batches == old(batches)[tp := Get(old(batches), tp) + [r.record]]
    {
      var partition;
      match r.partition {
        case Some(p) => partition := p;
        case None => partition := PartitionFor(r);
      }
      PlacedIsRoute(crc, counts, old(counter), r, partition);
      tp := TopicPartition(r.topic, partition);
      var _ := Append(tp, r.record);
    }

    /** Takes a partition's whole batch. */
    method Drain(tp: TopicPartition) returns (rs: seq<Record>)
      requires Valid()
      modifies this`batches, this`sizes, this`drained
      ensures Valid() && rs == Get(old(batches), tp) && batches == old(batches) - {tp}
      ensures drained == old(drained)[tp := Get(old(drained), tp) + rs]
    {
      rs := Get(batches, tp);
      DrainConserves(sent, drained, batches, tp);
      sizes := sizes - {tp};
      batches := batches - {tp};
      drained := drained[tp := Get(drained, tp) + rs];
    }

    ghost predicate IsReady(tp: TopicPartition)
      reads this
    {
      tp in sizes && sizes[tp] >= batchSize
    }

    /** Takes every ready batch and puts each into the request once; `ready` is the order in which they are found. */
    method BuildProduceRequest(ready: seq<TopicPartition>) returns (request: Option<Request>)
      requires Valid() && DistinctPartitions(ready) && forall tp :: tp in ready <==> IsReady(tp)
      modifies this`batches, this`sizes, this`drained
      ensures Valid() && batches == old(batches) - PartitionSet(ready)
      ensures HoldsReady(ready, old(batches), batchSize)
      ensures drained == DrainAll(old(drained), old(batches), ready)
      ensures request.None? <==> ready == []
      ensures request.Some? ==> Carries(request.value, ready, old(batches))
    {
      assert forall tp {:trigger tp in ready} :: tp in ready <==> IsReady(tp);
      ReadyByPayload(ready, batches, sizes, batchSize);
      if |ready| == 0 {
        assert PartitionSet(ready) == {};
        return None;
      }
      var data: Request := map[];
      ghost var start, drainedBefore := batches, drained;
      assert forall tp | tp in ready :: tp in start by {
        assert forall tp | tp in ready :: IsReady(tp);
      }
      var i := 0;
      while i < |ready|
        invariant 0 <= i <= |ready| && Valid()
        invariant batches == start - PartitionSet(ready[..i])
        invariant drained == DrainAll(drainedBefore, start, ready[..i])
        invariant Carries(data, ready[..i], start)
      {
        var tp := ready[i];
        NextReady(ready, i, start);
        HeldIsNotEmpty(batches, sizes, tp);
        DrainAllSnoc(drainedBefore, start, ready[..i], tp);
        CarriesMore(data, ready[..i], tp, start);
        var records := Drain(tp);
        if |records| > 0 {
          data := WithData(data, tp.topic, PartitionData(tp.partition, records));
        }
        i := i + 1;
      }
      assert ready[..i] == ready;
      request := Some(data);
    }
  }

  lemma ReadyByPayload(ready: seq<TopicPartition>, batches: Batches, sizes: map<TopicPartition, nat>, batchSize: nat)
    requires Sized(batches, sizes)
    requires forall tp {:trigger tp in ready} :: tp in ready <==> tp in sizes && sizes[tp] >= batchSize
    ensures HoldsReady(ready, batches, batchSize)
  {
    forall tp: TopicPartition ensures tp in ready <==> BatchIsReady(batches, tp, batchSize) {
      if tp in batches {
        SizeIsPayload(batches[tp]);
      }
    }
  }

  lemma NextReady(ready: seq<TopicPartition>, i: nat, batches: Batches)
    requires DistinctPartitions(ready) && i < |ready|
    ensures ready[..i + 1] == ready[..i] + [ready[i]]
    ensures PartitionSet(ready[..i + 1]) == PartitionSet(ready[..i]) + {ready[i]}
    ensures Get(batches - PartitionSet(ready[..i]), ready[i]) == Get(batches, ready[i])
    ensures batches - PartitionSet(ready[..i]) - {ready[i]} == batches - PartitionSet(ready[..i + 1])
  {
  }

  lemma HeldIsNotEmpty(batches: Batches, sizes: map<TopicPartition, nat>, tp: TopicPartition)
    requires Sized(batches, sizes)
    ensures tp in batches ==> Get(batches, tp) != []
  {
  }

  /** The data of a topic in a request. */
  function DataOf(request: Request, topic: string): seq<PartitionData> {
    if topic in request then request[topic] else []
  }

  lemma {:induction false} ForTopicHas(tps: seq<TopicPartition>, batches: Batches, tp: TopicPartition, rs: seq<Record>)
    requires DistinctPartitions(tps)
    ensures multiset(ForTopic(tps, batches, tp.topic))[PartitionData(tp.partition, rs)] ==
            if tp in tps && rs == Get(batches, tp) then 1 else 0
    decreases |tps|
  {
    if tps != [] {
      var init, last := tps[..|tps| - 1], tps[|tps| - 1];
      assert tps == init + [last];
      ForTopicHas(init, batches, tp, rs);
      var before, data := ForTopic(init, batches, tp.topic), PartitionData(last.partition, Get(batches, last));
      if last.topic == tp.topic {
        CountSnoc(before, data, PartitionData(tp.partition, rs));
        assert last == tp <==> last.partition == tp.partition;
      } else {
        assert before + [] == before;
      }
      assert tp in tps <==> tp in init || tp == last;
      assert last !in init;
    }
  }

  lemma CountSnoc(ds: seq<PartitionData>, d: PartitionData, x: PartitionData)
    ensures multiset(ds + [d])[x] == multiset(ds)[x] + if d == x then 1 else 0
  {
  }

  /** A request carries the whole batch of each of its partitions once, and nothing else. */
  lemma CarriesOnce(request: Request, tps: seq<TopicPartition>, batches: Batches, tp: TopicPartition, rs: seq<Record>)
    requires DistinctPartitions(tps) && Carries(request, tps, batches)
    ensures multiset(DataOf(request, tp.topic))[PartitionData(tp.partition, rs)] ==
            if tp in tps && rs == Get(batches, tp) then 1 else 0
  {
    ForTopicHas(tps, batches, tp, rs);
    assert DataOf(request, tp.topic) == ForTopic(tps, batches, tp.topic);
  }

  // ---------------------------------------------------------------- turns

  predicate TakesTurn(r: ProducerRecord) {
    r.partition.None? && r.record.key.None?
  }

  /** The counter after `records` were sent. */
  function CounterAfter(counter: nat, records: seq<ProducerRecord>): nat {
    if records == [] then counter
    else NextCounter(CounterAfter(counter, records[..|records| - 1]), records[|records| - 1])
  }

  /** Where the `i`th of `records` goes if the partition counts do not change. */
  function RouteOf(crc: Bytes -> nat, counts: map<string, nat>, counter: nat, records: seq<ProducerRecord>,
                   i: nat): TopicPartition
    requires i < |records| && CountOf(counts, records[i].topic) > 0
  {
    Route(crc, counts, CounterAfter(counter, records[..i]), records[i])
  }

  /** How many of these take the next partition in turn. */
  function Turns(records: seq<ProducerRecord>): nat {
    if records == [] then 0
    else Turns(records[..|records| - 1]) + if TakesTurn(records[|records| - 1]) then 1 else 0
  }

  /** One turn leads to the next partition exactly if the counter does not wrap or the number of partitions divides
      2^32. */
  lemma NextTurnIff(counter: nat, n: nat)
    requires counter < U32 && 0 < n < U32
    ensures ((counter + 1) % U32) % n == (counter % n + 1) % n <==> counter + 1 < U32 || U32 % n == 0
  {
    Remainders.Add(counter, 1, n);
    if counter + 1 == U32 {
      assert (counter + 1) % U32 == 0;
    }
  }

  /** With three partitions, the default, the two turns around a wrap go to one partition. */
  lemma WrapRepeats()
    ensures
      var last: nat := U32 - 1;
      last % DEFAULT_PARTITION_COUNT == ((last + 1) % U32) % DEFAULT_PARTITION_COUNT
  {
  }

  lemma {:induction false} CounterIs(counter: nat, records: seq<ProducerRecord>)
    requires counter + Turns(records) < U32
    ensures CounterAfter(counter, records) == counter + Turns(records)
    decreases |records|
  {
    if records != [] {
      CounterIs(counter, records[..|records| - 1]);
    }
  }

  lemma {:induction false} CounterSplits(counter: nat, a: seq<ProducerRecord>, b: seq<ProducerRecord>)
    ensures CounterAfter(counter, a + b) == CounterAfter(CounterAfter(counter, a), b)
    decreases |b|
  {
    if b == [] {
      assert a + b == a;
    } else {
      var n := |b| - 1;
      assert (a + b)[..|a + b| - 1] == a + b[..n];
      CounterSplits(counter, a, b[..n]);
    }
  }

  /** Of two records that take turns in one topic, the later goes as many partitions further, going round, as turns were
      taken from the first on, if the counter does not wrap between them. So the turns of less than a round all differ,
      whatever else is sent between them. */
  lemma TurnsGoRound(crc: Bytes -> nat, counts: map<string, nat>, counter: nat, records: seq<ProducerRecord>,
                     i: nat, j: nat)
    requires i < j < |records| && TakesTurn(records[i]) && TakesTurn(records[j]) && records[i].topic == records[j].topic
    requires CountOf(counts, records[i].topic) > 0
    requires CounterAfter(counter, records[..i]) + Turns(records[i..j]) < U32
    ensures
      var n, turns := CountOf(counts, records[i].topic), Turns(records[i..j]);
      var p, q := RouteOf(crc, counts, counter, records, i), RouteOf(crc, counts, counter, records, j);
      && q.partition == (p.partition + turns) % n
      && (turns < n ==> p != q)
  {
    var n, turns := CountOf(counts, records[i].topic), Turns(records[i..j]);
    var at := CounterAfter(counter, records[..i]);
    assert records[..j] == records[..i] + records[i..j];
    CounterSplits(counter, records[..i], records[i..j]);
    CounterIs(at, records[i..j]);
    Remainders.Add(at, turns, n);
    FirstTurnCounts(records[i..j]);
    if turns < n {
      OtherResidue(at % n, turns, n);
    }
  }

  lemma {:induction false} FirstTurnCounts(records: seq<ProducerRecord>)
    requires records != [] && TakesTurn(records[0])
    ensures Turns(records) >= 1
  {
    if |records| > 1 {
      FirstTurnCounts(records[..|records| - 1]);
    }
  }

  lemma OtherResidue(r: nat, d: nat, n: nat)
    requires r < n && 0 < d < n
    ensures (r + d) % n != r
  {
    if r + d < n {
      Remainders.Small(r + d, n);
    } else {
      Remainders.Once(r + d - n, n);
    }
  }

  // ---------------------------------------------------------------- keys

  /** The records that go to `tp`, in the order they are sent. */
  function RoutedTo(crc: Bytes -> nat, counts: map<string, nat>, counter: nat, records: seq<ProducerRecord>,
                    tp: TopicPartition): seq<ProducerRecord>
    requires forall r | r in records :: CountOf(counts, r.topic) > 0
  {
    if records == [] then []
    else
      var init, last := records[..|records| - 1], records[|records| - 1];
      RoutedTo(crc, counts, counter, init, tp)
      + if Route(crc, counts, CounterAfter(counter, init), last) == tp then [last] else []
  }

  function Contents(records: seq<ProducerRecord>): seq<Record> {
    if records == [] then [] else Contents(records[..|records| - 1]) + [records[|records| - 1].record]
  }

  /** What the partition gets of them. */
  function SentTo(crc: Bytes -> nat, counts: map<string, nat>, counter: nat, records: seq<ProducerRecord>,
                  tp: TopicPartition): seq<Record>
    requires forall r | r in records :: CountOf(counts, r.topic) > 0
  {
    Contents(RoutedTo(crc, counts, counter, records, tp))
  }

  /** The maps of sent records before and after each send, as the contract of `Send` relates them. */
  ghost predicate Sends(crc: Bytes -> nat, counts: map<string, nat>, counter: nat, records: seq<ProducerRecord>,
                        sent: seq<Batches>)
    requires forall r | r in records :: CountOf(counts, r.topic) > 0
  {
    && |sent| == |records| + 1
    && forall i {:trigger RouteOf(crc, counts, counter, records, i)} | 0 <= i < |records| ::
         var to := RouteOf(crc, counts, counter, records, i);
         sent[i + 1] == sent[i][to := Get(sent[i], to) + [records[i].record]]
  }

  lemma SendsInit(crc: Bytes -> nat, counts: map<string, nat>, counter: nat, records: seq<ProducerRecord>,
                  sent: seq<Batches>)
    requires records != [] && (forall r | r in records :: CountOf(counts, r.topic) > 0)
    requires Sends(crc, counts, counter, records, sent)
    ensures forall r | r in records[..|records| - 1] :: CountOf(counts, r.topic) > 0
    ensures Sends(crc, counts, counter, records[..|records| - 1], sent[..|records|])
  {
    var init, s := records[..|records| - 1], sent[..|records|];
    forall i | 0 <= i < |init|
      ensures
        var to := RouteOf(crc, counts, counter, init, i);
        s[i + 1] == s[i][to := Get(s[i], to) + [init[i].record]]
    {
      assert init[..i] == records[..i];
      assert RouteOf(crc, counts, counter, records, i) == RouteOf(crc, counts, counter, init, i);
    }
  }

  /** Sends one after the other add up to `SentTo`. */
  lemma {:induction false} SendsAddUp(crc: Bytes -> nat, counts: map<string, nat>, counter: nat,
                                      records: seq<ProducerRecord>, sent: seq<Batches>, tp: TopicPartition)
    requires forall r | r in records :: CountOf(counts, r.topic) > 0
    requires Sends(crc, counts, counter, records, sent)
    ensures Get(sent[|records|], tp) == Get(sent[0], tp) + SentTo(crc, counts, counter, records, tp)
    decreases |records|
  {
    if records != [] {
      var n := |records| - 1;
      SendsInit(crc, counts, counter, records, sent);
      SendsAddUp(crc, counts, counter, records[..n], sent[..n + 1], tp);
      var to := RouteOf(crc, counts, counter, records, n);
      assert sent[n + 1] == sent[n][to := Get(sent[n], to) + [records[n].record]];
      var routed := RoutedTo(crc, counts, counter, records[..n], tp);
      assert (routed + [records[n]])[..|routed|] == routed && routed + [] == routed;
    }
  }

  /** The records of one key that name no partition of their own, in the order they are sent. */
  function OfKey(records: seq<ProducerRecord>, topic: string, key: Bytes): seq<ProducerRecord> {
    if records == [] then []
    else
      var init, last := records[..|records| - 1], records[|records| - 1];
      OfKey(init, topic, key)
      + if last.topic == topic && last.partition.None? && last.record.key == Some(key) then [last] else []
  }

  lemma OfKeySnoc(records: seq<ProducerRecord>, r: ProducerRecord, topic: string, key: Bytes)
    ensures OfKey(records + [r], topic, key) ==
            OfKey(records, topic, key)
            + if r.topic == topic && r.partition.None? && r.record.key == Some(key) then [r] else []
  {
    assert (records + [r])[..|records|] == records;
  }

  /** The records that name a partition, in the order they are sent. */
  function Naming(records: seq<ProducerRecord>, tp: TopicPartition): seq<ProducerRecord> {
    if records == [] then []
    else
      var init, last := records[..|records| - 1], records[|records| - 1];
      Naming(init, tp) + if last.topic == tp.topic && last.partition == Some(tp.partition) then [last] else []
  }

  lemma NamingSnoc(records: seq<ProducerRecord>, r: ProducerRecord, tp: TopicPartition)
    ensures Naming(records + [r], tp) ==
            Naming(records, tp) + if r.topic == tp.topic && r.partition == Some(tp.partition) then [r] else []
  {
    assert (records + [r])[..|records|] == records;
  }

  /** Records that name a partition go there, in order, and nowhere else, whatever their keys are. */
  lemma {:induction false} NamedStays(crc: Bytes -> nat, counts: map<string, nat>, counter: nat,
                                      records: seq<ProducerRecord>, named: TopicPartition, tp: TopicPartition)
    requires forall r | r in records :: CountOf(counts, r.topic) > 0
    ensures Naming(RoutedTo(crc, counts, counter, records, tp), named) ==
            if tp == named then Naming(records, named) else []
    decreases |records|
  {
    if records == [] {
    } else {
      var init, last := records[..|records| - 1], records[|records| - 1];
      var routed := RoutedTo(crc, counts, counter, init, tp);
      NamedStays(crc, counts, counter, init, named, tp);
      if Route(crc, counts, CounterAfter(counter, init), last) == tp {
        NamingSnoc(routed, last, named);
      } else {
        assert routed + [] == routed;
      }
      assert Naming(init, named) + [] == Naming(init, named);
    }
  }

  /** As long as the partition counts do not change, the records of one key that name no partition of their own all go
      to one partition and are there in the order they were sent, whatever else is sent between them. */
  lemma {:induction false} KeyStaysTogether(crc: Bytes -> nat, counts: map<string, nat>, counter: nat,
                                            records: seq<ProducerRecord>, topic: string, key: Bytes, tp: TopicPartition)
    requires forall r | r in records :: CountOf(counts, r.topic) > 0
    requires CountOf(counts, topic) > 0
    ensures OfKey(RoutedTo(crc, counts, counter, records, tp), topic, key) ==
            if tp == TopicPartition(topic, crc(key) % CountOf(counts, topic)) then OfKey(records, topic, key) else []
    decreases |records|
  {
    if records == [] {
    } else {
      var init, last := records[..|records| - 1], records[|records| - 1];
      var routed := RoutedTo(crc, counts, counter, init, tp);
      KeyStaysTogether(crc, counts, counter, init, topic, key, tp);
      OfKeySnoc(routed, last, topic, key);
      assert routed + [] == routed;
    }
  }
}
