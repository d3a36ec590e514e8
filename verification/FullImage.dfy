/** The payload of a snapshot: every persisted table and counter, and its round trip. */
module FullImage {
  import opened Arithmetic
  import opened Model
  import opened Codec
  import opened Records
  import opened Image
  import opened SnapshotFile
  import Attempts
  import Order

  datatype FullImage = FullImage(
    epoch: u64, boot: Boot, counters: seq<u64>, policies: map<u64, Policy>, pools: map<u64, PoolImage>,
    queues: map<u64, Queue>, allocations: map<u64, Allocation>, pressure: map<u64, PressureSnapshot>,
    attempts: map<u64, Attempt>, capacities: map<u64, Capacity>)

  /** The order in which each table is listed, which the source leaves to its hash maps. */
  datatype Orders = Orders(policies: seq<u64>, pools: seq<u64>, queues: seq<u64>, allocations: seq<u64>,
                           pressure: seq<u64>, attempts: seq<u64>, capacities: seq<u64>)

  const COUNTERS: nat := 7

  // ----- Items, with the checks made as they are read -----

  function EncodePoolImage(p: PoolImage): seq<byte> { EncodePool(p.descriptor) + Encode(Numbers([p.capacityGeneration])) }

  function ReadPolicy(bs: seq<byte>): Read<Policy> {
    var r := DecodePolicy(bs);
    if r.Got? && r.value.Valid() then r else Short
  }

  function ReadPool(bs: seq<byte>): Read<PoolImage> {
    match DecodePool(bs)
    case Short => Short
    case Got(d, rest) =>
      match ParseNumbers(rest, 1)
      case Short => Short
      case Got(g, left) => if d.Validate() == OK then Got(PoolImage(d, g[0]), left) else Short
  }

  function ReadAllocation(bs: seq<byte>): Read<Allocation> {
    var r := DecodeAllocation(bs);
    if r.Got? && r.value.units <= MAX_UNITS then r else Short
  }

  lemma PolicyUndone(p: Policy)
    requires p.Valid()
    ensures Undoes(p, EncodePolicy, ReadPolicy)
  {
    hide DecodePolicy, EncodePolicy;
    forall rest: seq<byte> ensures ReadPolicy(EncodePolicy(p) + rest) == Got(p, rest) { PolicyRoundTrip(p, rest); }
  }

  lemma PoolUndone(p: PoolImage)
    requires p.descriptor.Validate() == OK
    ensures Undoes(p, EncodePoolImage, ReadPool)
  {
    hide DecodePool, EncodePool, ParseNumbers, Numbers, Encode;
    forall rest: seq<byte> ensures ReadPool(EncodePoolImage(p) + rest) == Got(p, rest) {
      var tail := Encode(Numbers([p.capacityGeneration])) + rest;
      assert EncodePoolImage(p) + rest == EncodePool(p.descriptor) + tail;
      PoolRoundTrip(p.descriptor, tail);
      ParseNumbersOf([p.capacityGeneration], 1, rest);
    }
  }

  lemma QueueUndone(q: Queue)
    requires |q.name| <= MAX_NAME
    ensures Undoes(q, EncodeQueue, DecodeQueue)
  {
    hide DecodeQueue, EncodeQueue;
    forall rest: seq<byte> ensures DecodeQueue(EncodeQueue(q) + rest) == Got(q, rest) { QueueRoundTrip(q, rest); }
  }

  lemma AllocationUndone(r: Allocation)
    requires r.units <= MAX_UNITS
    ensures Undoes(r, EncodeAllocation, ReadAllocation)
  {
    hide DecodeAllocation, EncodeAllocation;
    forall rest: seq<byte> ensures ReadAllocation(EncodeAllocation(r) + rest) == Got(r, rest) { AllocationRoundTrip(r, rest); }
  }

  lemma EvidenceUndone(o: PressureSnapshot)
    ensures Undoes(o, EncodeEvidence, DecodeEvidence)
  {
    hide DecodeEvidence, EncodeEvidence;
    forall rest: seq<byte> ensures DecodeEvidence(EncodeEvidence(o) + rest) == Got(o, rest) { EvidenceRoundTrip(o, rest); }
  }

  lemma AttemptUndone(t: Attempt)
    ensures Undoes(t, EncodeAttempt, DecodeAttempt)
  {
    hide DecodeAttempt, EncodeAttempt;
    forall rest: seq<byte> ensures DecodeAttempt(EncodeAttempt(t) + rest) == Got(t, rest) { AttemptRoundTrip(t, rest); }
  }

  lemma CapacityUndone(c: Capacity)
    ensures Undoes(c, EncodeCapacity, DecodeCapacity)
  {
    hide DecodeCapacity, EncodeCapacity;
    forall rest: seq<byte> ensures DecodeCapacity(EncodeCapacity(c) + rest) == Got(c, rest) { CapacityRoundTrip(c, rest); }
  }

  // ----- The whole image -----

  ghost predicate Listed(img: FullImage, o: Orders) {
    && Lists(o.policies, img.policies) && Lists(o.pools, img.pools) && Lists(o.queues, img.queues)
    && Lists(o.allocations, img.allocations) && Lists(o.pressure, img.pressure) && Lists(o.attempts, img.attempts)
    && Lists(o.capacities, img.capacities)
  }

  /** Valid entries under their own keys. */
  ghost predicate Sound(img: FullImage) {
    && |img.counters| == COUNTERS
    && (forall k :: k in img.policies ==> img.policies[k].id == k && img.policies[k].Valid())
    && (forall k :: k in img.pools ==> img.pools[k].descriptor.id == k && img.pools[k].descriptor.Validate() == OK)
    && (forall k :: k in img.queues ==> img.queues[k].id == k && |img.queues[k].name| <= MAX_NAME)
    && (forall k :: k in img.allocations ==> img.allocations[k].id == k && img.allocations[k].units <= MAX_UNITS)
    && (forall k :: k in img.pressure ==> img.pressure[k].pool == k)
    && (forall k :: k in img.attempts ==> img.attempts[k].id == k)
    && (forall k :: k in img.capacities ==> img.capacities[k].resource == k)
  }

  /** Counts within the bounds enforced on reading. None of them is checked on writing. */
  ghost predicate Bounded(img: FullImage) {
    && |img.policies| <= MAX_POLICIES && |img.pools| <= MAX_POOLS && |img.queues| <= MAX_QUEUES
    && |img.allocations| <= MAX_ALLOCATIONS && |img.pressure| <= MAX_SNAPSHOTS && |img.attempts| <= MAX_ATTEMPTS
    && |img.capacities| <= MAX_POOLS
  }

  /** Counts that the four bytes written for them can tell. */
  ghost predicate Countable(img: FullImage) {
    && |img.policies| < TWO32 && |img.pools| < TWO32 && |img.queues| < TWO32 && |img.allocations| < TWO32
    && |img.pressure| < TWO32 && |img.attempts| < TWO32 && |img.capacities| < TWO32
  }

  function ImageHead(img: FullImage): seq<byte> {
    [0xFF] + Encode(Numbers([img.epoch, img.boot.hi, img.boot.lo] + img.counters))
  }

  datatype Contents = Contents(policies: seq<Policy>, pools: seq<PoolImage>, queues: seq<Queue>, allocations: seq<Allocation>,
                               pressure: seq<PressureSnapshot>, attempts: seq<Attempt>, capacities: seq<Capacity>)

  ghost function ContentsOf(img: FullImage, o: Orders): Contents
    requires Listed(img, o)
  {
    Contents(Values(img.policies, o.policies), Values(img.pools, o.pools), Values(img.queues, o.queues),
          Values(img.allocations, o.allocations), Values(img.pressure, o.pressure), Values(img.attempts, o.attempts),
          Values(img.capacities, o.capacities))
  }

  function PutContents(l: Contents): seq<byte> {
    PutSection(l.policies, EncodePolicy) + (PutSection(l.pools, EncodePoolImage) + (PutSection(l.queues, EncodeQueue)
    + (PutSection(l.allocations, EncodeAllocation) + (PutSection(l.pressure, EncodeEvidence)
    + (PutSection(l.attempts, EncodeAttempt) + PutSection(l.capacities, EncodeCapacity))))))
  }

  /** write_full_snapshot. */
  ghost function EncodeImage(img: FullImage, o: Orders): seq<byte>
    requires Listed(img, o)
  {
    ImageHead(img) + PutContents(ContentsOf(img, o))
  }

  function GetContents(bs: seq<byte>): Read<Contents> {
    var a := GetSection(bs, MAX_POLICIES, ReadPolicy);
    if a.Short? then Short else
      var b := GetSection(a.rest, MAX_POOLS, ReadPool);
      if b.Short? then Short else
        var c := GetSection(b.rest, MAX_QUEUES, DecodeQueue);
        if c.Short? then Short else
          var d := GetSection(c.rest, MAX_ALLOCATIONS, ReadAllocation);
          if d.Short? then Short else
            var e := GetSection(d.rest, MAX_SNAPSHOTS, DecodeEvidence);
            if e.Short? then Short else
              var f := GetSection(e.rest, MAX_ATTEMPTS, DecodeAttempt);
              if f.Short? then Short else
                var g := GetSection(f.rest, MAX_POOLS, DecodeCapacity);
                if g.Short? then Short
                else Got(Contents(a.value, b.value, c.value, d.value, e.value, f.value, g.value), g.rest)
  }

  function ImageFrom(ns: seq<u64>, l: Contents): FullImage
    requires |ns| == 3 + COUNTERS
  {
    FullImage(ns[0], Boot(ns[1], ns[2]), seq(COUNTERS, i requires 0 <= i < COUNTERS => OneIfZero(ns[3 + i])),
              Collect(l.policies, (p: Policy) => p.id), Collect(l.pools, (p: PoolImage) => p.descriptor.id),
              Collect(l.queues, (q: Queue) => q.id), Collect(l.allocations, (r: Allocation) => r.id),
              Collect(l.pressure, (s: PressureSnapshot) => s.pool), Collect(l.attempts, (t: Attempt) => t.id),
              Collect(l.capacities, (c: Capacity) => c.resource))
  }

  /** What a counter that wrapped to zero is restored as. */
  function Revived(img: FullImage): FullImage {
    img.(counters := seq(|img.counters|, i requires 0 <= i < |img.counters| => OneIfZero(img.counters[i])))
  }

  datatype Restored = Corrupt | Restored(image: FullImage)

  /** apply_snapshot_payload onto an empty fabric: trailing bytes are refused. */
  function DecodeImage(bs: seq<byte>): Restored {
    if bs == [] || bs[0] != 0xFF then Corrupt
    else
      match ParseNumbers(bs[1..], 3 + COUNTERS)
      case Short => Corrupt
      case Got(ns, rest) =>
        match GetContents(rest)
        case Short => Corrupt
        case Got(l, left) => if left != [] then Corrupt else Restored(ImageFrom(ns, l))
  }

  lemma ListedOnce<T>(order: seq<u64>, m: map<u64, T>)
    requires Lists(order, m)
    ensures |order| == |m|
  {
    Attempts.DistinctCount(order);
    assert Order.Elements(order) == m.Keys;
  }

  /** Every item of every list decodes to itself. */
  ghost predicate Decodable(l: Contents) {
    && (forall i :: 0 <= i < |l.policies| ==> l.policies[i].Valid())
    && (forall i :: 0 <= i < |l.pools| ==> l.pools[i].descriptor.Validate() == OK)
    && (forall i :: 0 <= i < |l.queues| ==> |l.queues[i].name| <= MAX_NAME)
    && (forall i :: 0 <= i < |l.allocations| ==> l.allocations[i].units <= MAX_UNITS)
  }

  ghost predicate WithinCounts(l: Contents) {
    && |l.policies| <= MAX_POLICIES && |l.pools| <= MAX_POOLS && |l.queues| <= MAX_QUEUES
    && |l.allocations| <= MAX_ALLOCATIONS && |l.pressure| <= MAX_SNAPSHOTS && |l.attempts| <= MAX_ATTEMPTS
    && |l.capacities| <= MAX_POOLS
  }

  ghost predicate Tellable(l: Contents) {
    && |l.policies| < TWO32 && |l.pools| < TWO32 && |l.queues| < TWO32 && |l.allocations| < TWO32
    && |l.pressure| < TWO32 && |l.attempts| < TWO32 && |l.capacities| < TWO32
  }

  /** A count beyond the bound is refused whatever follows it. */
  lemma CountRefused<T>(n: nat, tail: seq<byte>, max: nat, dec: seq<byte> -> Read<T>)
    requires max < n < TWO32
    ensures GetSection(Le(n, 4) + tail, max, dec) == Short
  {
    hide GetAll, Le, FromLe;
    Powers();
    PrefixLe(n, 4, tail);
  }

  /** A list is read back exactly if its length is within the bound, and refused if not. */
  lemma SectionBack<T(!new)>(xs: seq<T>, enc: T -> seq<byte>, dec: seq<byte> -> Read<T>, max: nat, rest: seq<byte>)
    requires |xs| < TWO32 && max < TWO32 && forall i :: 0 <= i < |xs| ==> Undoes(xs[i], enc, dec)
    ensures GetSection(PutSection(xs, enc) + rest, max, dec) == if |xs| <= max then Got(xs, rest) else Short
  {
    hide GetSection, PutAll, Le, Undoes;
    if |xs| <= max {
      SectionRoundTrip(xs, enc, dec, max, rest);
    } else {
      var tail := PutAll(xs, enc) + rest;
      assert PutSection(xs, enc) + rest == Le(|xs|, 4) + tail;
      CountRefused(|xs|, tail, max, dec);
    }
  }

  lemma PoliciesBack(xs: seq<Policy>, rest: seq<byte>)
    requires |xs| < TWO32 && forall i :: 0 <= i < |xs| ==> xs[i].Valid()
    ensures GetSection(PutSection(xs, EncodePolicy) + rest, MAX_POLICIES, ReadPolicy) == if |xs| <= MAX_POLICIES then Got(xs, rest) else Short
  {
    hide GetSection, PutSection, Undoes, Policy.Valid;
    forall i | 0 <= i < |xs| ensures Undoes(xs[i], EncodePolicy, ReadPolicy) { PolicyUndone(xs[i]); }
    SectionBack(xs, EncodePolicy, ReadPolicy, MAX_POLICIES, rest);
  }

  lemma PoolsBack(xs: seq<PoolImage>, rest: seq<byte>)
    requires |xs| < TWO32 && forall i :: 0 <= i < |xs| ==> xs[i].descriptor.Validate() == OK
    ensures GetSection(PutSection(xs, EncodePoolImage) + rest, MAX_POOLS, ReadPool) == if |xs| <= MAX_POOLS then Got(xs, rest) else Short
  {
    hide GetSection, PutSection, Undoes, PoolDescriptor.Validate;
    forall i | 0 <= i < |xs| ensures Undoes(xs[i], EncodePoolImage, ReadPool) { PoolUndone(xs[i]); }
    SectionBack(xs, EncodePoolImage, ReadPool, MAX_POOLS, rest);
  }

  lemma QueuesBack(xs: seq<Queue>, rest: seq<byte>)
    requires |xs| < TWO32 && forall i :: 0 <= i < |xs| ==> |xs[i].name| <= MAX_NAME
    ensures GetSection(PutSection(xs, EncodeQueue) + rest, MAX_QUEUES, DecodeQueue) == if |xs| <= MAX_QUEUES then Got(xs, rest) else Short
  {
    hide GetSection, PutSection, Undoes;
    forall i | 0 <= i < |xs| ensures Undoes(xs[i], EncodeQueue, DecodeQueue) { QueueUndone(xs[i]); }
    SectionBack(xs, EncodeQueue, DecodeQueue, MAX_QUEUES, rest);
  }

  lemma AllocationsBack(xs: seq<Allocation>, rest: seq<byte>)
    requires |xs| < TWO32 && forall i :: 0 <= i < |xs| ==> xs[i].units <= MAX_UNITS
    ensures GetSection(PutSection(xs, EncodeAllocation) + rest, MAX_ALLOCATIONS, ReadAllocation) == if |xs| <= MAX_ALLOCATIONS then Got(xs, rest) else Short
  {
    hide GetSection, PutSection, Undoes;
    forall i | 0 <= i < |xs| ensures Undoes(xs[i], EncodeAllocation, ReadAllocation) { AllocationUndone(xs[i]); }
    SectionBack(xs, EncodeAllocation, ReadAllocation, MAX_ALLOCATIONS, rest);
  }

  lemma EvidenceBack(xs: seq<PressureSnapshot>, rest: seq<byte>)
    requires |xs| < TWO32
    ensures GetSection(PutSection(xs, EncodeEvidence) + rest, MAX_SNAPSHOTS, DecodeEvidence) == if |xs| <= MAX_SNAPSHOTS then Got(xs, rest) else Short
  {
    hide GetSection, PutSection, Undoes;
    forall i | 0 <= i < |xs| ensures Undoes(xs[i], EncodeEvidence, DecodeEvidence) { EvidenceUndone(xs[i]); }
    SectionBack(xs, EncodeEvidence, DecodeEvidence, MAX_SNAPSHOTS, rest);
  }

  lemma AttemptsBack(xs: seq<Attempt>, rest: seq<byte>)
    requires |xs| < TWO32
    ensures GetSection(PutSection(xs, EncodeAttempt) + rest, MAX_ATTEMPTS, DecodeAttempt) == if |xs| <= MAX_ATTEMPTS then Got(xs, rest) else Short
  {
    hide GetSection, PutSection, Undoes;
    forall i | 0 <= i < |xs| ensures Undoes(xs[i], EncodeAttempt, DecodeAttempt) { AttemptUndone(xs[i]); }
    SectionBack(xs, EncodeAttempt, DecodeAttempt, MAX_ATTEMPTS, rest);
  }

  lemma CapacitiesBack(xs: seq<Capacity>, rest: seq<byte>)
    requires |xs| < TWO32
    ensures GetSection(PutSection(xs, EncodeCapacity) + rest, MAX_POOLS, DecodeCapacity) == if |xs| <= MAX_POOLS then Got(xs, rest) else Short
  {
    hide GetSection, PutSection, Undoes;
    forall i | 0 <= i < |xs| ensures Undoes(xs[i], EncodeCapacity, DecodeCapacity) { CapacityUndone(xs[i]); }
    SectionBack(xs, EncodeCapacity, DecodeCapacity, MAX_POOLS, rest);
  }

  /** The seven lists are read back if every count is within its bound; the first that is not
      stops the reading. */
  lemma ContentsBack(l: Contents)
    requires Decodable(l) && Tellable(l)
    ensures GetContents(PutContents(l)) == if WithinCounts(l) then Got(l, []) else Short
  {
    hide GetSection, PutSection, Policy.Valid, PoolDescriptor.Validate;
    var s7 := PutSection(l.capacities, EncodeCapacity);
    var s6 := PutSection(l.attempts, EncodeAttempt) + s7;
    var s5 := PutSection(l.pressure, EncodeEvidence) + s6;
    var s4 := PutSection(l.allocations, EncodeAllocation) + s5;
    var s3 := PutSection(l.queues, EncodeQueue) + s4;
    var s2 := PutSection(l.pools, EncodePoolImage) + s3;
    PoliciesBack(l.policies, s2);
    PoolsBack(l.pools, s3);
    QueuesBack(l.queues, s4);
    AllocationsBack(l.allocations, s5);
    EvidenceBack(l.pressure, s6);
    AttemptsBack(l.attempts, s7);
    CapacitiesBack(l.capacities, []);
    assert s7 + [] == s7;
  }

  lemma ContentsDecodable(img: FullImage, o: Orders)
    requires Sound(img) && Listed(img, o)
    ensures Decodable(ContentsOf(img, o))
  {
    hide Policy.Valid, PoolDescriptor.Validate;
  }

  lemma ContentsCounts(img: FullImage, o: Orders)
    requires Listed(img, o)
    ensures Tellable(ContentsOf(img, o)) <==> Countable(img)
    ensures WithinCounts(ContentsOf(img, o)) <==> Bounded(img)
  {
    hide Lists;
    ListedCount(o.policies, img.policies);
    ListedCount(o.pools, img.pools);
    ListedCount(o.queues, img.queues);
    ListedCount(o.allocations, img.allocations);
    ListedCount(o.pressure, img.pressure);
    ListedCount(o.attempts, img.attempts);
    ListedCount(o.capacities, img.capacities);
  }

  lemma ListedCount<T>(order: seq<u64>, m: map<u64, T>)
    requires Lists(order, m)
    ensures |Values(m, order)| == |m|
  {
    ListedOnce(order, m);
  }

  /** The tables come back whatever order they were listed in. */
  lemma ContentsRestore(img: FullImage, o: Orders)
    requires Sound(img) && Listed(img, o)
    ensures ImageFrom([img.epoch, img.boot.hi, img.boot.lo] + img.counters, ContentsOf(img, o)) == Revived(img)
  {
    hide Collect, Values, Policy.Valid, PoolDescriptor.Validate, Lists;
    TableRestored(img.policies, o.policies, (p: Policy) => p.id);
    TableRestored(img.pools, o.pools, (p: PoolImage) => p.descriptor.id);
    TableRestored(img.queues, o.queues, (q: Queue) => q.id);
    TableRestored(img.allocations, o.allocations, (r: Allocation) => r.id);
    TableRestored(img.pressure, o.pressure, (s: PressureSnapshot) => s.pool);
    TableRestored(img.attempts, o.attempts, (t: Attempt) => t.id);
    TableRestored(img.capacities, o.capacities, (c: Capacity) => c.resource);
  }

  /** The image round trip: for every valid state, and whatever order its tables are listed
      in, decoding the payload restores every table and counter with no trailing bytes, a
      zero counter as one, if and only if every count is within the bound enforced on
      reading. Nothing checks the counts on writing; beyond a bound the image is refused. */
  lemma ImageRoundTrip(img: FullImage, o: Orders)
    requires Sound(img) && Listed(img, o) && Countable(img)
    ensures DecodeImage(EncodeImage(img, o)) == if Bounded(img) then Restored(Revived(img)) else Corrupt
  {
    hide GetContents, PutContents, ContentsOf, ParseNumbers, Numbers, Encode, Policy.Valid, PoolDescriptor.Validate, ImageFrom;
    hide Lists, WithinCounts, Tellable, Bounded, Countable, Decodable;
    var l := ContentsOf(img, o);
    var ns := [img.epoch, img.boot.hi, img.boot.lo] + img.counters;
    ContentsDecodable(img, o);
    ContentsCounts(img, o);
    ContentsBack(l);
    ContentsRestore(img, o);
    ParseNumbersOf(ns, 3 + COUNTERS, PutContents(l));
    assert EncodeImage(img, o)[1..] == Encode(Numbers(ns)) + PutContents(l);
  }

  // ----- The payload bounds the counts -----

  /** An item that reads back and is not read from nothing takes at least a byte. */
  lemma {:induction false} PutAllLength<T(!new)>(xs: seq<T>, enc: T -> seq<byte>, dec: seq<byte> -> Read<T>)
    requires dec([]).Short? && forall i :: 0 <= i < |xs| ==> Undoes(xs[i], enc, dec)
    ensures |xs| <= |PutAll(xs, enc)|
    decreases |xs|
  {
    if xs != [] {
      assert Undoes(xs[0], enc, dec);
      assert enc(xs[0]) + [] == enc(xs[0]);
      assert dec(enc(xs[0]) + []) == Got(xs[0], []);
      assert enc(xs[0]) != [];
      forall i | 0 <= i < |xs[1..]| ensures Undoes(xs[1..][i], enc, dec) { assert xs[1..][i] == xs[i + 1]; }
      PutAllLength(xs[1..], enc, dec);
    }
  }

  lemma SectionLength<T(!new)>(xs: seq<T>, enc: T -> seq<byte>, dec: seq<byte> -> Read<T>)
    requires dec([]).Short? && forall i :: 0 <= i < |xs| ==> Undoes(xs[i], enc, dec)
    ensures |xs| <= |PutSection(xs, enc)|
  {
    hide PutAll, Undoes;
    PutAllLength(xs, enc, dec);
  }

  lemma NoFields(kinds: seq<Kind>)
    requires kinds != [] && kinds[0].K64?
    ensures Fields([], kinds).Short?
  {
  }

  lemma NoPolicy()
    ensures ReadPolicy([]).Short?
  {
    hide Fields, Policy.Valid, PolicyFrom, PolicyPressureKinds, PolicyTailKinds;
    NoFields(PolicyHeadKinds());
  }

  lemma NoPool()
    ensures ReadPool([]).Short?
  {
  }

  lemma NoQueue()
    ensures DecodeQueue([]).Short?
  {
  }

  lemma NoAllocation()
    ensures ReadAllocation([]).Short?
  {
  }

  lemma NoEvidence()
    ensures DecodeEvidence([]).Short?
  {
  }

  lemma NoAttempt()
    ensures DecodeAttempt([]).Short?
  {
  }

  lemma NoCapacity()
    ensures DecodeCapacity([]).Short?
  {
  }

  lemma NothingDecodes()
    ensures ReadPolicy([]).Short? && ReadPool([]).Short? && DecodeQueue([]).Short? && ReadAllocation([]).Short?
    ensures DecodeEvidence([]).Short? && DecodeAttempt([]).Short? && DecodeCapacity([]).Short?
  {
    hide ReadPolicy, ReadPool, DecodeQueue, ReadAllocation, DecodeEvidence, DecodeAttempt, DecodeCapacity;
    NoPolicy();
    NoPool();
    NoQueue();
    NoAllocation();
    NoEvidence();
    NoAttempt();
    NoCapacity();
  }

  /** A payload that fits a snapshot file lists no more entries than it has bytes. */
  lemma PayloadCounts(img: FullImage, o: Orders)
    requires Sound(img) && Listed(img, o) && |EncodeImage(img, o)| < TWO32
    ensures Countable(img)
  {
    hide PutSection, Undoes, Policy.Valid, PoolDescriptor.Validate, Lists, Values;
    var l := ContentsOf(img, o);
    ContentsDecodable(img, o);
    ContentsCounts(img, o);
    NothingDecodes();
    ItemsUndone(l);
    SectionLength(l.policies, EncodePolicy, ReadPolicy);
    SectionLength(l.pools, EncodePoolImage, ReadPool);
    SectionLength(l.queues, EncodeQueue, DecodeQueue);
    SectionLength(l.allocations, EncodeAllocation, ReadAllocation);
    SectionLength(l.pressure, EncodeEvidence, DecodeEvidence);
    SectionLength(l.attempts, EncodeAttempt, DecodeAttempt);
    SectionLength(l.capacities, EncodeCapacity, DecodeCapacity);
  }

  lemma ItemsUndone(l: Contents)
    requires Decodable(l)
    ensures forall i :: 0 <= i < |l.policies| ==> Undoes(l.policies[i], EncodePolicy, ReadPolicy)
    ensures forall i :: 0 <= i < |l.pools| ==> Undoes(l.pools[i], EncodePoolImage, ReadPool)
    ensures forall i :: 0 <= i < |l.queues| ==> Undoes(l.queues[i], EncodeQueue, DecodeQueue)
    ensures forall i :: 0 <= i < |l.allocations| ==> Undoes(l.allocations[i], EncodeAllocation, ReadAllocation)
    ensures forall i :: 0 <= i < |l.pressure| ==> Undoes(l.pressure[i], EncodeEvidence, DecodeEvidence)
    ensures forall i :: 0 <= i < |l.attempts| ==> Undoes(l.attempts[i], EncodeAttempt, DecodeAttempt)
    ensures forall i :: 0 <= i < |l.capacities| ==> Undoes(l.capacities[i], EncodeCapacity, DecodeCapacity)
  {
    hide Undoes, Policy.Valid, PoolDescriptor.Validate;
    forall i | 0 <= i < |l.policies| ensures Undoes(l.policies[i], EncodePolicy, ReadPolicy) { PolicyUndone(l.policies[i]); }
    forall i | 0 <= i < |l.pools| ensures Undoes(l.pools[i], EncodePoolImage, ReadPool) { PoolUndone(l.pools[i]); }
    forall i | 0 <= i < |l.queues| ensures Undoes(l.queues[i], EncodeQueue, DecodeQueue) { QueueUndone(l.queues[i]); }
    forall i | 0 <= i < |l.allocations| ensures Undoes(l.allocations[i], EncodeAllocation, ReadAllocation) {
      AllocationUndone(l.allocations[i]);
    }
    forall i | 0 <= i < |l.pressure| ensures Undoes(l.pressure[i], EncodeEvidence, DecodeEvidence) { EvidenceUndone(l.pressure[i]); }
    forall i | 0 <= i < |l.attempts| ensures Undoes(l.attempts[i], EncodeAttempt, DecodeAttempt) { AttemptUndone(l.attempts[i]); }
    forall i | 0 <= i < |l.capacities| ensures Undoes(l.capacities[i], EncodeCapacity, DecodeCapacity) {
      CapacityUndone(l.capacities[i]);
    }
  }
}
