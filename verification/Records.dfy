/** The byte layout of every durable entity and of the journal records that carry them. */
module Records {
  import opened Arithmetic
  import opened Pressure
  import opened Model
  import opened Codec

  /** Decoded fields, known to match their layout. */
  function Fields(bs: seq<byte>, kinds: seq<Kind>): (r: Read<seq<Atom>>)
    ensures r.Got? ==> AllFit(r.value, kinds)
  {
    if Decode(bs, kinds).Got? then
      EncodeDecode(bs, kinds);
      Decode(bs, kinds)
    else Short
  }

  lemma FieldsOf(atoms: seq<Atom>, kinds: seq<Kind>, rest: seq<byte>)
    requires AllFit(atoms, kinds)
    ensures Fields(Encode(atoms) + rest, kinds) == Got(atoms, rest)
  {
    DecodeEncode(atoms, kinds, rest);
  }

  // ----- Enumerations -----

  function StateCode(s: AllocationState): byte {
    match s
    case Reserved => 0
    case Committed => 1
    case Fenced => 2
    case Reclaimed => 3
    case Released => 4
    case Expired => 5
  }

  function StateOf(b: byte): AllocationState
    requires b <= 5
  {
    if b == 0 then Reserved else if b == 1 then Committed else if b == 2 then Fenced
    else if b == 3 then Reclaimed else if b == 4 then Released else Expired
  }

  function PressureOf(b: byte): PressureState
    requires b <= 5
  {
    if b == 0 then Unknown else if b == 1 then Clear else if b == 2 then Elevated
    else if b == 3 then High else if b == 4 then Critical else Stale
  }

  function AttemptCode(k: AttemptKind): byte {
    match k
    case AllocateAttempt => 0
    case CommitAttempt => 1
    case ReleaseAttempt => 2
    case ReclaimAttempt => 3
    case FenceAttempt => 4
    case RevalidateAttempt => 5
    case ReserveAttempt => 6
  }

  function AttemptOf(b: byte): AttemptKind
    requires b <= 6
  {
    if b == 0 then AllocateAttempt else if b == 1 then CommitAttempt else if b == 2 then ReleaseAttempt
    else if b == 3 then ReclaimAttempt else if b == 4 then FenceAttempt else if b == 5 then RevalidateAttempt
    else ReserveAttempt
  }

  function N(v: u64): Atom { A64(v) }

  // ----- Pools -----

  function PoolKinds(): seq<Kind> {
    [K64, K64, KText(MAX_NAME), K64, K64, K64, K64, K64, K64, K64, K64, K64, KFlag]
  }

  function PoolAtoms(d: PoolDescriptor): seq<Atom> {
    [N(d.id), N(d.generation), AText(d.name), N(d.resource), N(d.backend), N(d.raw), N(d.protected), N(d.parent),
     N(d.policy), N(d.tenant), N(d.provenance), N(d.createdAt), AFlag(d.retired)]
  }

  function PoolFrom(a: seq<Atom>): PoolDescriptor
    requires AllFit(a, PoolKinds())
  {
    PoolDescriptor(a[0].v64, a[1].v64, a[2].text, a[3].v64, a[4].v64, a[5].v64, a[6].v64, a[7].v64, a[8].v64,
                   a[9].v64, a[10].v64, a[11].v64, a[12].flag)
  }

  lemma PoolInverse(d: PoolDescriptor)
    requires |d.name| <= MAX_NAME
    ensures AllFit(PoolAtoms(d), PoolKinds()) && PoolFrom(PoolAtoms(d)) == d
  {
  }

  function DecodePool(bs: seq<byte>): Read<PoolDescriptor> {
    match Fields(bs, PoolKinds())
    case Short => Short
    case Got(a, rest) => Got(PoolFrom(a), rest)
  }

  function EncodePool(d: PoolDescriptor): seq<byte> { Encode(PoolAtoms(d)) }

  lemma PoolRoundTrip(d: PoolDescriptor, rest: seq<byte>)
    requires |d.name| <= MAX_NAME
    ensures DecodePool(EncodePool(d) + rest) == Got(d, rest)
  {
    hide PoolAtoms, PoolKinds, PoolFrom, Encode, Fields;
    PoolInverse(d);
    FieldsOf(PoolAtoms(d), PoolKinds(), rest);
  }

  // ----- Queues -----

  function QueueKinds(): seq<Kind> {
    [K64, K64, KText(MAX_NAME), K64, K64, K64, K64, K64, K64, K64, K64, KFlag]
  }

  function QueueAtoms(q: Queue): seq<Atom> {
    [N(q.id), N(q.generation), AText(q.name), N(q.pool), N(q.tenant), N(q.trafficClass), N(q.demand), N(q.weight),
     N(q.maxCommitted), N(q.registeredAt), N(q.demandUpdatedAt), AFlag(q.retired)]
  }

  function QueueFrom(a: seq<Atom>): Queue
    requires AllFit(a, QueueKinds())
  {
    Queue(a[0].v64, a[1].v64, a[2].text, a[3].v64, a[4].v64, a[5].v64, a[6].v64, a[7].v64, a[8].v64, a[9].v64,
          a[10].v64, a[11].flag)
  }

  lemma QueueInverse(q: Queue)
    requires |q.name| <= MAX_NAME
    ensures AllFit(QueueAtoms(q), QueueKinds()) && QueueFrom(QueueAtoms(q)) == q
  {
  }

  function DecodeQueue(bs: seq<byte>): Read<Queue> {
    match Fields(bs, QueueKinds())
    case Short => Short
    case Got(a, rest) => Got(QueueFrom(a), rest)
  }

  function EncodeQueue(q: Queue): seq<byte> { Encode(QueueAtoms(q)) }

  lemma QueueRoundTrip(q: Queue, rest: seq<byte>)
    requires |q.name| <= MAX_NAME
    ensures DecodeQueue(EncodeQueue(q) + rest) == Got(q, rest)
  {
    hide QueueAtoms, QueueKinds, QueueFrom, Encode, Fields;
    QueueInverse(q);
    FieldsOf(QueueAtoms(q), QueueKinds(), rest);
  }

  // ----- Lineage and bound generations -----

  function LineageKinds(): seq<Kind> { [K64, K64, K32, K64, K64] }

  function LineageAtoms(l: Lineage): seq<Atom> { [N(l.origin), N(l.parent), A32(l.depth), N(l.chain.hi), N(l.chain.lo)] }

  function LineageFrom(a: seq<Atom>): Lineage
    requires AllFit(a, LineageKinds())
  {
    Lineage(a[0].v64, a[1].v64, a[2].v32, Digest(a[3].v64, a[4].v64))
  }

  lemma LineageInverse(l: Lineage)
    ensures AllFit(LineageAtoms(l), LineageKinds()) && LineageFrom(LineageAtoms(l)) == l
  {
  }

  function BoundKinds(): seq<Kind> { [K64, K64, K64, K64, K64, K64, K64, K64] }

  function BoundAtoms(b: Bound): seq<Atom> {
    [N(b.poolGeneration), N(b.queueGeneration), N(b.policyGeneration), N(b.capacityGeneration), N(b.backendGeneration),
     N(b.epoch), N(b.boot.hi), N(b.boot.lo)]
  }

  function BoundFrom(a: seq<Atom>): Bound
    requires AllFit(a, BoundKinds())
  {
    Bound(a[0].v64, a[1].v64, a[2].v64, a[3].v64, a[4].v64, a[5].v64, Boot(a[6].v64, a[7].v64))
  }

  lemma BoundInverse(b: Bound)
    ensures AllFit(BoundAtoms(b), BoundKinds()) && BoundFrom(BoundAtoms(b)) == b
  {
  }

  // ----- Allocations -----

  function HeadKinds(): seq<Kind> { [K64, K64, K64, K64, K64, K64, K8(5), K8(1), K64] }

  function HeadAtoms(r: Allocation): seq<Atom> {
    [N(r.id), N(r.pool), N(r.queue), N(r.tenant), N(r.trafficClass), N(r.units), A8(StateCode(r.state)),
     A8(if r.reclaimClass.Pinned? then 0 else 1), N(r.priority)]
  }

  function TailKinds(): seq<Kind> { [K64, K64, K64, K64, K64, K64, K64, K64] }

  function TailAtoms(r: Allocation): seq<Atom> {
    [N(r.attempt), N(r.provenance), N(r.borrow), N(r.lender), N(r.createdAt), N(r.lastTouched), N(r.expiresAt), N(r.revision)]
  }

  function AllocationFrom(h: seq<Atom>, l: Lineage, b: Bound, t: seq<Atom>): Allocation
    requires AllFit(h, HeadKinds()) && AllFit(t, TailKinds())
  {
    Allocation(h[0].v64, h[1].v64, h[2].v64, h[3].v64, h[4].v64, h[5].v64, StateOf(h[6].v8),
               if h[7].v8 == 0 then Pinned else Reclaimable, h[8].v64, l, b,
               t[0].v64, t[1].v64, t[2].v64, t[3].v64, t[4].v64, t[5].v64, t[6].v64, t[7].v64)
  }

  lemma HeadFits(r: Allocation)
    ensures AllFit(HeadAtoms(r), HeadKinds()) && AllFit(TailAtoms(r), TailKinds())
  {
  }

  lemma AllocationInverse(r: Allocation)
    requires AllFit(HeadAtoms(r), HeadKinds()) && AllFit(TailAtoms(r), TailKinds())
    ensures AllocationFrom(HeadAtoms(r), r.lineage, r.bound, TailAtoms(r)) == r
  {
  }

  function EncodeAllocation(r: Allocation): seq<byte> {
    Encode(HeadAtoms(r)) + Encode(LineageAtoms(r.lineage)) + Encode(BoundAtoms(r.bound)) + Encode(TailAtoms(r))
  }

  function DecodeAllocation(bs: seq<byte>): Read<Allocation> {
    match Fields(bs, HeadKinds())
    case Short => Short
    case Got(h, r1) =>
      match Fields(r1, LineageKinds())
      case Short => Short
      case Got(l, r2) =>
        match Fields(r2, BoundKinds())
        case Short => Short
        case Got(b, r3) =>
          match Fields(r3, TailKinds())
          case Short => Short
          case Got(t, r4) => Got(AllocationFrom(h, LineageFrom(l), BoundFrom(b), t), r4)
  }

  lemma AllocationRoundTrip(r: Allocation, rest: seq<byte>)
    ensures DecodeAllocation(EncodeAllocation(r) + rest) == Got(r, rest)
  {
    hide HeadAtoms, HeadKinds, LineageAtoms, LineageKinds, BoundAtoms, BoundKinds, TailAtoms, TailKinds, Encode, Fields;
    hide AllocationFrom, LineageFrom, BoundFrom;
    var tail := Encode(TailAtoms(r)) + rest;
    var bound := Encode(BoundAtoms(r.bound)) + tail;
    var lineage := Encode(LineageAtoms(r.lineage)) + bound;
    assert EncodeAllocation(r) + rest == Encode(HeadAtoms(r)) + lineage;
    HeadFits(r);
    LineageInverse(r.lineage);
    BoundInverse(r.bound);
    AllocationInverse(r);
    FieldsOf(HeadAtoms(r), HeadKinds(), lineage);
    FieldsOf(LineageAtoms(r.lineage), LineageKinds(), bound);
    FieldsOf(BoundAtoms(r.bound), BoundKinds(), tail);
    FieldsOf(TailAtoms(r), TailKinds(), rest);
  }

  // ----- Policies -----

  function PolicyHeadKinds(): seq<Kind> { [K64, K64, KText(MAX_NAME), K64, K8(1), K64, K8(1), K64, K64, K64, K32, KFlag] }

  function PolicyHead(p: Policy): seq<Atom> {
    [N(p.id), N(p.generation), AText(p.name), N(p.provenance),
     A8(if p.overcommit.mode.Bounded? then 1 else 0), N(p.overcommit.limit),
     A8(if p.borrow.mode.FromAncestorFree? then 1 else 0), N(p.borrow.limit),
     N(p.maxSingleAllocation), N(p.maxSingleRequest), A32(p.softLimit), AFlag(p.allowPartial)]
  }

  function PolicyPressureKinds(): seq<Kind> { [K32, K32, K32, K64, KFlag, KFlag, KFlag, KFlag, K8(5), K8(5)] }

  function PolicyPressure(p: Policy): seq<Atom> {
    [A32(p.pressure.thresholds.elevated), A32(p.pressure.thresholds.high), A32(p.pressure.thresholds.critical),
     N(p.pressure.evidenceTtl), AFlag(p.pressure.refuseOnUnknown), AFlag(p.pressure.reduceOnHigh),
     AFlag(p.pressure.reduceOnCritical), AFlag(p.pressure.refuseAboveHigh),
     A8(p.refuseAt.Rank()), A8(p.reduceAt.Rank())]
  }

  function PolicyTailKinds(): seq<Kind> { [KFlag, K64, K64, K64, KFlag, K64, KFlag, K64, K64] }

  function PolicyTail(p: Policy): seq<Atom> {
    [AFlag(p.reclaim.enabled), N(p.reclaim.minHold), N(p.reclaim.maxUnits), N(p.reclaim.reserve),
     AFlag(p.reclaim.allowProtected), N(p.usableFloor), AFlag(p.fenceOnChange), N(p.reservationTtl), N(p.maxPending)]
  }

  function PressurePolicyFrom(q: seq<Atom>): PressurePolicy
    requires AllFit(q, PolicyPressureKinds())
  {
    PressurePolicy(Thresholds(q[0].v32, q[1].v32, q[2].v32), q[3].v64, q[4].flag, q[5].flag, q[6].flag, q[7].flag)
  }

  function ReclaimPolicyFrom(t: seq<Atom>): ReclaimPolicy
    requires AllFit(t, PolicyTailKinds())
  {
    ReclaimPolicy(t[0].flag, t[1].v64, t[2].v64, t[3].v64, t[4].flag)
  }

  function PolicyFrom(h: seq<Atom>, q: seq<Atom>, t: seq<Atom>): Policy
    requires AllFit(h, PolicyHeadKinds()) && AllFit(q, PolicyPressureKinds()) && AllFit(t, PolicyTailKinds())
  {
    Policy(h[0].v64, h[1].v64, h[2].text, h[3].v64,
           Overcommit(if h[4].v8 == 1 then Bounded else ForbidOvercommit, h[5].v64),
           Borrow(if h[6].v8 == 1 then FromAncestorFree else ForbidBorrow, h[7].v64),
           h[8].v64, h[9].v64, h[10].v32, h[11].flag,
           PressurePolicyFrom(q), PressureOf(q[8].v8), PressureOf(q[9].v8), ReclaimPolicyFrom(t),
           t[5].v64, t[6].flag, t[7].v64, t[8].v64)
  }

  lemma PolicyFits(p: Policy)
    requires |p.name| <= MAX_NAME
    ensures AllFit(PolicyHead(p), PolicyHeadKinds())
    ensures AllFit(PolicyPressure(p), PolicyPressureKinds())
    ensures AllFit(PolicyTail(p), PolicyTailKinds())
  {
  }

  lemma PolicyInverse(p: Policy)
    requires AllFit(PolicyHead(p), PolicyHeadKinds()) && AllFit(PolicyPressure(p), PolicyPressureKinds())
    requires AllFit(PolicyTail(p), PolicyTailKinds())
    ensures PolicyFrom(PolicyHead(p), PolicyPressure(p), PolicyTail(p)) == p
  {
  }

  function EncodePolicy(p: Policy): seq<byte> {
    Encode(PolicyHead(p)) + Encode(PolicyPressure(p)) + Encode(PolicyTail(p))
  }

  function DecodePolicy(bs: seq<byte>): Read<Policy> {
    match Fields(bs, PolicyHeadKinds())
    case Short => Short
    case Got(h, r1) =>
      match Fields(r1, PolicyPressureKinds())
      case Short => Short
      case Got(q, r2) =>
        match Fields(r2, PolicyTailKinds())
        case Short => Short
        case Got(t, r3) => Got(PolicyFrom(h, q, t), r3)
  }

  lemma PolicyRoundTrip(p: Policy, rest: seq<byte>)
    requires |p.name| <= MAX_NAME
    ensures DecodePolicy(EncodePolicy(p) + rest) == Got(p, rest)
  {
    hide PolicyHead, PolicyHeadKinds, PolicyPressure, PolicyPressureKinds, PolicyTail, PolicyTailKinds, Encode, Fields, PolicyFrom;
    var tail := Encode(PolicyTail(p)) + rest;
    var middle := Encode(PolicyPressure(p)) + tail;
    assert EncodePolicy(p) + rest == Encode(PolicyHead(p)) + middle;
    PolicyFits(p);
    PolicyInverse(p);
    FieldsOf(PolicyHead(p), PolicyHeadKinds(), middle);
    FieldsOf(PolicyPressure(p), PolicyPressureKinds(), tail);
    FieldsOf(PolicyTail(p), PolicyTailKinds(), rest);
  }

  // ----- Evidence, attempts and capacities -----

  function EvidenceKinds(): seq<Kind> { [K64, K64, K64, K64, K64, K64, K64, K64, K64, K64, K64, K64, KFlag, K64, K64] }

  function EvidenceAtoms(o: PressureSnapshot): seq<Atom> {
    [N(o.id), N(o.pool), N(o.poolGeneration), N(o.epoch), N(o.boot.hi), N(o.boot.lo), N(o.observedAt), N(o.ttl),
     N(o.demand), N(o.committed), N(o.reclaimable), N(o.provenance), AFlag(o.assertCommitted), N(o.digest.hi), N(o.digest.lo)]
  }

  function EvidenceFrom(a: seq<Atom>): PressureSnapshot
    requires AllFit(a, EvidenceKinds())
  {
    PressureSnapshot(a[0].v64, a[1].v64, a[2].v64, a[3].v64, Boot(a[4].v64, a[5].v64), a[6].v64, a[7].v64, a[8].v64,
                     a[9].v64, a[10].v64, a[11].v64, a[12].flag, Digest(a[13].v64, a[14].v64))
  }

  lemma EvidenceInverse(o: PressureSnapshot)
    ensures AllFit(EvidenceAtoms(o), EvidenceKinds()) && EvidenceFrom(EvidenceAtoms(o)) == o
  {
  }

  function DecodeEvidence(bs: seq<byte>): Read<PressureSnapshot> {
    match Fields(bs, EvidenceKinds())
    case Short => Short
    case Got(a, rest) => Got(EvidenceFrom(a), rest)
  }

  function EncodeEvidence(o: PressureSnapshot): seq<byte> { Encode(EvidenceAtoms(o)) }

  lemma EvidenceRoundTrip(o: PressureSnapshot, rest: seq<byte>)
    ensures DecodeEvidence(EncodeEvidence(o) + rest) == Got(o, rest)
  {
    hide EvidenceAtoms, EvidenceKinds, EvidenceFrom, Encode, Fields;
    EvidenceInverse(o);
    FieldsOf(EvidenceAtoms(o), EvidenceKinds(), rest);
  }

  function AttemptKinds(): seq<Kind> { [K64, K8(6), K64, K64, K16(105), K64, K64, K64, K64, KFlag] }

  function AttemptAtoms(t: Attempt): seq<Atom> {
    [N(t.id), A8(AttemptCode(t.kind)), N(t.digest.hi), N(t.digest.lo), A16(t.outcome), N(t.allocation), N(t.granted),
     N(t.sequence), N(t.recordedAt), AFlag(t.unfinished)]
  }

  function AttemptFrom(a: seq<Atom>): Attempt
    requires AllFit(a, AttemptKinds())
  {
    Attempt(a[0].v64, AttemptOf(a[1].v8), Digest(a[2].v64, a[3].v64), a[4].v16, a[5].v64, a[6].v64, a[7].v64, a[8].v64,
            a[9].flag)
  }

  lemma AttemptInverse(t: Attempt)
    ensures AllFit(AttemptAtoms(t), AttemptKinds()) && AttemptFrom(AttemptAtoms(t)) == t
  {
  }

  function DecodeAttempt(bs: seq<byte>): Read<Attempt> {
    match Fields(bs, AttemptKinds())
    case Short => Short
    case Got(a, rest) => Got(AttemptFrom(a), rest)
  }

  function EncodeAttempt(t: Attempt): seq<byte> { Encode(AttemptAtoms(t)) }

  lemma AttemptRoundTrip(t: Attempt, rest: seq<byte>)
    ensures DecodeAttempt(EncodeAttempt(t) + rest) == Got(t, rest)
  {
    hide AttemptAtoms, AttemptKinds, AttemptFrom, Encode, Fields;
    AttemptInverse(t);
    FieldsOf(AttemptAtoms(t), AttemptKinds(), rest);
  }

  function NumberKinds(n: nat): seq<Kind> { seq(n, _ => K64) }

  function CapacityAtoms(c: Capacity): seq<Atom> { [N(c.resource), N(c.backend), N(c.generation), N(c.raw), N(c.observedAt)] }

  function CapacityFrom(a: seq<Atom>): Capacity
    requires AllFit(a, NumberKinds(5))
  {
    Capacity(a[0].v64, a[1].v64, a[2].v64, a[3].v64, a[4].v64)
  }

  lemma CapacityInverse(c: Capacity)
    ensures AllFit(CapacityAtoms(c), NumberKinds(5)) && CapacityFrom(CapacityAtoms(c)) == c
  {
  }

  function DecodeCapacity(bs: seq<byte>): Read<Capacity> {
    match Fields(bs, NumberKinds(5))
    case Short => Short
    case Got(a, rest) => Got(CapacityFrom(a), rest)
  }

  function EncodeCapacity(c: Capacity): seq<byte> { Encode(CapacityAtoms(c)) }

  lemma CapacityRoundTrip(c: Capacity, rest: seq<byte>)
    ensures DecodeCapacity(EncodeCapacity(c) + rest) == Got(c, rest)
  {
    hide CapacityAtoms, NumberKinds, CapacityFrom, Encode, Fields;
    CapacityInverse(c);
    FieldsOf(CapacityAtoms(c), NumberKinds(5), rest);
  }

  // ----- Journal records: an opcode, then the entity -----

  function OpNumber(op: AllocationOp): byte {
    match op
    case OpReserved => 8
    case OpCommitted => 9
    case OpReleased => 10
    case OpReclaimed => 11
    case OpFenced => 12
    case OpRevalidated => 13
    case OpExpired => 14
  }

  function OpOf(b: byte): AllocationOp
    requires 8 <= b <= 14
  {
    if b == 8 then OpReserved else if b == 9 then OpCommitted else if b == 10 then OpReleased
    else if b == 11 then OpReclaimed else if b == 12 then OpFenced else if b == 13 then OpRevalidated else OpExpired
  }

  function Numbers(vs: seq<u64>): seq<Atom> { seq(|vs|, i requires 0 <= i < |vs| => N(vs[i])) }

  lemma NumbersRoundTrip(vs: seq<u64>, n: nat, rest: seq<byte>)
    requires |vs| == n
    ensures Fields(Encode(Numbers(vs)) + rest, NumberKinds(n)) == Got(Numbers(vs), rest)
  {
    hide Encode, Fields;
    FieldsOf(Numbers(vs), NumberKinds(n), rest);
  }

  function Opcode(r: JournalRecord): byte {
    match r
    case EpochAdvance(_, _) => 1
    case PoolUpsert(_, _) => 2
    case PoolRemoved(_) => 3
    case PolicyUpsert(_) => 4
    case QueueUpsert(_) => 5
    case QueueRetired(_) => 6
    case CapacitySet(_) => 7
    case AllocationUpsert(op, _) => OpNumber(op)
    case PressureObserved(_) => 15
    case AttemptRecorded(_) => 16
    case Checkpoint => 17
    case BackendRegistered => 18
  }

  function Body(r: JournalRecord): seq<byte> {
    match r
    case EpochAdvance(epoch, boot) => Encode(Numbers([epoch, boot.hi, boot.lo]))
    case PoolUpsert(d, g) => EncodePool(d) + Encode(Numbers([g]))
    case PoolRemoved(p) => Encode(Numbers([p]))
    case PolicyUpsert(policy) => EncodePolicy(policy)
    case QueueUpsert(q) => EncodeQueue(q)
    case QueueRetired(q) => Encode(Numbers([q]))
    case CapacitySet(c) => EncodeCapacity(c)
    case AllocationUpsert(_, a) => EncodeAllocation(a)
    case PressureObserved(o) => EncodeEvidence(o)
    case AttemptRecorded(t) => EncodeAttempt(t)
    case Checkpoint => []
    case BackendRegistered => []
  }

  function EncodeRecord(r: JournalRecord): seq<byte> { [Opcode(r)] + Body(r) }

  /** Strings within their bound; everything else always encodes. */
  predicate Encodable(r: JournalRecord) {
    match r
    case PoolUpsert(d, _) => |d.name| <= MAX_NAME
    case PolicyUpsert(policy) => |policy.name| <= MAX_NAME
    case QueueUpsert(q) => |q.name| <= MAX_NAME
    case _ => true
  }

  datatype Parsed = Malformed | Parsed(record: JournalRecord)

  function ParseNumbers(bs: seq<byte>, n: nat): (r: Read<seq<u64>>)
    ensures r.Got? ==> |r.value| == n
  {
    match Fields(bs, NumberKinds(n))
    case Short => Short
    case Got(a, rest) => Got(seq(n, i requires 0 <= i < n && AllFit(a, NumberKinds(n)) => a[i].v64), rest)
  }

  lemma ParseNumbersOf(vs: seq<u64>, n: nat, rest: seq<byte>)
    requires |vs| == n
    ensures ParseNumbers(Encode(Numbers(vs)) + rest, n) == Got(vs, rest)
  {
    hide Encode, Fields;
    NumbersRoundTrip(vs, n, rest);
    var r := ParseNumbers(Encode(Numbers(vs)) + rest, n);
    assert r.Got? && r.value == vs;
  }

  /** The body of a record with the given opcode. Bytes after it are ignored, as
      apply_journal_payload ignores them; an unknown opcode is malformed. */
  function ParseBody(op: byte, bs: seq<byte>): Parsed {
    if op == 1 then
      var r := ParseNumbers(bs, 3);
      if r.Short? then Malformed else Parsed(EpochAdvance(r.value[0], Boot(r.value[1], r.value[2])))
    else if op == 2 then
      var r := DecodePool(bs);
      if r.Short? then Malformed
      else
        var g := ParseNumbers(r.rest, 1);
        if g.Short? then Malformed else Parsed(PoolUpsert(r.value, g.value[0]))
    else if op == 3 then
      var r := ParseNumbers(bs, 1);
      if r.Short? then Malformed else Parsed(PoolRemoved(r.value[0]))
    else if op == 4 then
      var r := DecodePolicy(bs);
      if r.Short? then Malformed else Parsed(PolicyUpsert(r.value))
    else if op == 5 then
      var r := DecodeQueue(bs);
      if r.Short? then Malformed else Parsed(QueueUpsert(r.value))
    else if op == 6 then
      var r := ParseNumbers(bs, 1);
      if r.Short? then Malformed else Parsed(QueueRetired(r.value[0]))
    else if op == 7 then
      var r := DecodeCapacity(bs);
      if r.Short? then Malformed else Parsed(CapacitySet(r.value))
    else if 8 <= op <= 14 then
      var r := DecodeAllocation(bs);
      if r.Short? then Malformed else Parsed(AllocationUpsert(OpOf(op), r.value))
    else if op == 15 then
      var r := DecodeEvidence(bs);
      if r.Short? then Malformed else Parsed(PressureObserved(r.value))
    else if op == 16 then
      var r := DecodeAttempt(bs);
      if r.Short? then Malformed else Parsed(AttemptRecorded(r.value))
    else if op == 17 then Parsed(Checkpoint)
    else if op == 18 then Parsed(BackendRegistered)
    else Malformed
  }

  function ParseRecord(bs: seq<byte>): Parsed {
    if bs == [] then Malformed else ParseBody(bs[0], bs[1..])
  }

  lemma BodyRoundTrip(r: JournalRecord, rest: seq<byte>)
    requires Encodable(r)
    ensures ParseBody(Opcode(r), Body(r) + rest) == Parsed(r)
  {
    hide Encode, Numbers, ParseNumbers, DecodePool, DecodePolicy, DecodeQueue, DecodeCapacity, DecodeAllocation, DecodeEvidence;
    hide DecodeAttempt, EncodePool, EncodePolicy, EncodeQueue, EncodeCapacity, EncodeAllocation, EncodeEvidence, EncodeAttempt;
    match r
    case EpochAdvance(epoch, boot) => ParseNumbersOf([epoch, boot.hi, boot.lo], 3, rest);
    case PoolUpsert(d, g) =>
      assert Body(r) + rest == EncodePool(d) + (Encode(Numbers([g])) + rest);
      PoolRoundTrip(d, Encode(Numbers([g])) + rest);
      ParseNumbersOf([g], 1, rest);
    case PoolRemoved(p) => ParseNumbersOf([p], 1, rest);
    case PolicyUpsert(policy) => PolicyRoundTrip(policy, rest);
    case QueueUpsert(q) => QueueRoundTrip(q, rest);
    case QueueRetired(q) => ParseNumbersOf([q], 1, rest);
    case CapacitySet(c) => CapacityRoundTrip(c, rest);
    case AllocationUpsert(_, a) => AllocationRoundTrip(a, rest);
    case PressureObserved(o) => EvidenceRoundTrip(o, rest);
    case AttemptRecorded(t) => AttemptRoundTrip(t, rest);
    case Checkpoint =>
    case BackendRegistered =>
  }

  /** Every journal record is read back as it was written. */
  lemma RecordRoundTrip(r: JournalRecord)
    requires Encodable(r)
    ensures ParseRecord(EncodeRecord(r)) == Parsed(r)
  {
    hide ParseBody, Body;
    BodyRoundTrip(r, []);
    assert Body(r) + [] == Body(r);
    assert EncodeRecord(r)[1..] == Body(r);
  }
}
