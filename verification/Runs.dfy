/** Whole runs of the ledger: what holds in every reachable state. */
module Runs {
  import opened Arithmetic
  import opened Sums
  import opened Model
  import opened Attempts
  import opened Grants
  import opened Ledger
  import opened Aggregates
  import opened Invariant
  import opened Steps

  /** A newly opened fabric with an empty store. */
  function Empty(config: Config, epoch: u64, boot: Boot, memory: nat): Fabric {
    Fabric(config, false, epoch, boot, Counters(1, 1, 1, 1, 1), Names(map[], map[], map[]), map[], map[], map[],
           map[], map[], AttemptMemory(memory, map[], []), Books(map[], map[], 1, []))
  }

  lemma EmptyInv(config: Config, epoch: u64, boot: Boot, memory: nat)
    ensures Inv(Empty(config, epoch, boot, memory))
  {
  }

  datatype Call = Call(op: Op, now: u64)

  /** The state after a sequence of calls. */
  ghost function Run(s: Fabric, calls: seq<Call>): Fabric
    decreases |calls|
  {
    if calls == [] then s else Run(Step(s, calls[0].op, calls[0].now), calls[1..])
  }

  /** Every proportional split on the way holds. */
  ghost predicate AdmissibleRun(s: Fabric, calls: seq<Call>)
    decreases |calls|
  {
    calls == [] || (Admissible(s, calls[0].op, calls[0].now) && AdmissibleRun(Step(s, calls[0].op, calls[0].now), calls[1..]))
  }

  lemma StepKeepsInv(s: Fabric, op: Op, now: u64)
    requires Inv(s) && Admissible(s, op, now)
    ensures Inv(Step(s, op, now))
  {
    hide Inv, Step, Changes, Admissible;
    var c := StepChanges(s, op, now);
    ChangeKeepsInv(s, Step(s, op, now), c, now);
  }

  lemma {:induction false} RunKeepsInv(s: Fabric, calls: seq<Call>)
    requires Inv(s) && AdmissibleRun(s, calls)
    ensures Inv(Run(s, calls))
    decreases |calls|
  {
    hide Inv, Step, Admissible;
    if calls != [] {
      StepKeepsInv(s, calls[0].op, calls[0].now);
      RunKeepsInv(Step(s, calls[0].op, calls[0].now), calls[1..]);
    }
  }

  /** In every state reached by any run of operations, each live total of each pool equals
      its recomputation from the allocation records, no total is near wrapping, the closure
      check decides exactly whether usage is within allowance, and over all pools borrowed
      units equal lent units. */
  lemma LedgerTheorem(s: Fabric, calls: seq<Call>)
    requires Inv(s) && AdmissibleRun(s, calls)
    ensures var s' := Run(s, calls);
            && (forall p, a :: p in s'.books.pools ==> Field(s'.books.pools[p], a) == Total(s'.books.allocations, a, p))
            && (forall p :: p in s'.books.pools ==> EntryConsistent(s'.books.pools[p]))
            && (forall p :: p in s'.books.pools ==>
                  && s'.books.pools[p].descriptor.policy in s'.policies
                  && (PoolCloses(s'.policies, s'.books.pools[p]) <==>
                      WithinAllowance(s'.books.pools[p], s'.policies[s'.books.pools[p].descriptor.policy])))
            && SumOver(s'.books.pools.Keys, PoolField(s'.books.pools, InBorrowed))
               == SumOver(s'.books.pools.Keys, PoolField(s'.books.pools, InLent))
  {
    hide PoolCloses, Run, AdmissibleRun;
    RunKeepsInv(s, calls);
    var s' := Run(s, calls);
    InvMeans(s');
  }

  lemma InvMeans(s: Fabric)
    requires Inv(s)
    ensures Agrees(s.books.pools, s.books.allocations)
    ensures forall p :: p in s.books.pools ==> EntryConsistent(s.books.pools[p])
    ensures forall p :: p in s.books.pools ==>
              && s.books.pools[p].descriptor.policy in s.policies
              && (PoolCloses(s.policies, s.books.pools[p]) <==>
                  WithinAllowance(s.books.pools[p], s.policies[s.books.pools[p].descriptor.policy]))
    ensures SumOver(s.books.pools.Keys, PoolField(s.books.pools, InBorrowed))
         == SumOver(s.books.pools.Keys, PoolField(s.books.pools, InLent))
  {
    hide PoolCloses;
    forall p | p in s.books.pools
      ensures EntryConsistent(s.books.pools[p])
      ensures PoolCloses(s.policies, s.books.pools[p]) <==>
              WithinAllowance(s.books.pools[p], s.policies[s.books.pools[p].descriptor.policy])
    {
      EntryFacts(s.books.pools, s.books.allocations, p);
      ClosureIff(s, p);
    }
    BorrowedEqualsLent(s.books.pools, s.books.allocations);
  }
}
