/** Runs of table operations. Expiry housekeeping (lazy erasure and the cleanup sweep) is compared
    with specification tables that never erase an entry because it expired. */
module TableRuns {
  import opened PolicyTables

  datatype Tables = Tables(blocks: BlockTable, throttles: ThrottleTable)

  /** The operations that lock a table; a cleanup is two of them. */
  datatype Op =
    | AddBlock(ip: string, domain: string, until: int)
    | RemoveBlock(ip: string, domain: string)
    | AddThrottle(ip: string, domain: string, delayMs: int, until: int)
    | RemoveThrottle(ip: string, domain: string)
    | QueryBlock(ip: string, domain: string)
    | QueryThrottle(ip: string, domain: string)
    | SweepBlocks
    | SweepThrottles

  datatype Answer = Nothing | IsBlockedIs(b: bool) | DelayIs(ms: int)

  /** A sweep reads the clock once; its reading is the one under the empty key, which is no entry's. */
  const SWEEP := ""

  /** What an operation changes whatever the clock says. */
  function Update(t: Tables, op: Op): Tables {
    match op
    case AddBlock(ip, domain, until) => t.(blocks := t.blocks[Key(ip, domain) := Entry((), until)])
    case RemoveBlock(ip, domain) => t.(blocks := Withdraw(t.blocks, ip, domain))
    case AddThrottle(ip, domain, ms, until) =>
      t.(throttles := t.throttles[Key(ip, domain) := Entry(ms, until)])
    case RemoveThrottle(ip, domain) => t.(throttles := Withdraw(t.throttles, ip, domain))
    case _ => t
  }

  /** The proxy's step: the update plus the housekeeping of lookups and of the sweep. */
  function RealStep(t: Tables, op: Op, clock: Clock): Tables {
    match op
    case QueryBlock(ip, domain) => t.(blocks := AfterLookup(t.blocks, ip, domain, clock))
    case QueryThrottle(ip, domain) =>
      t.(throttles := Probe(t.throttles, Key(ip, domain), clock(Key(ip, domain))))
    case SweepBlocks => t.(blocks := Purge(t.blocks, clock(SWEEP)))
    case SweepThrottles => t.(throttles := Purge(t.throttles, clock(SWEEP)))
    case _ => Update(t, op)
  }

  ghost function Answered(t: Tables, op: Op, clock: Clock): Answer {
    match op
    case QueryBlock(ip, domain) => IsBlockedIs(BlockedBy(t.blocks, ip, domain, clock))
    case QueryThrottle(ip, domain) => DelayIs(ThrottleMs(t.throttles, ip, domain, clock(Key(ip, domain))))
    case _ => Nothing
  }

  /** The methods of the store carry out RealStep and give its answer. */
  method Perform(store: PolicyStore, op: Op, clock: Clock) returns (answer: Answer)
    modifies store
    ensures Tables(store.blocks, store.throttles)
         == RealStep(Tables(old(store.blocks), old(store.throttles)), op, clock)
    ensures answer == Answered(Tables(old(store.blocks), old(store.throttles)), op, clock)
  {
    answer := Nothing;
    match op
    case AddBlock(ip, domain, until) => store.AddBlock(ip, domain, until);
    case RemoveBlock(ip, domain) => store.RemoveBlock(ip, domain);
    case AddThrottle(ip, domain, ms, until) => store.AddThrottle(ip, domain, ms, until);
    case RemoveThrottle(ip, domain) => store.RemoveThrottle(ip, domain);
    case QueryBlock(ip, domain) =>
      var b := store.IsBlocked(ip, domain, clock);
      answer := IsBlockedIs(b);
    case QueryThrottle(ip, domain) =>
      var ms := store.GetThrottleMs(ip, domain, clock(Key(ip, domain)));
      answer := DelayIs(ms);
    case SweepBlocks => store.SweepBlocks(clock(SWEEP));
    case SweepThrottles => store.SweepThrottles(clock(SWEEP));
  }

  /** The proxy's tables after the first n operations. */
  ghost function RealAt(t: Tables, ops: seq<Op>, clocks: seq<Clock>, n: nat): Tables
    requires n <= |ops| == |clocks|
  {
    if n == 0 then t else RealStep(RealAt(t, ops, clocks, n - 1), ops[n - 1], clocks[n - 1])
  }

  /** The specification's tables after the first n operations: no clock, nothing expires away. */
  ghost function SpecAt(t: Tables, ops: seq<Op>, n: nat): Tables
    requires n <= |ops|
  {
    if n == 0 then t else Update(SpecAt(t, ops, n - 1), ops[n - 1])
  }

  ghost predicate SameAnswer(t: Tables, ops: seq<Op>, clocks: seq<Clock>, i: nat)
    requires i < |ops| == |clocks|
  {
    Answered(RealAt(t, ops, clocks, i), ops[i], clocks[i]) == Answered(SpecAt(t, ops, i), ops[i], clocks[i])
  }

  ghost predicate SameAnswers(t: Tables, ops: seq<Op>, clocks: seq<Clock>)
    requires |ops| == |clocks|
  {
    forall i: nat :: i < |ops| ==> SameAnswer(t, ops, clocks, i)
  }

  /** No sequence of operations at these readings can tell the two apart. */
  ghost predicate HousekeepingHidden(clocks: seq<Clock>) {
    forall t: Tables, ops: seq<Op> | |ops| == |clocks| :: SameAnswers(t, ops, clocks)
  }

  /** An entry examined at reading `later` was neither examined nor swept at a later reading before. */
  predicate NotBack(earlier: Clock, later: Clock, k: string) {
    earlier(k) <= later(k) && earlier(SWEEP) <= later(k)
  }

  /** The clock never goes back for any entry. */
  ghost predicate NeverBack(clocks: seq<Clock>) {
    forall i, j, k :: 0 <= i < j < |clocks| && ':' in k ==> NotBack(clocks[i], clocks[j], k)
  }

  /** From operation n on, an entry is examined as expired. */
  ghost predicate ExpiredFrom<T>(e: Entry<T>, clocks: seq<Clock>, n: nat, k: string) {
    forall j :: n <= j < |clocks| ==> !Live(e, clocks[j](k))
  }

  /** The real table is the specification's minus some entries that count as expired from now on;
      keys without a colon, which no lookup asks for, do not matter. */
  ghost predicate Agrees<T(!new)>(kept: Table<T>, full: Table<T>, clocks: seq<Clock>, n: nat) {
    && (forall k :: k in kept ==> k in full && kept[k] == full[k])
    && (forall k :: k in full && k !in kept && ':' in k ==> ExpiredFrom(full[k], clocks, n, k))
  }

  lemma BlockedAgrees(
      kept: BlockTable, full: BlockTable, ip: string, domain: string, clocks: seq<Clock>, n: nat)
    requires n < |clocks| && Agrees(kept, full, clocks, n)
    ensures BlockedBy(kept, ip, domain, clocks[n]) <==> BlockedBy(full, ip, domain, clocks[n])
  {
    hide Hit;
    if BlockedBy(full, ip, domain, clocks[n]) {
      var k :| k in full && Live(full[k], clocks[n](k)) && Hit(k, ip, domain);
      HitHasColon(k, ip, domain);
      assert k in kept && Live(kept[k], clocks[n](k));
    }
    if BlockedBy(kept, ip, domain, clocks[n]) {
      var k :| k in kept && Live(kept[k], clocks[n](k)) && Hit(k, ip, domain);
      assert k in full;
    }
  }

  lemma DelayAgrees(
      kept: ThrottleTable, full: ThrottleTable, ip: string, domain: string, clocks: seq<Clock>, n: nat)
    requires n < |clocks| && Agrees(kept, full, clocks, n)
    ensures var now := clocks[n](Key(ip, domain));
            ThrottleMs(kept, ip, domain, now) == ThrottleMs(full, ip, domain, now)
  {
    assert Key(ip, domain)[|ip|] == ':';
  }

  /** An entry found expired at a reading of operation n stays expired. */
  lemma StaysExpired<T>(e: Entry<T>, clocks: seq<Clock>, n: nat, k: string, now: int)
    requires NeverBack(clocks) && n < |clocks| && ':' in k && (now == clocks[n](k) || now == clocks[n](SWEEP))
    requires !Live(e, now)
    ensures ExpiredFrom(e, clocks, n + 1, k)
  {
    forall j | n + 1 <= j < |clocks| ensures !Live(e, clocks[j](k)) {
      assert NotBack(clocks[n], clocks[j], k);
    }
  }

  /** Erasing an entry that has expired keeps the agreement. */
  lemma ProbeAgrees<T(!new)>(kept: Table<T>, full: Table<T>, key: string, clocks: seq<Clock>, n: nat)
    requires NeverBack(clocks) && n < |clocks| && Agrees(kept, full, clocks, n + 1)
    ensures Agrees(Probe(kept, key, clocks[n](key)), full, clocks, n + 1)
  {
    if key in kept && ':' in key && !Live(kept[key], clocks[n](key)) {
      StaysExpired(kept[key], clocks, n, key, clocks[n](key));
    }
  }

  lemma PurgeAgrees<T(!new)>(kept: Table<T>, full: Table<T>, clocks: seq<Clock>, n: nat)
    requires NeverBack(clocks) && n < |clocks| && Agrees(kept, full, clocks, n + 1)
    ensures Agrees(Purge(kept, clocks[n](SWEEP)), full, clocks, n + 1)
  {
    var now := clocks[n](SWEEP);
    forall k | k in full && k !in Purge(kept, now) && ':' in k ensures ExpiredFrom(full[k], clocks, n + 1, k) {
      if k in kept { StaysExpired(kept[k], clocks, n, k, now); }
    }
  }

  lemma AgreesLater<T(!new)>(kept: Table<T>, full: Table<T>, clocks: seq<Clock>, n: nat)
    requires Agrees(kept, full, clocks, n)
    ensures Agrees(kept, full, clocks, n + 1)
  {
    forall k | k in full && k !in kept && ':' in k ensures ExpiredFrom(full[k], clocks, n + 1, k) {
      assert ExpiredFrom(full[k], clocks, n, k);
    }
  }

  ghost predicate BothAgree(kept: Tables, full: Tables, clocks: seq<Clock>, n: nat) {
    Agrees(kept.blocks, full.blocks, clocks, n) && Agrees(kept.throttles, full.throttles, clocks, n)
  }

  lemma UpdateAgrees(kept: Tables, full: Tables, op: Op, clocks: seq<Clock>, n: nat)
    requires BothAgree(kept, full, clocks, n)
    ensures BothAgree(Update(kept, op), Update(full, op), clocks, n)
  {
    hide ExpiredFrom;
  }

  lemma StepAgrees(kept: Tables, full: Tables, op: Op, clocks: seq<Clock>, n: nat)
    requires NeverBack(clocks) && n < |clocks| && BothAgree(kept, full, clocks, n)
    ensures BothAgree(RealStep(kept, op, clocks[n]), Update(full, op), clocks, n + 1)
    ensures Answered(kept, op, clocks[n]) == Answered(full, op, clocks[n])
  {
    hide Agrees, NeverBack, BlockedBy, ThrottleMs, Probe, Purge;
    AgreesLater(kept.blocks, full.blocks, clocks, n);
    AgreesLater(kept.throttles, full.throttles, clocks, n);
    match op
    case QueryBlock(ip, domain) =>
      BlockedAgrees(kept.blocks, full.blocks, ip, domain, clocks, n);
      ProbeAgrees(kept.blocks, full.blocks, Key(ip, domain), clocks, n);
      var t1 := Probe(kept.blocks, Key(ip, domain), clocks[n](Key(ip, domain)));
      ProbeAgrees(t1, full.blocks, Key(GLOBAL, domain), clocks, n);
    case QueryThrottle(ip, domain) =>
      DelayAgrees(kept.throttles, full.throttles, ip, domain, clocks, n);
      ProbeAgrees(kept.throttles, full.throttles, Key(ip, domain), clocks, n);
    case SweepBlocks => PurgeAgrees(kept.blocks, full.blocks, clocks, n);
    case SweepThrottles => PurgeAgrees(kept.throttles, full.throttles, clocks, n);
    case _ => UpdateAgrees(kept, full, op, clocks, n + 1);
  }

  lemma NothingMissing(t: Tables, clocks: seq<Clock>)
    ensures BothAgree(t, t, clocks, 0)
  {
  }

  lemma {:induction false} RunAgrees(t: Tables, ops: seq<Op>, clocks: seq<Clock>, n: nat)
    requires n <= |ops| == |clocks| && NeverBack(clocks)
    ensures BothAgree(RealAt(t, ops, clocks, n), SpecAt(t, ops, n), clocks, n)
  {
    hide NeverBack, RealStep, Update, BothAgree, Answered;
    if n == 0 {
      NothingMissing(t, clocks);
    } else {
      RunAgrees(t, ops, clocks, n - 1);
      StepAgrees(RealAt(t, ops, clocks, n - 1), SpecAt(t, ops, n - 1), ops[n - 1], clocks, n - 1);
    }
  }

  /** Expiry housekeeping is unobservable: over any run of additions, removals, lookups and sweeps
      under a clock that does not go back for any entry, every answer is that of tables that never
      erase. */
  lemma {:induction false} HousekeepingUnobservable(t: Tables, ops: seq<Op>, clocks: seq<Clock>)
    requires |ops| == |clocks| && NeverBack(clocks)
    ensures SameAnswers(t, ops, clocks)
  {
    hide NeverBack, BothAgree;
    forall i: nat | i < |ops| ensures SameAnswer(t, ops, clocks, i) {
      RunAgrees(t, ops, clocks, i);
      StepAgrees(RealAt(t, ops, clocks, i), SpecAt(t, ops, i), ops[i], clocks, i);
    }
  }

  /** The run that exposes a clock stepping back: operation i erases, operation j looks up, and the
      others do nothing to the block table. */
  ghost function EraseThenLookup(n: nat, i: nat, erase: Op, j: nat, lookup: Op): (ops: seq<Op>)
    ensures |ops| == n
  {
    seq(n, m => if m == i then erase else if m == j then lookup else SweepThrottles)
  }

  lemma {:induction false} ErasedBefore(
      t: Tables, clocks: seq<Clock>, i: nat, erase: Op, j: nat, lookup: Op, n: nat)
    requires i < j < |clocks| && n <= j && erase in {SweepBlocks, lookup} && lookup.QueryBlock?
    requires forall u: Tables :: u.blocks == t.blocks ==> RealStep(u, erase, clocks[i]).blocks == map[]
    ensures var ops := EraseThenLookup(|clocks|, i, erase, j, lookup);
            && SpecAt(t, ops, n).blocks == t.blocks
            && RealAt(t, ops, clocks, n).blocks == if n <= i then t.blocks else map[]
  {
    if n > 0 { ErasedBefore(t, clocks, i, erase, j, lookup, n - 1); }
  }

  lemma ClockStepBackObserved(clocks: seq<Clock>, i: nat, j: nat, k: string)
    requires i < j < |clocks| && ':' in k && !NotBack(clocks[i], clocks[j], k)
    requires clocks[i](k) > 0 && clocks[i](SWEEP) > 0
    ensures !HousekeepingHidden(clocks)
  {
    var ip, domain := KeySplits(k);
    var lookup := QueryBlock(ip, domain);
    var erase, until := if clocks[i](k) > clocks[j](k) then lookup else SweepBlocks,
                        if clocks[i](k) > clocks[j](k) then clocks[i](k) else clocks[i](SWEEP);
    var t := Tables(map[k := Entry((), until)], map[]);
    var ops := EraseThenLookup(|clocks|, i, erase, j, lookup);
    ErasedBefore(t, clocks, i, erase, j, lookup, j);
    assert Hit(k, ip, domain);
    assert BlockedBy(t.blocks, ip, domain, clocks[j]);
    assert !SameAnswers(t, ops, clocks) by { assert !SameAnswer(t, ops, clocks, j); }
  }

  /** Housekeeping is hidden exactly when the clock never goes back for any entry. */
  lemma {:induction false} HiddenIffClockMonotone(clocks: seq<Clock>)
    requires forall i, k :: 0 <= i < |clocks| ==> clocks[i](k) > 0
    ensures HousekeepingHidden(clocks) <==> NeverBack(clocks)
  {
    if NeverBack(clocks) {
      forall t: Tables, ops: seq<Op> | |ops| == |clocks| ensures SameAnswers(t, ops, clocks) {
        HousekeepingUnobservable(t, ops, clocks);
      }
    } else {
      var i, j, k :| 0 <= i < j < |clocks| && ':' in k && !NotBack(clocks[i], clocks[j], k);
      ClockStepBackObserved(clocks, i, j, k);
    }
  }
}
