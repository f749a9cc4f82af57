/** The consumer-side idempotency ledger: processed_integration_events and the statements that begin,
    complete and release the processing of a message. */
module ConsumerLedger {

  datatype Key = Key(consumer: string, eventId: string)

  datatype Entry = Processing(lockedUntil: int) | Completed(at: int)

  /** One running consumer; several may share a consumer name. */
  type Process = string

  /** `holders` is a history variable, which the table does not have: who began the entry of a key last. */
  datatype Ledger = Ledger(entries: map<Key, Entry>, now: int, holders: map<Key, Process>)

  /** Each statement names the process that issues it, which the table does not record. */
  datatype Step =
    | Elapse(ms: nat)
    | Begin(key: Key, leaseMs: nat, process: Process)
    | Complete(key: Key, process: Process)
    | Release(key: Key, process: Process)

  /** The INSERT succeeds, or its ON CONFLICT update finds a lapsed lease. */
  predicate MayBegin(l: Ledger, key: Key) {
    key !in l.entries || (l.entries[key].Processing? && l.entries[key].lockedUntil < l.now)
  }

  function Perform(l: Ledger, step: Step): Ledger {
    match step
    case Elapse(ms) => l.(now := l.now + ms)
    case Begin(key, leaseMs, process) =>
      if MayBegin(l, key) then l.(entries := l.entries[key := Processing(l.now + leaseMs)], holders := l.holders[key := process]) else l
    case Complete(key, _) => if key in l.entries && l.entries[key].Processing? then l.(entries := l.entries[key := Completed(l.now)]) else l
    case Release(key, _) => if key in l.entries && l.entries[key].Processing? then l.(entries := l.entries - {key}) else l
  }

  function Run(l: Ledger, steps: seq<Step>): Ledger {
    if steps == [] then l else Perform(Run(l, steps[..|steps| - 1]), steps[|steps| - 1])
  }

  lemma RunNext(l: Ledger, steps: seq<Step>, n: nat)
    requires n < |steps|
    ensures Run(l, steps[..n + 1]) == Perform(Run(l, steps[..n]), steps[n])
  {
    assert steps[..n + 1][..n] == steps[..n];
  }

  // ---------- the store as an object ----------

  class PostgresConsumerIdempotencyStore {
    var entries: map<Key, Entry>
    var now: int
    ghost var holders: map<Key, Process>

    constructor (now: int)
      ensures Value() == Ledger(map[], now, map[])
    {
      this.entries, this.now, this.holders := map[], now, map[];
    }

    ghost function Value(): Ledger
      reads this
    {
      Ledger(entries, now, holders)
    }

    method TryBegin(key: Key, leaseMs: nat, ghost process: Process) returns (begun: bool)
      modifies this`entries, this`holders
      ensures Value() == Perform(old(Value()), Begin(key, leaseMs, process)) && begun == MayBegin(old(Value()), key)
      ensures begun <==> key !in old(entries) || (old(entries)[key].Processing? && old(entries)[key].lockedUntil < now)
      ensures entries == if begun then old(entries)[key := Processing(now + leaseMs)] else old(entries)
    {
      begun := key !in entries || (entries[key].Processing? && entries[key].lockedUntil < now);
      if begun {
        entries := entries[key := Processing(now + leaseMs)];
        holders := holders[key := process];
      }
    }

    method CompleteMessage(key: Key, ghost process: Process)
      modifies this`entries
      ensures Value() == Perform(old(Value()), Complete(key, process))
      ensures entries == if key in old(entries) && old(entries)[key].Processing? then old(entries)[key := Completed(now)] else old(entries)
    {
      if key in entries && entries[key].Processing? {
        entries := entries[key := Completed(now)];
      }
    }

    method ReleaseMessage(key: Key, ghost process: Process)
      modifies this`entries
      ensures Value() == Perform(old(Value()), Release(key, process))
      ensures entries == if key in old(entries) && old(entries)[key].Processing? then old(entries) - {key} else old(entries)
    {
      if key in entries && entries[key].Processing? {
        entries := entries - {key};
      }
    }
  }

  // ---------- completion ----------

  /** A completed message stays completed, whatever anyone does, and is never begun again. */
  lemma {:induction false} CompletedIsForever(l: Ledger, steps: seq<Step>, key: Key)
    requires key in l.entries && l.entries[key].Completed?
    ensures key in Run(l, steps).entries && Run(l, steps).entries[key] == l.entries[key] && !MayBegin(Run(l, steps), key)
    decreases |steps|
  {
    if steps != [] {
      CompletedIsForever(l, steps[..|steps| - 1], key);
    }
  }

  // ---------- losing a lease ----------

  /** The process holds the lease that runs until this time. */
  predicate Holds(l: Ledger, key: Key, process: Process, until: int) {
    key in l.entries && l.entries[key] == Processing(until) && key in l.holders && l.holders[key] == process && l.now <= until
  }

  predicate Ends(step: Step, key: Key, process: Process) {
    step == Release(key, process) || step == Complete(key, process)
  }

  /** The process neither completes nor releases the message itself. */
  ghost predicate KeepsAtIt(steps: seq<Step>, key: Key, process: Process) {
    forall step | step in steps :: !Ends(step, key, process)
  }

  lemma {:induction false} TimePasses(l: Ledger, steps: seq<Step>, n: nat)
    requires n <= |steps|
    ensures l.now <= Run(l, steps[..n]).now <= Run(l, steps).now
    decreases |steps|
  {
    if n == |steps| {
      assert steps[..n] == steps;
      if n > 0 {
        TimePasses(l, steps[..n - 1], n - 1);
      }
    } else {
      assert steps[..|steps| - 1][..n] == steps[..n];
      TimePasses(l, steps[..|steps| - 1], n);
    }
  }

  /** The ledger after the process began the message and these steps followed. */
  function Since(l: Ledger, key: Key, leaseMs: nat, process: Process, steps: seq<Step>): Ledger {
    Run(Perform(l, Begin(key, leaseMs, process)), steps)
  }

  /** Another process issued this kind of statement for the key at step n, while the lease was in force. */
  ghost predicate EndedByOther(l: Ledger, steps: seq<Step>, n: nat, key: Key, process: Process, until: int) {
    n < |steps| && Holds(Run(l, steps[..n]), key, process, until) && exists other :: other != process && Ends(steps[n], key, other)
  }

  ghost predicate ReleasedByOther(l: Ledger, steps: seq<Step>, n: nat, key: Key, process: Process, until: int) {
    EndedByOther(l, steps, n, key, process, until) && steps[n].Release?
  }

  ghost predicate SomeoneEnds(l: Ledger, steps: seq<Step>, key: Key, process: Process, until: int) {
    exists n: nat :: EndedByOther(l, steps, n, key, process, until)
  }

  ghost predicate SomeoneReleases(l: Ledger, steps: seq<Step>, key: Key, process: Process, until: int) {
    exists n: nat :: ReleasedByOther(l, steps, n, key, process, until)
  }

  /** At some point the process does not hold its lease. */
  ghost predicate Loses(l: Ledger, steps: seq<Step>, key: Key, process: Process, until: int) {
    exists n: nat | n <= |steps| :: !Holds(Run(l, steps[..n]), key, process, until)
  }

  /** At some point the message can be begun. */
  ghost predicate IsFree(l: Ledger, steps: seq<Step>, key: Key) {
    exists n: nat | n <= |steps| :: MayBegin(Run(l, steps[..n]), key)
  }

  /** Until someone else ends it, the lease holds. */
  lemma {:induction false} HoldsUntilEnded(l: Ledger, steps: seq<Step>, n: nat, key: Key, process: Process, until: int)
    requires Holds(l, key, process, until) && KeepsAtIt(steps, key, process) && n <= |steps| && Run(l, steps).now <= until
    requires forall i: nat | i < n :: !EndedByOther(l, steps, i, key, process, until)
    ensures Holds(Run(l, steps[..n]), key, process, until)
    decreases n
  {
    if n > 0 {
      HoldsUntilEnded(l, steps, n - 1, key, process, until);
      TimePasses(l, steps, n);
      RunNext(l, steps, n - 1);
      assert steps[n - 1] in steps && !EndedByOther(l, steps, n - 1, key, process, until);
      assert steps[n - 1].Release? || steps[n - 1].Complete? ==> Ends(steps[n - 1], steps[n - 1].key, steps[n - 1].process);
    }
  }

  lemma EndedIsLost(l: Ledger, steps: seq<Step>, n: nat, key: Key, process: Process, until: int)
    requires EndedByOther(l, steps, n, key, process, until)
    ensures !Holds(Run(l, steps[..n + 1]), key, process, until)
    ensures steps[n].Release? ==> MayBegin(Run(l, steps[..n + 1]), key)
    ensures steps[n].Complete? ==> key in Run(l, steps[..n + 1]).entries && Run(l, steps[..n + 1]).entries[key].Completed?
  {
    RunNext(l, steps, n);
  }

  /** A process loses a message it is working on, while its lease still runs, exactly when another
      process issues a release or a completion of that message in this time. */
  lemma LeaseLostExactlyWhen(l: Ledger, key: Key, leaseMs: nat, process: Process, steps: seq<Step>)
    requires MayBegin(l, key) && KeepsAtIt(steps, key, process) && Since(l, key, leaseMs, process, steps).now <= l.now + leaseMs
    ensures var begun := Perform(l, Begin(key, leaseMs, process));
      Loses(begun, steps, key, process, l.now + leaseMs) <==> SomeoneEnds(begun, steps, key, process, l.now + leaseMs)
  {
    var begun, until := Perform(l, Begin(key, leaseMs, process)), l.now + leaseMs;
    if n: nat :| n <= |steps| && !Holds(Run(begun, steps[..n]), key, process, until) {
      if forall i: nat | i < n :: !EndedByOther(begun, steps, i, key, process, until) {
        HoldsUntilEnded(begun, steps, n, key, process, until);
      }
    }
    if n: nat :| EndedByOther(begun, steps, n, key, process, until) {
      EndedIsLost(begun, steps, n, key, process, until);
    }
  }

  lemma FirstEnd(l: Ledger, steps: seq<Step>, n: nat, key: Key, process: Process, until: int) returns (first: nat)
    requires EndedByOther(l, steps, n, key, process, until)
    ensures first <= n && EndedByOther(l, steps, first, key, process, until) && forall i: nat | i < first :: !EndedByOther(l, steps, i, key, process, until)
    decreases n
  {
    if i: nat :| i < n && EndedByOther(l, steps, i, key, process, until) {
      first := FirstEnd(l, steps, i, key, process, until);
    } else {
      first := n;
    }
  }

  lemma {:induction false} NothingBeginsAfterCompletion(l: Ledger, steps: seq<Step>, n: nat, m: nat, key: Key)
    requires n <= m <= |steps| && key in Run(l, steps[..n]).entries && Run(l, steps[..n]).entries[key].Completed?
    ensures key in Run(l, steps[..m]).entries && Run(l, steps[..m]).entries[key].Completed?
    decreases m
  {
    if n < m {
      NothingBeginsAfterCompletion(l, steps, n, m - 1, key);
      RunNext(l, steps, m - 1);
    }
  }

  /** Before the first end of the lease nothing can be begun; a completion keeps it so for good. */
  lemma BegunAgainAfterRelease(l: Ledger, steps: seq<Step>, m: nat, key: Key, process: Process, until: int) returns (n: nat)
    requires Holds(l, key, process, until) && KeepsAtIt(steps, key, process) && Run(l, steps).now <= until
    requires m <= |steps| && MayBegin(Run(l, steps[..m]), key)
    ensures ReleasedByOther(l, steps, n, key, process, until)
  {
    if forall i: nat | i < m :: !EndedByOther(l, steps, i, key, process, until) {
      HoldsUntilEnded(l, steps, m, key, process, until);
      assert false;
    }
    var i: nat :| i < m && EndedByOther(l, steps, i, key, process, until);
    n := FirstEnd(l, steps, i, key, process, until);
    if steps[n].Complete? {
      EndedIsLost(l, steps, n, key, process, until);
      NothingBeginsAfterCompletion(l, steps, n + 1, m, key);
    }
  }

  /** Two processes can come to work on one message at once, while the first one's lease still runs,
      exactly when another process releases the message in this time. */
  lemma OverlapExactlyWhenReleased(l: Ledger, key: Key, leaseMs: nat, process: Process, steps: seq<Step>)
    requires MayBegin(l, key) && KeepsAtIt(steps, key, process) && Since(l, key, leaseMs, process, steps).now <= l.now + leaseMs
    ensures var begun := Perform(l, Begin(key, leaseMs, process));
      IsFree(begun, steps, key) <==> SomeoneReleases(begun, steps, key, process, l.now + leaseMs)
  {
    var begun, until := Perform(l, Begin(key, leaseMs, process)), l.now + leaseMs;
    TimePasses(begun, steps, 0);
    if m: nat :| m <= |steps| && MayBegin(Run(begun, steps[..m]), key) {
      var n := BegunAgainAfterRelease(begun, steps, m, key, process, until);
    }
    if n: nat :| ReleasedByOther(begun, steps, n, key, process, until) {
      EndedIsLost(begun, steps, n, key, process, until);
    }
  }

  /** It does happen: a process whose lease has lapsed releases the message under its next holder. */
  lemma LateReleaseFreesMessage(l: Ledger, key: Key, leaseMs: nat, elapsed: nat, secondLease: nat, late: Process, holder: Process)
    requires MayBegin(l, key) && elapsed > leaseMs && late != holder
    ensures var lapsed := Run(l, [Begin(key, leaseMs, late), Elapse(elapsed)]);
      && MayBegin(lapsed, key)
      && Holds(Since(lapsed, key, secondLease, holder, []), key, holder, lapsed.now + secondLease)
      && MayBegin(Since(lapsed, key, secondLease, holder, [Release(key, late)]), key)
  {
    var steps := [Begin(key, leaseMs, late), Elapse(elapsed)];
    RunNext(l, steps, 0);
    RunNext(l, steps, 1);
    assert steps[..2] == steps;
    var retaken := Perform(Run(l, steps), Begin(key, secondLease, holder));
    RunNext(retaken, [Release(key, late)], 0);
    assert [Release(key, late)][..1] == [Release(key, late)];
  }
}
