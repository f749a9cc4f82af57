/** What a flush does with each operation of a queue, whatever keys and ids its operations carry.  The
    queue and the gateway tell operations apart by their idempotency keys, and the second pass of a
    flush by their operation ids; here an operation is its position in the queue. */
module FieldFates {
  import opened FieldQueue
  import opened FieldPositions

  // ---------- what the loop has done so far, read off the queue ----------

  /** An earlier live operation with the same key. */
  ghost predicate HasForerunner(c: Companion, clock: Clock, j: nat)
    requires j < |c.pending|
  {
    exists i: nat | i < j :: c.pending[i].key == c.pending[j].key && Live(c, i, clock)
  }

  /** Before position n, an operation with this key was answered. */
  ghost predicate Answered(c: Companion, clock: Clock, up: nat -> bool, n: nat, key: string)
    requires n <= |c.pending|
  {
    exists i: nat | i < n :: c.pending[i].key == key && Live(c, i, clock) && up(i) && Reaches(c, clock, up, i)
  }

  /** The loop does not stop before position j: on a DEGRADED network it stops at the first live
      operation that the gateway does not answer, unless one with its key has been answered before. */
  ghost predicate Reaches(c: Companion, clock: Clock, up: nat -> bool, j: nat)
    requires j <= |c.pending|
  {
    c.network == Degraded ==>
      forall k: nat | k < j && Live(c, k, clock) && !up(k) :: exists i: nat | i < k :: c.pending[i].key == c.pending[k].key && Live(c, i, clock) && up(i)
  }

  /** The acknowledged keys and the receipts after n operations. */
  ghost predicate LoopKnows(c: Companion, gateway: Gateway, f: Flushing, clock: Clock, up: nat -> bool, n: nat)
    requires n <= |c.pending|
  {
    && GatewayInv(f.gateway)
    && (f.stopped <==> !Reaches(c, clock, up, n))
    && (forall key :: key in f.acknowledged <==> key in c.acknowledged || Answered(c, clock, up, n, key))
    && (forall key :: key in f.gateway.receipts <==> key in gateway.receipts || Answered(c, clock, up, n, key))
  }

  /** Where the loop would stop. */
  ghost predicate StopsHere(c: Companion, clock: Clock, up: nat -> bool, n: nat)
    requires n < |c.pending|
  {
    c.network == Degraded && Live(c, n, clock) && !up(n) && !exists i: nat | i < n :: c.pending[i].key == c.pending[n].key && Live(c, i, clock) && up(i)
  }

  lemma ReachesNext(c: Companion, clock: Clock, up: nat -> bool, n: nat)
    requires n < |c.pending|
    ensures Reaches(c, clock, up, n + 1) <==> Reaches(c, clock, up, n) && !StopsHere(c, clock, up, n)
  {
  }

  lemma {:induction false} ReachesEarlier(c: Companion, clock: Clock, up: nat -> bool, i: nat, n: nat)
    requires i <= n <= |c.pending| && Reaches(c, clock, up, n)
    ensures Reaches(c, clock, up, i)
  {
  }

  lemma AnsweredNext(c: Companion, clock: Clock, up: nat -> bool, n: nat, key: string)
    requires n < |c.pending|
    ensures Answered(c, clock, up, n + 1, key) <==>
      Answered(c, clock, up, n, key) || (c.pending[n].key == key && Live(c, n, clock) && up(n) && Reaches(c, clock, up, n))
  {
    if Answered(c, clock, up, n, key) {
      var i: nat :| i < n && c.pending[i].key == key && Live(c, i, clock) && up(i) && Reaches(c, clock, up, i);
      assert i < n + 1;
    }
  }

  /** Where the loop has come, every live operation that would be answered was. */
  lemma AnsweredWhenReached(c: Companion, clock: Clock, up: nat -> bool, n: nat, key: string)
    requires n <= |c.pending| && Reaches(c, clock, up, n)
    ensures Answered(c, clock, up, n, key) <==> exists i: nat | i < n :: c.pending[i].key == key && Live(c, i, clock) && up(i)
  {
    if i: nat :| i < n && c.pending[i].key == key && Live(c, i, clock) && up(i) {
      ReachesEarlier(c, clock, up, i, n);
    }
  }

  /** What the loop's state says of the next operation. */
  lemma LoopTries(c: Companion, gateway: Gateway, f: Flushing, clock: Clock, up: nat -> bool, n: nat)
    requires n < |c.pending| && LoopKnows(c, gateway, f, clock, up, n)
    ensures Attempts(f, c.pending[n], clock(n)) <==> Reaches(c, clock, up, n) && Live(c, n, clock) && !Answered(c, clock, up, n, c.pending[n].key)
    ensures Attempts(f, c.pending[n], clock(n)) ==> (c.pending[n].key in f.gateway.receipts <==> c.pending[n].key in gateway.receipts)
  {
  }

  lemma TurnStops(f: Flushing, network: Network, op: Operation, now: int, up: bool)
    ensures FlushOne(f, network, op, now, up).stopped <==> f.stopped || (Attempts(f, op, now) && !up && network == Degraded)
  {
  }

  lemma TurnLearns(f: Flushing, network: Network, op: Operation, now: int, up: bool, key: string)
    requires GatewayInv(f.gateway)
    ensures var next, answered := FlushOne(f, network, op, now, up), Attempts(f, op, now) && up && op.key == key;
      && GatewayInv(next.gateway)
      && (key in next.acknowledged <==> key in f.acknowledged || answered)
      && (key in next.gateway.receipts <==> key in f.gateway.receipts || answered)
  {
    DeliverOnce(f.gateway, op);
  }

  lemma StopsWhenItFails(c: Companion, clock: Clock, up: nat -> bool, n: nat)
    requires n < |c.pending| && Reaches(c, clock, up, n)
    ensures StopsHere(c, clock, up, n) <==> c.network == Degraded && Live(c, n, clock) && !Answered(c, clock, up, n, c.pending[n].key) && !up(n)
  {
    AnsweredWhenReached(c, clock, up, n, c.pending[n].key);
  }

  lemma TurnKnows(c: Companion, gateway: Gateway, f: Flushing, clock: Clock, up: nat -> bool, n: nat)
    requires n < |c.pending| && LoopKnows(c, gateway, f, clock, up, n)
    ensures LoopKnows(c, gateway, FlushOne(f, c.network, c.pending[n], clock(n), up(n)), clock, up, n + 1)
  {
    var op := c.pending[n];
    var next := FlushOne(f, c.network, op, clock(n), up(n));
    LoopTries(c, gateway, f, clock, up, n);
    ReachesNext(c, clock, up, n);
    TurnStops(f, c.network, op, clock(n), up(n));
    if Reaches(c, clock, up, n) {
      StopsWhenItFails(c, clock, up, n);
    }
    forall key
      ensures key in next.acknowledged <==> key in c.acknowledged || Answered(c, clock, up, n + 1, key)
      ensures key in next.gateway.receipts <==> key in gateway.receipts || Answered(c, clock, up, n + 1, key)
    {
      TurnLearns(f, c.network, op, clock(n), up(n), key);
      AnsweredNext(c, clock, up, n, key);
    }
    TurnLearns(f, c.network, op, clock(n), up(n), op.key);
  }

  lemma {:induction false} LoopKnowsSoFar(c: Companion, gateway: Gateway, clock: Clock, up: nat -> bool, n: nat)
    requires n <= |c.pending| && GatewayInv(gateway)
    ensures LoopKnows(c, gateway, FlushFirst(c, gateway, n, clock, up), clock, up, n)
  {
    if n > 0 {
      LoopKnowsSoFar(c, gateway, clock, up, n - 1);
      TurnKnows(c, gateway, FlushFirst(c, gateway, n - 1, clock, up), clock, up, n - 1);
    }
  }

  /** Reaches describes the loop: it has not stopped before position j. */
  lemma ReachesMeansNotStopped(c: Companion, gateway: Gateway, clock: Clock, up: nat -> bool, j: nat)
    requires j <= |c.pending| && GatewayInv(gateway)
    ensures !FlushFirst(c, gateway, j, clock, up).stopped <==> Reaches(c, clock, up, j)
  {
    LoopKnowsSoFar(c, gateway, clock, up, j);
  }

  /** The operations that the gateway does not answer, and those that it is handed. */
  lemma TriesMean(c: Companion, gateway: Gateway, clock: Clock, up: nat -> bool, j: nat)
    requires j < |c.pending| && GatewayInv(gateway)
    ensures Fails(c, gateway, clock, up)(j) <==>
      Reaches(c, clock, up, j) && Live(c, j, clock) && !Answered(c, clock, up, j, c.pending[j].key) && !up(j)
    ensures IsHanded(c, gateway, clock, up)(j) <==>
      && Reaches(c, clock, up, j) && Live(c, j, clock) && !Answered(c, clock, up, j, c.pending[j].key) && up(j)
      && c.pending[j].key !in gateway.receipts
  {
    var f := FlushFirst(c, gateway, j, clock, up);
    LoopKnowsSoFar(c, gateway, clock, up, j);
    LoopTries(c, gateway, f, clock, up, j);
    assert Fails(c, gateway, clock, up)(j) <==> Attempts(f, c.pending[j], clock(j)) && !up(j);
  }

  // ---------- the fate of each operation ----------

  /** The flush leaves the operation at position j in the queue. */
  predicate Stays(c: Companion, gateway: Gateway, clock: Clock, up: nat -> bool, j: nat) {
    j in KeptAt(c, gateway, clock, up)
  }

  /** The flush hands the operation at position j to the gateway. */
  predicate HandedOver(c: Companion, gateway: Gateway, clock: Clock, up: nat -> bool, j: nat) {
    j in HandedAt(c, gateway, clock, up)
  }

  lemma HandedOverMeans(c: Companion, gateway: Gateway, clock: Clock, up: nat -> bool, j: nat)
    requires j < |c.pending| && GatewayInv(gateway)
    ensures HandedOver(c, gateway, clock, up, j) <==>
      && Reaches(c, clock, up, j) && Live(c, j, clock) && !Answered(c, clock, up, j, c.pending[j].key) && up(j)
      && c.pending[j].key !in gateway.receipts
  {
    TriesMean(c, gateway, clock, up, j);
  }

  /** The second pass takes an operation that nothing in the queue so far shares an id with. */
  ghost predicate Untaken(c: Companion, gateway: Gateway, clock: Clock, up: nat -> bool, j: nat)
    requires j < |c.pending|
  {
    var f := FlushFirst(c, gateway, |c.pending|, clock, up);
    Unhandled(f.remaining, f.acknowledged, c.pending[j], clock(|c.pending| + j))
  }

  lemma StaysMeans(c: Companion, gateway: Gateway, clock: Clock, up: nat -> bool, j: nat)
    requires j < |c.pending|
    ensures Stays(c, gateway, clock, up, j) <==>
      || (Fails(c, gateway, clock, up)(j) && NoEarlier(c.pending, FailedAt(c, gateway, clock, up), j))
      || (Untaken(c, gateway, clock, up, j) && !HasKey(c.pending, FailedAt(c, gateway, clock, up), c.pending[j].key)
          && forall i: nat | i < j && c.pending[i].key == c.pending[j].key :: !Untaken(c, gateway, clock, up, i))
  {
    var f := FlushFirst(c, gateway, |c.pending|, clock, up);
    var failed, untaken := FailedAt(c, gateway, clock, up), UntakenAt(c, f, 0, clock);
    PositionsIncrease(|c.pending|, Fails(c, gateway, clock, up));
    UntakenIncrease(c, f, 0, clock);
    FirstsOfTwo(c.pending, failed, untaken, j);
    assert forall i: nat | i < |c.pending| :: i in untaken <==> Untaken(c, gateway, clock, up, i);
  }

  lemma AnsweredLasts(c: Companion, clock: Clock, up: nat -> bool, i: nat, j: nat, key: string)
    requires i <= j <= |c.pending| && Answered(c, clock, up, i, key)
    ensures Answered(c, clock, up, j, key)
  {
    var k: nat :| k < i && c.pending[k].key == key && Live(c, k, clock) && up(k) && Reaches(c, clock, up, k);
    assert k < j;
  }

  /** Where the loop has come, an operation fails exactly when it is live and neither answered nor
      preceded by an answered one of its key; of those with one key all fail or one is answered. */
  lemma FirstFailure(c: Companion, gateway: Gateway, clock: Clock, up: nat -> bool, j: nat)
    requires j < |c.pending| && GatewayInv(gateway) && Reaches(c, clock, up, j)
    ensures Fails(c, gateway, clock, up)(j) && NoEarlier(c.pending, FailedAt(c, gateway, clock, up), j) <==>
      Live(c, j, clock) && !up(j) && !HasForerunner(c, clock, j)
  {
    var key := c.pending[j].key;
    TriesMean(c, gateway, clock, up, j);
    forall i: nat | i < j && c.pending[i].key == key && Live(c, i, clock) && !Answered(c, clock, up, j, key)
      ensures i in FailedAt(c, gateway, clock, up)
    {
      ReachesEarlier(c, clock, up, i, j);
      TriesMean(c, gateway, clock, up, i);
      if Answered(c, clock, up, i, key) {
        AnsweredLasts(c, clock, up, i, j, key);
      }
    }
    forall i: nat | i in FailedAt(c, gateway, clock, up) && i < j ensures Live(c, i, clock) {
      TriesMean(c, gateway, clock, up, i);
    }
  }

  /** What the loop has come to and not settled has failed, so the second pass leaves it. */
  lemma ReachedIsTaken(c: Companion, gateway: Gateway, clock: Clock, up: nat -> bool, j: nat)
    requires j < |c.pending| && GatewayInv(gateway) && Monotone(clock) && Reaches(c, clock, up, j)
    ensures !Untaken(c, gateway, clock, up, j)
  {
    var n := |c.pending|;
    var f := FlushFirst(c, gateway, n, clock, up);
    LoopKnowsSoFar(c, gateway, clock, up, n);
    assert clock(j) <= clock(n + j);
    if Untaken(c, gateway, clock, up, j) {
      if Answered(c, clock, up, j, c.pending[j].key) {
        AnsweredLasts(c, clock, up, j, n, c.pending[j].key);
      }
      TriesMean(c, gateway, clock, up, j);
      assert Fails(c, gateway, clock, up)(j);
      RemainingByPosition(c, gateway, clock, up, n);
      FailedIsHandled(c, f, FailedAt(c, gateway, clock, up), j, clock(n + j));
    }
  }

  /** An operation that the loop reaches is handed to the gateway exactly when it is live, the gateway
      answers and does not know its key, and none with its key was answered before.  It stays exactly
      when it is live, the gateway does not answer, and no live operation with its key precedes it.
      Otherwise it leaves the queue: as expired, as acknowledged, or as a duplicate of another one. */
  lemma FateOfReached(c: Companion, gateway: Gateway, clock: Clock, up: nat -> bool, j: nat)
    requires c.network != Offline && GatewayInv(gateway) && Monotone(clock) && j < |c.pending| && Reaches(c, clock, up, j)
    ensures HandedOver(c, gateway, clock, up, j) <==>
      Live(c, j, clock) && up(j) && c.pending[j].key !in gateway.receipts && !Answered(c, clock, up, j, c.pending[j].key)
    ensures Stays(c, gateway, clock, up, j) <==> Live(c, j, clock) && !up(j) && !HasForerunner(c, clock, j)
  {
    HandedOverMeans(c, gateway, clock, up, j);
    StaysMeans(c, gateway, clock, up, j);
    ReachedIsTaken(c, gateway, clock, up, j);
    FirstFailure(c, gateway, clock, up, j);
  }

  /** The loop comes to position s and stops there. */
  ghost predicate IsStop(c: Companion, clock: Clock, up: nat -> bool, s: nat)
    requires s < |c.pending|
  {
    Reaches(c, clock, up, s) && StopsHere(c, clock, up, s)
  }

  lemma {:induction false} StopBefore(c: Companion, clock: Clock, up: nat -> bool, j: nat) returns (s: nat)
    requires j <= |c.pending| && !Reaches(c, clock, up, j)
    ensures s < j && IsStop(c, clock, up, s)
  {
    ReachesNext(c, clock, up, j - 1);
    if Reaches(c, clock, up, j - 1) {
      s := j - 1;
    } else {
      s := StopBefore(c, clock, up, j - 1);
    }
  }

  lemma UnreachedAfterStop(c: Companion, clock: Clock, up: nat -> bool, s: nat, j: nat)
    requires s < j <= |c.pending| && IsStop(c, clock, up, s)
    ensures !Reaches(c, clock, up, j)
  {
    ReachesNext(c, clock, up, s);
  }

  lemma NoLaterStop(c: Companion, clock: Clock, up: nat -> bool, s: nat)
    requires s < |c.pending| && IsStop(c, clock, up, s)
    ensures forall t: nat | s < t < |c.pending| :: !IsStop(c, clock, up, t)
  {
    forall t: nat | s < t < |c.pending| ensures !IsStop(c, clock, up, t) {
      UnreachedAfterStop(c, clock, up, s, t);
    }
  }

  lemma OneStop(c: Companion, clock: Clock, up: nat -> bool, s: nat, j: nat)
    requires s < j < |c.pending| && IsStop(c, clock, up, s)
    ensures WaitsBehindStop(c, clock, up, j) <==> Waits(c, clock, up, s, j)
  {
    if t: nat :| t < j && IsStop(c, clock, up, t) && Waits(c, clock, up, t, j) {
      NoLaterStop(c, clock, up, s);
      NoLaterStop(c, clock, up, t);
    }
  }

  /** The only operation that fails is the one at which the loop stops. */
  lemma OnlyStopFails(c: Companion, gateway: Gateway, clock: Clock, up: nat -> bool, s: nat)
    requires s < |c.pending| && GatewayInv(gateway) && IsStop(c, clock, up, s)
    ensures forall i: nat :: i in FailedAt(c, gateway, clock, up) <==> i == s
  {
    forall i: nat | i < |c.pending| ensures Fails(c, gateway, clock, up)(i) <==> i == s {
      TriesMean(c, gateway, clock, up, i);
      if i < s {
        ReachesEarlier(c, clock, up, i, s);
        StopsWhenItFails(c, clock, up, i);
        ReachesEarlier(c, clock, up, i + 1, s);
        ReachesNext(c, clock, up, i);
      } else if i == s {
        StopsWhenItFails(c, clock, up, s);
      } else {
        UnreachedAfterStop(c, clock, up, s, i);
      }
    }
  }

  lemma AnsweredBeforeStop(c: Companion, clock: Clock, up: nat -> bool, s: nat, key: string)
    requires s < |c.pending| && IsStop(c, clock, up, s)
    ensures Answered(c, clock, up, |c.pending|, key) <==> Answered(c, clock, up, s, key)
  {
    if Answered(c, clock, up, |c.pending|, key) {
      var i: nat :| i < |c.pending| && c.pending[i].key == key && Live(c, i, clock) && up(i) && Reaches(c, clock, up, i);
      if i > s {
        UnreachedAfterStop(c, clock, up, s, i);
      }
      assert i < s;
    } else if Answered(c, clock, up, s, key) {
      AnsweredLasts(c, clock, up, s, |c.pending|, key);
    }
  }

  /** After a stop at s, what the second pass takes: neither the operation that failed nor another one
      with its id, no expired, acknowledged or answered one. */
  ghost predicate SecondPassTakes(c: Companion, clock: Clock, up: nat -> bool, s: nat, j: nat)
    requires s < |c.pending| && j < |c.pending|
  {
    && c.pending[j].operationId != c.pending[s].operationId && c.pending[j].expiresAt > clock(|c.pending| + j)
    && c.pending[j].key !in c.acknowledged && !Answered(c, clock, up, s, c.pending[j].key)
  }

  lemma RemainingAfterStop(c: Companion, gateway: Gateway, clock: Clock, up: nat -> bool, s: nat)
    requires s < |c.pending| && GatewayInv(gateway) && IsStop(c, clock, up, s)
    ensures var remaining := FlushFirst(c, gateway, |c.pending|, clock, up).remaining;
      remaining != [] && forall item | item in remaining :: item.operationId == c.pending[s].operationId
  {
    var failed := FailedAt(c, gateway, clock, up);
    OnlyStopFails(c, gateway, clock, up, s);
    RemainingByPosition(c, gateway, clock, up, |c.pending|);
    ImagesOfOne(c.pending, failed, s);
  }

  lemma ImagesOfOne(ops: seq<Operation>, at: seq<nat>, s: nat)
    requires s < |ops| && Within(at, |ops|) && forall i: nat :: i in at <==> i == s
    ensures Images(ops, at, at) != [] && forall item | item in Images(ops, at, at) :: item.operationId == ops[s].operationId
  {
    assert s in at;
    forall m | 0 <= m < |at| ensures at[m] == s {
      assert at[m] in at;
    }
  }

  lemma UntakenMeans(c: Companion, gateway: Gateway, clock: Clock, up: nat -> bool, s: nat, j: nat)
    requires s < |c.pending| && j < |c.pending| && GatewayInv(gateway) && IsStop(c, clock, up, s)
    ensures Untaken(c, gateway, clock, up, j) <==> SecondPassTakes(c, clock, up, s, j)
  {
    LoopKnowsSoFar(c, gateway, clock, up, |c.pending|);
    AnsweredBeforeStop(c, clock, up, s, c.pending[j].key);
    RemainingAfterStop(c, gateway, clock, up, s);
    UntakenFrom(c, FlushFirst(c, gateway, |c.pending|, clock, up), s, j, clock);
  }

  lemma UntakenFrom(c: Companion, f: Flushing, s: nat, j: nat, clock: Clock)
    requires s < |c.pending| && j < |c.pending|
    requires f.remaining != [] && forall item | item in f.remaining :: item.operationId == c.pending[s].operationId
    ensures Unhandled(f.remaining, f.acknowledged, c.pending[j], clock(|c.pending| + j)) <==>
      c.pending[j].operationId != c.pending[s].operationId && c.pending[j].key !in f.acknowledged && c.pending[j].expiresAt > clock(|c.pending| + j)
  {
    assert f.remaining[0] in f.remaining;
  }

  /** An operation that the loop does not reach waits for the next flush exactly when the second pass
      takes it and its key is neither that of the operation that failed nor that of one taken before. */
  ghost predicate Waits(c: Companion, clock: Clock, up: nat -> bool, s: nat, j: nat)
    requires s < |c.pending| && j < |c.pending|
  {
    && SecondPassTakes(c, clock, up, s, j) && c.pending[j].key != c.pending[s].key
    && !exists i: nat | s < i < j :: c.pending[i].key == c.pending[j].key && SecondPassTakes(c, clock, up, s, i)
  }

  lemma UntakenAfterStop(c: Companion, gateway: Gateway, clock: Clock, up: nat -> bool, s: nat, i: nat)
    requires GatewayInv(gateway) && Monotone(clock) && s < |c.pending| && i < |c.pending| && IsStop(c, clock, up, s)
    ensures Untaken(c, gateway, clock, up, i) <==> s < i && SecondPassTakes(c, clock, up, s, i)
  {
    UntakenMeans(c, gateway, clock, up, s, i);
    if i <= s {
      ReachesEarlier(c, clock, up, i, s);
      ReachedIsTaken(c, gateway, clock, up, i);
    }
  }

  lemma KeyOfStop(c: Companion, gateway: Gateway, clock: Clock, up: nat -> bool, s: nat, key: string)
    requires s < |c.pending| && GatewayInv(gateway) && IsStop(c, clock, up, s)
    ensures HasKey(c.pending, FailedAt(c, gateway, clock, up), key) <==> c.pending[s].key == key
  {
    OnlyStopFails(c, gateway, clock, up, s);
    KeyMembers(c.pending, FailedAt(c, gateway, clock, up), key);
  }

  lemma WaitsMeans(c: Companion, gateway: Gateway, clock: Clock, up: nat -> bool, s: nat, j: nat)
    requires s < j < |c.pending|
    requires forall i: nat | i <= j :: Untaken(c, gateway, clock, up, i) <==> s < i && SecondPassTakes(c, clock, up, s, i)
    ensures Waits(c, clock, up, s, j) <==>
      && Untaken(c, gateway, clock, up, j) && c.pending[s].key != c.pending[j].key
      && forall i: nat | i < j && c.pending[i].key == c.pending[j].key :: !Untaken(c, gateway, clock, up, i)
  {
  }

  /** One that the loop does not reach, because it stopped at s, is not handed over; it stays exactly
      when it waits. */
  lemma FateOfUnreached(c: Companion, gateway: Gateway, clock: Clock, up: nat -> bool, s: nat, j: nat)
    requires GatewayInv(gateway) && Monotone(clock) && s < j < |c.pending| && IsStop(c, clock, up, s)
    ensures !HandedOver(c, gateway, clock, up, j)
    ensures Stays(c, gateway, clock, up, j) <==> Waits(c, clock, up, s, j)
  {
    UnreachedAfterStop(c, clock, up, s, j);
    TriesMean(c, gateway, clock, up, j);
    KeyOfStop(c, gateway, clock, up, s, c.pending[j].key);
    forall i: nat | i <= j ensures Untaken(c, gateway, clock, up, i) <==> s < i && SecondPassTakes(c, clock, up, s, i) {
      UntakenAfterStop(c, gateway, clock, up, s, i);
    }
    WaitsMeans(c, gateway, clock, up, s, j);
    StaysMeans(c, gateway, clock, up, j);
  }

  // ---------- operations that are swallowed ----------

  function At(now: int): Clock {
    (i: nat) => now
  }

  /** The operation leaves the queue without having been handed over. */
  predicate Swallowed(c: Companion, gateway: Gateway, clock: Clock, up: nat -> bool, j: nat) {
    !Stays(c, gateway, clock, up, j) && !HandedOver(c, gateway, clock, up, j)
  }

  ghost predicate WaitsBehindStop(c: Companion, clock: Clock, up: nat -> bool, j: nat)
    requires j < |c.pending|
  {
    exists s: nat | s < j :: IsStop(c, clock, up, s) && Waits(c, clock, up, s, j)
  }

  /** At one clock reading, for any queue whatever: an unexpired operation is swallowed exactly when its
      key is acknowledged, or it is reached and answered and its key is known to the gateway or was
      answered before, or it is reached and not answered and another one with its key comes first, or it
      is not reached and does not wait. */
  lemma SwallowedExactlyWhen(c: Companion, gateway: Gateway, now: int, up: nat -> bool, j: nat)
    requires c.network != Offline && GatewayInv(gateway) && j < |c.pending| && c.pending[j].expiresAt > now
    ensures var key := c.pending[j].key;
      Swallowed(c, gateway, At(now), up, j) <==>
        || key in c.acknowledged
        || (Reaches(c, At(now), up, j) &&
            if up(j) then key in gateway.receipts || Answered(c, At(now), up, j, key) else HasForerunner(c, At(now), j))
        || (!Reaches(c, At(now), up, j) && !WaitsBehindStop(c, At(now), up, j))
  {
    if Reaches(c, At(now), up, j) {
      FateOfReached(c, gateway, At(now), up, j);
    } else {
      var s := StopBefore(c, At(now), up, j);
      FateOfUnreached(c, gateway, At(now), up, s, j);
      OneStop(c, At(now), up, s, j);
    }
  }

  /** Operation ids repeat only together with their keys. */
  ghost predicate IdsFollowKeys(ops: seq<Operation>) {
    forall i, j | 0 <= i < |ops| && 0 <= j < |ops| && ops[i].operationId == ops[j].operationId :: ops[i].key == ops[j].key
  }

  lemma UnreachedSwallowed(c: Companion, now: int, up: nat -> bool, s: nat, j: nat)
    requires s < j < |c.pending| && IsStop(c, At(now), up, s) && c.pending[j].expiresAt > now && c.pending[j].key !in c.acknowledged
    requires IdsFollowKeys(c.pending)
    ensures Waits(c, At(now), up, s, j) <==> !HasForerunner(c, At(now), j)
  {
    var key := c.pending[j].key;
    if HasForerunner(c, At(now), j) {
      var i: nat :| i < j && c.pending[i].key == key && Live(c, i, At(now));
      if i < s && up(i) {
        ReachesEarlier(c, At(now), up, i, s);
        assert Answered(c, At(now), up, s, key);
      } else if i < s {
        ReachesEarlier(c, At(now), up, i, s);
        ReachesEarlier(c, At(now), up, i + 1, s);
        ReachesNext(c, At(now), up, i);
        StopsWhenItFails(c, At(now), up, i);
        AnsweredLasts(c, At(now), up, i, s, key);
      } else if i > s && Waits(c, At(now), up, s, j) {
        assert SecondPassTakes(c, At(now), up, s, i);
      }
    } else {
      assert c.pending[s].key != key;
    }
  }

  /** When ids repeat only together with their keys: the first unexpired operation of a key that is not
      acknowledged is swallowed exactly when the gateway is reached, answers and knows the key; a later
      one unless it is itself handed over, the earlier ones not having been answered. */
  lemma SwallowedByKey(c: Companion, gateway: Gateway, now: int, up: nat -> bool, j: nat)
    requires c.network != Offline && GatewayInv(gateway) && j < |c.pending| && c.pending[j].expiresAt > now && IdsFollowKeys(c.pending)
    ensures var key, reached := c.pending[j].key, Reaches(c, At(now), up, j);
      Swallowed(c, gateway, At(now), up, j) <==>
        || key in c.acknowledged
        || (if !HasForerunner(c, At(now), j) then reached && up(j) && key in gateway.receipts
            else !(reached && up(j) && key !in gateway.receipts && !Answered(c, At(now), up, j, key)))
  {
    SwallowedExactlyWhen(c, gateway, now, up, j);
    if !Reaches(c, At(now), up, j) && c.pending[j].key !in c.acknowledged {
      var s := StopBefore(c, At(now), up, j);
      UnreachedSwallowed(c, now, up, s, j);
      OneStop(c, At(now), up, s, j);
    }
  }

  // ---------- a restart that swallows replies ----------

  function Reply(id: string, key: string, now: int): Operation {
    Operation(id, key, StructuredReply([HelpRequested]), now, now + LOCAL_RETENTION_MS, 0)
  }

  const FIRST_KEY := "field-idem-000002"
  const SECOND_KEY := "field-idem-000004"
  const THIRD_KEY := "field-idem-000006"

  /** Consent and language were delivered under the first two keys, and a reply waits under the third,
      when the process is started again and its key factory counts from one: three more replies get the
      same ids and keys over again. */
  function AfterRestart(session: Session, network: Network, now: int): Companion {
    Companion(session, network,
              [Reply("field-op-000005", THIRD_KEY, now), Reply("field-op-000001", FIRST_KEY, now),
               Reply("field-op-000003", SECOND_KEY, now), Reply("field-op-000005", THIRD_KEY, now)],
              [FIRST_KEY, SECOND_KEY])
  }

  lemma KeysDiffer()
    ensures FIRST_KEY != SECOND_KEY && FIRST_KEY != THIRD_KEY && SECOND_KEY != THIRD_KEY
    ensures "field-op-000001" != "field-op-000003" && "field-op-000001" != "field-op-000005" && "field-op-000003" != "field-op-000005"
  {
    assert FIRST_KEY[16] != SECOND_KEY[16] && FIRST_KEY[16] != THIRD_KEY[16] && SECOND_KEY[16] != THIRD_KEY[16];
    assert "field-op-000001"[14] != "field-op-000003"[14] && "field-op-000001"[14] != "field-op-000005"[14] && "field-op-000003"[14] != "field-op-000005"[14];
  }

  lemma LoopAfterRestart(session: Session, network: Network, now: int, up: nat -> bool)
    requires network != Offline
    ensures var c := AfterRestart(session, network, now);
      && HasForerunner(c, At(now), 3)
      && (Answered(c, At(now), up, 3, THIRD_KEY) <==> up(0))
      && (Reaches(c, At(now), up, 3) <==> network == Online || up(0))
  {
    var c := AfterRestart(session, network, now);
    KeysDiffer();
    assert Live(c, 0, At(now)) && !Live(c, 1, At(now)) && !Live(c, 2, At(now));
    assert Reaches(c, At(now), up, 0);
  }

  lemma IdsAfterRestart(session: Session, network: Network, now: int)
    ensures IdsFollowKeys(AfterRestart(session, network, now).pending)
  {
    KeysDiffer();
  }

  /** The first two new replies are swallowed whatever the gateway does, and so is the third, unless the
      network is ONLINE and the gateway answers it but not the reply that was waiting. */
  lemma RestartSwallowsReplies(session: Session, network: Network, now: int, gateway: Gateway, up: nat -> bool)
    requires network != Offline && GatewayInv(gateway) && THIRD_KEY !in gateway.receipts
    ensures var c := AfterRestart(session, network, now);
      && Swallowed(c, gateway, At(now), up, 1) && Swallowed(c, gateway, At(now), up, 2)
      && (Swallowed(c, gateway, At(now), up, 3) <==> !(network == Online && !up(0) && up(3)))
  {
    var c := AfterRestart(session, network, now);
    KeysDiffer();
    IdsAfterRestart(session, network, now);
    LoopAfterRestart(session, network, now, up);
    SwallowedByKey(c, gateway, now, up, 1);
    SwallowedByKey(c, gateway, now, up, 2);
    SwallowedByKey(c, gateway, now, up, 3);
  }
}
