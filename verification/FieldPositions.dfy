/** A flush told by positions: which places of the queue its loop fails at and hands over, and which its
    second pass and its removal of duplicates leave in the queue. */
module FieldPositions {
  import opened FieldQueue

  // ---------- positions ----------

  predicate Within(at: seq<nat>, n: nat) {
    forall m | 0 <= m < |at| :: at[m] < n
  }

  /** The numbers below n that satisfy p. */
  function Positions(n: nat, p: nat -> bool): (at: seq<nat>)
    ensures Within(at, n)
    ensures forall j: nat :: j in at <==> j < n && p(j)
  {
    if n == 0 then [] else Positions(n - 1, p) + if p(n - 1) then [n - 1] else []
  }

  /** What the loop finds at position j: it has not stopped, and the operation is to be delivered. */
  predicate Attempts(f: Flushing, op: Operation, now: int) {
    !f.stopped && op.expiresAt > now && op.key !in f.acknowledged
  }

  /** The loop comes to position j and the gateway does not answer. */
  function Fails(c: Companion, gateway: Gateway, clock: Clock, up: nat -> bool): nat -> bool {
    (j: nat) => j < |c.pending| && Attempts(FlushFirst(c, gateway, j, clock, up), c.pending[j], clock(j)) && !up(j)
  }

  /** The loop comes to position j, the gateway answers, and the key is new to it. */
  function IsHanded(c: Companion, gateway: Gateway, clock: Clock, up: nat -> bool): nat -> bool {
    (j: nat) =>
      && j < |c.pending| && Attempts(FlushFirst(c, gateway, j, clock, up), c.pending[j], clock(j)) && up(j)
      && c.pending[j].key !in FlushFirst(c, gateway, j, clock, up).gateway.receipts
  }

  function FailedAt(c: Companion, gateway: Gateway, clock: Clock, up: nat -> bool): seq<nat> {
    Positions(|c.pending|, Fails(c, gateway, clock, up))
  }

  function HandedAt(c: Companion, gateway: Gateway, clock: Clock, up: nat -> bool): seq<nat> {
    Positions(|c.pending|, IsHanded(c, gateway, clock, up))
  }

  /** The positions that the second pass takes, from i on. */
  function UntakenAt(c: Companion, f: Flushing, i: nat, clock: Clock): (at: seq<nat>)
    requires i <= |c.pending|
    ensures Within(at, |c.pending|)
    ensures forall j: nat :: j in at <==> i <= j < |c.pending| && Unhandled(f.remaining, f.acknowledged, c.pending[j], clock(|c.pending| + j))
    decreases |c.pending| - i
  {
    if i == |c.pending| then []
    else (if Unhandled(f.remaining, f.acknowledged, c.pending[i], clock(|c.pending| + i)) then [i] else []) + UntakenAt(c, f, i + 1, clock)
  }

  predicate HasKey(ops: seq<Operation>, at: seq<nat>, key: string)
    requires Within(at, |ops|)
  {
    exists m | 0 <= m < |at| :: ops[at[m]].key == key
  }

  /** Of positions with one key the first. */
  function FirstOfKeys(ops: seq<Operation>, at: seq<nat>): (first: seq<nat>)
    requires Within(at, |ops|)
    ensures Within(first, |ops|) && forall j | j in first :: j in at
  {
    if at == [] then []
    else
      var before, last := FirstOfKeys(ops, at[..|at| - 1]), at[|at| - 1];
      if HasKey(ops, before, ops[last].key) then before else before + [last]
  }

  /** The operations at these positions, those that failed with one more attempt. */
  function Images(ops: seq<Operation>, failed: seq<nat>, at: seq<nat>): (images: seq<Operation>)
    requires Within(at, |ops|)
    ensures |images| == |at|
    ensures forall m | 0 <= m < |at| ::
      images[m] == if at[m] in failed then ops[at[m]].(attemptCount := ops[at[m]].attemptCount + 1) else ops[at[m]]
  {
    seq(|at|, m requires 0 <= m < |at| => if at[m] in failed then Retried(ops[at[m]]) else ops[at[m]])
  }

  /** The positions of the operations that a flush leaves in the queue. */
  function KeptAt(c: Companion, gateway: Gateway, clock: Clock, up: nat -> bool): seq<nat> {
    var f := FlushFirst(c, gateway, |c.pending|, clock, up);
    FirstOfKeys(c.pending, FailedAt(c, gateway, clock, up) + UntakenAt(c, f, 0, clock))
  }

  /** What a gateway has been handed since. */
  function Added(before: Gateway, after: Gateway): seq<Operation>
    requires |before.deliveries| <= |after.deliveries|
  {
    after.deliveries[|before.deliveries|..]
  }

  lemma ImagesAppend(ops: seq<Operation>, failed: seq<nat>, at: seq<nat>, more: seq<nat>)
    requires Within(at, |ops|) && Within(more, |ops|)
    ensures Within(at + more, |ops|)
    ensures Images(ops, failed, at + more) == Images(ops, failed, at) + Images(ops, failed, more)
  {
  }

  lemma OneMoreImage(ops: seq<Operation>, at: seq<nat>, j: nat)
    requires Within(at, |ops|) && j < |ops|
    ensures Within(at + [j], |ops|)
    ensures Images(ops, at + [j], at + [j]) == Images(ops, at, at) + [Retried(ops[j])]
    ensures Images(ops, [], at + [j]) == Images(ops, [], at) + [ops[j]]
  {
  }

  /** What one turn of the loop adds. */
  lemma OneTurn(f: Flushing, network: Network, op: Operation, now: int, up: bool)
    ensures var next, tried := FlushOne(f, network, op, now, up), Attempts(f, op, now);
      && next.remaining == f.remaining + (if tried && !up then [Retried(op)] else [])
      && next.gateway.deliveries == f.gateway.deliveries + (if tried && up && op.key !in f.gateway.receipts then [op] else [])
  {
  }

  lemma TurnAt(c: Companion, gateway: Gateway, clock: Clock, up: nat -> bool, n: nat)
    requires n < |c.pending|
    ensures var f, next := FlushFirst(c, gateway, n, clock, up), FlushFirst(c, gateway, n + 1, clock, up);
      && next.remaining == f.remaining + (if Fails(c, gateway, clock, up)(n) then [Retried(c.pending[n])] else [])
      && next.gateway.deliveries == f.gateway.deliveries + (if IsHanded(c, gateway, clock, up)(n) then [c.pending[n]] else [])
  {
    OneTurn(FlushFirst(c, gateway, n, clock, up), c.network, c.pending[n], clock(n), up(n));
  }

  /** The operations below n that failed, with one more attempt. */
  function Failures(ops: seq<Operation>, n: nat, fails: nat -> bool): seq<Operation>
    requires n <= |ops|
  {
    Images(ops, Positions(n, fails), Positions(n, fails))
  }

  lemma {:induction false} RemainingByPosition(c: Companion, gateway: Gateway, clock: Clock, up: nat -> bool, n: nat)
    requires n <= |c.pending|
    ensures FlushFirst(c, gateway, n, clock, up).remaining == Failures(c.pending, n, Fails(c, gateway, clock, up))
  {
    if n == 0 {
      NoFailures(c.pending, Fails(c, gateway, clock, up));
    } else {
      RemainingByPosition(c, gateway, clock, up, n - 1);
      TurnAt(c, gateway, clock, up, n - 1);
      OneMoreFailure(c.pending, n, Fails(c, gateway, clock, up));
    }
  }

  lemma NoFailures(ops: seq<Operation>, fails: nat -> bool)
    ensures Failures(ops, 0, fails) == []
  {
  }

  lemma OneMoreFailure(ops: seq<Operation>, n: nat, fails: nat -> bool)
    requires 0 < n <= |ops|
    ensures Failures(ops, n, fails) == Failures(ops, n - 1, fails) + if fails(n - 1) then [Retried(ops[n - 1])] else []
  {
    OneMoreImage(ops, Positions(n - 1, fails), n - 1);
  }

  lemma {:induction false} DeliveriesByPosition(c: Companion, gateway: Gateway, clock: Clock, up: nat -> bool, n: nat)
    requires n <= |c.pending|
    ensures var at := Positions(n, IsHanded(c, gateway, clock, up));
      FlushFirst(c, gateway, n, clock, up).gateway.deliveries == gateway.deliveries + Images(c.pending, [], at)
  {
    if n == 0 {
      assert gateway.deliveries + [] == gateway.deliveries;
    } else {
      DeliveriesByPosition(c, gateway, clock, up, n - 1);
      TurnAt(c, gateway, clock, up, n - 1);
      OneMoreHanded(c.pending, gateway.deliveries, n, IsHanded(c, gateway, clock, up));
    }
  }

  lemma OneMoreHanded(ops: seq<Operation>, before: seq<Operation>, n: nat, handed: nat -> bool)
    requires 0 < n <= |ops|
    ensures before + Images(ops, [], Positions(n, handed)) ==
      before + Images(ops, [], Positions(n - 1, handed)) + if handed(n - 1) then [ops[n - 1]] else []
  {
    OneMoreImage(ops, Positions(n - 1, handed), n - 1);
  }

  lemma OneImage(ops: seq<Operation>, failed: seq<nat>, i: nat, rest: seq<nat>)
    requires i < |ops| && Within(rest, |ops|)
    ensures Within([i] + rest, |ops|)
    ensures Images(ops, failed, [i] + rest) == [if i in failed then Retried(ops[i]) else ops[i]] + Images(ops, failed, rest)
  {
  }

  lemma {:induction false} SecondPassByPosition(c: Companion, f: Flushing, failed: seq<nat>, i: nat, clock: Clock)
    requires i <= |c.pending|
    requires Within(failed, |c.pending|)
    requires forall j: nat | j in failed && j < |c.pending| :: !Unhandled(f.remaining, f.acknowledged, c.pending[j], clock(|c.pending| + j))
    ensures Unprocessed(c, f.remaining, f.acknowledged, i, clock) == Images(c.pending, failed, UntakenAt(c, f, i, clock))
    decreases |c.pending| - i
  {
    if i < |c.pending| {
      var rest := UntakenAt(c, f, i + 1, clock);
      SecondPassByPosition(c, f, failed, i + 1, clock);
      if Unhandled(f.remaining, f.acknowledged, c.pending[i], clock(|c.pending| + i)) {
        OneImage(c.pending, failed, i, rest);
        assert UntakenAt(c, f, i, clock) == [i] + rest;
      } else {
        assert UntakenAt(c, f, i, clock) == rest;
      }
    }
  }

  lemma {:induction false} UniqueByPosition(ops: seq<Operation>, failed: seq<nat>, at: seq<nat>)
    requires Within(at, |ops|)
    ensures UniqueOperations(Images(ops, failed, at)) == Images(ops, failed, FirstOfKeys(ops, at))
    decreases |at|
  {
    if at != [] {
      var front, last := at[..|at| - 1], at[|at| - 1];
      assert at == front + [last];
      UniqueByPosition(ops, failed, front);
      UniqueNext(ops, failed, front, last);
    }
  }

  lemma UniqueNext(ops: seq<Operation>, failed: seq<nat>, front: seq<nat>, last: nat)
    requires Within(front, |ops|) && last < |ops|
    requires UniqueOperations(Images(ops, failed, front)) == Images(ops, failed, FirstOfKeys(ops, front))
    ensures UniqueOperations(Images(ops, failed, front + [last])) == Images(ops, failed, FirstOfKeys(ops, front + [last]))
  {
    var first := FirstOfKeys(ops, front);
    var image := if last in failed then Retried(ops[last]) else ops[last];
    ImagesAppend(ops, failed, front, [last]);
    assert Images(ops, failed, [last]) == [image];
    KeysOfImages(ops, failed, first, ops[last].key);
    UniqueOfAppend(Images(ops, failed, front), image);
    assert (front + [last])[..|front|] == front;
    if !HasKey(ops, first, ops[last].key) {
      ImagesAppend(ops, failed, first, [last]);
    }
  }

  lemma UniqueOfAppend(ops: seq<Operation>, last: Operation)
    ensures UniqueOperations(ops + [last]) ==
      if last.key in Keys(UniqueOperations(ops)) then UniqueOperations(ops) else UniqueOperations(ops) + [last]
  {
    assert (ops + [last])[..|ops|] == ops;
  }

  lemma KeysOfImages(ops: seq<Operation>, failed: seq<nat>, at: seq<nat>, key: string)
    requires Within(at, |ops|)
    ensures key in Keys(Images(ops, failed, at)) <==> HasKey(ops, at, key)
  {
    var images := Images(ops, failed, at);
    if key in Keys(images) {
      var m :| 0 <= m < |images| && Keys(images)[m] == key;
      assert ops[at[m]].key == key;
    }
    if m :| 0 <= m < |at| && ops[at[m]].key == key {
      assert Keys(images)[m] == key;
    }
  }

  /** The positions describe the flush: the new queue holds the operations of KeptAt, those that
      failed with one more attempt, and the gateway has been handed those of HandedAt, in this order. */
  lemma FlushByPosition(c: Companion, gateway: Gateway, clock: Clock, up: nat -> bool)
    requires c.network != Offline
    ensures var (next, nextGateway) := Flush(c, gateway, clock, up);
      && Within(KeptAt(c, gateway, clock, up), |c.pending|)
      && next.pending == Images(c.pending, FailedAt(c, gateway, clock, up), KeptAt(c, gateway, clock, up))
      && gateway.deliveries <= nextGateway.deliveries
      && Added(gateway, nextGateway) == Images(c.pending, [], HandedAt(c, gateway, clock, up))
  {
    var n := |c.pending|;
    var f := FlushFirst(c, gateway, n, clock, up);
    var failed, untaken := FailedAt(c, gateway, clock, up), UntakenAt(c, f, 0, clock);
    RemainingByPosition(c, gateway, clock, up, n);
    DeliveriesByPosition(c, gateway, clock, up, n);
    forall j | j in failed ensures !Unhandled(f.remaining, f.acknowledged, c.pending[j], clock(n + j)) {
      FailedIsHandled(c, f, failed, j, clock(n + j));
    }
    SecondPassByPosition(c, f, failed, 0, clock);
    ImagesAppend(c.pending, failed, failed, untaken);
    UniqueByPosition(c.pending, failed, failed + untaken);
  }

  lemma FailedIsHandled(c: Companion, f: Flushing, failed: seq<nat>, j: nat, now: int)
    requires Within(failed, |c.pending|) && f.remaining == Images(c.pending, failed, failed) && j in failed
    ensures !Unhandled(f.remaining, f.acknowledged, c.pending[j], now)
  {
    var m :| 0 <= m < |failed| && failed[m] == j;
    assert f.remaining[m] in f.remaining && f.remaining[m].operationId == c.pending[j].operationId;
  }

  // ---------- which positions are kept ----------

  ghost predicate Increasing(at: seq<nat>) {
    forall m, n | 0 <= m < n < |at| :: at[m] < at[n]
  }

  lemma {:induction false} PositionsIncrease(n: nat, p: nat -> bool)
    ensures Increasing(Positions(n, p))
  {
    if n > 0 {
      PositionsIncrease(n - 1, p);
    }
  }

  lemma {:induction false} UntakenIncrease(c: Companion, f: Flushing, i: nat, clock: Clock)
    requires i <= |c.pending|
    ensures Increasing(UntakenAt(c, f, i, clock)) && forall m | 0 <= m < |UntakenAt(c, f, i, clock)| :: i <= UntakenAt(c, f, i, clock)[m]
    decreases |c.pending| - i
  {
    if i < |c.pending| {
      UntakenIncrease(c, f, i + 1, clock);
    }
  }

  lemma HasKeyAppend(ops: seq<Operation>, at: seq<nat>, more: seq<nat>, key: string)
    requires Within(at, |ops|) && Within(more, |ops|)
    ensures HasKey(ops, at + more, key) <==> HasKey(ops, at, key) || HasKey(ops, more, key)
  {
    if m :| 0 <= m < |at| && ops[at[m]].key == key {
      assert (at + more)[m] == at[m];
    }
    if m :| 0 <= m < |more| && ops[more[m]].key == key {
      assert (at + more)[|at| + m] == more[m];
    }
  }

  lemma {:induction false} SameKeys(ops: seq<Operation>, at: seq<nat>, key: string)
    requires Within(at, |ops|)
    ensures HasKey(ops, FirstOfKeys(ops, at), key) <==> HasKey(ops, at, key)
    decreases |at|
  {
    if at != [] {
      var front, last := at[..|at| - 1], at[|at| - 1];
      assert at == front + [last] && [last][0] == last;
      SameKeys(ops, front, key);
      HasKeyAppend(ops, front, [last], key);
      HasKeyAppend(ops, FirstOfKeys(ops, front), [last], key);
      assert HasKey(ops, [last], key) <==> ops[last].key == key;
    }
  }

  lemma KeyMembers(ops: seq<Operation>, at: seq<nat>, key: string)
    requires Within(at, |ops|)
    ensures HasKey(ops, at, key) <==> exists i: nat | i in at && i < |ops| :: ops[i].key == key
  {
    if i: nat :| i in at && i < |ops| && ops[i].key == key {
      var m :| 0 <= m < |at| && at[m] == i;
    }
    if m :| 0 <= m < |at| && ops[at[m]].key == key {
      assert at[m] in at;
    }
  }

  /** No smaller position in the list has the same key. */
  ghost predicate NoEarlier(ops: seq<Operation>, at: seq<nat>, j: nat)
    requires j < |ops|
  {
    forall i: nat | i in at && i < j && i < |ops| :: ops[i].key != ops[j].key
  }

  lemma NoEarlierAppend(ops: seq<Operation>, front: seq<nat>, last: nat, j: nat)
    requires Increasing(front + [last]) && Within(front, |ops|) && last < |ops| && j < |ops|
    ensures j in front ==> (NoEarlier(ops, front + [last], j) <==> NoEarlier(ops, front, j)) && j < last
    ensures j == last ==> (NoEarlier(ops, front + [last], j) <==> !HasKey(ops, front, ops[j].key)) && j !in front
  {
    forall i: nat | i in front ensures i < last {
      var m :| 0 <= m < |front| && front[m] == i;
      assert (front + [last])[m] < (front + [last])[|front|];
    }
    if m :| 0 <= m < |front| && ops[front[m]].key == ops[j].key {
      assert front[m] in front;
    }
    if i: nat :| i in front && i < j && i < |ops| && ops[i].key == ops[j].key {
      var m :| 0 <= m < |front| && front[m] == i;
    }
  }

  lemma FrontIncreases(front: seq<nat>, last: nat)
    requires Increasing(front + [last])
    ensures Increasing(front)
  {
    forall m, n | 0 <= m < n < |front| ensures front[m] < front[n] {
      assert (front + [last])[m] < (front + [last])[n];
    }
  }

  lemma {:induction false} FirstsOfOne(ops: seq<Operation>, at: seq<nat>, j: nat)
    requires Within(at, |ops|) && Increasing(at) && j < |ops|
    ensures j in FirstOfKeys(ops, at) <==> j in at && NoEarlier(ops, at, j)
    decreases |at|
  {
    if at != [] {
      var front, last := at[..|at| - 1], at[|at| - 1];
      assert at == front + [last];
      FrontIncreases(front, last);
      FirstsOfOne(ops, front, j);
      SameKeys(ops, front, ops[last].key);
      NoEarlierAppend(ops, front, last, j);
    }
  }

  /** The first of each key of one list, and then those of another whose keys are new. */
  lemma {:induction false} FirstsOfTwo(ops: seq<Operation>, a: seq<nat>, b: seq<nat>, j: nat)
    requires Within(a, |ops|) && Within(b, |ops|) && Increasing(a) && Increasing(b) && j < |ops|
    ensures j in FirstOfKeys(ops, a + b) <==>
      (j in a && NoEarlier(ops, a, j)) || (j in b && !HasKey(ops, a, ops[j].key) && NoEarlier(ops, b, j))
    decreases |b|
  {
    if b == [] {
      assert a + b == a;
      FirstsOfOne(ops, a, j);
    } else {
      var front, last := b[..|b| - 1], b[|b| - 1];
      assert b == front + [last] && (a + b)[..|a + b| - 1] == a + front;
      FrontIncreases(front, last);
      FirstsOfTwo(ops, a, front, j);
      SameKeys(ops, a + front, ops[last].key);
      HasKeyAppend(ops, a, front, ops[last].key);
      NoEarlierAppend(ops, front, last, j);
    }
  }
}
