/** The binary semaphore `connect_to_server` that records whether the application may (re)connect
    to the TCP server: it is created with limit 1 and count 0, given once before the first
    connection, given again when a connection attempt fails or the server disconnects, and taken
    before connecting. */
module ConnectionGate {
  import opened KeepaliveConfig

  datatype Option<T> = None | Some(value: T)

  /** Giving a binary semaphore that is already full leaves it full. */
  function Give(count: nat): (c: nat)
    ensures 1 <= c
    ensures count <= SemaphoreLimit ==> c == SemaphoreLimit
    ensures count < SemaphoreLimit ==> c == count + 1
  {
    if count < SemaphoreLimit then count + 1 else count
  }

  /** Taking with no timeout proceeds when the count is positive and otherwise waits; `None`
      stands for a task that waits for ever because nothing will give the semaphore again. */
  function Take(count: nat): (c: Option<nat>)
    ensures c.None? <==> count == 0
    ensures c.Some? ==> c.value + 1 == count
  {
    if count == 0 then None else Some(count - 1)
  }

  datatype GateOp = Set | Get

  /** Applies a sequence of operations from `count`; `None` once a take would wait. */
  function RunGate(count: nat, ops: seq<GateOp>): Option<nat>
    decreases |ops|
  {
    if ops == [] then Some(count)
    else if ops[0] == Set then RunGate(Give(count), ops[1..])
    else
      match Take(count)
      case None => None
      case Some(c) => RunGate(c, ops[1..])
  }

  /** Starting within the limit, the count never exceeds the limit of 1. */
  lemma {:induction false} GateStaysBinary(count: nat, ops: seq<GateOp>)
    requires count <= SemaphoreLimit
    ensures RunGate(count, ops).Some? ==> RunGate(count, ops).value <= SemaphoreLimit
    decreases |ops|
  {
    if ops != [] {
      if ops[0] == Set {
        GateStaysBinary(Give(count), ops[1..]);
      } else if count != 0 {
        GateStaysBinary(count - 1, ops[1..]);
      }
    }
  }

  /** n rounds of a give followed by a take. The application makes one such round, the give
      at start-up and the take before connecting; its later gives (after a failed connection or
      a disconnection) are never followed by a take. */
  function Cycles(n: nat): (ops: seq<GateOp>)
    ensures |ops| == 2 * n
    ensures forall k :: 0 <= k < |ops| ==> ops[k] == (if k % 2 == 0 then Set else Get)
  {
    if n == 0 then [] else [Set, Get] + Cycles(n - 1)
  }

  /** From the initial count, any number of give/take cycles never waits and ends empty. */
  lemma {:induction false} CyclesNeverWait(n: nat)
    ensures RunGate(InitCountForSemaphore, Cycles(n)) == Some(InitCountForSemaphore)
  {
    if n > 0 {
      CyclesNeverWait(n - 1);
      var ops := Cycles(n);
      assert ops[1..][1..] == Cycles(n - 1);
    }
  }

  /** Two takes with only one give between them: the second one waits. */
  lemma TakeWithoutGiveWaits(count: nat)
    requires count <= SemaphoreLimit
    ensures RunGate(count, [Set, Get, Get]) == None
  {
    assert [Set, Get, Get][1..] == [Get, Get];
    assert [Get, Get][1..] == [Get];
  }

  /** Several gives in a row count as one: a binary semaphore does not accumulate, so two
      takes after them still wait on the second. */
  lemma {:induction false} GivesThenTakes(count: nat, n: nat)
    requires count <= SemaphoreLimit && n >= 1
    ensures RunGate(count, seq(n, _ => Set) + [Get, Get]) == None
    decreases n
  {
    var ops := seq(n, _ => Set) + [Get, Get];
    assert ops[0] == Set;
    if n == 1 {
      assert ops[1..] == [Get, Get];
      assert [Get, Get][1..] == [Get];
    } else {
      assert ops[1..] == seq(n - 1, _ => Set) + [Get, Get];
      GivesThenTakes(Give(count), n - 1);
    }
  }

  /** From a count within the limit, n gives leave the count at the limit (or as it was when
      n is 0). */
  lemma {:induction false} GivesSaturate(count: nat, n: nat)
    requires count <= SemaphoreLimit
    ensures RunGate(count, seq(n, _ => Set)) == Some(if n == 0 then count else SemaphoreLimit)
    decreases n
  {
    if n > 0 {
      assert seq(n, _ => Set)[1..] == seq(n - 1, _ => Set);
      GivesSaturate(Give(count), n - 1);
    }
  }

  /** The operations the application performs on the semaphore: the give at start-up, the take
      before connecting, then only gives (after a failed connection or a disconnection). The
      take proceeds, and afterwards the count is 1 as soon as anything has been given. */
  lemma ApplicationGateRun(n: nat)
    ensures RunGate(InitCountForSemaphore, [Set, Get] + seq(n, _ => Set))
            == Some(if n == 0 then 0 else SemaphoreLimit)
  {
    var ops := [Set, Get] + seq(n, _ => Set);
    assert ops[1..][1..] == seq(n, _ => Set);
    GivesSaturate(0, n);
  }
}
