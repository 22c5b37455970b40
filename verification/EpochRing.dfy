/** The epochs this process has joined: a ring that is a queue of the last eight. */
module EpochRing {

  /** joinedMemory. */
  const MEMORY := 8

  // ── the queue the ring stands for ──

  predicate Distinct(s: seq<nat>) {
    forall i, j :: 0 <= i < j < |s| ==> s[i] != s[j]
  }

  /** Oldest first: an epoch not in it goes in at the end, the oldest out once it is full. */
  function Pushed(fifo: seq<nat>, epoch: nat): seq<nat> {
    if epoch in fifo then fifo
    else if |fifo| < MEMORY then fifo + [epoch]
    else fifo[1..] + [epoch]
  }

  function PushedAll(fifo: seq<nat>, epochs: seq<nat>): seq<nat>
    decreases |epochs|
  {
    if epochs == [] then fifo else PushedAll(Pushed(fifo, epochs[0]), epochs[1..])
  }

  /** How many of these were new when they came. */
  function News(fifo: seq<nat>, epochs: seq<nat>): nat
    decreases |epochs|
  {
    if epochs == [] then 0
    else (if epochs[0] in fifo then 0 else 1) + News(Pushed(fifo, epochs[0]), epochs[1..])
  }

  lemma PushedKeeps(fifo: seq<nat>, epoch: nat)
    requires Distinct(fifo) && |fifo| <= MEMORY
    ensures var r := Pushed(fifo, epoch); Distinct(r) && |r| <= MEMORY && epoch in r && |fifo| <= |r|
  {
    var r := Pushed(fifo, epoch);
    assert r[|r| - 1] in r;
  }

  /** An epoch stays remembered until as many new ones have come as it had room and seniority
      for, and not one longer: eight for the newest of a full ring. */
  lemma {:induction false} RememberedUntil(fifo: seq<nat>, epochs: seq<nat>, i: nat)
    requires Distinct(fifo) && |fifo| <= MEMORY && i < |fifo| && fifo[i] !in epochs
    ensures fifo[i] in PushedAll(fifo, epochs) <==> News(fifo, epochs) <= i + (MEMORY - |fifo|)
    decreases |epochs|
  {
    if epochs != [] {
      var e, rest := fifo[i], epochs[1..];
      var next := Pushed(fifo, epochs[0]);
      PushedKeeps(fifo, epochs[0]);
      assert epochs[0] in epochs && forall x :: x in rest ==> x in epochs;
      if next == fifo || |next| > |fifo| || i > 0 {
        var j := if |next| == |fifo| && epochs[0] !in fifo then i - 1 else i;
        assert next[j] == e;
        RememberedUntil(next, rest, j);
      } else {
        assert e !in next;
        NotRemembered(next, rest, e);
      }
    }
  }

  /** Out of the ring, and not remembered again, it stays out. */
  lemma {:induction false} NotRemembered(fifo: seq<nat>, epochs: seq<nat>, epoch: nat)
    requires epoch !in fifo && epoch !in epochs
    ensures epoch !in PushedAll(fifo, epochs)
    decreases |epochs|
  {
    if epochs != [] {
      assert epochs[0] in epochs && forall x :: x in epochs[1..] ==> x in epochs;
      NotRemembered(Pushed(fifo, epochs[0]), epochs[1..], epoch);
    }
  }

  /** What the service answers about an epoch. */
  datatype Standing = Unavailable | Joinable | Held | Closed
  datatype Joined = Accepted | Conflict | Failed

  class Driver {
    /** The ring: `next` is the slot the next epoch overwrites once it is full. */
    var joined: seq<nat>
    var next: nat

    /** Every epoch JoinEpoch was called for. */
    ghost var calls: seq<nat>

    ghost predicate Valid()
      reads this
    {
      |joined| <= MEMORY && Distinct(joined) && next < MEMORY && (|joined| < MEMORY ==> next == 0)
    }

    /** Oldest first. */
    ghost function Fifo(): seq<nat>
      requires Valid()
      reads this
    {
      if |joined| < MEMORY then joined else joined[next..] + joined[..next]
    }

    constructor ()
      ensures Valid() && Fifo() == [] && calls == []
    {
      joined, next, calls := [], 0, [];
    }

    method HasJoined(epoch: nat) returns (yes: bool)
      requires Valid()
      ensures yes <==> epoch in Fifo()
    {
      var k := 0;
      while k < |joined|
        invariant 0 <= k <= |joined| && forall j :: 0 <= j < k ==> joined[j] != epoch
      {
        if joined[k] == epoch {
          InFifo(k);
          return true;
        }
        k := k + 1;
      }
      yes := false;
    }

    lemma InFifo(k: nat)
      requires Valid() && k < |joined|
      ensures joined[k] in Fifo()
    {
      if |joined| == MEMORY {
        var j := if k >= next then k - next else k + MEMORY - next;
        assert Fifo()[j] == joined[k];
      }
    }

    lemma FifoDistinct()
      requires Valid()
      ensures Distinct(Fifo()) && |Fifo()| <= MEMORY
    {
    }

    method Remember(epoch: nat)
      requires Valid()
      modifies this`joined, this`next
      ensures Valid() && Fifo() == Pushed(old(Fifo()), epoch)
      ensures Distinct(Fifo()) && |Fifo()| <= MEMORY && epoch in Fifo()
    {
      FifoDistinct();
      PushedKeeps(Fifo(), epoch);
      var known := HasJoined(epoch);
      if known {
        return;
      }
      ghost var was := Fifo();
      NotInRing(epoch);
      if |joined| < MEMORY {
        joined := joined + [epoch];
        assert |joined| == MEMORY ==> joined[0..] + joined[..0] == joined;
        return;
      }
      ghost var ring, at := joined, next;
      joined := joined[next := epoch];
      next := (next + 1) % MEMORY;
      RingTurns(ring, at, epoch, joined, next);
    }

    lemma NotInRing(epoch: nat)
      requires Valid() && epoch !in Fifo()
      ensures forall j :: 0 <= j < |joined| ==> joined[j] != epoch
    {
      forall j | 0 <= j < |joined|
        ensures joined[j] != epoch
      {
        InFifo(j);
      }
    }

    /** joinIfNeeded: whether JoinEpoch was called. */
    method JoinIfNeeded(epoch: nat, standing: Standing, answer: Joined) returns (asked: bool)
      requires Valid()
      modifies this`joined, this`next, this`calls
      ensures Valid()
      ensures asked <==> epoch !in old(Fifo()) && standing.Joinable?
      ensures calls == if asked then old(calls) + [epoch] else old(calls)
      ensures Fifo() == if epoch in old(Fifo()) || standing.Held? || (asked && !answer.Failed?)
                        then Pushed(old(Fifo()), epoch) else old(Fifo())
    {
      asked := false;
      var known := HasJoined(epoch);
      if known || standing.Unavailable? {
        return;
      }
      if !standing.Joinable? {
        if standing.Held? {
          Remember(epoch);
        }
        return;
      }
      asked := true;
      calls := calls + [epoch];
      if !answer.Failed? {
        Remember(epoch);
      }
    }
  }

  /** One slot overwritten and the start moved on: the oldest out in front, the new one in behind. */
  lemma RingTurns(ring: seq<nat>, at: nat, epoch: nat, turned: seq<nat>, next: nat)
    requires |ring| == MEMORY && at < MEMORY && turned == ring[at := epoch] && next == (at + 1) % MEMORY
    ensures turned[next..] + turned[..next] == (ring[at..] + ring[..at])[1..] + [epoch]
  {
    if at == MEMORY - 1 {
      assert turned == ring[..at] + [epoch] && turned[..0] == [];
      assert ring[at..] == [ring[at]];
    } else {
      assert turned[next..] == ring[next..] && turned[..next] == ring[..at] + [epoch];
      assert ring[at..] == [ring[at]] + ring[next..];
    }
  }

  // ── over a whole run ──

  datatype Tick = Tick(epoch: nat, standing: Standing, answer: Joined)

  predicate Settles(fifo: seq<nat>, t: Tick) {
    t.epoch in fifo || t.standing.Held? || (t.standing.Joinable? && !t.answer.Failed?)
  }

  function After(fifo: seq<nat>, t: Tick): seq<nat> {
    if Settles(fifo, t) then Pushed(fifo, t.epoch) else fifo
  }

  predicate Asks(fifo: seq<nat>, t: Tick) {
    t.epoch !in fifo && t.standing.Joinable?
  }

  function AfterAll(fifo: seq<nat>, ticks: seq<Tick>): seq<nat>
    decreases |ticks|
  {
    if ticks == [] then fifo else AfterAll(After(fifo, ticks[0]), ticks[1..])
  }

  /** The epochs a run remembered that were new to it. */
  function NewOnes(fifo: seq<nat>, ticks: seq<Tick>): nat
    decreases |ticks|
  {
    if ticks == [] then 0
    else
      var first := if Settles(fifo, ticks[0]) && ticks[0].epoch !in fifo then 1 else 0;
      first + NewOnes(After(fifo, ticks[0]), ticks[1..])
  }

  /** An epoch just joined is not joined again, whatever the service answers, until eight other
      epochs have been remembered since. */
  lemma {:induction false} NotJoinedAgain(fifo: seq<nat>, ticks: seq<Tick>, i: nat, epoch: nat)
    requires Distinct(fifo) && |fifo| <= MEMORY && i < |fifo| && fifo[i] == epoch
    requires NewOnes(fifo, ticks) <= i + (MEMORY - |fifo|)
    ensures epoch in AfterAll(fifo, ticks)
    ensures forall t: Tick :: t.epoch == epoch ==> !Asks(AfterAll(fifo, ticks), t)
    decreases |ticks|
  {
    if ticks != [] {
      var next := After(fifo, ticks[0]);
      PushedKeeps(fifo, ticks[0].epoch);
      var j := if next != fifo && |next| == |fifo| then i - 1 else i;
      assert next[j] == epoch;
      NotJoinedAgain(next, ticks[1..], j, epoch);
    }
  }

  /** The driver over a run of ticks is the queue over that run. */
  method Run(d: Driver, ticks: seq<Tick>)
    requires d.Valid()
    modifies d
    ensures d.Valid() && d.Fifo() == AfterAll(old(d.Fifo()), ticks)
  {
    var k := 0;
    assert ticks[0..] == ticks;
    while k < |ticks|
      invariant 0 <= k <= |ticks| && d.Valid()
      invariant AfterAll(d.Fifo(), ticks[k..]) == AfterAll(old(d.Fifo()), ticks)
    {
      assert ticks[k..][0] == ticks[k] && ticks[k..][1..] == ticks[k + 1..];
      var _ := d.JoinIfNeeded(ticks[k].epoch, ticks[k].standing, ticks[k].answer);
      k := k + 1;
    }
    assert ticks[|ticks|..] == [];
  }
}
