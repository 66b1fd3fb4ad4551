/**
 * The counting gate of src/consumer-producer-event.ts
 * (createConsumerProducerEventObject): a count `productCnt` of banked units
 * and the FIFO queue `onEmptyConsume` of consumers waiting for one.
 *
 * Every `consume` call is a waiter with a fresh id; `outcome` holds the value
 * each finished call resolved with, `timed` the waiters that were given a
 * timeout. The ghost counters `produced` and `immediate` and the hand-off log
 * `handed` exist only to state the accounting and ordering facts.
 */
module ConsumerProducer {
  import opened Wrappers
  import opened NodeContainers

  type WaiterId = nat

  datatype GateState = GateState(
    productCnt: int,
    queue: seq<WaiterId>,
    outcome: map<WaiterId, bool>,
    timed: set<WaiterId>,
    nextId: WaiterId,
    initial: int,
    produced: nat,
    immediate: nat,
    handed: seq<WaiterId>)

  /** A fresh gate holding `initialProducts` units and no waiter. */
  function Init(initialProducts: int): GateState
  {
    GateState(initialProducts, [], map[], {}, 0, initialProducts, 0, 0, [])
  }

  ghost predicate Increasing(s: seq<WaiterId>)
  {
    forall i, j :: 0 <= i < j < |s| ==> s[i] < s[j]
  }

  /** `consume(ms)`: takes a banked unit when there is one, otherwise queues the caller at the tail. */
  function ConsumeStep(s: GateState, withTimeout: bool): (GateState, WaiterId)
  {
    var w := s.nextId;
    if s.productCnt > 0 then
      (s.(productCnt := s.productCnt - 1, outcome := s.outcome[w := true],
          nextId := w + 1, immediate := s.immediate + 1), w)
    else
      (s.(queue := s.queue + [w],
          timed := if withTimeout then s.timed + {w} else s.timed,
          nextId := w + 1), w)
  }

  /** `produce()`: banks a unit when nobody waits, otherwise hands it to the front waiter. */
  function ProduceStep(s: GateState): GateState
  {
    if s.queue == [] then
      s.(productCnt := s.productCnt + 1, produced := s.produced + 1)
    else
      var w := s.queue[0];
      s.(queue := s.queue[1..], outcome := s.outcome[w := true],
         produced := s.produced + 1, handed := s.handed + [w])
  }

  /** A queued timed waiter whose timer wins leaves the queue and resolves false. */
  function TimeoutStep(s: GateState, w: WaiterId): GateState
    requires w in s.queue && w in s.timed
  {
    var i := IndexOf(s.queue, w);
    s.(queue := s.queue[..i] + s.queue[i + 1..], outcome := s.outcome[w := false])
  }

  datatype Event = Consume(withTimeout: bool) | Produce | Timeout(waiter: WaiterId)

  /** One operation; a timeout of a waiter that is not queued with a timer does not happen. */
  function Step(s: GateState, e: Event): GateState
  {
    match e
    case Consume(t) => ConsumeStep(s, t).0
    case Produce => ProduceStep(s)
    case Timeout(w) => if w in s.queue && w in s.timed then TimeoutStep(s, w) else s
  }

  function Run(s: GateState, evs: seq<Event>): GateState
    decreases |evs|
  {
    if evs == [] then s else Run(Step(s, evs[0]), evs[1..])
  }

  /** The number of `produce` calls in a run. */
  function CountProduces(evs: seq<Event>): nat
    decreases |evs|
  {
    if evs == [] then 0 else (if evs[0].Produce? then 1 else 0) + CountProduces(evs[1..])
  }

  /**
   * The invariant of every reachable state: no unit is banked while anyone
   * waits; the queue is in arrival order; queued waiters have no result;
   * an untimed consumer only ever gets true; units are conserved; and every
   * hand-off went, in arrival order, to a waiter that arrived before all
   * those still queued.
   */
  ghost predicate Inv(s: GateState)
  {
    (s.productCnt > 0 ==> s.queue == []) &&
    Increasing(s.queue) &&
    (forall i :: 0 <= i < |s.queue| ==> s.queue[i] < s.nextId && s.queue[i] !in s.outcome) &&
    (forall w :: w in s.outcome ==> w < s.nextId) &&
    (forall w :: w in s.timed ==> w < s.nextId) &&
    (forall w :: w in s.outcome && w !in s.timed ==> s.outcome[w]) &&
    s.initial + s.produced == s.immediate + |s.handed| + s.productCnt &&
    Increasing(s.handed) &&
    (s.queue != [] ==> forall i :: 0 <= i < |s.handed| ==> s.handed[i] < s.queue[0]) &&
    (forall i :: 0 <= i < |s.handed| ==> s.handed[i] in s.outcome && s.outcome[s.handed[i]])
  }

  /**
   * Removing position `i` of an increasing sequence keeps it increasing,
   * keeps every other element and leaves no copy of the removed one.
   */
  lemma RemoveAt(q: seq<WaiterId>, i: nat)
    requires Increasing(q) && i < |q|
    ensures var r := q[..i] + q[i + 1..];
      Increasing(r) && |r| == |q| - 1 &&
      (forall j :: 0 <= j < |r| ==> r[j] == q[if j < i then j else j + 1] && r[j] != q[i]) &&
      (r != [] ==> q[0] <= r[0])
  {
    var r := q[..i] + q[i + 1..];
    forall a, b | 0 <= a < b < |r|
      ensures r[a] < r[b]
    {
      var a' := if a < i then a else a + 1;
      var b' := if b < i then b else b + 1;
      assert r[a] == q[a'] && r[b] == q[b'];
    }
    forall j | 0 <= j < |r|
      ensures r[j] == q[if j < i then j else j + 1] && r[j] != q[i]
    {
      if j < i {
        assert r[j] == q[j] < q[i];
      } else {
        assert r[j] == q[j + 1] > q[i];
      }
    }
    if r != [] && 0 < i {
      assert r[0] == q[0];
    } else if r != [] {
      assert r[0] == q[1] > q[0];
    }
  }

  lemma InitInv(initialProducts: int)
    ensures Inv(Init(initialProducts))
  {
  }

  lemma ConsumeInv(s: GateState, withTimeout: bool)
    requires Inv(s)
    ensures Inv(ConsumeStep(s, withTimeout).0)
  {
  }

  lemma ProduceInv(s: GateState)
    requires Inv(s)
    ensures Inv(ProduceStep(s))
  {
    if s.queue != [] {
      var t := ProduceStep(s);
      var w := s.queue[0];
      assert forall j :: 0 <= j < |t.queue| ==> t.queue[j] == s.queue[j + 1];
      assert forall i :: 0 <= i < |t.handed| ==> t.handed[i] in s.handed || t.handed[i] == w;
    }
  }

  lemma TimeoutInv(s: GateState, w: WaiterId)
    requires Inv(s) && w in s.queue && w in s.timed
    ensures Inv(TimeoutStep(s, w))
  {
    TimeoutQueueInv(s, w);
    var t := TimeoutStep(s, w);
    forall k | 0 <= k < |t.handed|
      ensures t.handed[k] in t.outcome && t.outcome[t.handed[k]]
    {
      assert t.handed[k] in s.outcome && t.handed[k] != w;
    }
  }

  /** The queue half of TimeoutInv. */
  lemma TimeoutQueueInv(s: GateState, w: WaiterId)
    requires Inv(s) && w in s.queue && w in s.timed
    ensures var t := TimeoutStep(s, w);
      Increasing(t.queue) &&
      (forall i :: 0 <= i < |t.queue| ==> t.queue[i] < t.nextId && t.queue[i] !in t.outcome) &&
      (t.queue != [] ==> forall i :: 0 <= i < |t.handed| ==> t.handed[i] < t.queue[0])
  {
    RemoveAt(s.queue, IndexOf(s.queue, w));
  }

  lemma StepInv(s: GateState, e: Event)
    requires Inv(s)
    ensures Inv(Step(s, e))
  {
    match e
    case Consume(t) => ConsumeInv(s, t);
    case Produce => ProduceInv(s);
    case Timeout(w) => if w in s.queue && w in s.timed { TimeoutInv(s, w); }
  }

  /** Every reachable state satisfies the invariant. */
  lemma {:induction false} RunInv(s: GateState, evs: seq<Event>)
    requires Inv(s)
    ensures Inv(Run(s, evs))
    decreases |evs|
  {
    if evs != [] {
      StepInv(s, evs[0]);
      RunInv(Step(s, evs[0]), evs[1..]);
    }
  }

  /** `consume` with a banked unit takes it at once and leaves the queue alone. */
  lemma ConsumeImmediate(s: GateState, withTimeout: bool)
    requires s.productCnt > 0
    ensures var (t, w) := ConsumeStep(s, withTimeout);
      t.productCnt == s.productCnt - 1 && t.queue == s.queue &&
      w in t.outcome && t.outcome[w]
  {
  }

  /** `consume` without a banked unit queues exactly one fresh waiter at the tail. */
  lemma ConsumeEnqueues(s: GateState, withTimeout: bool)
    requires Inv(s) && s.productCnt <= 0
    ensures var (t, w) := ConsumeStep(s, withTimeout);
      t.productCnt == s.productCnt && t.queue == s.queue + [w] &&
      w !in s.queue && w !in t.outcome && (w in t.timed <==> withTimeout)
  {
  }

  /**
   * `produce` creates exactly one banked unit or resolves exactly one waiter,
   * never both: with nobody queued it banks; otherwise the earliest queued
   * waiter resolves true and the count stays.
   */
  lemma ProduceBanksOrHandsOff(s: GateState)
    requires Inv(s)
    ensures var t := ProduceStep(s);
      (s.queue == [] ==> t.productCnt == s.productCnt + 1 && t.queue == [] && t.outcome == s.outcome) &&
      (s.queue != [] ==>
        t.productCnt == s.productCnt && t.queue == s.queue[1..] &&
        s.queue[0] !in s.outcome && t.outcome == s.outcome[s.queue[0] := true])
  {
  }

  /** A timeout removes exactly its own waiter, which resolves false. */
  lemma TimeoutRemovesOnlyItself(s: GateState, w: WaiterId)
    requires Inv(s) && w in s.queue && w in s.timed
    ensures var t := TimeoutStep(s, w);
      t.productCnt == s.productCnt && t.outcome == s.outcome[w := false] &&
      w !in t.queue && |t.queue| == |s.queue| - 1 &&
      (forall v :: v in s.queue && v != w ==> v in t.queue)
  {
    var i := IndexOf(s.queue, w);
    var t := TimeoutStep(s, w);
    forall v | v in s.queue && v != w
      ensures v in t.queue
    {
      var k := IndexOf(s.queue, v);
      if k < i {
        assert t.queue[k] == v;
      } else {
        assert t.queue[k - 1] == v;
      }
    }
    forall k | 0 <= k < |t.queue|
      ensures t.queue[k] != w
    {
      if k < i {
        assert t.queue[k] == s.queue[k] < s.queue[i];
      } else {
        assert t.queue[k] == s.queue[k + 1] > s.queue[i];
      }
    }
  }

  lemma {:induction false} ProducedCounted(s: GateState, evs: seq<Event>)
    ensures Run(s, evs).produced == s.produced + CountProduces(evs)
    ensures Run(s, evs).initial == s.initial
    decreases |evs|
  {
    if evs != [] {
      ProducedCounted(Step(s, evs[0]), evs[1..]);
    }
  }

  /** The consume calls that have resolved with true. */
  ghost function Won(s: GateState): set<WaiterId>
  {
    set w | w in s.outcome && s.outcome[w]
  }

  /** Every immediate consume and every hand-off is one consume call resolved true, and there are no others. */
  ghost predicate Tally(s: GateState)
  {
    |Won(s)| == s.immediate + |s.handed|
  }

  /** Resolving a waiter that has no result yet with `r` adds it to Won iff `r` is true. */
  lemma WonResolve(s: GateState, t: GateState, w: WaiterId, r: bool)
    requires w !in s.outcome && t.outcome == s.outcome[w := r]
    ensures Won(t) == (if r then Won(s) + {w} else Won(s)) && w !in Won(s)
  {
  }

  lemma StepTally(s: GateState, e: Event)
    requires Inv(s) && Tally(s)
    ensures Tally(Step(s, e))
  {
    var t := Step(s, e);
    match e
    case Consume(b) =>
      if s.productCnt > 0 {
        assert s.nextId !in s.outcome;
        WonResolve(s, t, s.nextId, true);
      } else {
        assert t.outcome == s.outcome;
      }
    case Produce =>
      if s.queue != [] {
        assert s.queue[0] !in s.outcome;
        WonResolve(s, t, s.queue[0], true);
      }
    case Timeout(w) =>
      if w in s.queue && w in s.timed {
        TimeoutTally(s, w);
      }
  }

  lemma TimeoutTally(s: GateState, w: WaiterId)
    requires Inv(s) && Tally(s) && w in s.queue && w in s.timed
    ensures Tally(TimeoutStep(s, w))
  {
    var i := IndexOf(s.queue, w);
    assert s.queue[i] !in s.outcome;
    WonResolve(s, TimeoutStep(s, w), w, false);
  }

  lemma {:induction false} RunTally(s: GateState, evs: seq<Event>)
    requires Inv(s) && Tally(s)
    ensures Tally(Run(s, evs))
    decreases |evs|
  {
    if evs != [] {
      StepTally(s, evs[0]);
      StepInv(s, evs[0]);
      RunTally(Step(s, evs[0]), evs[1..]);
    }
  }

  /**
   * Conservation of units: the initial units plus the `produce` calls equal
   * the consume calls that resolved true plus what is still banked; those
   * calls are exactly the immediate consumes and the hand-offs.
   */
  lemma Conservation(initialProducts: int, evs: seq<Event>)
    ensures var t := Run(Init(initialProducts), evs);
      initialProducts + CountProduces(evs) == |Won(t)| + t.productCnt &&
      |Won(t)| == t.immediate + |t.handed|
  {
    InitInv(initialProducts);
    assert Won(Init(initialProducts)) == {};
    RunInv(Init(initialProducts), evs);
    RunTally(Init(initialProducts), evs);
    ProducedCounted(Init(initialProducts), evs);
  }

  /**
   * FIFO hand-off: waiters, whose ids follow their arrival order, are handed
   * units in that order, and never ahead of a waiter still queued.
   */
  lemma FifoHandOff(initialProducts: int, evs: seq<Event>)
    ensures var t := Run(Init(initialProducts), evs);
      (forall i, j :: 0 <= i < j < |t.handed| ==> t.handed[i] < t.handed[j]) &&
      (forall i, j :: 0 <= i < |t.handed| && 0 <= j < |t.queue| ==> t.handed[i] < t.queue[j]) &&
      (forall i :: 0 <= i < |t.handed| ==> t.handed[i] in t.outcome && t.outcome[t.handed[i]])
  {
    InitInv(initialProducts);
    RunInv(Init(initialProducts), evs);
    var t := Run(Init(initialProducts), evs);
    forall i, j | 0 <= i < |t.handed| && 0 <= j < |t.queue|
      ensures t.handed[i] < t.queue[j]
    {
      assert t.handed[i] < t.queue[0];
      if j > 0 { assert t.queue[0] < t.queue[j]; }
    }
  }

  /** Running two traces one after the other is running their concatenation. */
  lemma {:induction false} RunAppend(s: GateState, a: seq<Event>, b: seq<Event>)
    ensures Run(s, a + b) == Run(Run(s, a), b)
    decreases |a|
  {
    if a != [] {
      assert (a + b)[0] == a[0] && (a + b)[1..] == a[1..] + b;
      RunAppend(Step(s, a[0]), a[1..], b);
    } else {
      assert a + b == b;
    }
  }

  lemma TimedOutConsume()
    ensures Run(Init(0), [Consume(true), Timeout(0)]) ==
      GateState(0, [], map[0 := false], {0}, 1, 0, 0, 0, [])
  {
    var s1 := Step(Init(0), Consume(true));
    assert s1 == GateState(0, [0], map[], {0}, 1, 0, 0, 0, []);
    assert Run(s1, [Timeout(0)]) == Run(Step(s1, Timeout(0)), []);
  }

  lemma BankThenConsume()
    ensures Run(GateState(0, [], map[0 := false], {0}, 1, 0, 0, 0, []), [Produce, Consume(false)]) ==
      GateState(0, [], map[0 := false, 1 := true], {0}, 2, 0, 1, 1, [])
  {
    var s3 := Step(GateState(0, [], map[0 := false], {0}, 1, 0, 0, 0, []), Produce);
    assert s3 == GateState(1, [], map[0 := false], {0}, 1, 0, 1, 0, []);
    assert Run(s3, [Consume(false)]) == Run(Step(s3, Consume(false)), []);
  }

  /** A timed-out consume leaves no residue: the next unit produced is still there for a later consume. */
  lemma TimedOutConsumeLeavesNoResidue()
    ensures var t := Run(Init(0), [Consume(true), Timeout(0), Produce, Consume(false)]);
      t.outcome == map[0 := false, 1 := true] && t.productCnt == 0 && t.queue == []
  {
    TimedOutConsume();
    BankThenConsume();
    RunAppend(Init(0), [Consume(true), Timeout(0)], [Produce, Consume(false)]);
    assert [Consume(true), Timeout(0)] + [Produce, Consume(false)] == [Consume(true), Timeout(0), Produce, Consume(false)];
  }

  /** A suspended consume is resolved by the next produce, and nothing is banked. */
  lemma SuspendedConsumeGetsHandOff()
    ensures var t := Run(Init(0), [Consume(false), Produce]);
      t.outcome == map[0 := true] && t.productCnt == 0 && t.queue == [] && t.handed == [0]
  {
  }

  /**
   * In a chain aligned with an increasing queue, a node after the sentinel
   * sits one place behind its waiter's position in the queue.
   */
  lemma NodePosition(ns: seq<Node<WaiterId>>, q: seq<WaiterId>, node: Node<WaiterId>)
    requires |q| == |ns| - 1 && forall k :: 0 <= k < |q| ==> q[k] == ns[k + 1].value
    requires forall a, b :: 0 <= a < b < |ns| ==> ns[a] != ns[b]
    requires Increasing(q)
    requires node in ns[1..]
    ensures node in ns && node.value in q && IndexOf(ns, node) == IndexOf(q, node.value) + 1
  {
    var m :| 0 <= m < |ns| - 1 && ns[1..][m] == node;
    assert ns[m + 1] == node && q[m] == node.value;
    var n := IndexOf(ns, node);
    assert forall a :: 0 <= a < |ns| && a != m + 1 ==> ns[a] != ns[m + 1];
    var j := IndexOf(q, node.value);
    assert forall a :: 0 <= a < |q| && a != m ==> q[a] != q[m];
  }

  /** The gate object: the closure variables of createConsumerProducerEventObject. */
  class ConsumerProducerEvent {
    var productCnt: int
    const onEmptyConsume: NodeContainer<WaiterId>
    var outcome: map<WaiterId, bool>
    var timed: set<WaiterId>
    var nextId: WaiterId
    ghost const initial: int
    ghost var produced: nat
    ghost var immediate: nat
    ghost var handed: seq<WaiterId>
    ghost var Repr: set<object>

    ghost function Abs(): GateState
      reads this, onEmptyConsume
    {
      GateState(productCnt, onEmptyConsume.contents, outcome, timed, nextId,
                initial, produced, immediate, handed)
    }

    ghost predicate Valid()
      reads this, Repr
    {
      this in Repr && onEmptyConsume in Repr &&
      onEmptyConsume.Repr <= Repr && this !in onEmptyConsume.Repr &&
      onEmptyConsume.Valid() &&
      Inv(Abs())
    }

    constructor (initialProducts: int)
      ensures Valid() && fresh(Repr)
      ensures Abs() == Init(initialProducts)
    {
      onEmptyConsume := new NodeContainer<WaiterId>();
      productCnt := initialProducts;
      outcome := map[];
      timed := {};
      nextId := 0;
      initial := initialProducts;
      produced := 0;
      immediate := 0;
      handed := [];
      new;
      Repr := {this} + onEmptyConsume.Repr;
    }

    /**
     * `consume(ms)`; returns the waiter, resolved true at once (and then no
     * node), or queued together with the node its suspended call keeps as
     * `consumeNode`.
     */
    method Consume(withTimeout: bool) returns (w: WaiterId, consumeNode: Node?<WaiterId>)
      requires Valid()
      modifies Repr
      ensures Valid() && fresh(Repr - old(Repr))
      ensures (Abs(), w) == ConsumeStep(old(Abs()), withTimeout)
      ensures old(productCnt) > 0 <==> consumeNode == null
      ensures consumeNode != null ==>
        consumeNode.value == w && onEmptyConsume.nodes == old(onEmptyConsume.nodes) + [consumeNode]
    {
      if productCnt > 0 {
        ghost var s := Abs();
        w := nextId;
        nextId := nextId + 1;
        productCnt := productCnt - 1;
        immediate := immediate + 1;
        outcome := outcome[w := true];
        consumeNode := null;
        assert Abs() == ConsumeStep(s, withTimeout).0;
        ConsumeInv(s, withTimeout);
      } else {
        w, consumeNode := Suspend(withTimeout);
      }
    }

    /**
     * The suspending half of `consume(ms)`: with no unit banked, the caller's
     * waiter is pushed at the tail of `onEmptyConsume`.
     */
    method Suspend(withTimeout: bool) returns (w: WaiterId, consumeNode: Node<WaiterId>)
      requires Valid() && productCnt <= 0
      modifies Repr
      ensures Valid() && fresh(Repr - old(Repr))
      ensures (Abs(), w) == ConsumeStep(old(Abs()), withTimeout)
      ensures consumeNode.value == w && onEmptyConsume.nodes == old(onEmptyConsume.nodes) + [consumeNode]
    {
      ghost var s := Abs();
      w := nextId;
      nextId := nextId + 1;
      if withTimeout {
        timed := timed + {w};
      }
      ConsumeInv(s, withTimeout);
      consumeNode := onEmptyConsume.Push(w);
      Repr := Repr + {consumeNode};
      assert Abs() == ConsumeStep(s, withTimeout).0;
    }

    /** `produce()`: bank a unit, or pop the front waiter and resolve it true. */
    method Produce()
      requires Valid()
      modifies Repr
      ensures Valid() && fresh(Repr - old(Repr))
      ensures Abs() == ProduceStep(old(Abs()))
      ensures old(onEmptyConsume.contents) != [] ==>
        onEmptyConsume.nodes == [old(onEmptyConsume.nodes)[0]] + old(onEmptyConsume.nodes)[2..]
    {
      var empty := onEmptyConsume.IsEmpty();
      if empty {
        ghost var s := Abs();
        productCnt := productCnt + 1;
        produced := produced + 1;
        assert Abs() == ProduceStep(s);
        ProduceInv(s);
      } else {
        HandOff();
      }
    }

    /** The hand-off half of `produce()`: the front waiter is popped and resolved true. */
    method HandOff()
      requires Valid() && onEmptyConsume.contents != []
      modifies Repr
      ensures Valid() && fresh(Repr - old(Repr))
      ensures Abs() == ProduceStep(old(Abs()))
      ensures onEmptyConsume.nodes == [old(onEmptyConsume.nodes)[0]] + old(onEmptyConsume.nodes)[2..]
    {
      ghost var s := Abs();
      Repr := Repr - {onEmptyConsume.nodes[1]};
      var first := onEmptyConsume.PopFirst();
      var w := first.value;
      outcome := outcome[w := true];
      produced := produced + 1;
      handed := handed + [w];
      assert Abs() == ProduceStep(s);
      ProduceInv(s);
    }

    /**
     * The timer of a queued timed waiter wins: `p.wait(ms)` resolves false,
     * and the suspended call unlinks its `consumeNode`.
     */
    method Timeout(consumeNode: Node<WaiterId>)
      requires Valid() && consumeNode in onEmptyConsume.nodes[1..] && consumeNode.value in timed
      modifies Repr
      ensures Valid() && fresh(Repr - old(Repr))
      ensures consumeNode.value in old(onEmptyConsume.contents)
      ensures Abs() == TimeoutStep(old(Abs()), consumeNode.value)
      ensures consumeNode !in onEmptyConsume.nodes && consumeNode.prev == null && consumeNode.next == null
      ensures var i := IndexOf(old(onEmptyConsume.nodes), consumeNode);
        onEmptyConsume.nodes == old(onEmptyConsume.nodes)[..i] + old(onEmptyConsume.nodes)[i + 1..]
    {
      ghost var s := Abs();
      NodePosition(onEmptyConsume.nodes, onEmptyConsume.contents, consumeNode);
      var w := consumeNode.value;
      outcome := outcome[w := false];
      Repr := Repr - {consumeNode};
      TimeoutInv(s, w);
      var r := onEmptyConsume.Remove(consumeNode);
      assert Abs() == TimeoutStep(s, w);
    }
  }

  /**
   * A client run on an empty gate: two timed `consume` calls suspend, one
   * `produce` hands its unit to the first, and the second's timer then fires.
   */
  method HandOffThenTimeout()
  {
    var g := new ConsumerProducerEvent(0);
    var w0, n0 := g.Consume(true);
    var w1, n1 := g.Consume(true);
    g.Produce();
    g.Timeout(n1);
    assert g.outcome[w0] && !g.outcome[w1] && g.productCnt == 0;
  }
}
