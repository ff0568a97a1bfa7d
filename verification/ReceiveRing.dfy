/**
 The NIC's receive descriptor ring: wrapping 32-bit producer and consumer counters over four
 descriptors, refining a FIFO of at most four buffers.
 */
module ReceiveRing {
  import opened Bytes

  const NUM_DESC := 4
  const COUNTER_MODULUS := 0x1_0000_0000

  type Buffer = int

  // ---------------------------------------------------------------- the FIFO

  /** Buffers given to the NIC in order, those handed up, and those freed at close. */
  datatype Fifo = Fifo(live: seq<Buffer>, handed: seq<Buffer>, freed: seq<Buffer>)

  function Min(a: nat, b: nat): nat { if a < b then a else b }

  /** Free descriptors. */
  function Room(f: Fifo): nat { if |f.live| < NUM_DESC then NUM_DESC - |f.live| else 0 }

  function Refilled(f: Fifo, supply: seq<Buffer>): Fifo {
    f.(live := f.live + supply[..Min(Room(f), |supply|)])
  }

  /** A refill adds buffers in the order supplied until the ring holds four or none is left. */
  lemma RefillFills(f: Fifo, supply: seq<Buffer>)
    requires |f.live| <= 4
    ensures var g := Refilled(f, supply);
            && g.handed == f.handed && g.freed == f.freed && f.live <= g.live <= f.live + supply
            && |g.live| == if |f.live| + |supply| <= 4 then |f.live| + |supply| else 4
  {
  }

  function Polled(f: Fifo, n: nat): Fifo
    requires n <= |f.live|
  {
    f.(live := f.live[n..], handed := f.handed + f.live[..n])
  }

  /** The k-th live buffer as a descriptor would hold it. */
  function At(live: seq<Buffer>, k: nat): Option<Buffer> { if k < |live| then Some(live[k]) else None }

  /** The descriptors of a ring whose oldest live one is `cons % 4`. */
  function SlotsOf(live: seq<Buffer>, cons: nat): seq<Option<Buffer>> {
    seq(NUM_DESC, i requires 0 <= i < NUM_DESC => At(live, (i + NUM_DESC - cons % NUM_DESC) % NUM_DESC))
  }

  /** The buffers found in descriptors, in descriptor order. */
  function Present(slots: seq<Option<Buffer>>): seq<Buffer> {
    if slots == [] then []
    else
      var front := Present(slots[..|slots| - 1]);
      match slots[|slots| - 1]
      case None => front
      case Some(b) => front + [b]
  }

  function Closed(f: Fifo, cons: nat): Fifo {
    f.(live := [], freed := f.freed + Present(SlotsOf(f.live, cons)))
  }

  // ---------------------------------------------------------------- counters

  /** Live descriptors, by unsigned subtraction. */
  function Distance(prod: int, cons: int): int { (prod - cons) % COUNTER_MODULUS }

  function Advance(n: int): int { (n + 1) % COUNTER_MODULUS }

  /** The descriptor of the k-th live buffer: the wrap of the counters at 2^32 is invisible
      because the ring size divides it. */
  function Slot(cons: nat, k: nat): (r: nat)
    ensures r < NUM_DESC
  {
    (cons + k) % NUM_DESC
  }

  lemma SlotAfterAdvance(cons: nat, k: nat)
    requires cons < COUNTER_MODULUS
    ensures Slot(Advance(cons), k) == Slot(cons, k + 1)
  {
    if cons + 1 == COUNTER_MODULUS { assert (COUNTER_MODULUS + k) % NUM_DESC == k % NUM_DESC; }
  }

  lemma SlotsDistinct(cons: nat, j: nat, k: nat)
    requires j < k < NUM_DESC
    ensures Slot(cons, j) != Slot(cons, k)
  {
  }

  /** What happens to the ring: the driver refills, polls or closes it, the NIC completes a
      descriptor. */
  datatype Action = Refilling(supply: seq<Buffer>) | Completing(idx: nat) | Polling | Closing

  class RxRing {
    var prod: nat
    var cons: nat
    const own: array<bool>            // descriptor owned by the NIC
    const iobuf: array<Option<Buffer>>
    ghost var fifo: Fifo

    ghost predicate Shaped()
      reads this
    {
      && own.Length == NUM_DESC && iobuf.Length == NUM_DESC && own as object != iobuf
      && prod < COUNTER_MODULUS && cons < COUNTER_MODULUS
      && |fifo.live| <= NUM_DESC && Distance(prod, cons) == |fifo.live|
    }

    /** A descriptor holds a buffer exactly when it is live, and the live ones hold the FIFO
        in order. */
    ghost predicate Valid()
      reads this, iobuf
    {
      && Shaped()
      && forall k :: 0 <= k < NUM_DESC ==>
           iobuf[Slot(cons, k)] == if k < |fifo.live| then Some(fifo.live[k]) else None
    }

    constructor ()
      ensures Valid() && fifo == Fifo([], [], []) && fresh(own) && fresh(iobuf)
    {
      own := new bool[NUM_DESC](_ => false);
      iobuf := new Option<Buffer>[NUM_DESC](_ => None);
      prod, cons := 0, 0;
      fifo := Fifo([], [], []);
    }

    /** One turn of realtek_refill_rx: the slot about to be used is empty. */
    method RefillOne(b: Buffer)
      requires Valid() && |fifo.live| < NUM_DESC
      modifies this`prod, this`fifo, own, iobuf
      ensures Valid() && fifo == old(fifo).(live := old(fifo).live + [b])
      ensures own[..] == old(own[..])[Slot(cons, |old(fifo).live|) := true]
    {
      var idx := prod % NUM_DESC;
      ghost var n := |fifo.live|;
      ProducerSlot(prod, cons, n);
      prod := Advance(prod);
      own[idx] := true;
      assert iobuf[idx] == None;      // realtek_refill_rx's own assertion
      iobuf[idx] := Some(b);
      fifo := fifo.(live := fifo.live + [b]);
      forall k | 0 <= k < NUM_DESC && k != n ensures Slot(cons, k) != idx {
        if k < n { SlotsDistinct(cons, k, n); } else { SlotsDistinct(cons, n, k); }
      }
    }

    /** realtek_refill_rx: fill the ring as far as the allocator supplies buffers. */
    method Refill(supply: seq<Buffer>)
      requires Valid()
      modifies this`prod, this`fifo, own, iobuf
      ensures Valid() && fifo == Refilled(old(fifo), supply)
      ensures forall k :: 0 <= k < |fifo.live| ==>
                own[Slot(cons, k)] == (k >= |old(fifo).live| || old(own[Slot(cons, k)]))
    {
      var used := 0;
      while Distance(prod, cons) < NUM_DESC && used < |supply|
        invariant Valid() && used <= |supply|
        invariant fifo == old(fifo).(live := old(fifo).live + supply[..used])
        invariant forall k :: 0 <= k < |fifo.live| ==>
                    own[Slot(cons, k)] == (k >= |old(fifo).live| || old(own[Slot(cons, k)]))
      {
        ghost var flags, n := own[..], |fifo.live|;
        RefillOne(supply[used]);
        forall k | 0 <= k < n ensures own[Slot(cons, k)] == flags[Slot(cons, k)] {
          SlotsDistinct(cons, k, n);
          assert own[Slot(cons, k)] == own[..][Slot(cons, k)];
        }
        assert own[Slot(cons, n)] == own[..][Slot(cons, n)];
        assert supply[..used + 1] == supply[..used] + [supply[used]];
        used := used + 1;
      }
    }

    /** The NIC completes a descriptor. */
    method NicCompletes(idx: nat)
      requires Valid() && idx < NUM_DESC
      modifies own
      ensures Valid() && own[..] == old(own[..])[idx := false]
    {
      own[idx] := false;
    }

    /** One turn of realtek_poll_rx: hand up the oldest buffer. */
    method HandUp() returns (b: Buffer)
      requires Valid() && fifo.live != []
      modifies this`cons, this`fifo, iobuf
      ensures Valid() && fifo == Polled(old(fifo), 1) && cons == Advance(old(cons))
      ensures b == old(fifo).live[0]
    {
      var idx := cons % NUM_DESC;
      assert idx == Slot(cons, 0);
      ghost var live := fifo.live;
      ghost var was := cons;
      b := iobuf[idx].value;
      iobuf[idx] := None;
      cons := Advance(cons);
      fifo := Polled(fifo, 1);
      forall k | 0 <= k < NUM_DESC
        ensures iobuf[Slot(cons, k)] == if k < |fifo.live| then Some(fifo.live[k]) else None
      {
        SlotAfterAdvance(was, k);
        if k + 1 < NUM_DESC {
          SlotsDistinct(was, 0, k + 1);
        } else {
          assert Slot(was, NUM_DESC) == Slot(was, 0);
        }
      }
    }

    lemma LiveIff()
      requires Shaped()
      ensures cons != prod <==> fifo.live != []
    {
    }

    /** Hand up the n-th buffer of those that were live at the start of a poll. */
    method HandUpNext(ghost f: Fifo, ghost start: nat, ghost n: nat) returns (b: Buffer)
      requires Valid() && n < |f.live| && fifo == Polled(f, n) && Slot(cons, 0) == Slot(start, n)
      modifies this`cons, this`fifo, iobuf
      ensures Valid() && fifo == Polled(f, n + 1) && Slot(cons, 0) == Slot(start, n + 1)
      ensures b == f.live[n] && (cons != prod <==> fifo.live != [])
    {
      hide Slot, Distance, Advance;
      ghost var was := cons;
      b := HandUp();
      LiveIff();
      PolledTwice(f, n);
      SlotShift(start, was, n);
    }

    /** realtek_poll_rx: hand up completed buffers, oldest first, stopping at the first one the
        NIC still owns. */
    method Poll() returns (up: seq<Buffer>)
      requires Valid()
      modifies this`cons, this`fifo, iobuf
      ensures Valid() && up <= old(fifo).live && fifo == Polled(old(fifo), |up|)
      ensures fifo.live == [] || own[Slot(cons, 0)]
      ensures forall k :: 0 <= k < |up| ==> !own[Slot(old(cons), k)]
    {
      up := [];
      ghost var n := 0;
      assert fifo == Polled(fifo, 0);
      LiveIff();
      while cons != prod
        invariant Valid() && n == |up| && up <= old(fifo).live && fifo == Polled(old(fifo), n)
        invariant Slot(cons, 0) == Slot(old(cons), n) && (cons != prod <==> fifo.live != [])
        invariant forall k :: 0 <= k < n ==> !own[Slot(old(cons), k)]
        decreases |fifo.live|
      {
        hide Slot, Polled, Distance, Advance;
        var idx := cons % NUM_DESC;
        assert idx == Slot(cons, 0) by { SlotZero(cons); }
        if own[idx] { return; }
        var b := HandUpNext(old(fifo), old(cons), n);
        up := up + [b];
        n := n + 1;
      }
    }

    /** Free the buffers still held in descriptors. */
    method FreeAll() returns (freed: seq<Buffer>)
      requires iobuf.Length == NUM_DESC
      modifies iobuf
      ensures freed == Present(old(iobuf[..])) && forall j :: 0 <= j < NUM_DESC ==> iobuf[j] == None
    {
      ghost var slots := iobuf[..];
      freed := [];
      for i := 0 to NUM_DESC
        invariant freed == Present(slots[..i])
        invariant forall j :: 0 <= j < i ==> iobuf[j] == None
        invariant forall j :: i <= j < NUM_DESC ==> iobuf[j] == slots[j]
      {
        assert slots[..i + 1][..i] == slots[..i];
        if iobuf[i].Some? { freed := freed + [iobuf[i].value]; }
        iobuf[i] := None;
      }
      assert slots[..NUM_DESC] == slots;
    }

    /** realtek_close: reset the counters and free whatever the descriptors still hold. */
    method Close() returns (freed: seq<Buffer>)
      requires Valid()
      modifies this`prod, this`cons, this`fifo, iobuf
      ensures Valid() && fifo == Closed(old(fifo), old(cons)) && prod == cons == 0
      ensures fifo.freed == old(fifo).freed + freed
    {
      assert iobuf[..] == SlotsOf(fifo.live, cons) by {
        forall i | 0 <= i < NUM_DESC ensures iobuf[i] == SlotsOf(fifo.live, cons)[i] {
          var k := (i + NUM_DESC - cons % NUM_DESC) % NUM_DESC;
          SlotInverse(cons, i);
          assert iobuf[Slot(cons, k)] == At(fifo.live, k);
        }
      }
      prod, cons := 0, 0;
      freed := FreeAll();
      fifo := fifo.(live := [], freed := fifo.freed + freed);
    }

    /** One action as an event of the FIFO; what the NIC does is none. */
    method Handle(act: Action) returns (up: seq<Buffer>, freed: seq<Buffer>, ghost es: seq<Event>)
      requires Valid() && (act.Completing? ==> act.idx < NUM_DESC)
      modifies this, own, iobuf
      ensures Valid()
      ensures if es == [] then fifo == old(fifo)
              else |es| == 1 && Enabled(old(fifo), es[0]) && fifo == Next(old(fifo), es[0])
      ensures fifo.handed == old(fifo).handed + up && fifo.freed == old(fifo).freed + freed
      ensures act.Closing? || forall i :: 0 <= i < |es| ==> !es[i].Closes?
    {
      up, freed, es := [], [], [];
      match act
      case Refilling(supply) =>
        Refill(supply);
        es := [Refills(supply)];
      case Completing(idx) => NicCompletes(idx);
      case Polling =>
        up := Poll();
        es := [Polls(|up|)];
      case Closing =>
        es := [Closes(cons)];
        freed := Close();
    }

    /** The ring through any history: it behaves as the FIFO, every buffer put on it is live,
        handed up or freed exactly once, and unless it is closed buffers are handed up in the
        order in which they were put on. */
    method Drive(acts: seq<Action>) returns (up: seq<Buffer>, freed: seq<Buffer>, ghost es: seq<Event>)
      requires Valid() && forall i :: 0 <= i < |acts| ==> acts[i].Completing? ==> acts[i].idx < NUM_DESC
      modifies this, own, iobuf
      ensures Valid() && AllEnabled(old(fifo), es) && fifo == Run(old(fifo), es)
      ensures fifo.handed == old(fifo).handed + up && fifo.freed == old(fifo).freed + freed
      ensures forall b :: Accounted(fifo, b) == Accounted(old(fifo), b) + Occurs(AllSupplied(old(fifo), es), b)
      ensures (forall i :: 0 <= i < |acts| ==> !acts[i].Closing?) ==>
                fifo.handed + fifo.live == old(fifo).handed + old(fifo).live + AllSupplied(old(fifo), es)
    {
      hide Accounted, Occurs, Next, Enabled, AllSupplied;
      up, freed, es := [], [], [];
      var n := 0;
      while n < |acts|
        invariant n <= |acts| && Valid()
        invariant AllEnabled(old(fifo), es) && fifo == Run(old(fifo), es)
        invariant fifo.handed == old(fifo).handed + up && fifo.freed == old(fifo).freed + freed
        invariant (forall i :: 0 <= i < n ==> !acts[i].Closing?) ==> forall i :: 0 <= i < |es| ==> !es[i].Closes?
      {
        var u, f;
        ghost var e;
        u, f, e := Handle(acts[n]);
        up, freed := up + u, freed + f;
        if |e| == 1 {
          RunAppend(old(fifo), es, e[0]);
          es := es + [e[0]];
        }
        n := n + 1;
      }
      forall b ensures Accounted(fifo, b) == Accounted(old(fifo), b) + Occurs(AllSupplied(old(fifo), es), b) {
        EveryBufferOnce(old(fifo), es, b);
      }
      if forall i :: 0 <= i < |acts| ==> !acts[i].Closing? { HandedUpInOrder(old(fifo), es); }
    }
  }

  lemma SlotInverse(cons: nat, i: nat)
    requires i < NUM_DESC
    ensures Slot(cons, (i + NUM_DESC - cons % NUM_DESC) % NUM_DESC) == i
  {
    var r := cons % 4;
    assert cons == 4 * (cons / 4) + r;
  }

  lemma SlotZero(cons: nat)
    ensures Slot(cons, 0) == cons % NUM_DESC
  {
  }

  lemma SlotShift(first: nat, cons: nat, n: nat)
    requires cons < COUNTER_MODULUS && Slot(cons, 0) == Slot(first, n)
    ensures Slot(Advance(cons), 0) == Slot(first, n + 1)
  {
    SlotAfterAdvance(cons, 0);
  }

  lemma PolledTwice(f: Fifo, n: nat)
    requires n < |f.live|
    ensures Polled(Polled(f, n), 1) == Polled(f, n + 1)
  {
    assert f.live[..n + 1] == f.live[..n] + f.live[n..][..1];
  }

  lemma ProducerSlot(prod: nat, cons: nat, n: nat)
    requires prod < COUNTER_MODULUS && cons < COUNTER_MODULUS && n < NUM_DESC && Distance(prod, cons) == n
    ensures prod % NUM_DESC == Slot(cons, n) && Distance(Advance(prod), cons) == n + 1
  {
  }

  // ---------------------------------------------------------------- counting buffers

  /** How often a buffer occurs. */
  function Occurs(s: seq<Buffer>, b: Buffer): nat {
    if s == [] then 0 else Occurs(s[..|s| - 1], b) + if s[|s| - 1] == b then 1 else 0
  }

  function In(slot: Option<Buffer>, b: Buffer): nat { if slot == Some(b) then 1 else 0 }

  lemma {:induction false} OccursSplit(s: seq<Buffer>, t: seq<Buffer>, b: Buffer)
    ensures Occurs(s + t, b) == Occurs(s, b) + Occurs(t, b)
    decreases |t|
  {
    if t == [] {
      assert s + t == s;
    } else {
      OccursSplit(s, t[..|t| - 1], b);
      assert (s + t)[..|s + t| - 1] == s + t[..|t| - 1];
    }
  }

  lemma PresentStep(s: seq<Option<Buffer>>, n: nat, b: Buffer)
    requires n < |s|
    ensures Occurs(Present(s[..n + 1]), b) == Occurs(Present(s[..n]), b) + In(s[n], b)
  {
    assert s[..n + 1][..n] == s[..n];
    if s[n].Some? { OccursSplit(Present(s[..n]), [s[n].value], b); }
  }

  lemma LiveStep(live: seq<Buffer>, n: nat, b: Buffer)
    ensures Occurs(live[..Min(n + 1, |live|)], b) == Occurs(live[..Min(n, |live|)], b) + In(At(live, n), b)
  {
    if n < |live| { assert live[..n + 1][..n] == live[..n]; }
  }

  lemma CountInSlots(s: seq<Option<Buffer>>, b: Buffer)
    requires |s| == 4
    ensures Occurs(Present(s), b) == In(s[0], b) + In(s[1], b) + In(s[2], b) + In(s[3], b)
  {
    hide Occurs, In;
    PresentStep(s, 0, b); PresentStep(s, 1, b); PresentStep(s, 2, b); PresentStep(s, 3, b);
    assert s[..4] == s && s[..0] == [];
    assert Occurs([], b) == 0 by { OccursNone(b); }
  }

  lemma OccursNone(b: Buffer)
    ensures Occurs([], b) == 0
  {
  }

  lemma CountLive(live: seq<Buffer>, b: Buffer)
    requires |live| <= 4
    ensures Occurs(live, b) == In(At(live, 0), b) + In(At(live, 1), b) + In(At(live, 2), b) + In(At(live, 3), b)
  {
    hide Occurs, In, At;
    LiveStep(live, 0, b); LiveStep(live, 1, b); LiveStep(live, 2, b); LiveStep(live, 3, b);
    assert live[..Min(4, |live|)] == live && live[..Min(0, |live|)] == [];
    OccursNone(b);
  }

  /** Closing frees each live buffer exactly once, wherever the ring had got to. */
  lemma ClosingFreesLive(live: seq<Buffer>, cons: nat, b: Buffer)
    requires |live| <= NUM_DESC
    ensures Occurs(Present(SlotsOf(live, cons)), b) == Occurs(live, b)
  {
    var s := SlotsOf(live, cons);
    CountInSlots(s, b);
    CountLive(live, b);
    hide Occurs, In, At, Present;
  }

  // ---------------------------------------------------------------- interleavings

  datatype Event = Refills(supply: seq<Buffer>) | Polls(n: nat) | Closes(cons: nat)

  predicate Enabled(f: Fifo, e: Event) { e.Polls? ==> e.n <= |f.live| }

  function Next(f: Fifo, e: Event): Fifo
    requires Enabled(f, e)
  {
    match e
    case Refills(supply) => Refilled(f, supply)
    case Polls(n) => Polled(f, n)
    case Closes(cons) => Closed(f, cons)
  }

  predicate AllEnabled(f: Fifo, es: seq<Event>)
    decreases |es|
  {
    es != [] ==> Enabled(f, es[0]) && AllEnabled(Next(f, es[0]), es[1..])
  }

  function Run(f: Fifo, es: seq<Event>): Fifo
    requires AllEnabled(f, es)
    decreases |es|
  {
    if es == [] then f else Run(Next(f, es[0]), es[1..])
  }

  /** The buffers put on the ring by an event and by a run. */
  function Supplied(f: Fifo, e: Event): seq<Buffer>
    requires Enabled(f, e)
  {
    if e.Refills? then e.supply[..Min(Room(f), |e.supply|)] else []
  }

  function AllSupplied(f: Fifo, es: seq<Event>): seq<Buffer>
    requires AllEnabled(f, es)
    decreases |es|
  {
    if es == [] then [] else Supplied(f, es[0]) + AllSupplied(Next(f, es[0]), es[1..])
  }

  /** Occurrences of a buffer among those live, handed up and freed. */
  function Accounted(f: Fifo, b: Buffer): nat {
    Occurs(f.live, b) + Occurs(f.handed, b) + Occurs(f.freed, b)
  }

  lemma StepConserves(f: Fifo, e: Event, b: Buffer)
    requires Enabled(f, e) && |f.live| <= NUM_DESC
    ensures |Next(f, e).live| <= NUM_DESC
    ensures Accounted(Next(f, e), b) == Accounted(f, b) + Occurs(Supplied(f, e), b)
  {
    hide Occurs, Present, SlotsOf;
    OccursNone(b);
    match e
    case Refills(supply) => OccursSplit(f.live, Supplied(f, e), b);
    case Polls(n) =>
      assert f.live == f.live[..n] + f.live[n..];
      OccursSplit(f.live[..n], f.live[n..], b);
      OccursSplit(f.handed, f.live[..n], b);
    case Closes(cons) =>
      ClosingFreesLive(f.live, cons, b);
      OccursSplit(f.freed, Present(SlotsOf(f.live, cons)), b);
  }

  lemma StepInOrder(f: Fifo, e: Event)
    requires Enabled(f, e) && !e.Closes?
    ensures Next(f, e).handed + Next(f, e).live == f.handed + f.live + Supplied(f, e)
  {
    if e.Polls? { assert f.live == f.live[..e.n] + f.live[e.n..]; }
  }

  /** For every interleaving of refill, poll and close, occupancy stays within the ring and
      every buffer is accounted for exactly as often as it was put on: live, handed up or
      freed. */
  lemma {:induction false} EveryBufferOnce(f: Fifo, es: seq<Event>, b: Buffer)
    requires AllEnabled(f, es) && |f.live| <= NUM_DESC
    ensures |Run(f, es).live| <= NUM_DESC
    ensures Accounted(Run(f, es), b) == Accounted(f, b) + Occurs(AllSupplied(f, es), b)
    decreases |es|
  {
    hide Accounted, Occurs, Next, Supplied;
    if es == [] {
      OccursNone(b);
    } else {
      StepConserves(f, es[0], b);
      EveryBufferOnce(Next(f, es[0]), es[1..], b);
      OccursSplit(Supplied(f, es[0]), AllSupplied(Next(f, es[0]), es[1..]), b);
    }
  }

  /** Until the ring is closed, buffers are handed up in the order in which they were put on. */
  lemma {:induction false} HandedUpInOrder(f: Fifo, es: seq<Event>)
    requires AllEnabled(f, es) && forall i :: 0 <= i < |es| ==> !es[i].Closes?
    ensures Run(f, es).handed + Run(f, es).live == f.handed + f.live + AllSupplied(f, es)
    decreases |es|
  {
    if es == [] {
      assert f.handed + f.live + [] == f.handed + f.live;
    } else {
      StepInOrder(f, es[0]);
      HandedUpInOrder(Next(f, es[0]), es[1..]);
    }
  }

  lemma {:induction false} RunAppend(f: Fifo, es: seq<Event>, e: Event)
    requires AllEnabled(f, es) && Enabled(Run(f, es), e)
    ensures AllEnabled(f, es + [e]) && Run(f, es + [e]) == Next(Run(f, es), e)
    decreases |es|
  {
    hide Next, Enabled;
    if es == [] {
      assert [] + [e] == [e] && [e][1..] == [];
    } else {
      assert (es + [e])[1..] == es[1..] + [e];
      RunAppend(Next(f, es[0]), es[1..], e);
    }
  }
}
