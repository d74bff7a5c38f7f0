/**
 The bounded multi-producer single-consumer gray queue (`MpscGrayQueue`), one
 atomic access per step. Any number of producers run `try_enqueue`; one
 consumer runs `dequeue` or the body of `drain`.

 Tickets are natural numbers, steps are sequentially consistent, and every
 interleaving is allowed. `tickets` records the item of each claimed ticket,
 `out` the items handed to the consumer: neither is read by the code.
 */
module MpscQueue {

  datatype Slot = Slot(sequence: nat, item: nat)

  datatype Producer =
    | Idle
    | Loaded(item: nat, pos: nat)    // pos read from m_enqueue_pos
    | Checked(item: nat, pos: nat)   // the slot looked free
    | Claimed(item: nat, pos: nat)   // compare-exchange won
    | Written(item: nat, pos: nat)   // item stored, not yet published

  datatype Consumer =
    | Resting
    | Found                          // head slot carries a published item
    | Taken(item: nat)               // item read
    | Freed(item: nat)               // slot released, m_dequeue_pos not yet moved

  datatype State = State(
    slots: seq<Slot>,
    enq: nat,
    deq: nat,
    producers: seq<Producer>,
    consumer: Consumer,
    tickets: seq<nat>,
    out: seq<nat>)

  // pos & MASK: the remainder of pos by the capacity.
  function Ix(pos: nat, cap: nat): (i: nat)
    requires cap > 0
    ensures i < cap
  {
    if pos < cap then pos else Ix(pos - cap, cap)
  }

  function Init(cap: nat, producers: nat): (s: State) {
    State(seq(cap, i requires 0 <= i < cap => Slot(i, 0)), 0, 0, seq(producers, _ => Idle), Resting, [], [])
  }

  datatype Step =
    | Begin(p: nat, item: nat)
    | Check(p: nat)
    | Refuse(p: nat)
    | CasWin(p: nat)
    | CasLose(p: nat)
    | Store(p: nat)
    | Publish(p: nat)
    | Find
    | Take
    | Free
    | Advance

  predicate Shape(s: State) {
    |s.slots| > 0
  }

  function SlotAt(s: State, pos: nat): Slot
    requires Shape(s)
  {
    s.slots[Ix(pos, |s.slots|)]
  }

  predicate Enabled(s: State, step: Step)
    requires Shape(s)
  {
    match step
    case Begin(p, item) => p < |s.producers| && s.producers[p].Idle?
    case Check(p) =>
      && p < |s.producers| && s.producers[p].Loaded?
      && s.producers[p].pos <= SlotAt(s, s.producers[p].pos).sequence
    case Refuse(p) =>
      && p < |s.producers| && s.producers[p].Loaded?
      && SlotAt(s, s.producers[p].pos).sequence < s.producers[p].pos
    case CasWin(p) => p < |s.producers| && s.producers[p].Checked? && s.producers[p].pos == s.enq
    case CasLose(p) => p < |s.producers| && s.producers[p].Checked?   // a weak exchange may also fail spuriously
    case Store(p) => p < |s.producers| && s.producers[p].Claimed?
    case Publish(p) => p < |s.producers| && s.producers[p].Written?
    case Find => s.consumer.Resting? && SlotAt(s, s.deq).sequence == s.deq + 1
    case Take => s.consumer.Found?
    case Free => s.consumer.Taken?
    case Advance => s.consumer.Freed?
  }

  function After(s: State, step: Step): State
    requires Shape(s) && Enabled(s, step)
  {
    var cap := |s.slots|;
    match step
    case Begin(p, item) => s.(producers := s.producers[p := Loaded(item, s.enq)])
    case Check(p) =>
      var it := s.producers[p];
      s.(producers := s.producers[p := Checked(it.item, it.pos)])
    case Refuse(p) => s.(producers := s.producers[p := Idle])
    case CasWin(p) =>
      var it := s.producers[p];
      s.(producers := s.producers[p := Claimed(it.item, it.pos)], enq := s.enq + 1, tickets := s.tickets + [it.item])
    case CasLose(p) => s.(producers := s.producers[p := Loaded(s.producers[p].item, s.enq)])
    case Store(p) =>
      var it := s.producers[p];
      s.(producers := s.producers[p := Written(it.item, it.pos)],
         slots := s.slots[Ix(it.pos, cap) := SlotAt(s, it.pos).(item := it.item)])
    case Publish(p) =>
      var it := s.producers[p];
      s.(producers := s.producers[p := Idle],
         slots := s.slots[Ix(it.pos, cap) := SlotAt(s, it.pos).(sequence := it.pos + 1)])
    case Find => s.(consumer := Found)
    case Take => s.(consumer := Taken(SlotAt(s, s.deq).item))
    case Free =>
      s.(consumer := Freed(s.consumer.item),
         slots := s.slots[Ix(s.deq, cap) := SlotAt(s, s.deq).(sequence := s.deq + cap)])
    case Advance => s.(consumer := Resting, deq := s.deq + 1, out := s.out + [s.consumer.item])
  }

  ghost predicate Next(s: State, s': State) {
    Shape(s) && exists step :: Enabled(s, step) && s' == After(s, step)
  }

  // The run takes a step at i.
  ghost predicate StepAt(run: seq<State>, i: nat) {
    i + 1 < |run| && Next(run[i], run[i + 1])
  }

  ghost predicate IsRun(cap: nat, n: nat, run: seq<State>) {
    && |run| > 0
    && run[0] == Init(cap, n)
    && forall i :: 0 <= i < |run| - 1 ==> StepAt(run, i)
  }

  // ---- what a healthy queue looks like -------------------------------------

  // First ticket whose slot has not been released by the consumer.
  function Head(s: State): nat {
    if s.consumer.Freed? then s.deq + 1 else s.deq
  }

  predicate Owns(w: Producer, t: nat) {
    (w.Claimed? || w.Written?) && w.pos == t
  }

  predicate Published(s: State, t: nat)
    requires Shape(s)
  {
    t < |s.tickets| && SlotAt(s, t) == Slot(t + 1, s.tickets[t])
  }

  // Some producer still has ticket t in hand, with its item.
  ghost predicate Pending(s: State, t: nat) {
    && t < |s.tickets|
    && exists p :: 0 <= p < |s.producers| && Owns(s.producers[p], t) && s.producers[p].item == s.tickets[t]
  }

  // Nothing lost, duplicated, reordered or overwritten unread.
  ghost predicate Sound(s: State) {
    && Shape(s)
    && s.out <= s.tickets
    && |s.out| == s.deq
    && |s.tickets| == s.enq
    && (s.consumer.Taken? || s.consumer.Freed? ==> s.out + [s.consumer.item] <= s.tickets)
    && forall t :: Head(s) <= t < s.enq ==> Published(s, t) || Pending(s, t)
  }

  ghost predicate SlotOk(s: State, t: nat)
    requires Shape(s)
  {
    && (t >= s.enq ==> SlotAt(s, t).sequence == t)
    && (t < s.enq ==> Published(s, t) || (SlotAt(s, t).sequence == t && Pending(s, t)))
  }

  ghost predicate ProducerOk(s: State, p: nat)
    requires Shape(s) && p < |s.producers|
  {
    var w := s.producers[p];
    && (w.Loaded? || w.Checked? ==> w.pos <= s.enq)
    && (w.Checked? && w.pos == s.enq ==> s.enq < Head(s) + |s.slots|)
    && (w.Claimed? || w.Written? ==>
          && Head(s) <= w.pos < s.enq == |s.tickets|
          && s.tickets[w.pos] == w.item
          && SlotAt(s, w.pos).sequence == w.pos
          && (w.Written? ==> SlotAt(s, w.pos).item == w.item))
  }

  ghost predicate Inv(s: State) {
    && Shape(s)
    && |s.tickets| == s.enq
    && Head(s) <= s.enq <= Head(s) + |s.slots|
    && s.out == s.tickets[..s.deq]
    && (s.consumer.Found? || s.consumer.Taken? ==> Published(s, s.deq))
    && (s.consumer.Taken? || s.consumer.Freed? ==> s.consumer.item == s.tickets[s.deq])
    && (forall t :: Head(s) <= t < Head(s) + |s.slots| ==> SlotOk(s, t))
    && (forall p :: 0 <= p < |s.producers| ==> ProducerOk(s, p))
    && (forall p, q :: 0 <= p < q < |s.producers| ==>
          !((s.producers[p].Claimed? || s.producers[p].Written?) && Owns(s.producers[q], s.producers[p].pos)))
  }

  // ---- slot arithmetic ------------------------------------------------------

  // Two tickets less than a lap apart use different slots.
  lemma {:induction false} Apart(a: nat, b: nat, cap: nat)
    requires cap > 0 && a < b < a + cap
    ensures Ix(a, cap) != Ix(b, cap)
  {
    if cap <= a {
      Apart(a - cap, b - cap, cap);
    }
  }

  lemma {:induction false} IxIsRemainder(pos: nat, cap: nat) returns (q: nat)
    requires cap > 0
    ensures pos == q * cap + Ix(pos, cap)
  {
    if pos < cap {
      q := 0;
    } else {
      q := IxIsRemainder(pos - cap, cap);
      assert (q + 1) * cap == q * cap + cap;
      q := q + 1;
    }
  }

  // A store to the slot of ticket t leaves the slots of the other tickets in
  // the window alone.
  lemma OtherSlots(s: State, s': State, t: nat, x: Slot)
    requires Shape(s) && |s'.slots| == |s.slots|
    requires s'.slots == s.slots[Ix(t, |s.slots|) := x]
    ensures SlotAt(s', t) == x
    ensures forall u: nat :: u != t && u < t + |s.slots| && t < u + |s.slots| ==> SlotAt(s', u) == SlotAt(s, u)
  {
    forall u: nat | u != t && u < t + |s.slots| && t < u + |s.slots|
      ensures SlotAt(s', u) == SlotAt(s, u)
    {
      if u < t {
        Apart(u, t, |s.slots|);
      } else {
        Apart(t, u, |s.slots|);
      }
    }
  }

  // ---- every step keeps the queue healthy ----------------------------------

  lemma InitOk(cap: nat, n: nat)
    requires cap > 0
    ensures Inv(Init(cap, n))
  {
  }

  // Steps that only move one producer between states without a ticket.
  lemma LocalStepOk(s: State, p: nat, w: Producer)
    requires Inv(s) && p < |s.producers| && !s.producers[p].Claimed? && !s.producers[p].Written?
    requires w.Idle? || w.Loaded? || w.Checked?
    requires w.Loaded? || w.Checked? ==> w.pos <= s.enq
    requires w.Checked? && w.pos == s.enq ==> s.enq < Head(s) + |s.slots|
    ensures Inv(s.(producers := s.producers[p := w]))
  {
    var s' := s.(producers := s.producers[p := w]);
    forall t | Head(s) <= t < Head(s) + |s.slots|
      ensures SlotOk(s', t)
    {
      assert SlotOk(s, t);
      PendingMoves(s, s', t, p);
    }
    forall q | 0 <= q < |s'.producers|
      ensures ProducerOk(s', q)
    {
      assert ProducerOk(s, q);
    }
  }

  // A ticket in another producer's hand stays there.
  lemma PendingMoves(s: State, s': State, t: nat, p: nat)
    requires p < |s.producers| == |s'.producers| && s.tickets <= s'.tickets
    requires forall q :: 0 <= q < |s.producers| && q != p ==> s'.producers[q] == s.producers[q]
    requires !Owns(s.producers[p], t) || (Owns(s'.producers[p], t) && s'.producers[p].item == s.producers[p].item)
    ensures Pending(s, t) ==> Pending(s', t)
  {
    if Pending(s, t) {
      var q :| 0 <= q < |s.producers| && Owns(s.producers[q], t) && s.producers[q].item == s.tickets[t];
      assert Owns(s'.producers[q], t);
    }
  }

  // The check passes only when the slot really is free for the next ticket.
  // This is where a capacity of one breaks: the published sequence of the last
  // ticket then equals the next ticket.
  lemma CheckSeesRoom(s: State, p: nat)
    requires Inv(s) && |s.slots| >= 2 && p < |s.producers| && s.producers[p].Loaded?
    ensures s.producers[p].pos <= s.enq
    ensures s.producers[p].pos == s.enq && s.producers[p].pos <= SlotAt(s, s.producers[p].pos).sequence ==>
              s.enq < Head(s) + |s.slots|
  {
    assert ProducerOk(s, p);
    assert SlotOk(s, Head(s));
    assert SlotAt(s, Head(s) + |s.slots|) == SlotAt(s, Head(s));
  }

  lemma CasWinOk(s: State, p: nat)
    requires Inv(s) && Enabled(s, CasWin(p))
    ensures Inv(After(s, CasWin(p)))
  {
    var s' := After(s, CasWin(p));
    var t := s.enq;
    assert ProducerOk(s, p);
    assert SlotOk(s, t);
    assert Owns(s'.producers[p], t);
    forall u | Head(s) <= u < Head(s) + |s.slots|
      ensures SlotOk(s', u)
    {
      assert SlotOk(s, u);
      PendingMoves(s, s', u, p);
    }
    forall q | 0 <= q < |s'.producers|
      ensures ProducerOk(s', q)
    {
      assert ProducerOk(s, q);
    }
    forall q | 0 <= q < |s.producers| && q != p
      ensures !Owns(s'.producers[q], t)
    {
      assert ProducerOk(s, q);
    }
  }

  lemma StoreOk(s: State, p: nat)
    requires Inv(s) && Enabled(s, Store(p))
    ensures Inv(After(s, Store(p)))
  {
    var s' := After(s, Store(p));
    var t := s.producers[p].pos;
    assert ProducerOk(s, p);
    OtherSlots(s, s', t, SlotAt(s, t).(item := s.producers[p].item));
    forall u | Head(s) <= u < Head(s) + |s.slots|
      ensures SlotOk(s', u)
    {
      assert SlotOk(s, u);
      PendingMoves(s, s', u, p);
      if u == t {
        assert Owns(s'.producers[p], t);
      }
    }
    OthersKeep(s, s', p, t);
  }

  lemma PublishOk(s: State, p: nat)
    requires Inv(s) && Enabled(s, Publish(p))
    ensures Inv(After(s, Publish(p)))
  {
    var s' := After(s, Publish(p));
    var t := s.producers[p].pos;
    assert ProducerOk(s, p);
    OtherSlots(s, s', t, SlotAt(s, t).(sequence := t + 1));
    forall u | Head(s) <= u < Head(s) + |s.slots|
      ensures SlotOk(s', u)
    {
      assert SlotOk(s, u);
      if u != t {
        PendingMoves(s, s', u, p);
      }
    }
    OthersKeep(s, s', p, t);
  }

  // Producers other than the one that owns t do not notice a store to its slot.
  lemma OthersKeep(s: State, s': State, p: nat, t: nat)
    requires Inv(s) && p < |s.producers| && Owns(s.producers[p], t)
    requires s' == s.(producers := s'.producers, slots := s'.slots) && |s'.slots| == |s.slots|
    requires |s'.producers| == |s.producers|
    requires forall q :: 0 <= q < |s.producers| && q != p ==> s'.producers[q] == s.producers[q]
    requires forall u: nat :: u != t && u < t + |s.slots| && t < u + |s.slots| ==> SlotAt(s', u) == SlotAt(s, u)
    ensures forall q :: 0 <= q < |s.producers| && q != p ==> ProducerOk(s', q)
    ensures s.consumer.Found? || s.consumer.Taken? ==> s.deq != t && SlotAt(s', s.deq) == SlotAt(s, s.deq)
  {
    assert ProducerOk(s, p);
    forall q | 0 <= q < |s.producers| && q != p
      ensures ProducerOk(s', q)
    {
      assert ProducerOk(s, q);
      assert !Owns(s.producers[q], t);
    }
  }

  lemma FreeOk(s: State)
    requires Inv(s) && Enabled(s, Free)
    ensures Inv(After(s, Free))
  {
    var s' := After(s, Free);
    var t, cap := s.deq, |s.slots|;
    OtherSlots(s, s', t, SlotAt(s, t).(sequence := t + cap));
    assert SlotAt(s', t + cap) == SlotAt(s', t);
    forall u | Head(s') <= u < Head(s') + cap
      ensures SlotOk(s', u)
    {
      if u < t + cap {
        assert SlotOk(s, u);
        assert Pending(s, u) ==> Pending(s', u);
      }
    }
    forall q | 0 <= q < |s.producers|
      ensures ProducerOk(s', q)
    {
      assert ProducerOk(s, q);
    }
  }

  lemma ConsumerStepOk(s: State, step: Step)
    requires Inv(s) && Enabled(s, step) && (step.Find? || step.Take? || step.Advance?)
    ensures Inv(After(s, step))
  {
    var s' := After(s, step);
    assert SlotOk(s, s.deq) || step.Advance?;
    forall u | Head(s') <= u < Head(s') + |s.slots|
      ensures SlotOk(s', u)
    {
      assert SlotOk(s, u);
      assert Pending(s, u) ==> Pending(s', u);
    }
    forall q | 0 <= q < |s.producers|
      ensures ProducerOk(s', q)
    {
      assert ProducerOk(s, q);
    }
  }

  lemma StepOk(s: State, step: Step)
    requires Inv(s) && |s.slots| >= 2 && Enabled(s, step)
    ensures Inv(After(s, step)) && |After(s, step).slots| == |s.slots|
  {
    match step {
      case Begin(p, item) => LocalStepOk(s, p, Loaded(item, s.enq));
      case Check(p) =>
        CheckSeesRoom(s, p);
        LocalStepOk(s, p, Checked(s.producers[p].item, s.producers[p].pos));
      case Refuse(p) => LocalStepOk(s, p, Idle);
      case CasWin(p) => CasWinOk(s, p);
      case CasLose(p) => LocalStepOk(s, p, Loaded(s.producers[p].item, s.enq));
      case Store(p) => StoreOk(s, p);
      case Publish(p) => PublishOk(s, p);
      case Find => ConsumerStepOk(s, step);
      case Take => ConsumerStepOk(s, step);
      case Free => FreeOk(s);
      case Advance => ConsumerStepOk(s, step);
    }
  }

  // ---- the theorems -----------------------------------------------------------

  lemma {:induction false} RunOk(cap: nat, n: nat, run: seq<State>, i: nat)
    requires cap >= 2 && IsRun(cap, n, run) && i < |run|
    ensures Inv(run[i]) && |run[i].slots| == cap
  {
    if i == 0 {
      InitOk(cap, n);
    } else {
      RunOk(cap, n, run, i - 1);
      assert StepAt(run, i - 1);
      var step :| Enabled(run[i - 1], step) && run[i] == After(run[i - 1], step);
      StepOk(run[i - 1], step);
    }
  }

  // In every run the drained items are the claimed items in ticket order, and
  // every claimed item not yet taken is still where it can be taken from.
  lemma QueueIsSound(cap: nat, n: nat, run: seq<State>, i: nat)
    requires cap >= 2 && IsRun(cap, n, run) && i < |run|
    ensures Sound(run[i])
  {
    RunOk(cap, n, run, i);
    var s := run[i];
    forall t: nat | Head(s) <= t < s.enq
      ensures Published(s, t) || Pending(s, t)
    {
      assert SlotOk(s, t);
    }
  }

  // A full lap ahead of the consumer, the slot still belongs to the ticket a lap
  // before.
  lemma SlotBehindWhenFull(s: State)
    requires Inv(s) && |s.slots| >= 2 && s.enq == Head(s) + |s.slots|
    ensures SlotAt(s, s.enq).sequence < s.enq
  {
    assert SlotOk(s, Head(s));
    assert SlotAt(s, Head(s) + |s.slots|) == SlotAt(s, Head(s));
  }

  // In every run, try_enqueue gives up exactly when it has loaded a ticket a full
  // capacity ahead of the consumer, and that is a moment when every slot is taken;
  // otherwise it goes on to the exchange.
  lemma RefusedExactlyWhenFull(cap: nat, n: nat, run: seq<State>, i: nat, p: nat)
    requires cap >= 2 && IsRun(cap, n, run) && i < |run|
    requires p < |run[i].producers| && run[i].producers[p].Loaded?
    ensures Shape(run[i])
    ensures Enabled(run[i], Refuse(p)) <==> run[i].producers[p].pos == Head(run[i]) + cap
    ensures Enabled(run[i], Check(p)) <==> run[i].producers[p].pos < Head(run[i]) + cap
    ensures Enabled(run[i], Refuse(p)) ==> run[i].producers[p].pos == run[i].enq
  {
    RunOk(cap, n, run, i);
    assert ProducerOk(run[i], p);
    SlotNotBehind(run[i], run[i].producers[p].pos);
    if run[i].producers[p].pos == Head(run[i]) + cap {
      SlotBehindWhenFull(run[i]);
    }
  }

  // Short of a full lap ahead of the consumer, a slot is never behind its ticket.
  lemma SlotNotBehind(s: State, pos: nat)
    requires Inv(s)
    ensures pos < Head(s) + |s.slots| ==> pos <= SlotAt(s, pos).sequence
  {
    if pos < Head(s) {
      var u := LaterLap(pos, Head(s), |s.slots|);
      assert SlotOk(s, u);
    } else if pos < Head(s) + |s.slots| {
      assert SlotOk(s, pos);
    }
  }

  lemma {:induction false} LaterLap(pos: nat, head: nat, cap: nat) returns (u: nat)
    requires cap > 0 && pos < head
    ensures head <= u < head + cap && Ix(u, cap) == Ix(pos, cap)
    decreases head - pos
  {
    if head <= pos + cap {
      u := pos + cap;
    } else {
      u := LaterLap(pos + cap, head, cap);
    }
  }

  // The consumer is told "empty" exactly when the next ticket is unclaimed or
  // its producer has not published it yet; later tickets may be ready.
  lemma EmptyAnswer(cap: nat, n: nat, run: seq<State>, i: nat)
    requires cap >= 2 && IsRun(cap, n, run) && i < |run| && run[i].consumer.Resting?
    ensures Shape(run[i])
    ensures !Enabled(run[i], Find) <==> run[i].deq == run[i].enq || Pending(run[i], run[i].deq)
  {
    RunOk(cap, n, run, i);
    var s := run[i];
    assert SlotOk(s, s.deq);
    if Pending(s, s.deq) {
      var p :| 0 <= p < |s.producers| && Owns(s.producers[p], s.deq) && s.producers[p].item == s.tickets[s.deq];
      assert ProducerOk(s, p);
    }
  }

  // No producer inside try_enqueue and no consumer inside a dequeue is ever
  // stuck: each has a next access, and the exchange can be won when no other
  // producer has taken the ticket.
  lemma NeverStuck(s: State, p: nat)
    requires Inv(s) && p < |s.producers|
    ensures s.producers[p].Idle? ==> forall item :: Enabled(s, Begin(p, item))
    ensures s.producers[p].Loaded? ==> (Enabled(s, Check(p)) <==> !Enabled(s, Refuse(p)))
    ensures s.producers[p].Checked? ==>
              Enabled(s, CasLose(p)) && (Enabled(s, CasWin(p)) <==> s.producers[p].pos == s.enq)
    ensures s.producers[p].Claimed? ==> Enabled(s, Store(p))
    ensures s.producers[p].Written? ==> Enabled(s, Publish(p))
    ensures !s.consumer.Resting? ==> Enabled(s, Take) || Enabled(s, Free) || Enabled(s, Advance)
  {
  }

  // A call, and a lost exchange, look at the position as it is now.
  lemma LoadsCurrent(s: State, p: nat, item: nat)
    requires Shape(s)
    ensures Enabled(s, Begin(p, item)) ==> After(s, Begin(p, item)).producers[p].pos == s.enq
    ensures Enabled(s, CasLose(p)) ==>
              After(s, CasLose(p)).producers[p].Loaded? && After(s, CasLose(p)).producers[p].pos == s.enq
  {
  }

  // How try_enqueue ends: with the item published under its ticket, or without
  // having touched the queue.
  lemma EnqueueEnds(s: State, p: nat)
    requires Inv(s) && |s.slots| >= 2 && p < |s.producers|
    ensures Enabled(s, Publish(p)) ==>
              var s' := After(s, Publish(p));
              s'.producers[p].Idle? && Shape(s') && Published(s', s.producers[p].pos)
              && s'.tickets[s.producers[p].pos] == s.producers[p].item
    ensures Enabled(s, Refuse(p)) ==>
              var s' := After(s, Refuse(p));
              s'.producers[p].Idle? && s' == s.(producers := s'.producers)
  {
    if Enabled(s, Publish(p)) {
      assert ProducerOk(s, p);
      StepOk(s, Publish(p));
    }
  }

  // The call of try_enqueue that a producer is in.
  ghost predicate CalledAt(run: seq<State>, a: nat, k: nat, p: nat, item: nat) {
    && a < k < |run| && p < |run[a].producers| && run[a].producers[p].Idle?
    && Shape(run[a]) && Enabled(run[a], Begin(p, item)) && run[a + 1] == After(run[a], Begin(p, item))
  }

  // A producer keeps its item until it returns, and gets one only by a call.
  lemma ItemStays(s: State, step: Step, p: nat)
    requires Shape(s) && Enabled(s, step) && p < |s.producers|
    requires p < |After(s, step).producers| && !After(s, step).producers[p].Idle?
    ensures if s.producers[p].Idle? then step == Begin(p, After(s, step).producers[p].item)
            else After(s, step).producers[p].item == s.producers[p].item
  {
  }

  // In every run, the item a producer has in hand is the one it was called with.
  lemma {:induction false} ItemIsGiven(cap: nat, n: nat, run: seq<State>, k: nat, p: nat) returns (a: nat)
    requires cap >= 2 && IsRun(cap, n, run) && k < |run|
    requires p < |run[k].producers| && !run[k].producers[p].Idle?
    ensures CalledAt(run, a, k, p, run[k].producers[p].item)
  {
    assert k > 0;
    assert StepAt(run, k - 1);
    var step :| Enabled(run[k - 1], step) && run[k] == After(run[k - 1], step);
    ItemStays(run[k - 1], step, p);
    if run[k - 1].producers[p].Idle? {
      a := k - 1;
      assert run[a + 1] == run[k];
    } else {
      a := ItemIsGiven(cap, n, run, k - 1, p);
    }
  }

  // In every run, every ticket carries an item some producer was called with; so
  // do the drained items, which are the first tickets.
  lemma {:induction false} TicketIsGiven(cap: nat, n: nat, run: seq<State>, k: nat, t: nat) returns (a: nat, p: nat)
    requires cap >= 2 && IsRun(cap, n, run) && k < |run| && t < |run[k].tickets|
    ensures CalledAt(run, a, k, p, run[k].tickets[t])
  {
    assert k > 0;
    RunOk(cap, n, run, k - 1);
    assert StepAt(run, k - 1);
    var step :| Enabled(run[k - 1], step) && run[k] == After(run[k - 1], step);
    if t < |run[k - 1].tickets| {
      a, p := TicketIsGiven(cap, n, run, k - 1, t);
    } else {
      assert step.CasWin?;
      p := step.p;
      a := ItemIsGiven(cap, n, run, k - 1, p);
    }
  }

  // The items a consumer can still take, oldest first.
  function Waiting(s: State): seq<nat>
    requires Head(s) <= |s.tickets|
  {
    s.tickets[Head(s)..]
  }

  // Each step is a step of a plain bounded first-in first-out queue.
  lemma StepRefinesFifo(s: State, step: Step)
    requires Inv(s) && |s.slots| >= 2 && Enabled(s, step)
    ensures Head(After(s, step)) <= |After(s, step).tickets|
    ensures match step
            case CasWin(p) =>
              && |Waiting(s)| < |s.slots|
              && Waiting(After(s, step)) == Waiting(s) + [s.producers[p].item]
            case Free =>
              && Waiting(s) == [s.consumer.item] + Waiting(After(s, step))
            case _ => Waiting(After(s, step)) == Waiting(s)
  {
    StepOk(s, step);
    match step {
      case CasWin(p) =>
        assert ProducerOk(s, p);
        var x, h := s.producers[p].item, Head(s);
        assert After(s, step).tickets == s.tickets + [x] && Head(After(s, step)) == h <= |s.tickets|;
        assert (s.tickets + [x])[h..] == s.tickets[h..] + [x];
      case Free => assert s.tickets[s.deq..] == [s.tickets[s.deq]] + s.tickets[s.deq + 1..];
      case _ =>
    }
  }

  // ---- capacity one ---------------------------------------------------------

  // A queue with one slot and one producer, nothing drained.
  function OneSlot(sequence: nat, item: nat, enq: nat, w: Producer, tickets: seq<nat>): (s: State)
    ensures Shape(s)
  {
    State([Slot(sequence, item)], enq, 0, [w], Resting, tickets, [])
  }

  // One producer enqueues 7, then 8, with nothing drained in between.
  function TwoEnqueues(k: nat): State {
    if k == 0 then OneSlot(0, 0, 0, Idle, [])
    else if k == 1 then OneSlot(0, 0, 0, Loaded(7, 0), [])
    else if k == 2 then OneSlot(0, 0, 0, Checked(7, 0), [])
    else if k == 3 then OneSlot(0, 0, 1, Claimed(7, 0), [7])
    else if k == 4 then OneSlot(0, 7, 1, Written(7, 0), [7])
    else if k == 5 then OneSlot(1, 7, 1, Idle, [7])
    else if k == 6 then OneSlot(1, 7, 1, Loaded(8, 1), [7])
    else if k == 7 then OneSlot(1, 7, 1, Checked(8, 1), [7])
    else if k == 8 then OneSlot(1, 7, 2, Claimed(8, 1), [7, 8])
    else OneSlot(1, 8, 2, Written(8, 1), [7, 8])
  }

  lemma TwoEnqueuesStep(k: nat)
    requires k < 9
    ensures Next(TwoEnqueues(k), TwoEnqueues(k + 1))
  {
    var step :=
      if k == 0 then Begin(0, 7) else if k == 5 then Begin(0, 8)
      else if k == 1 || k == 6 then Check(0)
      else if k == 2 || k == 7 then CasWin(0)
      else if k == 4 then Publish(0) else Store(0);
    assert Ix(1, 1) == 0;
    assert Enabled(TwoEnqueues(k), step) && TwoEnqueues(k + 1) == After(TwoEnqueues(k), step);
  }

  // With one slot the second enqueue overwrites the first item unread.
  lemma CapacityOneLosesItems() returns (run: seq<State>)
    ensures IsRun(1, 1, run) && !Sound(run[|run| - 1])
  {
    run := seq(10, k requires 0 <= k => TwoEnqueues(k));
    assert run[0] == Init(1, 1);
    forall k | 0 <= k < |run| - 1
      ensures StepAt(run, k)
    {
      TwoEnqueuesStep(k);
    }
    assert !Published(run[9], 0) && !Pending(run[9], 0);
  }

  ghost predicate AlwaysSound(cap: nat) {
    forall n, run, i :: IsRun(cap, n, run) && 0 <= i < |run| ==> Sound(run[i])
  }

  // The ticket scheme is sound exactly from two slots up.
  lemma SoundExactlyFromTwoSlots(cap: nat)
    requires cap > 0
    ensures AlwaysSound(cap) <==> cap >= 2
  {
    if cap >= 2 {
      forall n: nat, run, i: nat | IsRun(cap, n, run) && i < |run|
        ensures Sound(run[i])
      {
        QueueIsSound(cap, n, run, i);
      }
    } else {
      var run := CapacityOneLosesItems();
      assert IsRun(cap, 1, run);
    }
  }
}
