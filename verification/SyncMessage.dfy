/**
 Request/response correlation on one connection: a shared map from request id to the sending half of
 a one-shot channel. One event per lock acquisition or channel operation, so a run is any
 interleaving of `sync_send` calls, packet tasks and timeouts.
 */
module SyncMessage {
  import opened Results

  /** A one-shot channel as its receiver sees it; Dropped means the sender went away unused. */
  datatype Slot = Empty | Filled(task: nat) | Dropped

  /**
   Where a `sync_send` call is. Registered: entry inserted, packet not yet on the channel. Failing:
   the channel refused it, entry not yet removed. Then the outcomes: a reply, a timeout, the channel
   was closed, or the one-shot sender was dropped (`Ok(None)`).
   */
  datatype Phase = Registered | Waiting | Failing | Replied(task: nat) | TimedOut | Refused | Abandoned

  datatype Waiter = Waiter(id: int, phase: Phase, slot: Slot, taker: Option<nat>, born: nat)

  /** Where an inbound packet is. Holding: its task removed w's sender but has not used it yet. */
  datatype Fate = InFlight | Holding(w: nat) | Delivered(w: nat) | Discarded(w: nat) | Inner

  datatype Task = Task(id: int, fate: Fate, at: nat)

  /** `clock` counts registrations and lookups; `born`, `taker` and `at` are history. */
  datatype Session = Session(clock: nat, waiters: seq<Waiter>, notify: map<int, nat>, tasks: seq<Task>)

  const START: Session := Session(0, [], map[], [])

  datatype Event =
    | Register(id: int)
    | SendOk(w: nat)
    | SendErr(w: nat)
    | Unregister(w: nat)
    | Arrive(id: int)
    | Take(k: nat)
    | Fire(k: nat)
    | Receive(w: nat)
    | ReceiveNone(w: nat)
    | Expire(w: nat)

  predicate Listening(p: Phase)
  {
    p == Registered || p == Waiting || p == Failing
  }

  predicate Sent(p: Phase)
  {
    p == Waiting || p.Replied? || p == TimedOut || p == Abandoned
  }

  predicate InPhase(s: Session, w: nat, p: Phase)
  {
    w < |s.waiters| && s.waiters[w].phase == p
  }

  predicate Enabled(s: Session, e: Event)
  {
    match e
    case Register(_) => true
    case SendOk(w) => InPhase(s, w, Registered)
    case SendErr(w) => InPhase(s, w, Registered)
    case Unregister(w) => InPhase(s, w, Failing)
    case Arrive(_) => true
    case Take(k) => k < |s.tasks| && s.tasks[k].fate == InFlight
    case Fire(k) => k < |s.tasks| && s.tasks[k].fate.Holding?
    case Receive(w) => InPhase(s, w, Waiting) && s.waiters[w].slot.Filled?
    case ReceiveNone(w) => InPhase(s, w, Waiting) && s.waiters[w].slot == Dropped
    case Expire(w) => InPhase(s, w, Waiting)
  }

  function SetPhase(s: Session, w: nat, p: Phase): (s': Session)
    requires w < |s.waiters|
  {
    s.(waiters := s.waiters[w := s.waiters[w].(phase := p)])
  }

  function SetFate(s: Session, k: nat, f: Fate): (s': Session)
    requires k < |s.tasks|
  {
    s.(tasks := s.tasks[k := s.tasks[k].(fate := f)])
  }

  /** Whatever sender the map holds for the id is dropped: its receiver, if it had nothing yet, learns so. */
  function DropSender(s: Session, id: int): (s': Session)
  {
    if id in s.notify && s.notify[id] < |s.waiters|
    then s.(waiters := s.waiters[s.notify[id] := s.waiters[s.notify[id]].(slot := Dropped)])
    else s
  }

  /** A waiter that gives up loses a packet already put in its slot. */
  function LoseSlot(s: Session, w: nat): (s': Session)
    requires w < |s.waiters|
  {
    match s.waiters[w].slot
    case Filled(k) => if k < |s.tasks| then SetFate(s, k, Discarded(w)) else s
    case _ => s
  }

  function ApplyRegister(s: Session, id: int): (s': Session)
  {
    var d := DropSender(s, id);
    d.(clock := s.clock + 1,
       waiters := d.waiters + [Waiter(id, Registered, Empty, None, s.clock)],
       notify := s.notify[id := |s.waiters|])
  }

  function ApplyUnregister(s: Session, w: nat): (s': Session)
    requires w < |s.waiters|
  {
    var d := DropSender(s, s.waiters[w].id);
    SetPhase(LoseSlot(d.(notify := s.notify - {s.waiters[w].id}), w), w, Refused)
  }

  function ApplyTake(s: Session, k: nat): (s': Session)
    requires k < |s.tasks|
  {
    var id := s.tasks[k].id;
    var t := s.tasks[k].(at := s.clock);
    if id in s.notify && s.notify[id] < |s.waiters| then
      var w := s.notify[id];
      s.(clock := s.clock + 1,
         waiters := s.waiters[w := s.waiters[w].(taker := Some(k))],
         notify := s.notify - {id},
         tasks := s.tasks[k := t.(fate := Holding(w))])
    else
      s.(clock := s.clock + 1, tasks := s.tasks[k := t.(fate := Inner)])
  }

  function ApplyFire(s: Session, k: nat, w: nat): (s': Session)
    requires k < |s.tasks|
  {
    if w < |s.waiters| && Listening(s.waiters[w].phase)
    then SetFate(s.(waiters := s.waiters[w := s.waiters[w].(slot := Filled(k))]), k, Delivered(w))
    else SetFate(s, k, Discarded(w))
  }

  function Apply(s: Session, e: Event): (s': Session)
    requires Enabled(s, e)
  {
    match e
    case Register(id) => ApplyRegister(s, id)
    case SendOk(w) => SetPhase(s, w, Waiting)
    case SendErr(w) => SetPhase(s, w, Failing)
    case Unregister(w) => ApplyUnregister(s, w)
    case Arrive(id) => s.(tasks := s.tasks + [Task(id, InFlight, 0)])
    case Take(k) => ApplyTake(s, k)
    case Fire(k) => ApplyFire(s, k, s.tasks[k].fate.w)
    case Receive(w) => SetPhase(s, w, Replied(s.waiters[w].slot.task))
    case ReceiveNone(w) => SetPhase(s, w, Abandoned)
    case Expire(w) => SetPhase(LoseSlot(s, w), w, TimedOut)
  }

  // ---------------------------------------------------------------- runs

  /** Request ids are never reused. */
  ghost predicate FreshId(s: Session, e: Event)
  {
    e.Register? ==> forall w :: 0 <= w < |s.waiters| ==> s.waiters[w].id != e.id
  }

  /**
   The peer replies only to frames it received: a packet carries a request's id only after that
   request went out, and no request takes an id that a packet already carried.
   */
  ghost predicate RepliesOnly(s: Session, e: Event)
  {
    && (e.Arrive? ==> forall w :: 0 <= w < |s.waiters| && s.waiters[w].id == e.id ==> Sent(s.waiters[w].phase))
    && (e.Register? ==> forall k :: 0 <= k < |s.tasks| ==> s.tasks[k].id != e.id)
  }

  ghost predicate Runs(s: Session, es: seq<Event>, replies: bool)
    decreases es
  {
    es == [] ||
    (&& Enabled(s, es[0]) && FreshId(s, es[0]) && (replies ==> RepliesOnly(s, es[0]))
     && Runs(Apply(s, es[0]), es[1..], replies))
  }

  ghost function Exec(s: Session, es: seq<Event>, replies: bool): (s': Session)
    requires Runs(s, es, replies)
    decreases es
  {
    if es == [] then s else Exec(Apply(s, es[0]), es[1..], replies)
  }

  // ---------------------------------------------------------------- the invariant of every run

  /** A sender that no task took is in the map under its id, unless it was dropped there. */
  ghost predicate Untaken(s: Session, w: nat)
    requires w < |s.waiters|
  {
    var x := s.waiters[w];
    && !x.phase.Replied?
    && (x.slot != Dropped ==>
          && (Listening(x.phase) || x.phase == TimedOut)
          && x.slot == Empty
          && x.id in s.notify && s.notify[x.id] == w)
  }

  /** A sender taken by task k, for a packet with its id, after its registration: it is never dropped. */
  ghost predicate TakenBy(s: Session, w: nat, k: nat)
    requires w < |s.waiters|
  {
    var x := s.waiters[w];
    && k < |s.tasks|
    && s.tasks[k].id == x.id
    && x.born < s.tasks[k].at < s.clock
    && x.slot != Dropped
    && match s.tasks[k].fate
       case Holding(u) => u == w && x.slot == Empty && !x.phase.Replied? && x.phase != Abandoned
       case Delivered(u) => u == w && x.slot == Filled(k) && (Listening(x.phase) || x.phase == Replied(k))
       case Discarded(u) => u == w && (x.phase == TimedOut || x.phase == Refused)
       case _ => false
  }

  ghost predicate WaiterOk(s: Session, w: nat)
    requires w < |s.waiters|
  {
    && s.waiters[w].born < s.clock
    && match s.waiters[w].taker
       case None => Untaken(s, w)
       case Some(k) => TakenBy(s, w, k)
  }

  ghost predicate TaskOk(s: Session, k: nat)
    requires k < |s.tasks|
  {
    match s.tasks[k].fate
    case InFlight => true
    case Inner => s.tasks[k].at < s.clock
    case Holding(w) => w < |s.waiters| && s.waiters[w].taker == Some(k)
    case Delivered(w) => w < |s.waiters| && s.waiters[w].taker == Some(k)
    case Discarded(w) => w < |s.waiters| && s.waiters[w].taker == Some(k)
  }

  ghost predicate EntryOk(s: Session, id: int)
    requires id in s.notify
  {
    var w := s.notify[id];
    w < |s.waiters| && s.waiters[w].id == id && s.waiters[w].taker == None && s.waiters[w].slot != Dropped
  }

  /** What every step keeps, whatever ids are registered. */
  ghost predicate Intact(s: Session)
  {
    && (forall w :: 0 <= w < |s.waiters| ==> WaiterOk(s, w))
    && (forall k :: 0 <= k < |s.tasks| ==> TaskOk(s, k))
    && (forall id :: id in s.notify ==> EntryOk(s, id))
  }

  lemma RegisterIntact(s: Session, id: int)
    requires Intact(s)
    ensures Intact(ApplyRegister(s, id))
  {
    var s' := ApplyRegister(s, id);
    if id in s.notify {
      assert EntryOk(s, id);
    }
    forall w | 0 <= w < |s'.waiters|
      ensures WaiterOk(s', w)
    {
      if w < |s.waiters| {
        assert WaiterOk(s, w);
      }
    }
    forall k | 0 <= k < |s'.tasks|
      ensures TaskOk(s', k)
    {
      assert TaskOk(s, k);
    }
    forall i | i in s'.notify
      ensures EntryOk(s', i)
    {
      if i in s.notify {
        assert EntryOk(s, i);
      }
    }
  }

  /** What is left of a waiter when w gives up: a sender under w's id is dropped, w is refused. */
  lemma UnregisterEffect(s: Session, w: nat, u: nat)
    requires Intact(s) && Enabled(s, Unregister(w)) && u < |s.waiters|
    ensures var s' := ApplyUnregister(s, w);
            var drops := s.waiters[w].id in s.notify && s.notify[s.waiters[w].id] == u;
            && u < |s'.waiters|
            && s'.waiters[u] == s.waiters[u].(slot := if drops then Dropped else s.waiters[u].slot,
                                              phase := if u == w then Refused else s.waiters[u].phase)
            && s'.notify == s.notify - {s.waiters[w].id} && s'.clock == s.clock
            && s'.tasks == if s.waiters[w].slot.Filled? && s.waiters[w].slot.task < |s.tasks|
                           then SetFate(s, s.waiters[w].slot.task, Discarded(w)).tasks else s.tasks
  {
    assert WaiterOk(s, w);
    if s.waiters[w].id in s.notify {
      assert EntryOk(s, s.waiters[w].id);
    }
  }

  lemma UnregisterWaiter(s: Session, w: nat, u: nat)
    requires Intact(s) && Enabled(s, Unregister(w)) && u < |s.waiters|
    ensures u < |ApplyUnregister(s, w).waiters| && WaiterOk(ApplyUnregister(s, w), u)
  {
    UnregisterEffect(s, w, u);
    assert WaiterOk(s, w) && WaiterOk(s, u);
    if s.waiters[w].id in s.notify {
      assert EntryOk(s, s.waiters[w].id);
    }
    hide ApplyUnregister, Intact;
  }

  lemma UnregisterIntact(s: Session, w: nat)
    requires Intact(s) && Enabled(s, Unregister(w))
    ensures Intact(ApplyUnregister(s, w))
  {
    var s' := ApplyUnregister(s, w);
    forall u | 0 <= u < |s'.waiters|
      ensures WaiterOk(s', u)
    {
      UnregisterWaiter(s, w, u);
    }
    assert WaiterOk(s, w);
    forall k | 0 <= k < |s'.tasks|
      ensures TaskOk(s', k)
    {
      assert TaskOk(s, k);
    }
    forall i | i in s'.notify
      ensures EntryOk(s', i)
    {
      assert EntryOk(s, i);
      if s.waiters[w].id in s.notify {
        assert EntryOk(s, s.waiters[w].id);
      }
    }
  }

  lemma TakeIntact(s: Session, k: nat)
    requires Intact(s) && Enabled(s, Take(k))
    ensures Intact(ApplyTake(s, k))
  {
    var s' := ApplyTake(s, k);
    var id := s.tasks[k].id;
    if id in s.notify {
      assert EntryOk(s, id);
      assert WaiterOk(s, s.notify[id]);
    }
    forall w | 0 <= w < |s'.waiters|
      ensures WaiterOk(s', w)
    {
      assert WaiterOk(s, w);
    }
    forall j | 0 <= j < |s'.tasks|
      ensures TaskOk(s', j)
    {
      assert TaskOk(s, j);
    }
    forall i | i in s'.notify
      ensures EntryOk(s', i)
    {
      assert EntryOk(s, i);
    }
  }

  lemma FireIntact(s: Session, k: nat)
    requires Intact(s) && Enabled(s, Fire(k))
    ensures Intact(ApplyFire(s, k, s.tasks[k].fate.w))
  {
    var w := s.tasks[k].fate.w;
    var s' := ApplyFire(s, k, w);
    assert TaskOk(s, k);
    assert WaiterOk(s, w);
    forall u | 0 <= u < |s'.waiters|
      ensures WaiterOk(s', u)
    {
      assert WaiterOk(s, u);
    }
    forall j | 0 <= j < |s'.tasks|
      ensures TaskOk(s', j)
    {
      assert TaskOk(s, j);
    }
    forall i | i in s'.notify
      ensures EntryOk(s', i)
    {
      assert EntryOk(s, i);
    }
  }

  /** The waiter's own moves: sending and receiving. */
  lemma MoveIntact(s: Session, e: Event)
    requires Intact(s) && Enabled(s, e)
    requires e.SendOk? || e.SendErr? || e.Receive? || e.ReceiveNone?
    ensures Intact(Apply(s, e))
  {
    var s' := Apply(s, e);
    assert WaiterOk(s, e.w);
    forall u | 0 <= u < |s'.waiters|
      ensures WaiterOk(s', u)
    {
      assert WaiterOk(s, u);
    }
    forall k | 0 <= k < |s'.tasks|
      ensures TaskOk(s', k)
    {
      assert TaskOk(s, k);
    }
    forall i | i in s'.notify
      ensures EntryOk(s', i)
    {
      assert EntryOk(s, i);
    }
  }

  lemma ExpireIntact(s: Session, e: Event)
    requires Intact(s) && Enabled(s, e) && e.Expire?
    ensures Intact(Apply(s, e))
  {
    var s' := Apply(s, e);
    assert WaiterOk(s, e.w);
    forall u | 0 <= u < |s'.waiters|
      ensures WaiterOk(s', u)
    {
      assert WaiterOk(s, u);
    }
    forall k | 0 <= k < |s'.tasks|
      ensures TaskOk(s', k)
    {
      assert TaskOk(s, k);
    }
    forall i | i in s'.notify
      ensures EntryOk(s', i)
    {
      assert EntryOk(s, i);
    }
  }

  lemma ArriveIntact(s: Session, id: int)
    requires Intact(s)
    ensures Intact(Apply(s, Arrive(id)))
  {
    var s' := Apply(s, Arrive(id));
    forall w | 0 <= w < |s'.waiters|
      ensures WaiterOk(s', w)
    {
      assert WaiterOk(s, w);
    }
    forall k | 0 <= k < |s'.tasks|
      ensures TaskOk(s', k)
    {
      if k < |s.tasks| {
        assert TaskOk(s, k);
      }
    }
    forall i | i in s'.notify
      ensures EntryOk(s', i)
    {
      assert EntryOk(s, i);
    }
  }

  lemma StepIntact(s: Session, e: Event)
    requires Intact(s) && Enabled(s, e)
    ensures Intact(Apply(s, e))
  {
    hide Intact;
    match e
    case Register(id) => RegisterIntact(s, id);
    case Unregister(w) => UnregisterIntact(s, w);
    case Take(k) => TakeIntact(s, k);
    case Fire(k) => FireIntact(s, k);
    case Arrive(id) => ArriveIntact(s, id);
    case Expire(_) => ExpireIntact(s, e);
    case _ => MoveIntact(s, e);
  }

  /** The event drops w's sender out of the map: its id is registered again, or given up, and w is unanswered. */
  predicate Cuts(s: Session, e: Event, w: nat)
  {
    && w < |s.waiters| && s.waiters[w].taker == None
    && (e == Register(s.waiters[w].id)
        || (e.Unregister? && e.w < |s.waiters| && s.waiters[e.w].id == s.waiters[w].id))
  }

  lemma RegisterDrops(s: Session, id: int, w: nat)
    requires Intact(s) && w < |s.waiters|
    ensures w < |ApplyRegister(s, id).waiters|
    ensures ApplyRegister(s, id).waiters[w].slot == Dropped
            <==> s.waiters[w].slot == Dropped || Cuts(s, Register(id), w)
  {
    assert WaiterOk(s, w);
    if id in s.notify {
      assert EntryOk(s, id);
    }
  }

  lemma UnregisterDrops(s: Session, u: nat, w: nat)
    requires Intact(s) && Enabled(s, Unregister(u)) && w < |s.waiters|
    ensures w < |ApplyUnregister(s, u).waiters|
    ensures ApplyUnregister(s, u).waiters[w].slot == Dropped
            <==> s.waiters[w].slot == Dropped || Cuts(s, Unregister(u), w)
  {
    assert WaiterOk(s, w);
    if s.waiters[u].id in s.notify {
      assert EntryOk(s, s.waiters[u].id);
    }
  }

  /** A sender is dropped by exactly those events, and never comes back. */
  lemma DroppedStep(s: Session, e: Event, w: nat)
    requires Intact(s) && Enabled(s, e) && w < |s.waiters|
    ensures w < |Apply(s, e).waiters|
    ensures Apply(s, e).waiters[w].slot == Dropped <==> s.waiters[w].slot == Dropped || Cuts(s, e, w)
  {
    hide ApplyRegister, ApplyUnregister;
    match e
    case Register(id) => RegisterDrops(s, id, w);
    case Unregister(u) => UnregisterDrops(s, u, w);
    case Fire(k) => assert WaiterOk(s, w) && TaskOk(s, k);
    case _ =>
  }

  /** The event looks the id up, registers it or gives it up. */
  predicate Touches(s: Session, e: Event, id: int)
  {
    || e == Register(id)
    || (e.Unregister? && e.w < |s.waiters| && s.waiters[e.w].id == id)
    || (e.Take? && e.k < |s.tasks| && s.tasks[e.k].id == id)
  }

  /** w's sender is in the map. */
  predicate Mapped(s: Session, w: nat)
  {
    w < |s.waiters| && s.waiters[w].taker == None && s.waiters[w].slot != Dropped
  }

  lemma TakenStep(s: Session, e: Event, w: nat)
    requires Intact(s) && Enabled(s, e) && w < |s.waiters|
    ensures w < |Apply(s, e).waiters|
    ensures Apply(s, e).waiters[w].taker.Some? <==>
            s.waiters[w].taker.Some? || (Mapped(s, w) && e.Take? && s.tasks[e.k].id == s.waiters[w].id)
  {
    hide ApplyRegister, ApplyUnregister;
    match e
    case Register(id) =>
      RegisterTakes(s, id, w);
    case Unregister(u) =>
      UnregisterEffect(s, u, w);
    case Take(k) =>
      assert WaiterOk(s, w);
      if s.tasks[k].id in s.notify {
        assert EntryOk(s, s.tasks[k].id);
      }
    case _ =>
  }

  lemma RegisterTakes(s: Session, id: int, w: nat)
    requires w < |s.waiters|
    ensures w < |ApplyRegister(s, id).waiters| && ApplyRegister(s, id).waiters[w].taker == s.waiters[w].taker
  {
  }

  /** A sender stays in the map until the first event that touches its id. */
  lemma MappedStep(s: Session, e: Event, w: nat)
    requires Intact(s) && Enabled(s, e) && w < |s.waiters|
    ensures w < |Apply(s, e).waiters|
    ensures Mapped(Apply(s, e), w) <==> Mapped(s, w) && !Touches(s, e, s.waiters[w].id)
  {
    DroppedStep(s, e, w);
    TakenStep(s, e, w);
    hide Apply, Intact;
  }

  /** A packet gets the sender of a call with its id exactly if that sender is in the map. */
  lemma TakeStep(s: Session, k: nat, w: nat)
    requires Intact(s) && Enabled(s, Take(k)) && w < |s.waiters| && s.tasks[k].id == s.waiters[w].id
    ensures Apply(s, Take(k)).tasks[k].fate == Holding(w) <==> Mapped(s, w)
  {
    assert WaiterOk(s, w);
    if s.tasks[k].id in s.notify {
      assert EntryOk(s, s.tasks[k].id);
    }
  }

  // ---------------------------------------------------------------- the invariant with fresh ids

  ghost predicate UniqueIds(s: Session)
  {
    forall u, w :: 0 <= u < w < |s.waiters| ==> s.waiters[u].id != s.waiters[w].id
  }

  /** No sender was dropped but by its own call. */
  ghost predicate NoneCut(s: Session)
  {
    forall w :: 0 <= w < |s.waiters| && s.waiters[w].slot == Dropped ==> s.waiters[w].phase == Refused
  }

  ghost predicate Consistent(s: Session)
  {
    Intact(s) && UniqueIds(s) && NoneCut(s)
  }

  lemma IdsStay(s: Session, e: Event)
    requires Enabled(s, e)
    ensures var s' := Apply(s, e);
            && |s'.waiters| == |s.waiters| + (if e.Register? then 1 else 0)
            && (e.Register? ==> s'.waiters[|s.waiters|].id == e.id && s'.waiters[|s.waiters|].slot == Empty)
            && forall w :: 0 <= w < |s.waiters| ==> s'.waiters[w].id == s.waiters[w].id
  {
  }

  lemma RefusedStays(s: Session, e: Event, w: nat)
    requires Enabled(s, e) && w < |s.waiters|
    ensures w < |Apply(s, e).waiters|
    ensures s.waiters[w].phase == Refused || e == Unregister(w) ==> Apply(s, e).waiters[w].phase == Refused
  {
  }

  lemma StepKeeps(s: Session, e: Event)
    requires Consistent(s) && Enabled(s, e) && FreshId(s, e)
    ensures Consistent(Apply(s, e))
  {
    StepIntact(s, e);
    IdsStay(s, e);
    hide Intact, Apply, Enabled;
    var s' := Apply(s, e);
    forall w | 0 <= w < |s'.waiters| && s'.waiters[w].slot == Dropped
      ensures s'.waiters[w].phase == Refused
    {
      if w < |s.waiters| {
        DroppedStep(s, e, w);
        RefusedStays(s, e, w);
      }
    }
  }
}
