/**
 The shared waiter map as an object: one method per stretch of code between two awaits. Each makes its
 step of SyncMessage.dfy and, as long as ids are fresh, keeps the invariant proved there.
 */
module NotifyMap {
  import opened Results
  import opened SyncMessage

  /** StepKeeps, where it applies. */
  lemma Keeps(s: Session, e: Event)
    requires Enabled(s, e)
    ensures Consistent(s) && FreshId(s, e) ==> Consistent(Apply(s, e))
  {
    hide Consistent, FreshId, Apply, Enabled;
    if Consistent(s) && FreshId(s, e) {
      StepKeeps(s, e);
    }
  }

  class NotifyMap {
    var waiters: seq<Waiter>
    var notify: map<int, nat>
    var tasks: seq<Task>
    var clock: nat

    /** `connected` installs an empty map. */
    constructor ()
      ensures State() == START
    {
      waiters, notify, tasks, clock := [], map[], [], 0;
    }

    ghost function State(): (s: Session)
      reads this
    {
      Session(clock, waiters, notify, tasks)
    }

    /** `insert` puts the new sender in and drops the one it replaces, if any. */
    method Register(id: int) returns (w: nat)
      modifies this
      ensures State() == Apply(old(State()), Event.Register(id))
      ensures w == old(|waiters|) && w < |waiters| && id in notify && notify[id] == w
      ensures old(Consistent(State()) && FreshId(State(), Event.Register(id))) ==> Consistent(State())
    {
      ghost var before := State();
      w := |waiters|;
      DropSender(id);
      waiters := waiters + [Waiter(id, Registered, Empty, None, clock)];
      notify := notify[id := w];
      clock := clock + 1;
      Keeps(before, Event.Register(id));
    }

    method DropSender(id: int)
      modifies this`waiters
      ensures State() == SyncMessage.DropSender(old(State()), id)
    {
      if id in notify && notify[id] < |waiters| {
        var u := notify[id];
        waiters := waiters[u := waiters[u].(slot := Dropped)];
      }
    }

    /** `self.send(data).await`: the channel took the packet or gave it back. */
    method Send(w: nat, accepted: bool)
      requires InPhase(State(), w, Registered)
      modifies this`waiters
      ensures State() == Apply(old(State()), if accepted then SendOk(w) else SendErr(w))
      ensures accepted ==> waiters[w].phase == Waiting
      ensures !accepted ==>
                !Sent(waiters[w].phase) && waiters[w].phase != Refused && Enabled(State(), Event.Unregister(w))
      ensures old(Consistent(State())) ==> Consistent(State())
    {
      Keeps(State(), if accepted then SendOk(w) else SendErr(w));
      waiters := waiters[w := waiters[w].(phase := if accepted then Waiting else Failing)];
    }

    method LoseSlot(w: nat)
      requires w < |waiters|
      modifies this`tasks
      ensures State() == SyncMessage.LoseSlot(old(State()), w)
    {
      if waiters[w].slot.Filled? {
        var k := waiters[w].slot.task;
        if k < |tasks| {
          tasks := tasks[k := tasks[k].(fate := Discarded(w))];
        }
      }
    }

    /** The error arm: the entry under the packet's id is removed again. */
    method Unregister(w: nat)
      requires InPhase(State(), w, Failing)
      modifies this
      ensures State() == Apply(old(State()), Event.Unregister(w))
      ensures waiters[w].id !in notify && waiters[w].phase == Refused
      ensures old(Consistent(State())) ==> Consistent(State())
    {
      Keeps(State(), Event.Unregister(w));
      DropSender(waiters[w].id);
      notify := notify - {waiters[w].id};
      LoseSlot(w);
      waiters := waiters[w := waiters[w].(phase := Refused)];
    }

    /**
     `sync_send` up to its wait, if no other task runs in between: the call then waits under its id, or
     the channel refused the packet and nothing is left in the map under the id.
     */
    method SyncSend(id: int, accepted: bool) returns (w: nat)
      modifies this
      ensures w == old(|waiters|) && w < |waiters| && waiters[w].id == id
      ensures accepted ==> waiters[w].phase == Waiting && id in notify && notify[id] == w
      ensures !accepted ==> waiters[w].phase == Refused && id !in notify
      ensures old(Intact(State())) ==> Intact(State())
    {
      ghost var s := State();
      w := Register(id);
      Send(w, accepted);
      if !accepted {
        Unregister(w);
      }
      if Intact(s) {
        StepIntact(s, Event.Register(id));
        var s1 := Apply(s, Event.Register(id));
        var sent := if accepted then SendOk(w) else SendErr(w);
        StepIntact(s1, sent);
        if !accepted {
          StepIntact(Apply(s1, sent), Event.Unregister(w));
        }
      }
    }

    /** A packet task starts. */
    method Arrive(id: int) returns (k: nat)
      modifies this`tasks
      ensures State() == Apply(old(State()), Event.Arrive(id))
      ensures k == old(|tasks|)
      ensures old(Consistent(State())) ==> Consistent(State())
    {
      Keeps(State(), Event.Arrive(id));
      k := |tasks|;
      tasks := tasks + [Task(id, InFlight, 0)];
    }

    /** The lookup of `process`: Some is the waiter to notify, None leaves the packet to the inner processor. */
    method Take(k: nat) returns (waiter: Option<nat>)
      requires k < |tasks| && tasks[k].fate == InFlight
      modifies this
      ensures State() == Apply(old(State()), Event.Take(k))
      ensures waiter.Some? ==> tasks[k].fate == Holding(waiter.value)
      ensures waiter.None? ==> tasks[k].fate == Inner
      ensures tasks[k].id !in notify || old(notify)[tasks[k].id] >= |waiters|
      ensures old(Consistent(State())) ==>
                && Consistent(State())
                && tasks[k].id !in notify
                && (waiter.Some? <==> tasks[k].id in old(notify))
                && (waiter.Some? ==> waiter.value < |waiters| && waiters[waiter.value].id == tasks[k].id)
    {
      Keeps(State(), Event.Take(k));
      if Consistent(State()) && tasks[k].id in notify {
        assert EntryOk(State(), tasks[k].id);
      }
      var id := tasks[k].id;
      if id in notify && notify[id] < |waiters| {
        var w := notify[id];
        waiters := waiters[w := waiters[w].(taker := Some(k))];
        notify := notify - {id};
        tasks := tasks[k := Task(id, Holding(w), clock)];
        waiter := Some(w);
      } else {
        tasks := tasks[k := Task(id, Inner, clock)];
        waiter := None;
      }
      clock := clock + 1;
    }

    /** `notify.send(packet)`: heard if the waiter still listens, else thrown away. */
    method Fire(k: nat) returns (heard: bool)
      requires k < |tasks| && tasks[k].fate.Holding?
      modifies this`waiters, this`tasks
      ensures State() == Apply(old(State()), Event.Fire(k))
      ensures heard <==> tasks[k].fate.Delivered?
      ensures var w := old(tasks[k].fate.w);
              old(Consistent(State())) ==>
                && Consistent(State())
                && w < |waiters| && (heard <==> Listening(waiters[w].phase)) && waiters[w].id == tasks[k].id
    {
      Keeps(State(), Event.Fire(k));
      if Consistent(State()) {
        assert TaskOk(State(), k) && WaiterOk(State(), tasks[k].fate.w);
      }
      var w := tasks[k].fate.w;
      if w < |waiters| && Listening(waiters[w].phase) {
        waiters := waiters[w := waiters[w].(slot := Filled(k))];
        tasks := tasks[k := tasks[k].(fate := Delivered(w))];
        heard := true;
      } else {
        tasks := tasks[k := tasks[k].(fate := Discarded(w))];
        heard := false;
      }
    }

    /** A poll of the waiting call; None is `Pending`. */
    method Poll(w: nat, expired: bool) returns (outcome: Option<Phase>)
      requires InPhase(State(), w, Waiting)
      modifies this`waiters, this`tasks
      ensures old(waiters[w].slot).Filled? ==>
                outcome == Some(Replied(old(waiters[w].slot).task)) && State() == Apply(old(State()), Event.Receive(w))
      ensures old(waiters[w].slot) == Dropped ==>
                outcome == Some(Abandoned) && State() == Apply(old(State()), Event.ReceiveNone(w))
      ensures old(waiters[w].slot) == Empty ==>
                if expired then outcome == Some(TimedOut) && State() == Apply(old(State()), Event.Expire(w))
                else outcome == None && State() == old(State())
      ensures old(Consistent(State())) ==>
                && Consistent(State())
                && outcome != Some(Abandoned)
                && (outcome.Some? && outcome.value.Replied? ==>
                      outcome.value.task < |tasks| && tasks[outcome.value.task].id == waiters[w].id)
    {
      if Consistent(State()) {
        assert WaiterOk(State(), w);
        match waiters[w].slot {
          case Filled(_) => Keeps(State(), Event.Receive(w));
          case Empty => Keeps(State(), Event.Expire(w));
          case Dropped =>
        }
      }
      match waiters[w].slot {
        case Filled(k) => outcome := Some(Replied(k));
        case Dropped => outcome := Some(Abandoned);
        case Empty => outcome := if expired then Some(TimedOut) else None;
      }
      if outcome.Some? {
        waiters := waiters[w := waiters[w].(phase := outcome.value)];
      }
    }
  }
}
