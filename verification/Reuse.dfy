/**
 The correlation protocol over any run at all. Nothing keeps callers from registering an id twice, so
 these laws assume no fresh ids: they say exactly which calls are cut off, and whom a packet answers.
 */
module Reuse {
  import opened Results
  import opened SyncMessage
  import opened SyncLaws

  /** The state after any run at all, from its beginning; None if some event was not enabled. */
  function Trace(es: seq<Event>): (r: Option<Session>)
    decreases |es|
  {
    if es == [] then Some(START) else
    match Trace(es[..|es| - 1])
    case None => None
    case Some(s) => if Enabled(s, es[|es| - 1]) then Some(Apply(s, es[|es| - 1])) else None
  }

  predicate Possible(es: seq<Event>)
  {
    Trace(es).Some?
  }

  function After(es: seq<Event>): (s: Session)
    requires Possible(es)
  {
    Trace(es).value
  }

  lemma NothingYet()
    ensures Possible([]) && After([]) == START
  {
  }

  lemma LastStep(es: seq<Event>, e: Event)
    requires Possible(es + [e])
    ensures Possible(es) && Enabled(After(es), e) && After(es + [e]) == Apply(After(es), e)
  {
    hide Enabled, Apply;
    assert (es + [e])[..|es|] == es;
  }

  lemma NextStep(es: seq<Event>, e: Event)
    requires Possible(es) && Enabled(After(es), e)
    ensures Possible(es + [e]) && After(es + [e]) == Apply(After(es), e)
  {
    hide Enabled, Apply;
    assert (es + [e])[..|es|] == es;
  }

  lemma {:induction false} RunIntact(es: seq<Event>)
    requires Possible(es)
    ensures Intact(After(es))
    decreases |es|
  {
    NothingYet();
    hide Possible, After, Enabled, Apply;
    if es != [] {
      var before, e := es[..|es| - 1], es[|es| - 1];
      assert es == before + [e];
      LastStep(before, e);
      RunIntact(before);
      StepIntact(After(before), e);
    }
  }

  // ---------------------------------------------------------------- a call and a packet by their events

  /** What the events of a run say of call w: they are its own moves, and each leads where it should. */
  ghost predicate CallTells(s: Session, es: seq<Event>, w: nat)
    requires w < |s.waiters|
  {
    var p := s.waiters[w].phase;
    && (Sent(p) <==> SendOk(w) in es)
    && (p.Replied? <==> Receive(w) in es)
    && (p == Abandoned <==> ReceiveNone(w) in es)
    && (p == TimedOut <==> Expire(w) in es)
    && (p == Refused <==> Unregister(w) in es)
    && (Enabled(s, Unregister(w)) <==> SendErr(w) in es && Unregister(w) !in es)
  }

  ghost predicate NoCall(es: seq<Event>, w: nat)
  {
    && SendOk(w) !in es && SendErr(w) !in es && Unregister(w) !in es
    && Receive(w) !in es && ReceiveNone(w) !in es && Expire(w) !in es
  }

  lemma CallStep(s: Session, es: seq<Event>, e: Event, w: nat)
    requires Enabled(s, e)
    requires w < |s.waiters| ==> CallTells(s, es, w)
    requires w >= |s.waiters| ==> NoCall(es, w)
    ensures w < |Apply(s, e).waiters| ==> CallTells(Apply(s, e), es + [e], w)
    ensures w >= |Apply(s, e).waiters| ==> NoCall(es + [e], w)
  {
  }

  /**
   In every run a call is where its events put it: sent, answered, cut off, timed out or refused exactly
   if that happened, and a refused send stays to be undone until it is.
   */
  lemma {:induction false} CallLaw(es: seq<Event>, w: nat)
    requires Possible(es)
    ensures w < |After(es).waiters| ==> CallTells(After(es), es, w)
    ensures w >= |After(es).waiters| ==> NoCall(es, w)
    decreases |es|
  {
    NothingYet();
    if es != [] {
      hide Possible, After, Apply, Enabled, CallTells, NoCall;
      var before, e := es[..|es| - 1], es[|es| - 1];
      assert es == before + [e];
      LastStep(before, e);
      CallLaw(before, w);
      CallStep(After(before), before, e, w);
    }
  }

  /** What the events of a run say of packet k. */
  ghost predicate PacketTells(s: Session, es: seq<Event>, k: nat)
    requires k < |s.tasks|
  {
    var f := s.tasks[k].fate;
    && (f == InFlight <==> Take(k) !in es)
    && (Fire(k) in es ==> Take(k) in es && !f.Holding? && f != Inner)
    && (f.Delivered? ==> Fire(k) in es)
    && (f.Discarded? ==> Fire(k) in es)
  }

  lemma PacketStep(s: Session, es: seq<Event>, e: Event, k: nat)
    requires Enabled(s, e) && Intact(s)
    requires k < |s.tasks| ==> PacketTells(s, es, k)
    requires k >= |s.tasks| ==> Take(k) !in es && Fire(k) !in es
    ensures k < |Apply(s, e).tasks| ==> PacketTells(Apply(s, e), es + [e], k)
    ensures k >= |Apply(s, e).tasks| ==> Take(k) !in es + [e] && Fire(k) !in es + [e]
  {
    if e.Expire? || e.Unregister? {
      assert WaiterOk(s, e.w);
    }
  }

  /** In every run a packet is looked up once, and used if and only if a task fired it. */
  lemma {:induction false} PacketLaw(es: seq<Event>, k: nat)
    requires Possible(es)
    ensures k < |After(es).tasks| ==> PacketTells(After(es), es, k)
    ensures k >= |After(es).tasks| ==> Take(k) !in es && Fire(k) !in es
    decreases |es|
  {
    NothingYet();
    if es != [] {
      hide Possible, After, Apply, Enabled, PacketTells, Intact;
      var before, e := es[..|es| - 1], es[|es| - 1];
      assert es == before + [e];
      LastStep(before, e);
      RunIntact(before);
      PacketLaw(before, k);
      PacketStep(After(before), before, e, k);
    }
  }

  /** The ids registered in a run, in order. */
  function RegisteredIds(es: seq<Event>): (ids: seq<int>)
  {
    if es == [] then [] else
    var e := es[|es| - 1];
    RegisteredIds(es[..|es| - 1]) + if e.Register? then [e.id] else []
  }

  /** The ids of the packets that came in, in order. */
  function ArrivedIds(es: seq<Event>): (ids: seq<int>)
  {
    if es == [] then [] else
    var e := es[|es| - 1];
    ArrivedIds(es[..|es| - 1]) + if e.Arrive? then [e.id] else []
  }

  ghost predicate Carries(s: Session, calls: seq<int>, packets: seq<int>)
  {
    && |s.waiters| == |calls| && |s.tasks| == |packets|
    && (forall w :: 0 <= w < |calls| ==> s.waiters[w].id == calls[w])
    && (forall k :: 0 <= k < |packets| ==> s.tasks[k].id == packets[k])
  }

  lemma CarriesStep(s: Session, e: Event, calls: seq<int>, packets: seq<int>)
    requires Enabled(s, e) && Carries(s, calls, packets)
    ensures Carries(Apply(s, e),
                    calls + (if e.Register? then [e.id] else []), packets + if e.Arrive? then [e.id] else [])
  {
    IdsStay(s, e);
    PacketIdsStay(s, e);
    hide Apply, Enabled;
  }

  lemma PacketIdsStay(s: Session, e: Event)
    requires Enabled(s, e)
    ensures var s' := Apply(s, e);
            && |s'.tasks| == |s.tasks| + (if e.Arrive? then 1 else 0)
            && (e.Arrive? ==> s'.tasks[|s.tasks|].id == e.id)
            && forall k :: 0 <= k < |s.tasks| ==> s'.tasks[k].id == s.tasks[k].id
  {
  }

  /** Calls and packets keep the ids they came with, in order. */
  lemma {:induction false} IdsLaw(es: seq<Event>)
    requires Possible(es)
    ensures Carries(After(es), RegisteredIds(es), ArrivedIds(es))
    decreases |es|
  {
    NothingYet();
    if es != [] {
      hide Possible, After, Apply, Enabled, Carries;
      var before, e := es[..|es| - 1], es[|es| - 1];
      assert es == before + [e];
      LastStep(before, e);
      IdsLaw(before);
      CarriesStep(After(before), e, RegisteredIds(before), ArrivedIds(before));
    }
  }

  // ---------------------------------------------------------------- cut off, or answered

  /** Event n of the run drops w's sender. */
  ghost predicate CutAt(es: seq<Event>, n: nat, w: nat)
    requires n < |es|
  {
    Possible(es[..n]) && Cuts(After(es[..n]), es[n], w)
  }

  ghost predicate CutOff(es: seq<Event>, w: nat)
  {
    exists n :: 0 <= n < |es| && CutAt(es, n, w)
  }

  lemma CutOffMore(es: seq<Event>, e: Event, w: nat)
    requires Possible(es)
    ensures CutOff(es + [e], w) <==> CutOff(es, w) || Cuts(After(es), e, w)
  {
    hide Possible, After, Cuts;
    var more := es + [e];
    assert more[..|es|] == es;
    assert CutAt(more, |es|, w) <==> Cuts(After(es), e, w);
    forall n | 0 <= n < |es|
      ensures CutAt(more, n, w) <==> CutAt(es, n, w)
    {
      assert more[..n] == es[..n];
    }
    if n :| 0 <= n < |es| && CutAt(es, n, w) {
      assert CutAt(more, n, w);
    }
  }

  /**
   In every run, fresh ids or not: a call's sender was dropped, so that a call that waits can end in
   `Ok(None)`, if and only if its id was registered again or given up before a packet took the sender.
   */
  lemma {:induction false} CutOffIff(es: seq<Event>, w: nat)
    requires Possible(es)
    ensures CutOff(es, w) ==> w < |After(es).waiters|
    ensures w < |After(es).waiters| ==> (After(es).waiters[w].slot == Dropped <==> CutOff(es, w))
    ensures Enabled(After(es), ReceiveNone(w)) <==> InPhase(After(es), w, Waiting) && CutOff(es, w)
    decreases |es|
  {
    NothingYet();
    if es != [] {
      hide Possible, After, Apply, CutOff;
      var before, e := es[..|es| - 1], es[|es| - 1];
      assert es == before + [e];
      LastStep(before, e);
      CutOffIff(before, w);
      CutOffMore(before, e, w);
      RunIntact(before);
      CutStep(After(before), e, w);
    }
  }

  lemma CutStep(s: Session, e: Event, w: nat)
    requires Intact(s) && Enabled(s, e)
    ensures w < |s.waiters| ==>
              && w < |Apply(s, e).waiters|
              && (Apply(s, e).waiters[w].slot == Dropped <==> s.waiters[w].slot == Dropped || Cuts(s, e, w))
    ensures |s.waiters| <= w < |Apply(s, e).waiters| ==> Apply(s, e).waiters[w].slot == Empty
  {
    IdsStay(s, e);
    if w < |s.waiters| {
      DroppedStep(s, e, w);
    }
  }

  /** Event n of the run looks up, registers or gives up the id of w, which is registered by then. */
  ghost predicate TouchedAt(es: seq<Event>, n: nat, w: nat)
    requires n < |es|
  {
    && Possible(es[..n])
    && w < |After(es[..n]).waiters| && Touches(After(es[..n]), es[n], After(es[..n]).waiters[w].id)
  }

  ghost predicate Touched(es: seq<Event>, w: nat)
  {
    exists n :: 0 <= n < |es| && TouchedAt(es, n, w)
  }

  lemma TouchedMore(es: seq<Event>, e: Event, w: nat)
    requires Possible(es)
    ensures Touched(es + [e], w) <==>
            Touched(es, w) || (w < |After(es).waiters| && Touches(After(es), e, After(es).waiters[w].id))
  {
    hide Possible, After, Touches;
    var more := es + [e];
    assert more[..|es|] == es;
    assert TouchedAt(more, |es|, w) <==> w < |After(es).waiters| && Touches(After(es), e, After(es).waiters[w].id);
    forall n | 0 <= n < |es|
      ensures TouchedAt(more, n, w) <==> TouchedAt(es, n, w)
    {
      assert more[..n] == es[..n];
    }
    if n :| 0 <= n < |es| && TouchedAt(es, n, w) {
      assert TouchedAt(more, n, w);
    }
  }

  lemma EntryStep(s: Session, e: Event, w: nat)
    requires Intact(s) && Enabled(s, e)
    ensures w < |s.waiters| ==>
              && w < |Apply(s, e).waiters|
              && (Mapped(Apply(s, e), w) <==> Mapped(s, w) && !Touches(s, e, s.waiters[w].id))
    ensures |s.waiters| <= w < |Apply(s, e).waiters| ==> Mapped(Apply(s, e), w)
  {
    if w < |s.waiters| {
      MappedStep(s, e, w);
    }
  }

  /** A call's sender is in the map exactly until something touches its id. */
  lemma {:induction false} MappedIff(es: seq<Event>, w: nat)
    requires Possible(es)
    ensures Touched(es, w) ==> w < |After(es).waiters|
    ensures w < |After(es).waiters| ==> (Mapped(After(es), w) <==> !Touched(es, w))
    decreases |es|
  {
    NothingYet();
    if es != [] {
      hide Possible, After, Apply, Touched, Mapped, Touches;
      var before, e := es[..|es| - 1], es[|es| - 1];
      assert es == before + [e];
      LastStep(before, e);
      MappedIff(before, w);
      TouchedMore(before, e, w);
      RunIntact(before);
      EntryStep(After(before), e, w);
      NothingRemoved(After(before), e);
    }
  }

  /**
   Which call a packet answers, in every run, fresh ids or not: of the calls with its id, exactly the
   one since whose registration nothing else looked up, registered or gave up that id.
   */
  lemma AnswersIff(es: seq<Event>, k: nat, w: nat)
    requires Possible(es) && Enabled(After(es), Take(k))
    requires w < |After(es).waiters| && After(es).tasks[k].id == After(es).waiters[w].id
    ensures Possible(es + [Take(k)]) && k < |After(es + [Take(k)]).tasks|
    ensures After(es + [Take(k)]).tasks[k].fate == Holding(w) <==> !Touched(es, w)
  {
    NextStep(es, Take(k));
    MappedIff(es, w);
    RunIntact(es);
    TakeStep(After(es), k, w);
    NothingRemoved(After(es), Take(k));
    hide Possible, After, Apply, Touched;
  }

  /**
   Registering an id in any state a run can reach: a call that waits is then cut off, so that it can
   end in `Ok(None)` and in no reply, exactly if it was before or the id is its own and it is unanswered.
   */
  lemma ReusedIdCutsOff(s: Session, id: int, w: nat)
    requires Intact(s) && InPhase(s, w, Waiting)
    ensures var s' := Apply(s, Register(id));
            && (Enabled(s', ReceiveNone(w)) <==>
                  s.waiters[w].slot == Dropped || (s.waiters[w].id == id && s.waiters[w].taker == None))
            && (Enabled(s', ReceiveNone(w)) ==>
                  !Enabled(s', Receive(w)) && Apply(s', ReceiveNone(w)).waiters[w].phase == Abandoned)
  {
    assert WaiterOk(s, w);
    if id in s.notify {
      assert EntryOk(s, id);
    }
  }

  /** A concrete run that ends in `Ok(None)`. */
  lemma ReusedIdRun()
    ensures var s1 := Apply(START, Register(7));
            var s2 := Apply(s1, SendOk(0));
            var s3 := Apply(s2, Register(7));
            Enabled(s3, ReceiveNone(0)) && Apply(s3, ReceiveNone(0)).waiters[0].phase == Abandoned
  {
    var s1 := Apply(START, Register(7));
    assert s1.waiters == [Waiter(7, Registered, Empty, None, 0)];
  }
}
