/** What the correlation protocol of SyncMessage.dfy guarantees over whole runs. */
module SyncLaws {
  import opened Results
  import opened SyncMessage

  lemma {:induction false} RunKeeps(s: Session, es: seq<Event>, replies: bool)
    requires Consistent(s) && Runs(s, es, replies)
    ensures Consistent(Exec(s, es, replies))
    decreases es
  {
    if es != [] {
      hide Consistent, Apply, Enabled;
      StepKeeps(s, es[0]);
      RunKeeps(Apply(s, es[0]), es[1..], replies);
    }
  }

  /** The map holds exactly the waiters no reply has taken yet: the unresolved and the timed out. */
  lemma MapHoldsExactly(s: Session, id: int)
    requires Consistent(s)
    ensures id in s.notify <==>
            exists w :: 0 <= w < |s.waiters| && s.waiters[w].id == id && s.waiters[w].taker == None
                        && (Listening(s.waiters[w].phase) || s.waiters[w].phase == TimedOut)
  {
    if id in s.notify {
      assert EntryOk(s, id);
      assert WaiterOk(s, s.notify[id]);
    }
    if w :| 0 <= w < |s.waiters| && s.waiters[w].id == id && s.waiters[w].taker == None
            && (Listening(s.waiters[w].phase) || s.waiters[w].phase == TimedOut)
    {
      assert WaiterOk(s, w);
    }
  }

  /** The only ends of a call whose packet went out: a reply of its own, processed later, or a timeout. */
  ghost predicate ProperOutcome(s: Session, w: nat)
    requires w < |s.waiters|
  {
    var x := s.waiters[w];
    match x.phase
    case Replied(k) =>
      && k < |s.tasks|
      && s.tasks[k].id == x.id
      && s.tasks[k].fate == Delivered(w)
      && x.born < s.tasks[k].at
    case Abandoned => false
    case _ => true
  }

  /** With fresh ids `Ok(None)` never happens, and each outcome is a reply of the call's own or a timeout. */
  lemma Outcomes(es: seq<Event>, replies: bool)
    requires Runs(START, es, replies)
    ensures var s := Exec(START, es, replies);
            forall w :: 0 <= w < |s.waiters| ==> ProperOutcome(s, w)
  {
    RunKeeps(START, es, replies);
    var s := Exec(START, es, replies);
    forall w | 0 <= w < |s.waiters|
      ensures ProperOutcome(s, w)
    {
      assert WaiterOk(s, w);
    }
  }

  /** No packet serves two calls and no call is served two packets. */
  lemma OneToOne(s: Session, k: nat, j: nat, u: nat, w: nat)
    requires Intact(s) && k < |s.tasks| && j < |s.tasks| && u < |s.waiters| && w < |s.waiters|
    requires s.tasks[k].fate in {Holding(u), Delivered(u), Discarded(u)}
    requires s.tasks[j].fate in {Holding(w), Delivered(w), Discarded(w)}
    ensures u == w <==> k == j
    ensures s.tasks[k].id == s.waiters[u].id
  {
    assert TaskOk(s, k) && TaskOk(s, j);
    assert WaiterOk(s, u) && WaiterOk(s, w);
  }

  predicate Resolved(p: Phase)
  {
    !Listening(p)
  }

  /** A packet's journey is over: with the inner processor, thrown away, or received by its waiter. */
  predicate Settled(s: Session, k: nat)
    requires k < |s.tasks|
  {
    match s.tasks[k].fate
    case Inner => true
    case Discarded(_) => true
    case Delivered(w) => w < |s.waiters| && s.waiters[w].phase == Replied(k)
    case _ => false
  }

  lemma ResolvedStep(s: Session, e: Event, w: nat)
    requires Enabled(s, e) && w < |s.waiters| && Resolved(s.waiters[w].phase)
    ensures Apply(s, e).waiters[w].phase == s.waiters[w].phase && Apply(s, e).waiters[w].id == s.waiters[w].id
  {
  }

  lemma SettledStep(s: Session, e: Event, k: nat)
    requires Consistent(s) && Enabled(s, e) && k < |s.tasks| && Settled(s, k)
    ensures Apply(s, e).tasks[k] == s.tasks[k] && Settled(Apply(s, e), k)
  {
    assert TaskOk(s, k);
    if e.Fire? {
      assert TaskOk(s, e.k);
    }
    if e.Expire? || e.Unregister? {
      assert WaiterOk(s, e.w);
    }
  }

  /** What is resolved stays as it is for the rest of every run: a call ends once, a packet goes to one place. */
  lemma {:induction false} SettledForever(s: Session, es: seq<Event>, replies: bool, w: nat, k: nat)
    requires Consistent(s) && Runs(s, es, replies)
    ensures var s' := Exec(s, es, replies);
            && (w < |s.waiters| && Resolved(s.waiters[w].phase) ==>
                  w < |s'.waiters| && s'.waiters[w].phase == s.waiters[w].phase && s'.waiters[w].id == s.waiters[w].id)
            && (k < |s.tasks| && Settled(s, k) ==> k < |s'.tasks| && s'.tasks[k] == s.tasks[k] && Settled(s', k))
    decreases es
  {
    if es != [] {
      StepKeeps(s, es[0]);
      NothingRemoved(s, es[0]);
      if w < |s.waiters| && Resolved(s.waiters[w].phase) {
        ResolvedStep(s, es[0], w);
      }
      if k < |s.tasks| && Settled(s, k) {
        SettledStep(s, es[0], k);
      }
      hide Consistent, Apply, Enabled, Settled, Resolved;
      SettledForever(Apply(s, es[0]), es[1..], replies, w, k);
    }
  }

  lemma NothingRemoved(s: Session, e: Event)
    requires Enabled(s, e)
    ensures |s.waiters| <= |Apply(s, e).waiters| && |s.tasks| <= |Apply(s, e).tasks|
  {
  }

  /** A packet's own task can always take it to the end of its journey, in at most two steps. */
  lemma TaskCompletes(s: Session, k: nat)
    requires Intact(s) && k < |s.tasks|
    ensures s.tasks[k].fate == InFlight ==>
              && Enabled(s, Take(k))
              && (Apply(s, Take(k)).tasks[k].fate.Holding? || Apply(s, Take(k)).tasks[k].fate == Inner)
              && (Apply(s, Take(k)).tasks[k].fate == Inner <==> s.tasks[k].id !in s.notify)
    ensures s.tasks[k].fate.Holding? ==>
              && Enabled(s, Fire(k))
              && s.tasks[k].fate.w < |s.waiters|
              && (var w := s.tasks[k].fate.w;
                  Apply(s, Fire(k)).tasks[k].fate
                  == if Listening(s.waiters[w].phase) then Delivered(w) else Discarded(w))
  {
    assert TaskOk(s, k);
    if s.tasks[k].id in s.notify {
      assert EntryOk(s, s.tasks[k].id);
    }
  }

  /**
   A call's next move is always open to it: the channel takes its packet or refuses it, a refusal can be
   undone, and a wait can end at any time, in the reply if there is one.
   */
  lemma CallCompletes(s: Session, w: nat)
    requires w < |s.waiters|
    ensures s.waiters[w].phase == Registered ==>
              && Enabled(s, SendOk(w)) && Apply(s, SendOk(w)).waiters[w].phase == Waiting
              && Enabled(s, SendErr(w)) && Enabled(Apply(s, SendErr(w)), Unregister(w))
    ensures s.waiters[w].phase == Failing ==>
              Enabled(s, Unregister(w)) && Apply(s, Unregister(w)).waiters[w].phase == Refused
    ensures s.waiters[w].phase == Waiting ==>
              && Enabled(s, Expire(w)) && Apply(s, Expire(w)).waiters[w].phase == TimedOut
              && (s.waiters[w].slot.Filled? ==>
                    Enabled(s, Receive(w)) && Apply(s, Receive(w)).waiters[w].phase == Replied(s.waiters[w].slot.task))
  {
  }

  // ---------------------------------------------------------------- no lost reply

  /** Packets with a request's id came after it was sent; one that got past went after the one that answered. */
  ghost predicate Answered(s: Session)
  {
    forall k, w :: 0 <= k < |s.tasks| && 0 <= w < |s.waiters| && s.tasks[k].id == s.waiters[w].id ==>
      AnsweredBy(s, k, w)
  }

  ghost predicate AnsweredBy(s: Session, k: nat, w: nat)
    requires k < |s.tasks| && w < |s.waiters|
  {
    && Sent(s.waiters[w].phase)
    && (s.tasks[k].fate == Inner ==>
          match s.waiters[w].taker
          case None => false
          case Some(j) => j < |s.tasks| && s.tasks[j].at < s.tasks[k].at)
  }

  lemma TakeAnswers(s: Session, k: nat)
    requires Consistent(s) && Answered(s) && Enabled(s, Take(k))
    ensures Answered(ApplyTake(s, k))
  {
    var s' := ApplyTake(s, k);
    var id := s.tasks[k].id;
    if id in s.notify {
      assert EntryOk(s, id);
    }
    forall j, w | 0 <= j < |s'.tasks| && 0 <= w < |s'.waiters| && s'.tasks[j].id == s'.waiters[w].id
      ensures AnsweredBy(s', j, w)
    {
      assert AnsweredBy(s, j, w);
      assert WaiterOk(s, w);
    }
  }

  lemma StepAnswers(s: Session, e: Event)
    requires Consistent(s) && Answered(s)
    requires Enabled(s, e) && FreshId(s, e) && RepliesOnly(s, e)
    ensures Answered(Apply(s, e))
  {
    if e.Take? {
      TakeAnswers(s, e.k);
    } else {
      var s' := Apply(s, e);
      forall j, w | 0 <= j < |s'.tasks| && 0 <= w < |s'.waiters| && s'.tasks[j].id == s'.waiters[w].id
        ensures AnsweredBy(s', j, w)
      {
        if j < |s.tasks| && w < |s.waiters| {
          assert AnsweredBy(s, j, w);
          assert WaiterOk(s, w);
          OthersKeepAnswer(s, e, j, w);
        }
      }
    }
  }

  lemma OthersKeepAnswer(s: Session, e: Event, j: nat, w: nat)
    requires Consistent(s) && Enabled(s, e) && !e.Take?
    requires j < |s.tasks| && w < |s.waiters| && AnsweredBy(s, j, w)
    ensures AnsweredBy(Apply(s, e), j, w)
  {
    if e.Fire? {
      assert TaskOk(s, e.k);
    }
    if e.Expire? || e.Unregister? {
      assert WaiterOk(s, e.w);
    }
  }

  lemma {:induction false} RunAnswers(s: Session, es: seq<Event>)
    requires Consistent(s) && Answered(s) && Runs(s, es, true)
    ensures Consistent(Exec(s, es, true)) && Answered(Exec(s, es, true))
    decreases es
  {
    if es != [] {
      hide Consistent, Answered, Apply, Enabled;
      StepKeeps(s, es[0]);
      StepAnswers(s, es[0]);
      RunAnswers(Apply(s, es[0]), es[1..]);
    }
  }

  /** Task j looked its id up before task k did. */
  ghost predicate Earlier(s: Session, j: nat, k: nat)
    requires j < |s.tasks| && k < |s.tasks|
  {
    s.tasks[j].fate != InFlight && s.tasks[j].id == s.tasks[k].id && s.tasks[j].at < s.tasks[k].at
  }

  /**
   No lost reply: when the peer only replies to what it received, a packet with a request's id goes to
   the inner processor exactly when another packet with that id was looked up before it.
   */
  lemma FirstReplyReachesCaller(es: seq<Event>, k: nat, w: nat)
    requires Runs(START, es, true)
    requires var s := Exec(START, es, true);
             k < |s.tasks| && w < |s.waiters| && s.tasks[k].id == s.waiters[w].id && s.tasks[k].fate != InFlight
    ensures var s := Exec(START, es, true);
            s.tasks[k].fate == Inner <==> exists j :: 0 <= j < |s.tasks| && Earlier(s, j, k)
  {
    RunAnswers(START, es);
    var s := Exec(START, es, true);
    hide Exec, Runs;
    assert WaiterOk(s, w) && TaskOk(s, k) && AnsweredBy(s, k, w);
    if s.tasks[k].fate == Inner {
      assert Earlier(s, s.waiters[w].taker.value, k);
    } else if j :| 0 <= j < |s.tasks| && Earlier(s, j, k) {
      assert TaskOk(s, j) && AnsweredBy(s, j, w);
      OwnWaiter(s, k, w);
      if s.tasks[j].fate != Inner {
        OwnWaiter(s, j, w);
      }
      assert false;
    }
  }

  /** A packet taken off the map went to the one waiter with its id. */
  lemma OwnWaiter(s: Session, k: nat, w: nat)
    requires Consistent(s) && k < |s.tasks| && w < |s.waiters| && s.tasks[k].id == s.waiters[w].id
    requires s.tasks[k].fate != InFlight && s.tasks[k].fate != Inner
    ensures s.waiters[w].taker == Some(k) && s.tasks[k].fate in {Holding(w), Delivered(w), Discarded(w)}
  {
    assert TaskOk(s, k);
    var u := s.tasks[k].fate.w;
    assert WaiterOk(s, u);
  }
}
