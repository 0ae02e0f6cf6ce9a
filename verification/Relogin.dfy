/**
 What a second Login does to the correlation of Correlation.dfy. It starts the ids over, so the laws
 here hold for every run of a connection, with any number of Logins and no bound on the counters.
 */
module Relogin {
  import opened Words
  import opened Results
  import opened SyncMessage
  import opened SyncLaws
  import opened Correlation
  import opened IdLimits
  import Reuse

  // ---------------------------------------------------------------- what ties a connection together

  /** Requests, the ids they use, their frames and the answers to them. */
  ghost predicate Tied(c: Conn)
  {
    && |c.grantOf| == |c.session.waiters| && |c.origins| == |c.session.tasks|
    && (forall w :: 0 <= w < |c.grantOf| ==> WaiterHasGrant(c, w))
    && (forall j :: 0 <= j < |c.down| ==> FrameTied(c, j))
    && (forall k :: 0 <= k < |c.origins| ==> AckTied(c, k))
  }

  /** A frame carries a grant that is used, by a request begun before if it is not one-way. */
  ghost predicate FrameTied(c: Conn, j: nat)
    requires j < |c.down|
  {
    && c.down[j] < |c.grants|
    && match c.grants[c.down[j]].use
       case Unused => false
       case Oneway => true
       case ForWaiter(w) => w < |c.grantOf| && c.grantOf[w] == c.down[j]
  }

  /** An answer carries the id of the frame it answers. */
  ghost predicate AckTied(c: Conn, k: nat)
    requires k < |c.origins| == |c.session.tasks|
  {
    match c.origins[k]
    case FromClient => true
    case AckOf(j) =>
      j < |c.down| && c.down[j] < |c.grants| && c.session.tasks[k].id == c.grants[c.down[j]].id
  }

  /** What an act leaves alone: the grants' ids and those used, the frames, and where packets came from. */
  ghost predicate Extends(c: Conn, d: Conn)
  {
    && |c.grants| <= |d.grants| && |c.grantOf| <= |d.grantOf| && |c.down| <= |d.down| && |c.origins| <= |d.origins|
    && |c.session.waiters| <= |d.session.waiters| && |c.session.tasks| <= |d.session.tasks|
    && (forall i :: 0 <= i < |c.grants| ==> d.grants[i].id == c.grants[i].id)
    && (forall i :: 0 <= i < |c.grants| && c.grants[i].use != Unused ==> d.grants[i].use == c.grants[i].use)
    && (forall w :: 0 <= w < |c.grantOf| ==> d.grantOf[w] == c.grantOf[w])
    && (forall j :: 0 <= j < |c.down| ==> d.down[j] == c.down[j])
    && (forall k :: 0 <= k < |c.origins| ==> d.origins[k] == c.origins[k])
    && (forall w :: 0 <= w < |c.session.waiters| ==> d.session.waiters[w].id == c.session.waiters[w].id)
    && (forall k :: 0 <= k < |c.session.tasks| ==> d.session.tasks[k].id == c.session.tasks[k].id)
  }

  lemma ActExtends(c: Conn, a: Act)
    requires Able(c, a)
    ensures Extends(c, Perform(c, a))
  {
    match a
    case Begin(i) =>
      RegisterFrame(c.session, c.grants[i].id);
      hide Apply;
    case Sync(e) =>
      SessionFrame(c.session, e);
      hide Apply, Enabled;
    case _ =>
  }

  lemma ActTied(c: Conn, a: Act)
    requires Tied(c) && Able(c, a)
    ensures Tied(Perform(c, a))
  {
    var d := Perform(c, a);
    ActExtends(c, a);
    ActAdds(c, a);
    hide Perform, Able;
    forall w | 0 <= w < |d.grantOf|
      ensures WaiterHasGrant(d, w)
    {
      if w < |c.grantOf| {
        assert WaiterHasGrant(c, w);
      }
    }
    forall j | 0 <= j < |d.down|
      ensures FrameTied(d, j)
    {
      if j < |c.down| {
        assert FrameTied(c, j);
      }
    }
    forall k | 0 <= k < |d.origins|
      ensures AckTied(d, k)
    {
      if k < |c.origins| {
        assert AckTied(c, k);
      }
    }
  }

  /** What an act adds: at most one request, one frame and one packet, each tied. */
  lemma ActAdds(c: Conn, a: Act)
    requires Tied(c) && Able(c, a)
    ensures var d := Perform(c, a);
            && |d.grantOf| == |d.session.waiters| <= |c.grantOf| + 1
            && |d.origins| == |d.session.tasks| <= |c.origins| + 1
            && |d.down| <= |c.down| + 1
            && (|c.grantOf| < |d.grantOf| ==> WaiterHasGrant(d, |c.grantOf|))
            && (|c.down| < |d.down| ==> FrameTied(d, |c.down|))
            && (|c.origins| < |d.origins| ==> AckTied(d, |c.origins|))
  {
    match a
    case Begin(i) =>
      RegisterFrame(c.session, c.grants[i].id);
      hide Apply;
    case Sync(e) =>
      SessionFrame(c.session, e);
      if e.SendOk? {
        assert WaiterHasGrant(c, e.w);
      }
      hide Apply, Enabled;
    case ClientAck(j) => assert FrameTied(c, j);
    case _ =>
  }

  // ---------------------------------------------------------------- runs

  /** The session step an act makes, if any. */
  function StepOf(c: Conn, a: Act): (e: Option<SyncMessage.Event>)
    requires Able(c, a)
  {
    match a
    case Begin(i) => Some(Register(c.grants[i].id))
    case ClientSend => Some(Arrive(c.nextClient))
    case ClientAck(j) => Some(Arrive(c.grants[c.down[j]].id))
    case Sync(e) => Some(e)
    case _ => None
  }

  /** The session steps of a run, in order. */
  function Steps(acts: seq<Act>): (es: seq<SyncMessage.Event>)
    requires Happens(NEW_CONN, acts)
    decreases |acts|
  {
    if acts == [] then [] else
    var before, a := acts[..|acts| - 1], acts[|acts| - 1];
    assert acts == before + [a];
    LastAct(NEW_CONN, before, a);
    Steps(before) + match StepOf(After(NEW_CONN, before), a) case None => [] case Some(e) => [e]
  }

  lemma StepsMore(acts: seq<Act>, a: Act)
    requires Happens(NEW_CONN, acts) && Able(After(NEW_CONN, acts), a) && Happens(NEW_CONN, acts + [a])
    ensures Steps(acts + [a]) ==
            Steps(acts) + match StepOf(After(NEW_CONN, acts), a) case None => [] case Some(e) => [e]
  {
    hide StepOf, Happens, After, Able;
    assert (acts + [a])[..|acts|] == acts;
  }

  lemma StepOfSession(c: Conn, a: Act)
    requires Able(c, a)
    ensures StepOf(c, a).None? ==> Perform(c, a).session == c.session
    ensures StepOf(c, a).Some? ==>
              && Enabled(c.session, StepOf(c, a).value)
              && Perform(c, a).session == Apply(c.session, StepOf(c, a).value)
  {
    hide Apply;
  }

  lemma StartTied()
    ensures Tied(NEW_CONN) && Happens(NEW_CONN, []) && After(NEW_CONN, []) == NEW_CONN && Steps([]) == []
    ensures Reuse.Possible([]) && Reuse.After([]) == NEW_CONN.session
  {
    Reuse.NothingYet();
  }

  /** Every run of a connection is a run of its session, so the laws of Reuse.dfy apply. */
  lemma {:induction false} RunTied(acts: seq<Act>)
    requires Happens(NEW_CONN, acts)
    ensures Tied(After(NEW_CONN, acts))
    ensures Reuse.Possible(Steps(acts)) && Reuse.After(Steps(acts)) == After(NEW_CONN, acts).session
    decreases |acts|
  {
    StartTied();
    hide Happens, After, Perform, Able, Steps, StepOf, Tied, Reuse.Possible, Reuse.After;
    if acts != [] {
      var before, a := acts[..|acts| - 1], acts[|acts| - 1];
      assert acts == before + [a];
      LastAct(NEW_CONN, before, a);
      RunTied(before);
      var c := After(NEW_CONN, before);
      ActTied(c, a);
      StepOfSession(c, a);
      StepsMore(before, a);
      match StepOf(c, a)
      case None => assert Steps(before) + [] == Steps(before);
      case Some(e) => Reuse.NextStep(Steps(before), e);
    }
  }

  // ---------------------------------------------------------------- frames and packets by the history

  /** The grants on which requests were begun, in order. */
  function Begun(acts: seq<Act>): (gs: seq<nat>)
  {
    if acts == [] then [] else
    var a := acts[|acts| - 1];
    Begun(acts[..|acts| - 1]) + if a.Begin? then [a.i] else []
  }

  /** The frames that went out, by grant: one-way messages and accepted requests, in order. */
  function FramesOut(acts: seq<Act>): (gs: seq<nat>)
  {
    if acts == [] then [] else
    var before, a := acts[..|acts| - 1], acts[|acts| - 1];
    FramesOut(before) +
    match a
    case SendOneway(i) => [i]
    case Sync(SendOk(w)) => if w < |Begun(before)| then [Begun(before)[w]] else []
    case _ => []
  }

  /** Where the packets that came in are from, in order. */
  function PacketsIn(acts: seq<Act>): (os: seq<Origin>)
  {
    if acts == [] then [] else
    var a := acts[|acts| - 1];
    PacketsIn(acts[..|acts| - 1]) +
    match a
    case ClientSend => [FromClient]
    case ClientAck(j) => [AckOf(j)]
    case _ => []
  }

  function Count(acts: seq<Act>, a: Act): (n: nat)
  {
    if acts == [] then 0 else Count(acts[..|acts| - 1], a) + if acts[|acts| - 1] == a then 1 else 0
  }

  ghost predicate Traced(c: Conn, begun: seq<nat>, frames: seq<nat>, origins: seq<Origin>, sent: nat, logins: nat)
  {
    && c.grantOf == begun && c.down == frames && c.origins == origins
    && c.clientSent == sent && c.nextClient == Wrapping(1 + sent) && c.logins == logins
    && (forall j :: j in c.acked <==> AckOf(j) in origins)
  }

  lemma TracedStep(c: Conn, a: Act, begun: seq<nat>, frames: seq<nat>, origins: seq<Origin>, sent: nat, logins: nat)
    requires Able(c, a) && Traced(c, begun, frames, origins, sent, logins)
    ensures Traced(Perform(c, a),
                   begun + (if a.Begin? then [a.i] else []),
                   frames + (match a
                             case SendOneway(i) => [i]
                             case Sync(SendOk(w)) => if w < |begun| then [begun[w]] else []
                             case _ => []),
                   origins + (match a
                              case ClientSend => [FromClient]
                              case ClientAck(j) => [AckOf(j)]
                              case _ => []),
                   sent + (if a == ClientSend then 1 else 0), logins + (if a == Login then 1 else 0))
  {
    WrappingStep(1 + sent);
    hide Apply, Enabled;
  }

  /** After every run the frames, the packets and the client's counter are what the history says. */
  lemma {:induction false} RunTraced(acts: seq<Act>)
    requires Happens(NEW_CONN, acts)
    ensures Traced(After(NEW_CONN, acts), Begun(acts), FramesOut(acts), PacketsIn(acts),
                   Count(acts, ClientSend), Count(acts, Login))
    decreases |acts|
  {
    StartTied();
    WrappingSame(1);
    if acts != [] {
      hide Happens, After, Perform, Able, Traced;
      var before, a := acts[..|acts| - 1], acts[|acts| - 1];
      assert acts == before + [a];
      LastAct(NEW_CONN, before, a);
      RunTraced(before);
      TracedStep(After(NEW_CONN, before), a, Begun(before), FramesOut(before), PacketsIn(before),
                 Count(before, ClientSend), Count(before, Login));
    }
  }

  lemma {:induction false} AcksIn(acts: seq<Act>, j: nat)
    ensures AckOf(j) in PacketsIn(acts) <==> ClientAck(j) in acts
    decreases |acts|
  {
    if acts != [] {
      AcksIn(acts[..|acts| - 1], j);
      assert acts == acts[..|acts| - 1] + [acts[|acts| - 1]];
    }
  }

  /** After every run the client can answer exactly the frames that reached it and that it has not answered. */
  lemma AnswerOnce(acts: seq<Act>, j: nat)
    requires Happens(NEW_CONN, acts)
    ensures Able(After(NEW_CONN, acts), ClientAck(j)) <==> j < |FramesOut(acts)| && ClientAck(j) !in acts
  {
    RunTraced(acts);
    RunTied(acts);
    AcksIn(acts, j);
    var c := After(NEW_CONN, acts);
    hide Happens, After, FramesOut, PacketsIn;
    if j < |c.down| {
      assert FrameTied(c, j);
    }
  }

  /** An id handed out can be used once, for a request or for a one-way message, and the frame can then be answered. */
  lemma UseOnce(c: Conn, i: nat)
    requires Tied(c)
    ensures Able(c, Begin(i)) <==> i < |c.grants| && c.grants[i].use == Unused
    ensures Able(c, SendOneway(i)) <==> i < |c.grants| && c.grants[i].use == Unused
    ensures Able(c, SendOneway(i)) ==>
              !Able(Perform(c, SendOneway(i)), SendOneway(i)) && !Able(Perform(c, SendOneway(i)), Begin(i))
    ensures Able(c, Begin(i)) ==>
              var d := Perform(c, Begin(i));
              && !Able(d, SendOneway(i)) && !Able(d, Begin(i))
              && Able(d, Sync(SendOk(|c.grantOf|)))
              && Perform(d, Sync(SendOk(|c.grantOf|))).down == c.down + [i]
  {
    if Able(c, Begin(i)) {
      RegisterFrame(c.session, c.grants[i].id);
      hide Apply;
    }
  }

  // ---------------------------------------------------------------- whom an acknowledgement answers

  /**
   In every run: an acknowledgement carries the id of its own caller w, and it answers w exactly if
   since w registered nothing else looked up, registered or gave up that id.
   */
  lemma AckAnswersCallerIff(acts: seq<Act>, k: nat)
    requires Happens(NEW_CONN, acts)
    requires var c := After(NEW_CONN, acts);
             && Able(c, Sync(Take(k))) && k < |c.origins| && c.origins[k].AckOf?
             && c.origins[k].j < |c.down| && c.down[c.origins[k].j] < |c.grants|
             && c.grants[c.down[c.origins[k].j]].use.ForWaiter?
    ensures var c := After(NEW_CONN, acts);
            var w := c.grants[c.down[c.origins[k].j]].use.w;
            && w < |c.session.waiters| && c.session.waiters[w].id == c.session.tasks[k].id
            && (Perform(c, Sync(Take(k))).session.tasks[k].fate == Holding(w) <==> !Reuse.Touched(Steps(acts), w))
  {
    RunTied(acts);
    var c := After(NEW_CONN, acts);
    hide After, Happens, Steps, Reuse.Touched, Reuse.After, Reuse.Possible;
    var w := c.grants[c.down[c.origins[k].j]].use.w;
    assert AckTied(c, k) && FrameTied(c, c.origins[k].j) && WaiterHasGrant(c, w);
    PacketAnswersIff(acts, k, w);
  }

  /** And it, like any packet, answers another call exactly if that holds of the other call, which has the same id. */
  lemma PacketAnswersIff(acts: seq<Act>, k: nat, w: nat)
    requires Happens(NEW_CONN, acts) && Able(After(NEW_CONN, acts), Sync(Take(k)))
    requires w < |After(NEW_CONN, acts).session.waiters|
    requires After(NEW_CONN, acts).session.tasks[k].id == After(NEW_CONN, acts).session.waiters[w].id
    ensures k < |Perform(After(NEW_CONN, acts), Sync(Take(k))).session.tasks|
    ensures Perform(After(NEW_CONN, acts), Sync(Take(k))).session.tasks[k].fate == Holding(w)
            <==> !Reuse.Touched(Steps(acts), w)
  {
    RunTied(acts);
    hide Steps, Reuse.Touched, Reuse.After, Reuse.Possible, After, Happens;
    Reuse.AnswersIff(Steps(acts), k, w);
    Reuse.NextStep(Steps(acts), Take(k));
  }

  // ---------------------------------------------------------------- a request after another Login

  /** How many ids were handed out since the last Login; None before the first. */
  function SinceLogin(acts: seq<Act>): (n: Option<nat>)
    decreases |acts|
  {
    if acts == [] then None else
    var before, a := SinceLogin(acts[..|acts| - 1]), acts[|acts| - 1];
    if a == Login then Some(0)
    else if a == Gen && before.Some? then Some(before.value + 1)
    else before
  }

  /** For each id handed out, how many came before it since the Login it follows. */
  function Ranks(acts: seq<Act>): (ns: seq<nat>)
    decreases |acts|
  {
    if acts == [] then [] else
    var before, a := acts[..|acts| - 1], acts[|acts| - 1];
    Ranks(before) + if a == Gen && SinceLogin(before).Some? then [SinceLogin(before).value] else []
  }

  /** The counter and every id handed out, from the history alone. */
  ghost predicate Numbered(c: Conn, since: Option<nat>, ranks: seq<nat>)
  {
    && (since.None? ==> c.counter == None)
    && (since.Some? ==> c.counter == Some(Wrapping(MAX - since.value)))
    && |c.grants| == |ranks|
    && forall i :: 0 <= i < |ranks| ==> c.grants[i].id == Wrapping(MAX - ranks[i])
  }

  lemma NumberedStep(c: Conn, a: Act, since: Option<nat>, ranks: seq<nat>)
    requires Able(c, a) && Numbered(c, since, ranks)
    ensures Numbered(Perform(c, a),
                     if a == Login then Some(0) else if a == Gen && since.Some? then Some(since.value + 1) else since,
                     ranks + if a == Gen && since.Some? then [since.value] else [])
  {
    WrappingSame(MAX);
    ActExtends(c, a);
    if a == Gen && since.Some? {
      WrappingDown(MAX - since.value);
    }
    hide Apply, Enabled;
  }

  lemma {:induction false} RunNumbered(acts: seq<Act>)
    requires Happens(NEW_CONN, acts)
    ensures Numbered(After(NEW_CONN, acts), SinceLogin(acts), Ranks(acts))
    decreases |acts|
  {
    StartTied();
    if acts != [] {
      hide Happens, After, Perform, Able, Numbered;
      var before, a := acts[..|acts| - 1], acts[|acts| - 1];
      assert acts == before + [a];
      LastAct(NEW_CONN, before, a);
      RunNumbered(before);
      NumberedStep(After(NEW_CONN, before), a, SinceLogin(before), Ranks(before));
    }
  }

  lemma SameRank(a: nat, b: nat)
    ensures Wrapping(MAX - a) == Wrapping(MAX - b) <==> Wrapping(a) == Wrapping(b)
  {
  }

  lemma BeginCuts(c: Conn, i: nat, w: nat)
    requires Intact(c.session) && Able(c, Begin(i)) && InPhase(c.session, w, Waiting)
    ensures Enabled(Perform(c, Begin(i)).session, ReceiveNone(w))
            <==> c.session.waiters[w].slot == Dropped
                 || (c.session.waiters[w].taker == None && c.session.waiters[w].id == c.grants[i].id)
  {
    StepOfSession(c, Begin(i));
    hide Perform, Intact, Apply;
    Reuse.ReusedIdCutsOff(c.session, c.grants[i].id, w);
  }

  /** A call's id and a grant's id are the same exactly if they have the same rank, up to wrap-around. */
  lemma SameIdIff(c: Conn, since: Option<nat>, ranks: seq<nat>, i: nat, w: nat)
    requires Tied(c) && Numbered(c, since, ranks) && i < |c.grants| && w < |c.session.waiters|
    ensures w < |c.grantOf| && c.grantOf[w] < |ranks| == |c.grants|
    ensures c.session.waiters[w].id == c.grants[i].id <==> Wrapping(ranks[i]) == Wrapping(ranks[c.grantOf[w]])
  {
    assert WaiterHasGrant(c, w);
    SameRank(ranks[i], ranks[c.grantOf[w]]);
    hide Wrapping;
  }

  /**
   After any run, with any Logins and requests in any order: beginning a request on grant i cuts off a
   waiting call exactly if the call was cut off before, or is unanswered and got its own id, after its
   Login, at the same rank as i after its Login.
   */
  lemma RepeatedLoginCutsOff(acts: seq<Act>, i: nat, w: nat)
    requires Happens(NEW_CONN, acts)
    requires Able(After(NEW_CONN, acts), Begin(i)) && InPhase(After(NEW_CONN, acts).session, w, Waiting)
    ensures var c := After(NEW_CONN, acts);
            var ranks := Ranks(acts);
            && w < |c.grantOf| && c.grantOf[w] < |ranks| == |c.grants|
            && (Enabled(Perform(c, Begin(i)).session, ReceiveNone(w))
                <==> Reuse.CutOff(Steps(acts), w)
                     || (c.session.waiters[w].taker == None && Wrapping(ranks[i]) == Wrapping(ranks[c.grantOf[w]])))
  {
    hide Happens, After, Steps, Ranks, SinceLogin, Perform, Wrapping, Tied, Numbered, Intact;
    hide Reuse.CutOff, Reuse.Possible, Reuse.After;
    RunTied(acts);
    RunNumbered(acts);
    Reuse.CutOffIff(Steps(acts), w);
    Reuse.RunIntact(Steps(acts));
    var c := After(NEW_CONN, acts);
    SameIdIff(c, SinceLogin(acts), Ranks(acts), i, w);
    BeginCuts(c, i, w);
  }

  /** The first request after a Login waits under MAX. */
  predicate FirstWaits(c: Conn)
  {
    && c.session.waiters == [Waiter(MAX, Waiting, Empty, None, 0)]
    && c.session.notify == map[MAX := 0] && c.session.tasks == [] && c.session.clock == 1
    && c.grants == [Grant(MAX, ForWaiter(0))] && !c.stuck
    && c.grantOf == [0] && c.down == [0] && c.acked == {} && c.origins == []
  }

  lemma FirstRequest() returns (c: Conn)
    ensures Leads(NEW_CONN, [Login, Gen] + [Begin(0), Sync(SendOk(0))], c) && FirstWaits(c)
  {
    LeadsTwice(NEW_CONN, Login, Gen);
    var b := Perform(Perform(NEW_CONN, Login), Gen);
    assert b.grants == [Grant(MAX, Unused)];
    LeadsTwice(b, Begin(0), Sync(SendOk(0)));
    hide Leads;
    c := Perform(Perform(b, Begin(0)), Sync(SendOk(0)));
    LeadsOn(NEW_CONN, [Login, Gen], b, [Begin(0), Sync(SendOk(0))], c);
  }

  lemma SecondRequest(c: Conn) returns (d: Conn)
    requires FirstWaits(c)
    ensures Leads(c, [Login, Gen] + [Begin(1), Sync(ReceiveNone(0))], d) && InPhase(d.session, 0, Abandoned)
  {
    LeadsTwice(c, Login, Gen);
    var b := Perform(Perform(c, Login), Gen);
    assert b.grants[1] == Grant(MAX, Unused);
    LeadsTwice(b, Begin(1), Sync(ReceiveNone(0)));
    hide Leads;
    d := Perform(Perform(b, Begin(1)), Sync(ReceiveNone(0)));
    LeadsOn(c, [Login, Gen], b, [Begin(1), Sync(ReceiveNone(0))], d);
  }

  /** And it happens: a request waits, the client logs in again, the next request ends the first in `Ok(None)`. */
  lemma RepeatedLoginRun()
    ensures var acts := [Login, Gen, Begin(0), Sync(SendOk(0)), Login, Gen, Begin(1), Sync(ReceiveNone(0))];
            Happens(NEW_CONN, acts) && InPhase(After(NEW_CONN, acts).session, 0, Abandoned)
  {
    hide Happens, After;
    var c := FirstRequest();
    var d := SecondRequest(c);
    var a := [Login, Gen] + [Begin(0), Sync(SendOk(0))];
    var b := [Login, Gen] + [Begin(1), Sync(ReceiveNone(0))];
    LeadsOn(NEW_CONN, a, c, b, d);
    assert a + b == [Login, Gen, Begin(0), Sync(SendOk(0)), Login, Gen, Begin(1), Sync(ReceiveNone(0))];
  }

  // ---------------------------------------------------------------- a late acknowledgement

  /** The first request timed out unanswered, and its id was handed out again after a second Login. */
  predicate FirstExpired(c: Conn)
  {
    && c.session.waiters == [Waiter(MAX, TimedOut, Empty, None, 0)]
    && c.session.notify == map[MAX := 0] && c.session.tasks == [] && c.session.clock == 1
    && c.grants == [Grant(MAX, ForWaiter(0)), Grant(MAX, Unused)]
    && c.grantOf == [0] && c.down == [0] && c.acked == {} && c.origins == []
  }

  lemma ExpireAndRelogin() returns (c: Conn)
    ensures Leads(NEW_CONN, [Login, Gen] + [Begin(0), Sync(SendOk(0))] + ([Sync(Expire(0)), Login] + [Gen]), c)
    ensures FirstExpired(c)
  {
    var b := FirstRequest();
    LeadsTwice(b, Sync(Expire(0)), Login);
    var d := Perform(Perform(b, Sync(Expire(0))), Login);
    LeadsOne(d, Gen);
    hide Leads;
    c := Perform(d, Gen);
    LeadsOn(b, [Sync(Expire(0)), Login], d, [Gen], c);
    LeadsOn(NEW_CONN, [Login, Gen] + [Begin(0), Sync(SendOk(0))], b, [Sync(Expire(0)), Login] + [Gen], c);
  }

  /** The second request waits under the same id; the answer to the first frame has come in. */
  predicate LateAckIn(c: Conn)
  {
    && |c.session.waiters| == 2
    && c.session.waiters[0].phase == TimedOut
    && c.session.waiters[1].phase == Waiting && c.session.waiters[1].slot == Empty
    && c.session.notify == map[MAX := 1]
    && c.session.tasks == [Task(MAX, InFlight, 0)] && c.origins == [AckOf(0)]
    && c.down == [0, 1] && |c.grants| == 2 && c.grants[0].use == ForWaiter(0)
  }

  lemma SecondBegins(c: Conn) returns (d: Conn)
    requires FirstExpired(c)
    ensures Leads(c, [Begin(1)], d)
    ensures d.session == Session(2, [Waiter(MAX, TimedOut, Dropped, None, 0), Waiter(MAX, Registered, Empty, None, 1)],
                                 map[MAX := 1], [])
    ensures d.grants == [Grant(MAX, ForWaiter(0)), Grant(MAX, ForWaiter(1))] && d.grantOf == [0, 1]
    ensures d.down == [0] && d.acked == {} && d.origins == []
  {
    LeadsOne(c, Begin(1));
    hide Leads;
    d := Perform(c, Begin(1));
  }

  lemma SecondWaits(c: Conn) returns (d: Conn)
    requires FirstExpired(c)
    ensures Leads(c, [Begin(1)] + [Sync(SendOk(1)), ClientAck(0)], d) && LateAckIn(d)
  {
    var b := SecondBegins(c);
    LeadsTwice(b, Sync(SendOk(1)), ClientAck(0));
    hide Leads;
    d := Perform(Perform(b, Sync(SendOk(1))), ClientAck(0));
    LeadsOn(c, [Begin(1)], b, [Sync(SendOk(1)), ClientAck(0)], d);
  }

  /** The second caller's reply is the answer to the first request. */
  predicate AnsweredByOther(c: Conn)
  {
    && |c.session.waiters| == 2
    && c.session.waiters[0].phase == TimedOut && c.session.waiters[1].phase == Replied(0)
    && c.origins == [AckOf(0)] && c.down == [0, 1] && |c.grants| == 2 && c.grants[0].use == ForWaiter(0)
  }

  lemma LateAckTaken(c: Conn) returns (d: Conn)
    requires LateAckIn(c)
    ensures Leads(c, [Sync(Take(0)), Sync(Fire(0))] + [Sync(Receive(1))], d) && AnsweredByOther(d)
  {
    LeadsTwice(c, Sync(Take(0)), Sync(Fire(0)));
    var b := Perform(Perform(c, Sync(Take(0))), Sync(Fire(0)));
    LeadsOne(b, Sync(Receive(1)));
    hide Leads;
    d := Perform(b, Sync(Receive(1)));
    LeadsOn(c, [Sync(Take(0)), Sync(Fire(0))], b, [Sync(Receive(1))], d);
  }

  /** A request times out, the client logs in again, and the late answer is taken for the next request's. */
  lemma LateAckRun()
    ensures var acts := [Login, Gen, Begin(0), Sync(SendOk(0)), Sync(Expire(0)), Login, Gen,
                         Begin(1), Sync(SendOk(1)), ClientAck(0), Sync(Take(0)), Sync(Fire(0)), Sync(Receive(1))];
            Happens(NEW_CONN, acts) && AnsweredByOther(After(NEW_CONN, acts))
  {
    hide Happens, After, FirstExpired, LateAckIn, AnsweredByOther;
    var b := ExpireAndRelogin();
    var c := SecondWaits(b);
    var d := LateAckTaken(c);
    var first := [Login, Gen] + [Begin(0), Sync(SendOk(0))] + ([Sync(Expire(0)), Login] + [Gen]);
    var second := [Begin(1)] + [Sync(SendOk(1)), ClientAck(0)];
    var third := [Sync(Take(0)), Sync(Fire(0))] + [Sync(Receive(1))];
    LeadsOn(NEW_CONN, first, b, second, c);
    LeadsOn(NEW_CONN, first + second, c, third, d);
    assert first + second + third ==
           [Login, Gen, Begin(0), Sync(SendOk(0)), Sync(Expire(0)), Login, Gen,
            Begin(1), Sync(SendOk(1)), ClientAck(0), Sync(Take(0)), Sync(Fire(0)), Sync(Receive(1))];
  }
}
