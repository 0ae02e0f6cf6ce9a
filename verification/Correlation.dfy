/**
 The two id allocators of one connection, counting towards each other over the correlation protocol:
 the client numbers its packets upwards from 1, the server numbers its requests downwards from
 u64::MAX once a Login was processed, and the client echoes a request's id in its acknowledgement.
 */
module Correlation {
  import opened Words
  import opened Results
  import opened SyncMessage
  import opened SyncLaws

  const MAX: u64 := 0xFFFF_FFFF_FFFF_FFFF

  /** What became of an id the server handed out. */
  datatype Use = Unused | Oneway | ForWaiter(w: nat)

  datatype Grant = Grant(id: u64, use: Use)

  /** Where an inbound packet came from: the client's own counter, or its answer to a request frame. */
  datatype Origin = FromClient | AckOf(j: nat)

  datatype Conn = Conn(
    session: Session,
    counter: Option<u64>,     // this connection's entry in the server's counter map
    stuck: bool,              // some task, here or on another connection, waits for the counter lock it holds itself
    grants: seq<Grant>,       // ids handed out, in order
    grantOf: seq<nat>,        // per waiter, the grant it uses
    down: seq<nat>,           // request frames sent to the client, by grant
    acked: set<nat>,          // those of them the client answered
    origins: seq<Origin>,     // per inbound packet
    nextClient: u64,
    clientSent: nat,
    logins: nat)

  const NEW_CONN: Conn := Conn(SyncMessage.START, None, false, [], [], [], {}, [], 1, 0, 0)

  datatype Act =
    | Login
    | Gen
    | OtherBlocks
    | Begin(i: nat)
    | SendOneway(i: nat)
    | ClientSend
    | ClientAck(j: nat)
    | Sync(e: SyncMessage.Event)

  predicate Able(c: Conn, a: Act)
  {
    match a
    case Login => !c.stuck
    case Gen => !c.stuck
    case OtherBlocks => true
    case Begin(i) => i < |c.grants| && c.grants[i].use == Unused
    case SendOneway(i) => i < |c.grants| && c.grants[i].use == Unused
    case ClientSend => true
    case ClientAck(j) => j < |c.down| && c.down[j] < |c.grants| && j !in c.acked
    case Sync(e) => !e.Register? && !e.Arrive? && Enabled(c.session, e) && (e.SendOk? ==> e.w < |c.grantOf|)
  }

  /** `gen_request_id`: fetch_sub wraps; with no entry the task locks the mutex it already holds. */
  function Generate(c: Conn): (c': Conn)
  {
    match c.counter
    case None => c.(stuck := true)
    case Some(n) =>
      c.(grants := c.grants + [Grant(n, Unused)], counter := Some(if n == 0 then MAX else n - 1))
  }

  function SetUse(c: Conn, i: nat, use: Use): (c': Conn)
    requires i < |c.grants|
  {
    c.(grants := c.grants[i := c.grants[i].(use := use)])
  }

  function Perform(c: Conn, a: Act): (c': Conn)
    requires Able(c, a)
  {
    match a
    case Login => c.(counter := Some(MAX), logins := c.logins + 1)
    case Gen => Generate(c)
    case OtherBlocks => c.(stuck := true)
    case Begin(i) =>
      SetUse(c, i, ForWaiter(|c.session.waiters|))
        .(session := Apply(c.session, Register(c.grants[i].id)), grantOf := c.grantOf + [i])
    case SendOneway(i) => SetUse(c, i, Oneway).(down := c.down + [i])
    case ClientSend =>
      c.(session := Apply(c.session, Arrive(c.nextClient)),
         origins := c.origins + [FromClient],
         nextClient := if c.nextClient == MAX then 0 else c.nextClient + 1,
         clientSent := c.clientSent + 1)
    case ClientAck(j) =>
      c.(session := Apply(c.session, Arrive(c.grants[c.down[j]].id)),
         origins := c.origins + [AckOf(j)],
         acked := c.acked + {j})
    case Sync(e) =>
      c.(session := Apply(c.session, e),
         down := if e.SendOk? then c.down + [c.grantOf[e.w]] else c.down)
  }

  predicate Happens(c: Conn, acts: seq<Act>)
    decreases acts
  {
    acts == [] || (Able(c, acts[0]) && Happens(Perform(c, acts[0]), acts[1..]))
  }

  function After(c: Conn, acts: seq<Act>): (c': Conn)
    requires Happens(c, acts)
    decreases acts
  {
    if acts == [] then c else After(Perform(c, acts[0]), acts[1..])
  }

  /** One Login at most, and the two counters have not met. */
  predicate Within(c: Conn)
  {
    c.logins <= 1 && c.clientSent + |c.grants| <= MAX
  }

  // ---------------------------------------------------------------- the invariant

  ghost predicate Allocated(c: Conn)
  {
    && (c.logins == 0 ==> c.counter == None && c.grants == [])
    && (c.logins == 1 ==> c.counter == Some(MAX - |c.grants|))
    && (forall i :: 0 <= i < |c.grants| ==> c.grants[i].id == MAX - i)
    && (c.clientSent < MAX ==> c.nextClient == c.clientSent + 1)
  }

  ghost predicate WaiterHasGrant(c: Conn, w: nat)
    requires w < |c.grantOf| == |c.session.waiters|
  {
    var i := c.grantOf[w];
    i < |c.grants| && c.grants[i].use == ForWaiter(w) && c.session.waiters[w].id == c.grants[i].id
  }

  ghost predicate GrantHasWaiter(c: Conn, i: nat)
    requires i < |c.grants|
  {
    match c.grants[i].use
    case ForWaiter(w) => w < |c.grantOf| && c.grantOf[w] == i
    case _ => true
  }

  ghost predicate FrameOk(c: Conn, j: nat)
    requires j < |c.down|
  {
    && c.down[j] < |c.grants|
    && match c.grants[c.down[j]].use
       case Unused => false
       case Oneway => true
       case ForWaiter(w) => w < |c.session.waiters| && Sent(c.session.waiters[w].phase)
  }

  ghost predicate PacketOk(c: Conn, k: nat)
    requires k < |c.origins| == |c.session.tasks|
  {
    var id := c.session.tasks[k].id;
    match c.origins[k]
    case FromClient => 1 <= id <= c.clientSent
    case AckOf(j) => j < |c.down| && j in c.acked && c.down[j] < |c.grants| && id == c.grants[c.down[j]].id
  }

  ghost predicate Linked(c: Conn)
  {
    && |c.grantOf| == |c.session.waiters| && |c.origins| == |c.session.tasks|
    && (forall w :: 0 <= w < |c.grantOf| ==> WaiterHasGrant(c, w))
    && (forall i :: 0 <= i < |c.grants| ==> GrantHasWaiter(c, i))
    && (forall j :: 0 <= j < |c.down| ==> FrameOk(c, j))
    && (forall k :: 0 <= k < |c.origins| ==> PacketOk(c, k))
    && (forall i, j :: 0 <= i < j < |c.down| ==> c.down[i] != c.down[j])
    && (forall k, l :: 0 <= k < l < |c.origins| && c.origins[k].AckOf? ==> c.origins[k] != c.origins[l])
  }

  ghost predicate Sound(c: Conn)
  {
    Allocated(c) && Linked(c) && Consistent(c.session) && Answered(c.session)
  }

  lemma WaiterFrame(s: Session, e: SyncMessage.Event, w: nat)
    requires Enabled(s, e) && !e.Register? && w < |s.waiters|
    ensures |Apply(s, e).waiters| == |s.waiters|
    ensures Apply(s, e).waiters[w].id == s.waiters[w].id
    ensures Sent(s.waiters[w].phase) ==> Sent(Apply(s, e).waiters[w].phase)
  {
  }

  lemma WaitersFrame(s: Session, e: SyncMessage.Event)
    requires Enabled(s, e) && !e.Register?
    ensures |Apply(s, e).waiters| == |s.waiters|
  {
  }

  lemma TasksFrame(s: Session, e: SyncMessage.Event)
    requires Enabled(s, e) && !e.Arrive?
    ensures var s' := Apply(s, e);
            |s'.tasks| == |s.tasks| && forall k :: 0 <= k < |s.tasks| ==> s'.tasks[k].id == s.tasks[k].id
  {
  }

  /** What a session step leaves alone: ids, the number of waiters and tasks, and having been sent. */
  lemma SessionFrame(s: Session, e: SyncMessage.Event)
    requires Enabled(s, e) && !e.Register? && !e.Arrive?
    ensures var s' := Apply(s, e);
            && |s'.waiters| == |s.waiters| && |s'.tasks| == |s.tasks|
            && (forall w :: 0 <= w < |s.waiters| ==> s'.waiters[w].id == s.waiters[w].id)
            && (forall w :: 0 <= w < |s.waiters| && Sent(s.waiters[w].phase) ==> Sent(s'.waiters[w].phase))
            && (forall k :: 0 <= k < |s.tasks| ==> s'.tasks[k].id == s.tasks[k].id)
  {
    WaitersFrame(s, e);
    TasksFrame(s, e);
    hide Apply, Enabled, Sent;
    forall w | 0 <= w < |s.waiters|
      ensures Apply(s, e).waiters[w].id == s.waiters[w].id
      ensures Sent(s.waiters[w].phase) ==> Sent(Apply(s, e).waiters[w].phase)
    {
      WaiterFrame(s, e, w);
    }
  }

  /** Registering leaves every other waiter's id and phase alone. */
  lemma RegisterFrame(s: Session, id: int)
    ensures var s' := Apply(s, Register(id));
            && |s'.waiters| == |s.waiters| + 1 && s'.tasks == s.tasks
            && s'.waiters[|s.waiters|].id == id && s'.waiters[|s.waiters|].phase == Registered
            && (forall w :: 0 <= w < |s.waiters| ==>
                  s'.waiters[w].id == s.waiters[w].id && s'.waiters[w].phase == s.waiters[w].phase)
  {
  }

  lemma BeginKeeps(c: Conn, i: nat)
    requires Sound(c) && Within(c) && Able(c, Begin(i))
    ensures Sound(Perform(c, Begin(i)))
  {
    var c' := Perform(c, Begin(i));
    var s, id := c.session, c.grants[i].id;
    forall w | 0 <= w < |s.waiters|
      ensures s.waiters[w].id != id
    {
      assert WaiterHasGrant(c, w);
    }
    forall k | 0 <= k < |s.tasks|
      ensures s.tasks[k].id != id
    {
      assert PacketOk(c, k);
      match c.origins[k]
      case FromClient =>
      case AckOf(j) => assert FrameOk(c, j);
    }
    StepKeeps(s, Register(id));
    StepAnswers(s, Register(id));
    RegisterFrame(s, id);
    hide Consistent, Answered, Apply;
    BeginLinked(c, i);
  }

  lemma BeginLinked(c: Conn, i: nat)
    requires Linked(c) && Able(c, Begin(i))
    ensures Linked(Perform(c, Begin(i)))
  {
    var c' := Perform(c, Begin(i));
    RegisterFrame(c.session, c.grants[i].id);
    hide Apply;
    forall w | 0 <= w < |c'.grantOf|
      ensures WaiterHasGrant(c', w)
    {
      if w < |c.grantOf| {
        assert WaiterHasGrant(c, w);
      }
    }
    forall g | 0 <= g < |c'.grants|
      ensures GrantHasWaiter(c', g)
    {
      assert GrantHasWaiter(c, g);
    }
    forall j | 0 <= j < |c'.down|
      ensures FrameOk(c', j)
    {
      assert FrameOk(c, j);
    }
    forall k | 0 <= k < |c'.origins|
      ensures PacketOk(c', k)
    {
      assert PacketOk(c, k);
    }
  }

  lemma OnewayKeeps(c: Conn, i: nat)
    requires Sound(c) && Able(c, SendOneway(i))
    ensures Sound(Perform(c, SendOneway(i)))
  {
    hide Consistent, Answered;
    var c' := Perform(c, SendOneway(i));
    forall j | 0 <= j < |c.down|
      ensures c.down[j] != i
    {
      assert FrameOk(c, j);
    }
    forall w | 0 <= w < |c'.grantOf|
      ensures WaiterHasGrant(c', w)
    {
      assert WaiterHasGrant(c, w);
    }
    forall g | 0 <= g < |c'.grants|
      ensures GrantHasWaiter(c', g)
    {
      assert GrantHasWaiter(c, g);
    }
    forall j | 0 <= j < |c'.down|
      ensures FrameOk(c', j)
    {
      if j < |c.down| {
        assert FrameOk(c, j);
      }
    }
    forall k | 0 <= k < |c'.origins|
      ensures PacketOk(c', k)
    {
      assert PacketOk(c, k);
    }
  }

  lemma CounterKeeps(c: Conn, a: Act)
    requires Sound(c) && (a == Login || a == Gen || a == OtherBlocks) && Able(c, a) && Within(Perform(c, a))
    ensures Sound(Perform(c, a))
  {
    hide Consistent, Answered;
    var c' := Perform(c, a);
    forall w | 0 <= w < |c'.grantOf|
      ensures WaiterHasGrant(c', w)
    {
      assert WaiterHasGrant(c, w);
    }
    forall g | 0 <= g < |c'.grants|
      ensures GrantHasWaiter(c', g)
    {
      if g < |c.grants| {
        assert GrantHasWaiter(c, g);
      }
    }
    forall j | 0 <= j < |c'.down|
      ensures FrameOk(c', j)
    {
      assert FrameOk(c, j);
    }
    forall k | 0 <= k < |c'.origins|
      ensures PacketOk(c', k)
    {
      assert PacketOk(c, k);
    }
  }

  /** A packet comes in: from the client's counter or as an answer. No waiter can mistake it. */
  lemma InboundKeeps(c: Conn, a: Act)
    requires Sound(c) && (a == ClientSend || a.ClientAck?) && Able(c, a) && Within(Perform(c, a))
    ensures Sound(Perform(c, a))
  {
    var c' := Perform(c, a);
    var s := c.session;
    var id := if a == ClientSend then c.nextClient else c.grants[c.down[a.j]].id;
    forall w | 0 <= w < |s.waiters| && s.waiters[w].id == id
      ensures Sent(s.waiters[w].phase)
    {
      assert WaiterHasGrant(c, w);
      if a.ClientAck? {
        assert FrameOk(c, a.j);
      }
    }
    StepKeeps(s, Arrive(id));
    StepAnswers(s, Arrive(id));
    hide Consistent, Answered;
    InboundLinked(c, a);
  }

  lemma InboundLinked(c: Conn, a: Act)
    requires Allocated(c) && Linked(c) && (a == ClientSend || a.ClientAck?) && Able(c, a) && Within(Perform(c, a))
    ensures Linked(Perform(c, a))
  {
    var c' := Perform(c, a);
    forall w | 0 <= w < |c'.grantOf|
      ensures WaiterHasGrant(c', w)
    {
      assert WaiterHasGrant(c, w);
    }
    forall g | 0 <= g < |c'.grants|
      ensures GrantHasWaiter(c', g)
    {
      assert GrantHasWaiter(c, g);
    }
    forall j | 0 <= j < |c'.down|
      ensures FrameOk(c', j)
    {
      assert FrameOk(c, j);
    }
    forall k | 0 <= k < |c'.origins|
      ensures PacketOk(c', k)
    {
      if k < |c.origins| {
        assert PacketOk(c, k);
      }
    }
    forall k, l | 0 <= k < l < |c'.origins| && c'.origins[k].AckOf?
      ensures c'.origins[k] != c'.origins[l]
    {
      assert PacketOk(c, k);
    }
  }

  lemma SyncKeeps(c: Conn, e: SyncMessage.Event)
    requires Sound(c) && Able(c, Sync(e))
    ensures Sound(Perform(c, Sync(e)))
  {
    StepKeeps(c.session, e);
    StepAnswers(c.session, e);
    hide Consistent, Answered;
    SyncLinked(c, e);
  }

  lemma SyncLinked(c: Conn, e: SyncMessage.Event)
    requires Linked(c) && Able(c, Sync(e))
    ensures Linked(Perform(c, Sync(e)))
  {
    var c' := Perform(c, Sync(e));
    SessionFrame(c.session, e);
    if e.SendOk? {
      SendOkPhase(c.session, e.w);
      forall j | 0 <= j < |c.down|
        ensures c.down[j] != c.grantOf[e.w]
      {
        assert FrameOk(c, j) && WaiterHasGrant(c, e.w);
      }
    }
    hide Apply;
    forall w | 0 <= w < |c'.grantOf|
      ensures WaiterHasGrant(c', w)
    {
      assert WaiterHasGrant(c, w);
    }
    forall g | 0 <= g < |c'.grants|
      ensures GrantHasWaiter(c', g)
    {
      assert GrantHasWaiter(c, g);
    }
    forall j | 0 <= j < |c'.down|
      ensures FrameOk(c', j)
    {
      if j < |c.down| {
        assert FrameOk(c, j);
      } else {
        assert WaiterHasGrant(c, e.w);
      }
    }
    forall k | 0 <= k < |c'.origins|
      ensures PacketOk(c', k)
    {
      assert PacketOk(c, k);
    }
  }

  lemma SendOkPhase(s: Session, w: nat)
    requires Enabled(s, SendOk(w))
    ensures w < |s.waiters| && !Sent(s.waiters[w].phase)
    ensures Sent(Apply(s, SendOk(w)).waiters[w].phase)
  {
  }

  lemma ActKeeps(c: Conn, a: Act)
    requires Sound(c) && Within(c) && Able(c, a) && Within(Perform(c, a))
    ensures Sound(Perform(c, a))
  {
    hide Sound, Perform;
    match a
    case Begin(i) => BeginKeeps(c, i);
    case SendOneway(i) => OnewayKeeps(c, i);
    case Sync(e) => SyncKeeps(c, e);
    case Login => CounterKeeps(c, a);
    case Gen => CounterKeeps(c, a);
    case OtherBlocks => CounterKeeps(c, a);
    case _ => InboundKeeps(c, a);
  }

  lemma {:induction false} CountersGrow(c: Conn, acts: seq<Act>)
    requires Happens(c, acts)
    ensures var c' := After(c, acts);
            c.logins <= c'.logins && c.clientSent <= c'.clientSent && |c.grants| <= |c'.grants|
    decreases acts
  {
    if acts != [] {
      hide Apply, Able, Enabled;
      CountersGrow(Perform(c, acts[0]), acts[1..]);
      OneGrows(c, acts[0]);
    }
  }

  lemma OneGrows(c: Conn, a: Act)
    requires Able(c, a)
    ensures var c' := Perform(c, a);
            c.logins <= c'.logins && c.clientSent <= c'.clientSent && |c.grants| <= |c'.grants|
  {
    hide Apply;
  }

  lemma {:induction false} RunSound(c: Conn, acts: seq<Act>)
    requires Sound(c) && Happens(c, acts) && Within(After(c, acts))
    ensures Sound(After(c, acts))
    decreases acts
  {
    if acts != [] {
      CountersGrow(c, acts);
      CountersGrow(Perform(c, acts[0]), acts[1..]);
      hide Sound, Perform, Able;
      ActKeeps(c, acts[0]);
      RunSound(Perform(c, acts[0]), acts[1..]);
    }
  }

  lemma StartSound()
    ensures Sound(NEW_CONN)
  {
  }

  // ---------------------------------------------------------------- the theorems

  /** A packet that found a waiter carries an id the server handed out. */
  lemma TakenIdsAreGranted(c: Conn, k: nat)
    requires Sound(c) && k < |c.session.tasks|
    requires c.session.tasks[k].fate != InFlight && c.session.tasks[k].fate != Inner
    ensures c.session.tasks[k].id > MAX - |c.grants|
  {
    assert TaskOk(c.session, k);
    var w := c.session.tasks[k].fate.w;
    assert WaiterOk(c.session, w) && WaiterHasGrant(c, w);
  }

  lemma ClientPacketNotTaken(c: Conn, k: nat)
    requires Sound(c) && Within(c)
    requires k < |c.session.tasks| && k < |c.origins| && c.origins[k] == FromClient
    ensures c.session.tasks[k].fate in {InFlight, Inner}
  {
    hide Consistent, Answered;
    assert PacketOk(c, k);
    if c.session.tasks[k].fate != InFlight && c.session.tasks[k].fate != Inner {
      TakenIdsAreGranted(c, k);
    }
  }

  /**
   After at most one Login, while the counters have not met: a packet the client originated is never
   taken by a server waiter; once looked up it is with the inner processor.
   */
  lemma ClientPacketsReachInner(acts: seq<Act>, k: nat)
    requires Happens(NEW_CONN, acts) && Within(After(NEW_CONN, acts))
    requires var c := After(NEW_CONN, acts);
             k < |c.session.tasks| && k < |c.origins| && c.origins[k] == FromClient
    ensures After(NEW_CONN, acts).session.tasks[k].fate in {InFlight, Inner}
  {
    hide After, Happens, Sound;
    StartSound();
    RunSound(NEW_CONN, acts);
    ClientPacketNotTaken(After(NEW_CONN, acts), k);
  }

  /** An answer is the only packet with its id. */
  lemma AckIdIsUnique(c: Conn, k: nat, l: nat)
    requires Sound(c) && Within(c) && k < |c.origins| && l < |c.origins| && c.origins[k].AckOf?
    requires c.session.tasks[k].id == c.session.tasks[l].id
    ensures k == l
  {
    hide Consistent, Answered;
    assert PacketOk(c, k) && PacketOk(c, l);
    if c.origins[l].AckOf? {
      assert FrameOk(c, c.origins[k].j) && FrameOk(c, c.origins[l].j);
    }
  }

  /**
   Under the same bound, the client's answer to a request reaches that request's caller and no one
   else; it is thrown away only if that caller timed out, and never falls through to the inner processor.
   */
  lemma AcksReachTheirCaller(acts: seq<Act>, k: nat)
    requires Happens(NEW_CONN, acts) && Within(After(NEW_CONN, acts))
    requires var c := After(NEW_CONN, acts);
             && k < |c.session.tasks| && k < |c.origins| && c.origins[k].AckOf?
             && c.origins[k].j < |c.down| && c.down[c.origins[k].j] < |c.grants|
             && c.grants[c.down[c.origins[k].j]].use.ForWaiter?
    ensures var c := After(NEW_CONN, acts);
            var w := c.grants[c.down[c.origins[k].j]].use.w;
            match c.session.tasks[k].fate
            case InFlight => true
            case Inner => false
            case Holding(u) => u == w
            case Delivered(u) => u == w
            case Discarded(u) => u == w && w < |c.session.waiters| && c.session.waiters[w].phase == TimedOut
  {
    hide After, Happens;
    StartSound();
    RunSound(NEW_CONN, acts);
    var c := After(NEW_CONN, acts);
    var s, i := c.session, c.down[c.origins[k].j];
    var w := c.grants[i].use.w;
    assert PacketOk(c, k) && GrantHasWaiter(c, i) && FrameOk(c, c.origins[k].j);
    assert WaiterHasGrant(c, w) && WaiterOk(s, w) && AnsweredBy(s, k, w);
    if s.tasks[k].fate == Inner {
      AckIdIsUnique(c, k, s.waiters[w].taker.value);
    } else if s.tasks[k].fate != InFlight {
      OwnWaiter(s, k, w);
    }
  }

  /** A request before any Login blocks its own lock: no id is handed out ever after, Login included. */
  lemma {:induction false} BlockedForever(c: Conn, acts: seq<Act>)
    requires c.stuck && Happens(c, acts)
    ensures var c' := After(c, acts);
            c'.stuck && c'.counter == c.counter && |c'.grants| == |c.grants| && c'.logins == c.logins
    decreases acts
  {
    if acts != [] {
      BlockedStep(c, acts[0]);
      hide Perform, Able;
      BlockedForever(Perform(c, acts[0]), acts[1..]);
    }
  }

  lemma BlockedStep(c: Conn, a: Act)
    requires c.stuck && Able(c, a)
    ensures var c' := Perform(c, a);
            c'.stuck && c'.counter == c.counter && |c'.grants| == |c.grants| && c'.logins == c.logins
  {
    hide Apply;
  }
}
