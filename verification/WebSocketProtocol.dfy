/** The parent and its WebSocket child process: handler registration over the command queue and
    event delivery over the event queue, across stops, crashes and restarts. */
module WebSocketProtocol {
  import opened Options

  const MSG_SERVICE_EVENT: int := 10000
  /** Types the child handles itself: error, session, ping and batch. */
  const PROTOCOL_TYPES: set<int> := {0, 1, 2, 10001}

  datatype Command = Register(msgType: int) | Stop | Other

  /** Events carry the number of events forwarded before them, over all children. */
  datatype Event = Event(number: nat, msgType: int)

  datatype Process = Absent | Alive | Dead

  datatype Held = Nothing | Youngest | Raised

  /** `drainers` are the parent's drain tasks, oldest first, each with the event it has taken off the
      queue and not dispatched yet; `held` is what the parent's drain task attribute refers to: nothing or
      a task that returned, the youngest drain task, or one that a raising handler ended.
      `session` and `sessionLog` are the counts of forwarded and received events at the last spawn. */
  datatype State = State(
    handlers: map<int, nat>,
    process: Process,
    forwards: set<int>,
    commands: Option<seq<Command>>,
    events: Option<seq<Event>>,
    drainers: seq<Option<Event>>,
    held: Held,
    stopping: bool,
    forwarded: nat,
    received: seq<Event>,
    session: nat,
    sessionLog: nat)

  const INIT: State :=
    State(map[], Absent, {}, None, None, [], Nothing, false, 0, [], 0, 0)

  /** A message on the wire; batches nest. */
  datatype Wire = Message(msgType: int, silent: bool) | Batch(items: seq<Wire>)

  /** A child that is gone did not wait for its queue to be flushed: `Discard` drops the forwarded
      events that were not. */
  datatype Action =
    | RegisterHandler(msgType: int, handler: nat)
    | PopHandler(msgType: int)
    | Start
    | StopBegin
    | StopEnd
    | SendOther
    | Consume
    | Crash
    | Discard(kept: nat)
    | Arrive(wire: Wire)
    | Pull(i: nat)
    | Dispatch(i: nat)
    | DrainerExit(i: nat)
    | Raise(i: nat)

  function Send(s: State, c: Command): State {
    if s.commands.None? then s else s.(commands := Some(s.commands.value + [c]))
  }

  function Registered(s: State, msgType: int, handler: nat): State {
    var t := s.(handlers := s.handlers[msgType := handler]);
    if msgType in s.handlers then t else Send(t, Register(msgType))
  }

  function Started(s: State): State {
    if s.process.Alive? then s
    else
      s.(process := Alive, commands := Some([]), events := Some([]),
         forwards := s.handlers.Keys + {MSG_SERVICE_EVENT},
         drainers := s.drainers + [None], held := Youngest,
         session := s.forwarded, sessionLog := |s.received|)
  }

  /** Awaiting the cancelled drain task raises what its handler raised, and ends the stop there. */
  function StopBegun(s: State): State {
    if s.process.Absent? then s
    else if s.held.Raised? then Send(s, Stop)
    else
      Send(s, Stop).(
        drainers := if s.held.Youngest? && s.drainers != [] then s.drainers[..|s.drainers| - 1] else s.drainers,
        held := Nothing,
        stopping := true)
  }

  function Stopped(s: State): State {
    s.(process := Absent, commands := None, events := None, stopping := false)
  }

  function Consumed(s: State): State
    requires s.process.Alive? && s.commands.Some? && s.commands.value != []
  {
    var t := s.(commands := Some(s.commands.value[1..]));
    match s.commands.value[0]
    case Register(msgType) => t.(forwards := t.forwards + {msgType})
    case Stop => t.(process := Dead)
    case Other => t
  }

  /** The types of the events a wire message makes the child forward, in order. */
  function Unpack(w: Wire, forwards: set<int>): seq<int> {
    match w
    case Message(t, silent) =>
      if t in PROTOCOL_TYPES || t !in forwards || (t == MSG_SERVICE_EVENT && silent) then [] else [t]
    case Batch(items) => UnpackAll(items, forwards)
  }

  function UnpackAll(items: seq<Wire>, forwards: set<int>): seq<int> {
    if items == [] then [] else Unpack(items[0], forwards) + UnpackAll(items[1..], forwards)
  }

  function NumberFrom(types: seq<int>, from: nat): seq<Event> {
    seq(|types|, i requires 0 <= i < |types| => Event(from + i, types[i]))
  }

  function Arrived(s: State, w: Wire): State
    requires s.process.Alive? && s.events.Some?
  {
    var types := Unpack(w, s.forwards);
    s.(events := Some(s.events.value + NumberFrom(types, s.forwarded)), forwarded := s.forwarded + |types|)
  }

  /** Drain task i is over; `why` is what the parent is left with if it was the one it holds. */
  function Ended(s: State, i: nat, why: Held): State
    requires i < |s.drainers|
  {
    s.(drainers := s.drainers[..i] + s.drainers[i + 1..],
       held := if s.held.Youngest? && i + 1 == |s.drainers| then why else s.held)
  }

  predicate Enabled(s: State, a: Action) {
    match a
    case StopEnd => s.stopping
    case Consume => s.process.Alive? && s.commands.Some? && s.commands.value != []
    case Crash => s.process.Alive?
    case Discard(kept) => s.process.Dead? && s.events.Some? && kept <= |s.events.value|
    case Arrive(_) => s.process.Alive? && s.events.Some?
    case Pull(i) => i < |s.drainers| && s.drainers[i].None? && s.events.Some? && s.events.value != []
    case Dispatch(i) => i < |s.drainers| && s.drainers[i].Some?
    case DrainerExit(i) => i < |s.drainers| && s.drainers[i].None? && (s.events.None? || s.process.Absent?)
    case Raise(i) => i < |s.drainers|
    case _ => true
  }

  function Step(s: State, a: Action): State
    requires Enabled(s, a)
  {
    match a
    case RegisterHandler(t, h) => Registered(s, t, h)
    case PopHandler(t) => s.(handlers := s.handlers - {t})
    case Start => Started(s)
    case StopBegin => StopBegun(s)
    case StopEnd => Stopped(s)
    case SendOther => Send(s, Other)
    case Consume => Consumed(s)
    case Crash => s.(process := Dead)
    case Discard(kept) => s.(events := Some(s.events.value[..kept]))
    case Arrive(w) => Arrived(s, w)
    case Pull(i) =>
      s.(drainers := s.drainers[i := Some(s.events.value[0])], events := Some(s.events.value[1..]))
    case Dispatch(i) =>
      s.(drainers := s.drainers[i := None], received := s.received + [s.drainers[i].value])
    case DrainerExit(i) => Ended(s, i, Nothing)
    case Raise(i) =>
      Ended(s, i, Raised).(received := s.received + if s.drainers[i].Some? then [s.drainers[i].value] else [])
  }

  ghost predicate Executes(s: State, acts: seq<Action>, t: State)
    decreases |acts|
  {
    if acts == [] then s == t else Enabled(s, acts[0]) && Executes(Step(s, acts[0]), acts[1..], t)
  }

  // ----- registration -----

  /** A live child has its queues, always forwards service events, and for every handled type it
      either forwards it or has the register command still queued. */
  ghost predicate RegistrationInv(s: State) {
    && (s.process.Absent? <==> s.commands.None?)
    && (s.commands.None? <==> s.events.None?)
    && (s.held.Youngest? ==> s.drainers != [])
    && (s.process.Alive? ==>
          && MSG_SERVICE_EVENT in s.forwards
          && forall t | t in s.handlers :: t in s.forwards || Register(t) in s.commands.value)
  }

  lemma {:induction false} StepKeepsRegistration(s: State, a: Action)
    requires RegistrationInv(s) && Enabled(s, a)
    ensures RegistrationInv(Step(s, a))
  {
    if a.Consume? {
      var q := s.commands.value;
      forall t | t in s.handlers && t !in s.forwards
        ensures Register(t) in q[1..] || q[0] == Register(t)
      {
        var i :| 0 <= i < |q| && q[i] == Register(t);
        if i > 0 { assert q[1..][i - 1] == Register(t); }
      }
    }
  }

  /** In every run, over stops, crashes and restarts, no registration is ever lost. */
  lemma {:induction false} RegistrationHolds(s: State, acts: seq<Action>, t: State)
    requires RegistrationInv(s) && Executes(s, acts, t)
    ensures RegistrationInv(t)
    decreases |acts|
  {
    if acts != [] {
      StepKeepsRegistration(s, acts[0]);
      RegistrationHolds(Step(s, acts[0]), acts[1..], t);
    }
  }

  lemma {:induction false} InitialRegistration()
    ensures RegistrationInv(INIT)
  {
  }

  /** Draining the command queue, when no stop is queued, makes the child forward every handled type. */
  lemma {:induction false} DrainedForwardsAll(s: State, t: State)
    requires RegistrationInv(s) && s.process.Alive? && Stop !in s.commands.value
    requires Executes(s, seq(|s.commands.value|, _ => Consume), t)
    ensures t.process.Alive? && t.commands == Some([]) && t.handlers == s.handlers
    ensures t.handlers.Keys <= t.forwards
    decreases |s.commands.value|
  {
    var q := s.commands.value;
    if q == [] {
      assert seq(|q|, _ => Consume) == [];
      forall k | k in t.handlers.Keys
        ensures k in t.forwards
      {
        assert k in s.handlers && Register(k) !in q;
      }
    } else {
      var acts := seq(|q|, _ => Consume);
      StepKeepsRegistration(s, Consume);
      var u := Step(s, Consume);
      assert acts[1..] == seq(|u.commands.value|, _ => Consume);
      DrainedForwardsAll(u, t);
    }
  }

  /** With the queue drained, a message of a handled type is forwarded exactly when it is neither a
      protocol message nor a silent service event. */
  lemma {:induction false} HandledMessageForwarded(s: State, msgType: int, silent: bool)
    requires RegistrationInv(s) && s.process.Alive? && s.commands == Some([]) && msgType in s.handlers
    ensures Arrived(s, Message(msgType, silent)).events.value ==
            s.events.value +
            if msgType !in PROTOCOL_TYPES && !(msgType == MSG_SERVICE_EVENT && silent)
            then [Event(s.forwarded, msgType)] else []
  {
  }

  /** The messages of a frame from left to right, however deeply batches nest. */
  function Messages(w: Wire): seq<Wire> {
    match w
    case Message(_, _) => [w]
    case Batch(items) => AllMessages(items)
  }

  function AllMessages(items: seq<Wire>): seq<Wire> {
    if items == [] then [] else Messages(items[0]) + AllMessages(items[1..])
  }

  /** Whether a message of a forwarded type is passed on: error, session, ping and batch frames and
      silent service events are not. */
  predicate Passes(w: Wire, forwards: set<int>) {
    w.Message? && w.msgType in forwards
    && w.msgType != 0 && w.msgType != 1 && w.msgType != 2 && w.msgType != 10001
    && !(w.msgType == 10000 && w.silent)
  }

  function PassedTypes(ms: seq<Wire>, forwards: set<int>): seq<int> {
    if ms == [] then []
    else (if Passes(ms[0], forwards) then [ms[0].msgType] else []) + PassedTypes(ms[1..], forwards)
  }

  lemma {:induction false} PassedAppend(a: seq<Wire>, b: seq<Wire>, forwards: set<int>)
    ensures PassedTypes(a + b, forwards) == PassedTypes(a, forwards) + PassedTypes(b, forwards)
  {
    hide Passes;
    if a == [] {
      assert a + b == b;
    } else {
      assert (a + b)[0] == a[0] && (a + b)[1..] == a[1..] + b;
      PassedAppend(a[1..], b, forwards);
    }
  }

  lemma {:induction false} UnpackPasses(w: Wire, forwards: set<int>)
    ensures Unpack(w, forwards) == PassedTypes(Messages(w), forwards)
    decreases w, 1
  {
    match w
    case Message(_, _) => assert [w][1..] == [];
    case Batch(items) => UnpackAllPasses(items, forwards);
  }

  lemma {:induction false} UnpackAllPasses(items: seq<Wire>, forwards: set<int>)
    ensures UnpackAll(items, forwards) == PassedTypes(AllMessages(items), forwards)
    decreases items, 0
  {
    if items != [] {
      UnpackPasses(items[0], forwards);
      UnpackAllPasses(items[1..], forwards);
      PassedAppend(Messages(items[0]), AllMessages(items[1..]), forwards);
    }
  }

  /** A batch is its items one after another. */
  lemma {:induction false} BatchIsItsItems(s: State, w: Wire, ws: seq<Wire>)
    requires s.process.Alive? && s.events.Some?
    ensures Arrived(s, Batch([])) == s
    ensures Arrived(s, Batch([w] + ws)) == Arrived(Arrived(s, w), Batch(ws))
  {
    var all := [w] + ws;
    assert all[0] == w && all[1..] == ws;
    EmptyBatch(s);
    var first, rest := Unpack(w, s.forwards), UnpackAll(ws, s.forwards);
    assert Unpack(Batch(all), s.forwards) == first + rest;
    NumberSplit(first, rest, s.forwarded);
    hide Unpack, NumberFrom;
    var one, two := NumberFrom(first, s.forwarded), NumberFrom(rest, s.forwarded + |first|);
    assert s.events.value + (one + two) == (s.events.value + one) + two;
  }

  lemma {:induction false} EmptyBatch(s: State)
    requires s.process.Alive? && s.events.Some?
    ensures Arrived(s, Batch([])) == s
  {
    assert Unpack(Batch([]), s.forwards) == [];
    assert s.events.value + NumberFrom([], s.forwarded) == s.events.value;
  }

  lemma {:induction false} NumberSplit(a: seq<int>, b: seq<int>, from: nat)
    ensures NumberFrom(a + b, from) == NumberFrom(a, from) + NumberFrom(b, from + |a|)
  {
  }

  /** A frame at any nesting depth: its messages are forwarded from left to right, each exactly when its
      type is forwarded and it is neither a protocol message nor a silent service event. */
  lemma {:induction false} FrameForwarded(s: State, w: Wire)
    requires s.process.Alive? && s.events.Some?
    ensures var types := PassedTypes(Messages(w), s.forwards);
            && Arrived(s, w).forwarded == s.forwarded + |types|
            && Arrived(s, w).events.value
               == s.events.value + seq(|types|, i requires 0 <= i < |types| => Event(s.forwarded + i, types[i]))
            && Arrived(s, w).forwards == s.forwards && Arrived(s, w).received == s.received
  {
    UnpackPasses(w, s.forwards);
  }

  /** With the command queue drained, a frame of messages of handled types is forwarded message by
      message, except exactly for the protocol messages and the silent service events. */
  lemma {:induction false} HandledFrameForwarded(s: State, w: Wire)
    requires RegistrationInv(s) && s.process.Alive? && s.commands == Some([])
    requires forall i | 0 <= i < |Messages(w)| :: Messages(w)[i].Message? && Messages(w)[i].msgType in s.handlers
    ensures var types := PassedTypes(Messages(w), s.handlers.Keys);
            Arrived(s, w).events.value
            == s.events.value + seq(|types|, i requires 0 <= i < |types| => Event(s.forwarded + i, types[i]))
  {
    hide Messages, PassedTypes;
    FrameForwarded(s, w);
    forall t | t in s.handlers.Keys
      ensures t in s.forwards
    {
      assert t in s.handlers;
    }
    SamePassed(Messages(w), s.forwards, s.handlers.Keys);
  }

  lemma {:induction false} SamePassed(ms: seq<Wire>, forwards: set<int>, handled: set<int>)
    requires handled <= forwards && forall i | 0 <= i < |ms| :: ms[i].Message? && ms[i].msgType in handled
    ensures PassedTypes(ms, forwards) == PassedTypes(ms, handled)
  {
    if ms != [] {
      assert ms[0].msgType in handled;
      SamePassed(ms[1..], forwards, handled);
    }
  }

  // ----- commands and restarts -----

  /** The first handler of a type on a running child queues one register command behind the others; a
      later one for the same type queues nothing. */
  lemma {:induction false} RegistersOnce(s: State, msgType: int, first: nat, second: nat)
    requires s.commands.Some?
    ensures var t := Registered(s, msgType, first);
            && msgType in t.handlers && t.handlers[msgType] == first
            && t.commands.value
               == s.commands.value + (if msgType in s.handlers then [] else [Register(msgType)])
            && Registered(t, msgType, second).commands == t.commands
            && Registered(t, msgType, second).handlers == t.handlers[msgType := second]
  {
  }

  /** Commands are taken in the order they were sent, so everything registered before a stop is
      forwarded before the child obeys the stop. */
  lemma {:induction false} StopComesLast(s: State, t: State)
    requires RegistrationInv(s) && s.process.Alive? && Stop !in s.commands.value
    requires Executes(Send(s, Stop), seq(|s.commands.value|, _ => Consume), t)
    ensures t.process.Alive? && t.commands == Some([Stop]) && s.handlers.Keys <= t.forwards
    ensures Step(t, Consume).process.Dead?
    decreases |s.commands.value|
  {
    var q, u := s.commands.value, Send(s, Stop);
    var acts := seq(|q|, _ => Consume);
    if q == [] {
      assert acts == [] && u.commands.value == [Stop];
      forall k | k in s.handlers.Keys
        ensures k in t.forwards
      {
        assert k in s.handlers && Register(k) !in q;
      }
    } else {
      var next := Step(s, Consume);
      StepKeepsRegistration(s, Consume);
      assert (q + [Stop])[1..] == q[1..] + [Stop];
      assert Step(u, Consume) == Send(next, Stop);
      assert acts[1..] == seq(|q| - 1, _ => Consume);
      StopComesLast(next, t);
    }
  }

  /** The child of a completed stop and start forwards exactly the handled types and service events,
      with empty queues and, if the old client had at most the one drain task it held, exactly one. */
  lemma {:induction false} RestartForwardsHandled(s: State)
    requires RegistrationInv(s) && !s.process.Absent? && !s.held.Raised?
    ensures var t := Started(Stopped(StopBegun(s)));
            && t.process.Alive? && t.handlers == s.handlers && t.commands == Some([]) && t.events == Some([])
            && t.held.Youngest? && t.received == s.received
            && (s.drainers == [] || (|s.drainers| == 1 && s.held.Youngest?) ==> t.drainers == [None])
            && forall k :: k in t.forwards <==> k in s.handlers || k == 10000
  {
  }

  /** Types known to the child: forwarded or about to be. */
  ghost predicate Knows(s: State, known: set<int>) {
    && s.handlers.Keys <= known
    && (s.commands.Some? ==> forall t | Register(t) in s.commands.value :: t in known)
    && s.forwards <= known + {10000}
  }

  ghost function RegisteredIn(acts: seq<Action>): set<int> {
    set i | 0 <= i < |acts| && acts[i].RegisterHandler? :: acts[i].msgType
  }

  lemma {:induction false} StepKnows(s: State, a: Action, known: set<int>)
    requires Knows(s, known) && Enabled(s, a)
    ensures Knows(Step(s, a), known + if a.RegisterHandler? then {a.msgType} else {})
  {
    hide Unpack;
  }

  /** Nothing is forwarded that nobody asked for: in every run a forwarded type other than service
      events was registered in it, or was known before. */
  lemma {:induction false} ForwardsOnlyRegistered(s: State, acts: seq<Action>, t: State, known: set<int>)
    requires Knows(s, known) && Executes(s, acts, t)
    ensures Knows(t, known + RegisteredIn(acts))
    decreases |acts|
  {
    hide Step, Enabled, Knows;
    if acts == [] {
      assert known + RegisteredIn(acts) == known;
    } else {
      var now := if acts[0].RegisterHandler? then {acts[0].msgType} else {};
      StepKnows(s, acts[0], known);
      ForwardsOnlyRegistered(Step(s, acts[0]), acts[1..], t, known + now);
      RegisteredSplit(acts);
      assert known + now + RegisteredIn(acts[1..]) == known + RegisteredIn(acts);
    }
  }

  lemma {:induction false} RegisteredSplit(acts: seq<Action>)
    requires acts != []
    ensures RegisteredIn(acts) ==
            (if acts[0].RegisterHandler? then {acts[0].msgType} else {}) + RegisteredIn(acts[1..])
  {
    var now := if acts[0].RegisterHandler? then {acts[0].msgType} else {};
    forall t | t in RegisteredIn(acts)
      ensures t in now + RegisteredIn(acts[1..])
    {
      var i :| 0 <= i < |acts| && acts[i].RegisterHandler? && acts[i].msgType == t;
      if i > 0 { assert acts[1..][i - 1] == acts[i]; }
    }
    forall t | t in RegisteredIn(acts[1..])
      ensures t in RegisteredIn(acts)
    {
      var i :| 0 <= i < |acts[1..]| && acts[1..][i].RegisterHandler? && acts[1..][i].msgType == t;
      assert acts[i + 1].msgType == t;
    }
  }

  // ----- order of delivery -----

  function InHand(s: State): seq<Event> {
    if |s.drainers| == 1 && s.drainers[0].Some? then [s.drainers[0].value] else []
  }

  function Pending(s: State): seq<Event> {
    InHand(s) + if s.events.Some? then s.events.value else []
  }

  ghost predicate InOrder(log: seq<Event>) {
    forall i, j | 0 <= i < j < |log| :: log[i].number < log[j].number
  }

  /** The events of the current session: received since the spawn, or in flight. */
  function Flow(s: State): seq<Event>
    requires s.sessionLog <= |s.received|
  {
    s.received[s.sessionLog..] + Pending(s)
  }

  ghost predicate Numbered(flow: seq<Event>, from: nat, to: nat) {
    from + |flow| == to && forall i | 0 <= i < |flow| :: flow[i].number == from + i
  }

  ghost predicate Ordered(log: seq<Event>, bound: nat) {
    InOrder(log) && forall i | 0 <= i < |log| :: log[i].number < bound
  }

  /** What was received since the spawn and what is in flight are the first events forwarded since the
      spawn: all of them while the child lives. */
  ghost predicate Unlost(s: State)
    requires s.sessionLog <= |s.received|
  {
    var to := s.session + |Flow(s)|;
    Numbered(Flow(s), s.session, to) && to <= s.forwarded && (s.process.Alive? ==> to == s.forwarded)
  }

  /** With at most one drain task everything received so far precedes everything in flight, in
      order; and unless a stop was begun, nothing in between was lost. */
  ghost predicate DeliveryInv(s: State) {
    && RegistrationInv(s)
    && |s.drainers| <= 1
    && s.sessionLog <= |s.received|
    && Ordered(s.received + Pending(s), s.forwarded)
    && (!s.held.Nothing? && !s.process.Absent? ==> Unlost(s))
  }

  /** A spawn while a drain task of an earlier spawn is still there. */
  predicate Orphans(s: State, a: Action) { a.Start? && !s.process.Alive? && s.drainers != [] }

  ghost predicate CleanRun(s: State, acts: seq<Action>)
    decreases |acts|
  {
    acts == [] ||
    (Enabled(s, acts[0]) && !Orphans(s, acts[0]) && CleanRun(Step(s, acts[0]), acts[1..]))
  }

  /** Steps that leave log, flight and session alone. */
  lemma {:induction false} SameFlow(s: State, t: State)
    requires DeliveryInv(s) && RegistrationInv(t) && |t.drainers| <= 1
    requires t.received == s.received && Pending(t) == Pending(s) && t.forwarded == s.forwarded
    requires t.session == s.session && t.sessionLog == s.sessionLog
    requires !t.held.Nothing? && !t.process.Absent? ==> !s.held.Nothing? && !s.process.Absent?
    requires t.process.Alive? ==> s.process.Alive?
    ensures DeliveryInv(t)
  {
  }

  lemma {:induction false} PullKeepsFlow(s: State)
    requires Enabled(s, Pull(0)) && |s.drainers| == 1
    ensures Pending(Step(s, Pull(0))) == Pending(s)
  {
    assert [s.events.value[0]] + s.events.value[1..] == s.events.value;
  }

  lemma {:induction false} DispatchMoves(s: State)
    requires s.sessionLog <= |s.received| && |s.drainers| == 1 && Enabled(s, Dispatch(0))
    ensures var t := Step(s, Dispatch(0));
            && t.sessionLog == s.sessionLog <= |t.received| && |t.drainers| == 1
            && t.received + Pending(t) == s.received + Pending(s) && Flow(t) == Flow(s)
  {
    var t, e := Step(s, Dispatch(0)), s.drainers[0].value;
    assert Pending(s) == [e] + Pending(t);
    assert t.received[s.sessionLog..] == s.received[s.sessionLog..] + [e];
  }

  lemma {:induction false} DispatchKeepsDelivery(s: State)
    requires DeliveryInv(s) && Enabled(s, Dispatch(0))
    ensures DeliveryInv(Step(s, Dispatch(0)))
  {
    hide Ordered, Numbered, Flow, Pending, RegistrationInv;
    DispatchMoves(s);
    StepKeepsRegistration(s, Dispatch(0));
  }

  /** Losing a block of the log keeps the rest in order. */
  lemma {:induction false} DroppingKeepsOrder(a: seq<Event>, b: seq<Event>, c: seq<Event>, bound: nat)
    requires Ordered(a + b + c, bound)
    ensures Ordered(a + c, bound)
  {
    var log := a + b + c;
    forall i, j | 0 <= i < j < |a + c|
      ensures (a + c)[i].number < (a + c)[j].number
    {
      var p, q := if i < |a| then i else i + |b|, if j < |a| then j else j + |b|;
      assert log[p] == (a + c)[i] && log[q] == (a + c)[j];
    }
    forall i | 0 <= i < |a + c|
      ensures (a + c)[i].number < bound
    {
      assert log[if i < |a| then i else i + |b|] == (a + c)[i];
    }
  }

  lemma {:induction false} ExtendOrdered(log: seq<Event>, flow: seq<Event>, types: seq<int>, session: nat, bound: nat)
    requires Ordered(log, bound)
    ensures Ordered(log + NumberFrom(types, bound), bound + |types|)
    ensures Numbered(flow, session, bound) ==> Numbered(flow + NumberFrom(types, bound), session, bound + |types|)
  {
  }

  lemma {:induction false} ArriveKeepsDelivery(s: State, w: Wire)
    requires DeliveryInv(s) && Enabled(s, Arrive(w))
    ensures DeliveryInv(Arrived(s, w))
  {
    hide Unpack, NumberFrom;
    var t, types := Arrived(s, w), Unpack(w, s.forwards);
    var added := NumberFrom(types, s.forwarded);
    StepKeepsRegistration(s, Arrive(w));
    assert Pending(t) == Pending(s) + added;
    assert t.received + Pending(t) == (s.received + Pending(s)) + added;
    assert Flow(t) == Flow(s) + added;
    ExtendOrdered(s.received + Pending(s), Flow(s), types, s.session, s.forwarded);
  }

  lemma {:induction false} DiscardDrops(s: State, kept: nat)
    requires Enabled(s, Discard(kept)) && s.sessionLog <= |s.received|
    ensures var t, dropped := Step(s, Discard(kept)), s.events.value[kept..];
            && s.received + Pending(s) == (t.received + Pending(t)) + dropped
            && Flow(s) == Flow(t) + dropped
  {
    var queued := s.events.value;
    assert queued == queued[..kept] + queued[kept..];
  }

  lemma {:induction false} TailDropped(log: seq<Event>, flow: seq<Event>, dropped: seq<Event>, bound: nat, from: nat)
    ensures Ordered(log + dropped, bound) ==> Ordered(log, bound)
    ensures Numbered(flow + dropped, from, from + |flow + dropped|) ==> Numbered(flow, from, from + |flow|)
  {
    assert forall i | 0 <= i < |log| :: log[i] == (log + dropped)[i];
    assert forall i | 0 <= i < |flow| :: flow[i] == (flow + dropped)[i];
  }

  /** What an exiting child drops is a suffix of what is in flight. */
  lemma {:induction false} DiscardKeepsDelivery(s: State, kept: nat)
    requires DeliveryInv(s) && Enabled(s, Discard(kept))
    ensures DeliveryInv(Step(s, Discard(kept)))
  {
    hide RegistrationInv, Ordered, Numbered, Pending, Flow;
    var t := Step(s, Discard(kept));
    StepKeepsRegistration(s, Discard(kept));
    DiscardDrops(s, kept);
    TailDropped(t.received + Pending(t), Flow(t), s.events.value[kept..], s.forwarded, s.session);
  }

  lemma {:induction false} StartKeepsDelivery(s: State)
    requires DeliveryInv(s) && !s.process.Alive? && s.drainers == []
    ensures DeliveryInv(Started(s))
  {
    var t := Started(s);
    StepKeepsRegistration(s, Start);
    assert s.received + Pending(s) + [] == s.received + Pending(s);
    DroppingKeepsOrder(s.received, Pending(s), [], s.forwarded);
    assert Pending(t) == [] && Flow(t) == [];
  }

  lemma {:induction false} StopBeginKeepsDelivery(s: State)
    requires DeliveryInv(s) && !s.process.Absent?
    ensures DeliveryInv(StopBegun(s))
  {
    var t := StopBegun(s);
    StepKeepsRegistration(s, StopBegin);
    if s.held.Raised? {
      SameFlow(s, t);
    } else if s.held.Youngest? {
      var queued := s.events.value;
      assert s.received + Pending(s) == s.received + InHand(s) + queued;
      DroppingKeepsOrder(s.received, InHand(s), queued, s.forwarded);
      assert Pending(t) == queued;
    } else {
      assert Pending(t) == Pending(s);
    }
  }

  lemma {:induction false} StopEndKeepsDelivery(s: State)
    requires DeliveryInv(s)
    ensures DeliveryInv(Stopped(s))
  {
    var t := Stopped(s);
    var queued := if s.events.Some? then s.events.value else [];
    assert s.received + Pending(s) == (s.received + InHand(s)) + queued + [];
    DroppingKeepsOrder(s.received + InHand(s), queued, [], s.forwarded);
    assert t.received + Pending(t) == (s.received + InHand(s)) + [];
  }

  /** Events in hand become received without leaving the flow. */
  lemma {:induction false} HandReceived(log: seq<Event>, hand: seq<Event>, queued: seq<Event>, from: nat)
    requires from <= |log|
    ensures (log + hand) + ([] + queued) == log + (hand + queued)
    ensures (log + hand)[from..] + ([] + queued) == log[from..] + (hand + queued)
  {
    assert (log + hand)[from..] == log[from..] + hand;
  }

  lemma {:induction false} RaiseMoves(s: State)
    requires s.sessionLog <= |s.received| && |s.drainers| == 1
    ensures var t := Step(s, Raise(0));
            && t.sessionLog == s.sessionLog <= |t.received| && t.drainers == []
            && t.received + Pending(t) == s.received + Pending(s) && Flow(t) == Flow(s)
  {
    hide InHand;
    var t, queued := Step(s, Raise(0)), if s.events.Some? then s.events.value else [];
    assert t.received == s.received + InHand(s) && InHand(t) == [] by { InHandAfterRaise(s); }
    HandReceived(s.received, InHand(s), queued, s.sessionLog);
  }

  lemma {:induction false} InHandAfterRaise(s: State)
    requires |s.drainers| == 1
    ensures Step(s, Raise(0)).received == s.received + InHand(s) && InHand(Step(s, Raise(0))) == []
  {
  }

  lemma {:induction false} RaiseKeepsDelivery(s: State)
    requires DeliveryInv(s) && Enabled(s, Raise(0))
    ensures DeliveryInv(Step(s, Raise(0)))
  {
    hide Ordered, Numbered, Flow, Pending, RegistrationInv;
    RaiseMoves(s);
    StepKeepsRegistration(s, Raise(0));
  }

  predicate LeavesFlow(a: Action) {
    a.Pull? || a.DrainerExit? || a.RegisterHandler? || a.PopHandler? || a.SendOther? || a.Consume? || a.Crash?
  }

  lemma {:induction false} SamePending(s: State, t: State)
    requires t.events == s.events && |s.drainers| <= 1
    requires t.drainers == s.drainers || (s.drainers == [None] && t.drainers == [])
    ensures Pending(t) == Pending(s)
  {
  }

  lemma {:induction false} LeavesFlowAlone(s: State, a: Action)
    requires LeavesFlow(a) && |s.drainers| <= 1 && Enabled(s, a)
    ensures var t := Step(s, a);
            && |t.drainers| <= 1 && t.received == s.received && Pending(t) == Pending(s)
            && t.forwarded == s.forwarded && t.session == s.session && t.sessionLog == s.sessionLog
            && (!t.held.Nothing? && !t.process.Absent? ==> !s.held.Nothing? && !s.process.Absent?)
            && (t.process.Alive? ==> s.process.Alive?)
  {
    hide Pending;
    if a.Pull? {
      PullKeepsFlow(s);
    } else {
      SamePending(s, Step(s, a));
    }
  }

  lemma {:induction false} StepKeepsDelivery(s: State, a: Action)
    requires DeliveryInv(s) && Enabled(s, a) && !Orphans(s, a)
    ensures DeliveryInv(Step(s, a))
  {
    hide Ordered, Numbered, Flow, Pending, Unlost, Unpack, RegistrationInv;
    if LeavesFlow(a) {
      hide Step;
      StepKeepsRegistration(s, a);
      LeavesFlowAlone(s, a);
      SameFlow(s, Step(s, a));
    } else {
      match a
      case Arrive(w) => ArriveKeepsDelivery(s, w);
      case Dispatch(_) => DispatchKeepsDelivery(s);
      case Raise(_) => RaiseKeepsDelivery(s);
      case Start => if !s.process.Alive? { StartKeepsDelivery(s); }
      case StopBegin => if !s.process.Absent? { StopBeginKeepsDelivery(s); }
      case StopEnd => StopEndKeepsDelivery(s);
      case Discard(kept) => DiscardKeepsDelivery(s, kept);
    }
  }

  /** In every run that never spawns beside a leftover drain task, events reach the parent in the
      order they were forwarded and none twice; while the child lives and no stop was begun none
      forwarded since the spawn is lost, and of a dead child's events at most a suffix is. */
  lemma {:induction false} DeliveryHolds(s: State, acts: seq<Action>, t: State)
    requires DeliveryInv(s) && Executes(s, acts, t) && CleanRun(s, acts)
    ensures DeliveryInv(t) && InOrder(t.received)
    decreases |acts|
  {
    if acts == [] {
      assert forall i | 0 <= i < |t.received| :: t.received[i] == (t.received + Pending(t))[i];
    } else {
      StepKeepsDelivery(s, acts[0]);
      DeliveryHolds(Step(s, acts[0]), acts[1..], t);
    }
  }

  lemma {:induction false} InitialDelivery()
    ensures DeliveryInv(INIT)
  {
  }

  /** Losing events takes no stop: when the child dies on its own, any suffix of the queued events may
      never reach the parent, so the bound on a dead child cannot be improved. */
  lemma {:induction false} DeadChildMayLoseQueued(s: State, kept: nat) returns (t: State)
    requires DeliveryInv(s) && s.process.Alive? && !s.held.Nothing? && kept <= |s.events.value|
    ensures Executes(s, [Crash, Discard(kept)], t) && DeliveryInv(t) && t.held == s.held
    ensures t.events == Some(s.events.value[..kept]) && t.forwarded == s.forwarded
    ensures |Flow(t)| == |Flow(s)| - (|s.events.value| - kept)
  {
    var dead := Step(s, Crash);
    t := Step(dead, Discard(kept));
    assert [Crash, Discard(kept)][1..] == [Discard(kept)] && [Discard(kept)][1..] == [];
    assert Executes(t, [], t) && Executes(dead, [Discard(kept)], t);
    StepKeepsDelivery(s, Crash);
    StepKeepsDelivery(dead, Discard(kept));
  }

  /** No drain task is left and the parent still holds one that a handler ended. */
  ghost predicate Stuck(s: State) {
    s.held.Raised? && s.drainers == [] && !s.process.Absent? && !s.stopping
  }

  ghost predicate SpawnsNothing(s: State, acts: seq<Action>)
    decreases |acts|
  {
    acts == [] ||
    (Enabled(s, acts[0]) && (acts[0].Start? ==> s.process.Alive?) && SpawnsNothing(Step(s, acts[0]), acts[1..]))
  }

  /** A handler that raises in the only drain task stops delivery: whatever arrives, nothing more is
      received and no stop completes, until a child that has died is spawned again. */
  lemma {:induction false} StuckUntilSpawn(s: State, acts: seq<Action>, t: State)
    requires Stuck(s) && Executes(s, acts, t) && SpawnsNothing(s, acts)
    ensures Stuck(t) && t.received == s.received
    decreases |acts|
  {
    hide Unpack;
    if acts != [] { StuckUntilSpawn(Step(s, acts[0]), acts[1..], t); }
  }

  /** With one drain task, the one the parent holds, and no stop under way, a raising handler is what
      gets there, and the spawn of a new child after the death of the old one is what leads out. */
  lemma {:induction false} RaisingHandlerSticks(s: State)
    requires RegistrationInv(s) && s.held.Youngest? && |s.drainers| == 1 && !s.process.Absent? && !s.stopping
    ensures Stuck(Step(s, Raise(0)))
    ensures var t := Step(Step(s, Raise(0)), Start);
            if s.process.Alive? then Stuck(t) else t.held.Youngest? && t.drainers == [None] && t.process.Alive?
  {
  }

  lemma {:induction false} Prepend(s: State, a: Action, acts: seq<Action>, t: State)
    requires Enabled(s, a) && Executes(Step(s, a), acts, t)
    ensures Executes(s, [a] + acts, t)
  {
    assert ([a] + acts)[1..] == acts;
  }

  lemma {:induction false} ServiceEventArrives(s: State)
    requires RegistrationInv(s) && s.process.Alive? && s.events.Some?
    ensures var t := Step(s, Arrive(Message(MSG_SERVICE_EVENT, false)));
            && RegistrationInv(t)
            && t == s.(events := Some(s.events.value + [Event(s.forwarded, MSG_SERVICE_EVENT)]),
                       forwarded := s.forwarded + 1)
  {
    StepKeepsRegistration(s, Arrive(Message(MSG_SERVICE_EVENT, false)));
    assert Unpack(Message(MSG_SERVICE_EVENT, false), s.forwards) == [MSG_SERVICE_EVENT];
    assert NumberFrom([MSG_SERVICE_EVENT], s.forwarded) == [Event(s.forwarded, MSG_SERVICE_EVENT)];
  }

  /** Two drain tasks each take one of two queued events, and the later one is dispatched first. */
  lemma {:induction false} LaterDispatchedFirst(s: State, e: Event, f: Event) returns (acts: seq<Action>, t: State)
    requires s.events == Some([e, f]) && f.number > e.number
    requires |s.drainers| >= 2 && s.drainers[0].None? && s.drainers[1].None?
    ensures acts == [Pull(0), Pull(1), Dispatch(1), Dispatch(0)]
    ensures Executes(s, acts, t) && !InOrder(t.received)
  {
    hide Executes;
    var s3 := Step(s, Pull(0));
    assert s3.events.value == [f];
    var s4 := Step(s3, Pull(1));
    var s5 := Step(s4, Dispatch(1));
    t := Step(s5, Dispatch(0));
    assert Executes(t, [], t) by { StaysPut(t); }
    var a1, a2, a3 := [Dispatch(0)], [Dispatch(1), Dispatch(0)], [Pull(1), Dispatch(1), Dispatch(0)];
    acts := [Pull(0), Pull(1), Dispatch(1), Dispatch(0)];
    assert a1 == [Dispatch(0)] + [] && a2 == [Dispatch(1)] + a1 && a3 == [Pull(1)] + a2 && acts == [Pull(0)] + a3;
    Prepend(s5, Dispatch(0), [], t);
    Prepend(s4, Dispatch(1), a1, t);
    Prepend(s3, Pull(1), a2, t);
    Prepend(s, Pull(0), a3, t);
    assert t.received[|s.received|] == f && t.received[|s.received| + 1] == e;
  }

  lemma {:induction false} StaysPut(s: State)
    ensures Executes(s, [], s)
  {
  }

  /** With a second drain task order is not guaranteed: two service events arrive, each task takes
      one, and the later event is dispatched first. */
  lemma {:induction false} TwoDrainersReorder(s: State) returns (acts: seq<Action>, t: State)
    requires RegistrationInv(s) && s.process.Alive? && s.events == Some([])
    requires |s.drainers| >= 2 && s.drainers[0].None? && s.drainers[1].None?
    ensures Executes(s, acts, t) && !InOrder(t.received)
    ensures ChildAndDrainOnly(acts)
  {
    hide Executes, InOrder, Step;
    var arrival := Arrive(Message(MSG_SERVICE_EVENT, false));
    ServiceEventArrives(s);
    var s1 := Step(s, arrival);
    ServiceEventArrives(s1);
    var s2 := Step(s1, arrival);
    var e, f := Event(s.forwarded, MSG_SERVICE_EVENT), Event(s.forwarded + 1, MSG_SERVICE_EVENT);
    assert s2.events.value == [e, f];
    var rest;
    rest, t := LaterDispatchedFirst(s2, e, f);
    Prepend(s1, arrival, rest, t);
    Prepend(s, arrival, [arrival] + rest, t);
    acts := [arrival] + ([arrival] + rest);
  }

  /** Spawning again after a crash, without a stop in between, leaves the old drain task running
      beside the new one. */
  lemma {:induction false} RestartAfterCrashLeavesTwoDrainers()
    ensures exists t {:induction false} :: Executes(INIT, [Start, Crash, Start], t)
              && RegistrationInv(t) && t.process.Alive? && t.events == Some([]) && t.drainers == [None, None]
  {
    var s1 := Step(INIT, Start);
    var s2 := Step(s1, Crash);
    var t := Step(s2, Start);
    assert [Start, Crash, Start][1..] == [Crash, Start] && [Crash, Start][1..] == [Start] && [Start][1..] == [];
    assert Executes(t, [], t) && Executes(s2, [Start], t) && Executes(s1, [Crash, Start], t);
  }

  ghost predicate ChildAndDrainOnly(acts: seq<Action>) {
    forall a | a in acts :: a.Arrive? || a.Pull? || a.Dispatch?
  }

  lemma {:induction false} NoSpawnIsClean(s: State, acts: seq<Action>, t: State)
    requires ChildAndDrainOnly(acts) && Executes(s, acts, t)
    ensures CleanRun(s, acts)
    decreases |acts|
  {
    if acts != [] {
      assert acts[0] in acts;
      assert forall a | a in acts[1..] :: a in acts;
      NoSpawnIsClean(Step(s, acts[0]), acts[1..], t);
    }
  }

  /** Which task the parent holds on to does not matter to the child and the drain tasks. */
  lemma {:induction false} DetachedRun(s: State, acts: seq<Action>, t: State)
    requires ChildAndDrainOnly(acts) && Executes(s, acts, t)
    ensures Executes(s.(held := Nothing), acts, t.(held := Nothing))
    decreases |acts|
  {
    if acts != [] {
      assert acts[0] in acts;
      assert forall a | a in acts[1..] :: a in acts;
      DetachedRun(Step(s, acts[0]), acts[1..], t);
    }
  }

  /** A live child with nothing in flight, idle drain tasks and an ordered log. */
  ghost predicate Quiet(s: State) {
    && RegistrationInv(s) && s.process.Alive? && s.events == Some([])
    && (forall i | 0 <= i < |s.drainers| :: s.drainers[i].None?)
    && Ordered(s.received, s.forwarded) && s.sessionLog <= |s.received|
  }

  lemma {:induction false} SingleDrainerKeepsOrder(s: State, acts: seq<Action>, t: State)
    requires Quiet(s) && |s.drainers| <= 1 && ChildAndDrainOnly(acts) && Executes(s, acts, t)
    ensures InOrder(t.received)
  {
    var u, v := s.(held := Nothing), t.(held := Nothing);
    assert s.received + Pending(u) == s.received;
    assert DeliveryInv(u);
    DetachedRun(s, acts, t);
    NoSpawnIsClean(u, acts, v);
    DeliveryHolds(u, acts, v);
  }

  /** For a quiet state: delivery stays in order whatever arrives exactly when there is at most one
      drain task. */
  lemma {:induction false} OrderIffSingleDrainer(s: State)
    requires Quiet(s)
    ensures (forall acts: seq<Action>, t: State {:induction false} ::
               ChildAndDrainOnly(acts) && Executes(s, acts, t) ==> InOrder(t.received))
            <==> |s.drainers| <= 1
  {
    hide Executes, ChildAndDrainOnly;
    if |s.drainers| <= 1 {
      forall acts: seq<Action>, t: State | ChildAndDrainOnly(acts) && Executes(s, acts, t)
        ensures InOrder(t.received)
      {
        SingleDrainerKeepsOrder(s, acts, t);
      }
    } else {
      var acts, t := TwoDrainersReorder(s);
    }
  }

  // ----- the parent object -----

  class FanslyWebSocket {
    var eventHandlers: map<int, nat>
    var process: Process
    var commandQueue: Option<seq<Command>>
    var eventQueue: Option<seq<Event>>
    var childForwards: set<int>
    var drainTasks: seq<Option<Event>>
    var drainTask: Held
    var stopping: bool
    ghost var forwarded: nat
    ghost var received: seq<Event>
    ghost var session: nat
    ghost var sessionLog: nat

    ghost function View(): State
      reads this
    {
      State(eventHandlers, process, childForwards, commandQueue, eventQueue, drainTasks, drainTask, stopping,
            forwarded, received, session, sessionLog)
    }

    constructor ()
      ensures View() == INIT
    {
      eventHandlers, process, childForwards := map[], Absent, {};
      commandQueue, eventQueue, drainTasks := None, None, [];
      drainTask, stopping := Nothing, false;
      forwarded, received, session, sessionLog := 0, [], 0, 0;
    }

    method SendCmd(c: Command)
      modifies this`commandQueue
      ensures View() == Send(old(View()), c)
    {
      if commandQueue.None? {
        return;
      }
      commandQueue := Some(commandQueue.value + [c]);
    }

    method Register(msgType: int, handler: nat)
      requires RegistrationInv(View())
      modifies this
      ensures View() == Registered(old(View()), msgType, handler) && RegistrationInv(View())
    {
      StepKeepsRegistration(View(), RegisterHandler(msgType, handler));
      var alreadyKnown := msgType in eventHandlers;
      eventHandlers := eventHandlers[msgType := handler];
      if !alreadyKnown {
        SendCmd(Command.Register(msgType));
      }
    }

    method StartInThread()
      requires RegistrationInv(View())
      modifies this
      ensures View() == Started(old(View())) && RegistrationInv(View())
    {
      StepKeepsRegistration(View(), Start);
      if process.Alive? {
        return;
      }
      commandQueue, eventQueue := Some([]), Some([]);
      childForwards := eventHandlers.Keys + {MSG_SERVICE_EVENT};
      process := Alive;
      drainTasks, drainTask := drainTasks + [None], Youngest;
      session, sessionLog := forwarded, |received|;
    }

    /** `stop_thread` when nothing else runs while it waits for the child to exit.  It raises when a
        handler ended the drain task. */
    method StopThread() returns (raised: bool)
      requires RegistrationInv(View())
      modifies this
      ensures old(process).Absent? ==> View() == old(View())
      ensures raised <==> !old(process).Absent? && old(drainTask).Raised?
      ensures raised ==> View() == Send(old(View()), Stop)
      ensures !raised ==> process.Absent?
      ensures !raised && !old(process).Absent? ==> View() == Stopped(StopBegun(old(View())))
      ensures RegistrationInv(View())
    {
      StepKeepsRegistration(View(), StopBegin);
      raised := false;
      if process.Absent? {
        return;
      }
      SendCmd(Stop);
      if drainTask.Raised? {
        return true;
      }
      if drainTask.Youngest? {
        drainTasks := drainTasks[..|drainTasks| - 1];
      }
      drainTask := Nothing;
      process, commandQueue, eventQueue, stopping := Absent, None, None, false;
    }
  }
}
