/** The client's event session: it reconnects from the last sequence it saw and drops duplicates. */
module EventStream {
  import opened Prelude
  import opened EventRecorder

  datatype StreamState = Connecting | Live | Reconnecting | Closed | Failed

  /** What a message turns out to be once it is parsed. */
  datatype Message = Invalid | Parsed(event: Event)

  predicate Terminal(kind: string) {
    kind == "attempt.completed" || kind == "attempt.failed"
  }

  /** An open event source, as the server sees it: asked for what follows since, sent up to sent. */
  datatype Connection = Connection(since: int, sent: int)

  datatype Session = Session(
    attemptId: string,
    delays: nat,
    state: StreamState,
    lastSequence: int,
    reconnectAttempt: nat,
    source: Option<Connection>,
    timerPending: bool,
    closedByCaller: bool,
    delivered: seq<Event>,
    scheduled: nat)

  function Max(a: int, b: int): int {
    if a > b then a else b
  }

  /** The request names the last sequence only when it is positive. */
  function Dial(lastSequence: int): Connection {
    Connection(Max(0, lastSequence), Max(0, lastSequence))
  }

  function Open(attemptId: string, delays: nat, since: int): Session {
    Session(attemptId, delays, Connecting, since, 0, Some(Dial(since)), false, false, [], 0)
  }

  function OnMessage(s: Session, m: Message): Session {
    if m.Invalid? || m.event.attemptId != s.attemptId || m.event.sequence <= s.lastSequence then s
    else
      var heard := s.(
        reconnectAttempt := 0,
        state := if s.state.Closed? then Closed else Live,
        lastSequence := m.event.sequence,
        delivered := s.delivered + [m.event]);
      if Terminal(m.event.kind) then heard.(source := None, state := Closed) else heard
  }

  function OnError(s: Session): Session {
    if s.closedByCaller || s.state.Closed? then s
    else if s.reconnectAttempt >= s.delays then s.(source := None, state := Failed)
    else
      s.(source := None, reconnectAttempt := s.reconnectAttempt + 1, state := Reconnecting, timerPending := true,
         scheduled := s.scheduled + 1)
  }

  function OnTimer(s: Session): Session {
    s.(timerPending := false, source := Some(Dial(s.lastSequence)))
  }

  function OnClose(s: Session): Session {
    s.(closedByCaller := true, timerPending := false, source := None, state := Closed)
  }

  class ReviewEventStream {
    const attemptId: string
    const delays: nat
    var state: StreamState
    var lastSequence: int
    var reconnectAttempt: nat
    var source: Option<Connection>
    var timerPending: bool
    var closedByCaller: bool
    ghost var delivered: seq<Event>
    ghost var scheduled: nat

    ghost function View(): Session
      reads this
    {
      Session(attemptId, delays, state, lastSequence, reconnectAttempt, source, timerPending, closedByCaller, delivered,
        scheduled)
    }

    constructor (attemptId: string, delays: nat, since: int)
      ensures View() == Open(attemptId, delays, since)
    {
      this.attemptId, this.delays := attemptId, delays;
      state, lastSequence, reconnectAttempt := Connecting, since, 0;
      source, timerPending, closedByCaller := None, false, false;
      delivered, scheduled := [], 0;
      new;
      Connect();
    }

    method Connect()
      modifies this
      ensures View() == OnTimer(old(View()))
    {
      timerPending := false;
      source := Some(if lastSequence > 0 then Connection(lastSequence, lastSequence) else Connection(0, 0));
    }

    /** The handler; reports whether the event is passed on. */
    method HandleMessage(m: Message) returns (passedOn: bool)
      modifies this
      ensures View() == OnMessage(old(View()), m)
      ensures passedOn <==> delivered != old(delivered)
    {
      if m.Invalid? { return false; }
      var event := m.event;
      if event.attemptId != attemptId { return false; }
      if event.sequence <= lastSequence { return false; }
      reconnectAttempt := 0;
      if !state.Live? && !state.Closed? { state := Live; }
      lastSequence := event.sequence;
      passedOn, delivered := true, delivered + [event];
      if Terminal(event.kind) {
        source := None;
        state := Closed;
      }
    }

    method HandleError()
      modifies this
      ensures View() == OnError(old(View()))
    {
      if closedByCaller || state.Closed? { return; }
      source := None;
      if reconnectAttempt >= delays {
        state := Failed;
        return;
      }
      reconnectAttempt := reconnectAttempt + 1;
      state := Reconnecting;
      timerPending, scheduled := true, scheduled + 1;
    }

    method Close()
      modifies this
      ensures View() == OnClose(old(View()))
    {
      closedByCaller := true;
      if timerPending { timerPending := false; }
      source := None;
      if !state.Closed? { state := Closed; }
    }
  }

  // ---- runs ---------------------------------------------------------------------------------------

  datatype Input = Arrives(message: Message) | Breaks | TimerFires | CallerCloses

  /** The server's record of an open connection moves on with what it sends. */
  function Sent(s: Session, m: Message): Session {
    if s.source.None? || m.Invalid? || m.event.attemptId != s.attemptId then s
    else s.(source := Some(s.source.value.(sent := Max(s.source.value.sent, m.event.sequence))))
  }

  function React(s: Session, input: Input): Session {
    match input
    case Arrives(m) => OnMessage(Sent(s, m), m)
    case Breaks => OnError(s)
    case TimerFires => OnTimer(s)
    case CallerCloses => OnClose(s)
  }

  /**
   * What can happen: an open connection delivers the log's events in order from where it was asked
   * to start, repeats what it sent, adds anything invalid or foreign, and may break at any time. A
   * closed one is silent.
   */
  predicate Possible(log: seq<Event>, s: Session, input: Input) {
    match input
    case Arrives(m) =>
      s.source.Some? &&
      (m.Parsed? && m.event.attemptId == s.attemptId ==>
        1 <= m.event.sequence <= |log| && m.event.sequence <= s.source.value.sent + 1 &&
          log[m.event.sequence - 1] == m.event)
    case Breaks => s.source.Some?
    case TimerFires => s.timerPending
    case CallerCloses => true
  }

  /** The reconnects that n delivered events allow: every one of them starts the delays anew. */
  function Allowance(n: nat, delays: nat): nat {
    if n == 0 then 0 else Allowance(n - 1, delays) + delays
  }

  lemma {:induction false} AllowanceIsProduct(n: nat, delays: nat)
    ensures Allowance(n, delays) == n * delays
  {
    if n > 0 {
      AllowanceIsProduct(n - 1, delays);
      assert n * delays == (n - 1) * delays + delays;
    }
  }

  /** What holds at every moment of a session that began at start. */
  ghost predicate InOrder(log: seq<Event>, start: int, s: Session) {
    var from := Max(0, start);
    var n := |s.delivered|;
    && (n > 0 ==> from + n <= |log|)
    && (forall i :: 0 <= i < n ==> s.delivered[i] == log[from + i])
    && (s.lastSequence == if n > 0 then from + n else start)
    && (s.source.Some? ==> s.source.value.sent == from + n)
    && (forall i :: 0 <= i < n - 1 ==> !Terminal(s.delivered[i].kind))
    && (n > 0 && Terminal(s.delivered[n - 1].kind) ==> s.state.Closed?)
    && (s.source.Some? ==> !s.timerPending)
    && (s.source.Some? || s.timerPending <==> !s.state.Closed? && !s.state.Failed?)
    && s.reconnectAttempt <= s.delays
    && s.scheduled <= Allowance(n, s.delays) + s.reconnectAttempt
  }

  ghost predicate Took(log: seq<Event>, sessions: seq<Session>, inputs: seq<Input>, i: nat)
    requires i < |inputs| && i + 1 < |sessions|
  {
    Possible(log, sessions[i], inputs[i]) && sessions[i + 1] == React(sessions[i], inputs[i])
  }

  ghost predicate IsRun(log: seq<Event>, attemptId: string, delays: nat, start: int, sessions: seq<Session>,
                        inputs: seq<Input>)
  {
    && |sessions| == |inputs| + 1
    && sessions[0] == Open(attemptId, delays, start)
    && forall i {:trigger Took(log, sessions, inputs, i)} :: 0 <= i < |inputs| ==> Took(log, sessions, inputs, i)
  }

  /** An event that is passed on is the next one of the log. */
  lemma NewEventInOrder(log: seq<Event>, start: int, s: Session, e: Event)
    requires Numbered(log, s.attemptId) && Possible(log, s, Arrives(Parsed(e))) && InOrder(log, start, s)
    requires e.attemptId == s.attemptId && e.sequence > s.lastSequence
    ensures e.sequence == Max(0, start) + |s.delivered| + 1
    ensures InOrder(log, start, React(s, Arrives(Parsed(e))))
  {
    var t := React(s, Arrives(Parsed(e)));
    var n := |s.delivered|;
    assert t.delivered == s.delivered + [e];
    assert Allowance(n + 1, s.delays) == Allowance(n, s.delays) + s.delays;
  }

  lemma OldMessageInOrder(log: seq<Event>, start: int, s: Session, m: Message)
    requires Possible(log, s, Arrives(m)) && InOrder(log, start, s)
    requires m.Invalid? || m.event.attemptId != s.attemptId || m.event.sequence <= s.lastSequence
    ensures InOrder(log, start, React(s, Arrives(m)))
  {
  }

  lemma ReactInOrder(log: seq<Event>, start: int, s: Session, input: Input)
    requires Numbered(log, s.attemptId) && Possible(log, s, input) && InOrder(log, start, s)
    ensures InOrder(log, start, React(s, input))
  {
    if input.Arrives? {
      var m := input.message;
      if m.Invalid? || m.event.attemptId != s.attemptId || m.event.sequence <= s.lastSequence {
        OldMessageInOrder(log, start, s, m);
      } else {
        NewEventInOrder(log, start, s, m.event);
      }
    }
  }

  lemma ReactKeepsTopic(s: Session, input: Input)
    ensures React(s, input).attemptId == s.attemptId && React(s, input).delays == s.delays
  {
  }

  lemma {:induction false} RunInOrder(log: seq<Event>, attemptId: string, delays: nat, start: int,
                                      sessions: seq<Session>, inputs: seq<Input>, i: nat)
    requires Numbered(log, attemptId) && IsRun(log, attemptId, delays, start, sessions, inputs) && i <= |inputs|
    ensures sessions[i].attemptId == attemptId && sessions[i].delays == delays
    ensures InOrder(log, start, sessions[i])
  {
    if i > 0 {
      hide React, InOrder, Numbered;
      RunInOrder(log, attemptId, delays, start, sessions, inputs, i - 1);
      assert Took(log, sessions, inputs, i - 1);
      ReactKeepsTopic(sessions[i - 1], inputs[i - 1]);
      ReactInOrder(log, start, sessions[i - 1], inputs[i - 1]);
    }
  }

  /**
   * However connections break, repeat or mix in other messages, what the caller is given is a
   * gap-free stretch of the recorder's log from the start point on; nothing follows a terminal
   * event; and a session that has not ended has a connection or a reconnect on its way.
   */
  lemma DeliveryExact(log: EventLog, attemptId: string, delays: nat, start: int, sessions: seq<Session>,
                      inputs: seq<Input>, i: nat)
    requires AllNumbered(log) && IsRun(EventsOf(log, attemptId), attemptId, delays, start, sessions, inputs) &&
             i <= |inputs|
    ensures var s := sessions[i];
      var events := EventsOf(log, attemptId);
      var from := Max(0, start);
      && (s.delivered == [] || (from + |s.delivered| <= |events| && s.delivered == events[from..from + |s.delivered|]))
      && (forall k :: 0 <= k < |s.delivered| - 1 ==> !Terminal(s.delivered[k].kind))
      && (s.delivered != [] && Terminal(s.delivered[|s.delivered| - 1].kind) ==>
           s.state.Closed? && s.source.None? && !s.timerPending)
      && (s.source.Some? || s.timerPending <==> !s.state.Closed? && !s.state.Failed?)
  {
    var events := EventsOf(log, attemptId);
    assert Numbered(events, attemptId);
    RunInOrder(events, attemptId, delays, start, sessions, inputs, i);
    var s := sessions[i];
    if s.delivered != [] {
      var from := Max(0, start);
      assert s.delivered == events[from..from + |s.delivered|];
    }
  }

  /** Reconnects are bounded by what was delivered: (delivered + 1) times the number of delays. */
  lemma ReconnectsBounded(log: EventLog, attemptId: string, delays: nat, start: int, sessions: seq<Session>,
                          inputs: seq<Input>, i: nat)
    requires AllNumbered(log) && IsRun(EventsOf(log, attemptId), attemptId, delays, start, sessions, inputs) &&
             i <= |inputs|
    ensures sessions[i].scheduled <= Allowance(|sessions[i].delivered| + 1, delays)
  {
    assert Numbered(EventsOf(log, attemptId), attemptId);
    RunInOrder(EventsOf(log, attemptId), attemptId, delays, start, sessions, inputs, i);
  }

  /** Once the session ended, or the caller closed it, nothing more is delivered. */
  lemma {:induction false} EndedForGood(log: seq<Event>, attemptId: string, delays: nat, start: int,
                                        sessions: seq<Session>, inputs: seq<Input>, i: nat, j: nat)
    requires Numbered(log, attemptId) && IsRun(log, attemptId, delays, start, sessions, inputs) && i <= j <= |inputs|
    requires sessions[i].state.Closed? || sessions[i].state.Failed?
    ensures sessions[j].delivered == sessions[i].delivered && sessions[j].scheduled == sessions[i].scheduled
    ensures sessions[j].state == sessions[i].state || sessions[j].state.Closed?
    decreases j
  {
    if i < j {
      EndedForGood(log, attemptId, delays, start, sessions, inputs, i, j - 1);
      RunInOrder(log, attemptId, delays, start, sessions, inputs, j - 1);
      assert Took(log, sessions, inputs, j - 1);
    }
  }

  /** The last delivered event is one that ends an Attempt. */
  predicate EndedByEvent(s: Session) {
    s.delivered != [] && s.delivered[|s.delivered| - 1].kind in {"attempt.completed", "attempt.failed"}
  }

  /** A session that has not ended is connected or about to reconnect, and asks for what it lacks. */
  lemma UnendedGoesOn(log: seq<Event>, start: int, s: Session)
    requires InOrder(log, start, s) && !s.state.Closed? && !s.state.Failed? && Max(0, start) <= |log|
    ensures s.source.Some? <==> !s.timerPending
    ensures Max(0, start) + |s.delivered| <= |log|
    ensures s.source.Some? ==> s.source.value.sent == Max(0, start) + |s.delivered|
  {
  }

  /** The next event of the log, or the timer, brings the session on. */
  lemma Progress(log: seq<Event>, start: int, s: Session, input: Input)
    requires Numbered(log, s.attemptId) && InOrder(log, start, s) && !s.state.Closed? && !s.state.Failed?
    requires var at := Max(0, start) + |s.delivered|;
      if s.timerPending then input == TimerFires
      else at < |log| && s.source.Some? && input == Arrives(Parsed(log[at]))
    ensures Possible(log, s, input)
    ensures var t := React(s, input);
      && (t.state.Closed? ==> EndedByEvent(t))
      && !t.state.Failed?
      && (s.timerPending ==> t.delivered == s.delivered && !t.timerPending)
      && (!s.timerPending ==> |t.delivered| == |s.delivered| + 1)
  {
  }

  /**
   * A session that has not ended catches up whenever connections hold: a pending timer fires, and
   * the connection hands over everything up to the first terminal event.
   */
  lemma {:induction false} CatchesUp(log: seq<Event>, s: Session, start: int)
    returns (sessions: seq<Session>, inputs: seq<Input>)
    requires Numbered(log, s.attemptId) && InOrder(log, start, s) && Max(0, start) <= |log|
    requires !s.state.Closed? && !s.state.Failed?
    ensures |sessions| == |inputs| + 1 && sessions[0] == s
    ensures forall i {:trigger Took(log, sessions, inputs, i)} :: 0 <= i < |inputs| ==> Took(log, sessions, inputs, i)
    ensures forall i :: 0 <= i < |inputs| ==> inputs[i].TimerFires? || inputs[i].Arrives?
    ensures var last := sessions[|inputs|];
      && InOrder(log, start, last)
      && (Max(0, start) + |last.delivered| == |log| || EndedByEvent(last))
      && |last.delivered| >= |s.delivered|
    decreases |log| - |s.delivered|, s.timerPending
  {
    hide InOrder, Numbered, React, Terminal;
    var at := Max(0, start) + |s.delivered|;
    UnendedGoesOn(log, start, s);
    if s.source.Some? && at == |log| {
      return [s], [];
    }
    var input := if s.source.Some? then Arrives(Parsed(log[at])) else TimerFires;
    var t := React(s, input);
    Progress(log, start, s, input);
    ReactInOrder(log, start, s, input);
    ReactKeepsTopic(s, input);
    if t.state.Closed? {
      sessions, inputs := [s, t], [input];
      assert Took(log, sessions, inputs, 0);
    } else {
      var later, more := CatchesUp(log, t, start);
      sessions, inputs := [s] + later, [input] + more;
      forall i | 0 <= i < |inputs| ensures Took(log, sessions, inputs, i) {
        if i > 0 { assert Took(log, later, more, i - 1); }
      }
    }
  }
}
