/** When the event session reconnects, gives up or ends: read off what happened to it. */
module EventReconnects {
  import opened Prelude
  import opened EventRecorder
  import opened EventStream

  /** The breaks since the last event that was passed on, or since the opening. */
  function BreaksSince(sessions: seq<Session>, inputs: seq<Input>, i: nat): nat
    requires |sessions| == |inputs| + 1 && i <= |inputs|
  {
    if i == 0 || sessions[i].delivered != sessions[i - 1].delivered then 0
    else BreaksSince(sessions, inputs, i - 1) + if inputs[i - 1].Breaks? then 1 else 0
  }

  predicate Ended(s: Session) {
    s.state.Closed? || s.state.Failed?
  }

  /** The caller closed the session before step i. */
  predicate CallerClosed(inputs: seq<Input>, i: nat)
    requires i <= |inputs|
  {
    exists j :: 0 <= j < i && inputs[j].CallerCloses?
  }

  /** What the session counts is what happened to it. */
  ghost predicate Counted(sessions: seq<Session>, inputs: seq<Input>, i: nat)
    requires |sessions| == |inputs| + 1 && i <= |inputs|
  {
    var s := sessions[i];
    && (!Ended(s) ==> s.reconnectAttempt == BreaksSince(sessions, inputs, i))
    && (s.state.Closed? <==> CallerClosed(inputs, i) || EndedByEvent(s))
    && (s.closedByCaller <==> CallerClosed(inputs, i))
    && (s.source.Some? || s.timerPending <==> !Ended(s))
    && (s.source.Some? ==> !s.timerPending)
    && s.reconnectAttempt <= s.delays
  }

  lemma OneStepCounted(log: seq<Event>, attemptId: string, delays: nat, start: int, sessions: seq<Session>,
                       inputs: seq<Input>, i: nat)
    requires Numbered(log, attemptId) && IsRun(log, attemptId, delays, start, sessions, inputs) && i < |inputs|
    requires Counted(sessions, inputs, i)
    ensures Counted(sessions, inputs, i + 1)
  {
    var s, t := sessions[i], sessions[i + 1];
    assert Took(log, sessions, inputs, i);
    assert CallerClosed(inputs, i + 1) <==> CallerClosed(inputs, i) || inputs[i].CallerCloses?;
    if t.delivered != s.delivered { assert t.delivered[..|s.delivered|] == s.delivered; }
  }

  lemma {:induction false} RunCounted(log: seq<Event>, attemptId: string, delays: nat, start: int,
                                      sessions: seq<Session>, inputs: seq<Input>, i: nat)
    requires Numbered(log, attemptId) && IsRun(log, attemptId, delays, start, sessions, inputs) && i <= |inputs|
    ensures Counted(sessions, inputs, i)
    ensures sessions[i].attemptId == attemptId && sessions[i].delays == delays
  {
    hide Counted;
    RunInOrder(log, attemptId, delays, start, sessions, inputs, i);
    if i > 0 {
      RunCounted(log, attemptId, delays, start, sessions, inputs, i - 1);
      OneStepCounted(log, attemptId, delays, start, sessions, inputs, i - 1);
    } else {
      OpeningCounted(log, attemptId, delays, start, sessions, inputs);
    }
  }

  lemma OpeningCounted(log: seq<Event>, attemptId: string, delays: nat, start: int, sessions: seq<Session>,
                       inputs: seq<Input>)
    requires IsRun(log, attemptId, delays, start, sessions, inputs)
    ensures Counted(sessions, inputs, 0)
  {
  }

  /**
   * A break makes the session Failed exactly when as many breaks as there are delays already
   * followed the last passed-on event, or the opening. Otherwise the session goes on to reconnect:
   * one more reconnect is scheduled and its timer pending.
   */
  lemma BreaksExactly(log: seq<Event>, attemptId: string, delays: nat, start: int, sessions: seq<Session>,
                      inputs: seq<Input>, i: nat)
    requires Numbered(log, attemptId) && IsRun(log, attemptId, delays, start, sessions, inputs) && i < |inputs|
    requires inputs[i] == Breaks
    ensures var s, t := sessions[i], sessions[i + 1];
      var before := BreaksSince(sessions, inputs, i);
      && !Ended(s) && before <= delays
      && t.source.None? && t.delivered == s.delivered && t.lastSequence == s.lastSequence
      && (before == delays ==> t.state == Failed && !t.timerPending && t.scheduled == s.scheduled)
      && (before < delays ==> t.state == Reconnecting && t.timerPending && t.scheduled == s.scheduled + 1)
  {
    RunCounted(log, attemptId, delays, start, sessions, inputs, i);
    assert Took(log, sessions, inputs, i);
  }

  /** A late error changes nothing once the session is closed; a late event is passed on and leaves it closed. */
  lemma AfterClose(s: Session, m: Message)
    requires s.closedByCaller && s.state.Closed?
    ensures OnError(s) == s
    ensures m.Parsed? && m.event.attemptId == s.attemptId && m.event.sequence > s.lastSequence ==>
              && OnMessage(s, m).state == Closed
              && OnMessage(s, m).delivered == s.delivered + [m.event]
              && OnMessage(s, m).lastSequence == m.event.sequence
  {
  }

  /** Every other input: what a session makes of it, from the input and what it was given so far. */
  lemma OthersExactly(log: seq<Event>, attemptId: string, delays: nat, start: int, sessions: seq<Session>,
                      inputs: seq<Input>, i: nat)
    requires Numbered(log, attemptId) && IsRun(log, attemptId, delays, start, sessions, inputs) && i < |inputs|
    ensures var s, t, input := sessions[i], sessions[i + 1], inputs[i];
      var position := Max(0, start) + |s.delivered|;
      && t.scheduled == s.scheduled + (if input.Breaks? && t.state.Reconnecting? then 1 else 0)
      && (input == CallerCloses ==>
            t.state == Closed && t.source.None? && !t.timerPending && t.delivered == s.delivered)
      && (input == TimerFires ==>
            && t.source == Some(Connection(position, position)) && t.state == s.state
            && !t.timerPending && t.delivered == s.delivered)
      && (input.Arrives? ==>
            if input.message.Parsed? && input.message.event.attemptId == attemptId &&
               input.message.event.sequence > position
            then
              && t.delivered == s.delivered + [input.message.event]
              && (input.message.event.kind in {"attempt.completed", "attempt.failed"} ==>
                    t.state == Closed && t.source.None?)
              && (input.message.event.kind !in {"attempt.completed", "attempt.failed"} ==>
                    t.state == Live && t.source.Some?)
            else t.delivered == s.delivered && t.state == s.state && t.source.Some?)
  {
    RunInOrder(log, attemptId, delays, start, sessions, inputs, i);
    RunCounted(log, attemptId, delays, start, sessions, inputs, i);
    assert Took(log, sessions, inputs, i);
  }

  /** A break before step i found every delay used up. */
  predicate GaveUp(sessions: seq<Session>, inputs: seq<Input>, delays: nat, i: nat)
    requires |sessions| == |inputs| + 1 && i <= |inputs|
  {
    exists j :: 0 <= j < i && inputs[j].Breaks? && BreaksSince(sessions, inputs, j) == delays
  }

  /** Failed is a session that some break found with no delay left and that the caller has not closed since. */
  lemma {:induction false} EndsExactly(log: seq<Event>, attemptId: string, delays: nat, start: int,
                                       sessions: seq<Session>, inputs: seq<Input>, i: nat)
    requires Numbered(log, attemptId) && IsRun(log, attemptId, delays, start, sessions, inputs) && i <= |inputs|
    ensures sessions[i].state.Closed? <==> CallerClosed(inputs, i) || EndedByEvent(sessions[i])
    ensures sessions[i].state.Failed? <==> !CallerClosed(inputs, i) && GaveUp(sessions, inputs, delays, i)
  {
    RunCounted(log, attemptId, delays, start, sessions, inputs, i);
    if i > 0 {
      EndsExactly(log, attemptId, delays, start, sessions, inputs, i - 1);
      RunCounted(log, attemptId, delays, start, sessions, inputs, i - 1);
      if inputs[i - 1].Breaks? { BreaksExactly(log, attemptId, delays, start, sessions, inputs, i - 1); }
      assert Took(log, sessions, inputs, i - 1);
      assert CallerClosed(inputs, i) <==> CallerClosed(inputs, i - 1) || inputs[i - 1].CallerCloses?;
      assert GaveUp(sessions, inputs, delays, i) <==>
        GaveUp(sessions, inputs, delays, i - 1) ||
        (inputs[i - 1].Breaks? && BreaksSince(sessions, inputs, i - 1) == delays);
    }
  }

  /** At any moment of a run in which the session has not ended, it can still be brought up to date. */
  lemma CanCatchUp(log: EventLog, attemptId: string, delays: nat, start: int, sessions: seq<Session>,
                   inputs: seq<Input>, i: nat)
    returns (later: seq<Session>, more: seq<Input>)
    requires AllNumbered(log) && IsRun(EventsOf(log, attemptId), attemptId, delays, start, sessions, inputs)
    requires i <= |inputs| && !Ended(sessions[i]) && Max(0, start) <= |EventsOf(log, attemptId)|
    ensures |later| == |more| + 1
    ensures IsRun(EventsOf(log, attemptId), attemptId, delays, start, sessions[..i] + later, inputs[..i] + more)
    ensures forall k :: 0 <= k < |more| ==> more[k].TimerFires? || more[k].Arrives?
    ensures var last := later[|more|];
      last.delivered == EventsOf(log, attemptId)[Max(0, start)..] || EndedByEvent(last)
  {
    var events := EventsOf(log, attemptId);
    assert Numbered(events, attemptId);
    RunInOrder(events, attemptId, delays, start, sessions, inputs, i);
    later, more := CatchesUp(events, sessions[i], start);
    var all, given := sessions[..i] + later, inputs[..i] + more;
    forall k | 0 <= k < |given| ensures Took(events, all, given, k) {
      if k < i {
        assert Took(events, sessions, inputs, k);
        assert all[k] == sessions[k] && all[k + 1] == sessions[k + 1] && given[k] == inputs[k];
      } else {
        assert Took(events, later, more, k - i);
        assert all[k] == later[k - i] && all[k + 1] == later[k - i + 1] && given[k] == more[k - i];
      }
    }
    AllDelivered(events, start, later[|more|]);
  }

  lemma AllDelivered(log: seq<Event>, start: int, s: Session)
    requires InOrder(log, start, s) && Max(0, start) <= |log|
    ensures Max(0, start) + |s.delivered| == |log| ==> s.delivered == log[Max(0, start)..]
  {
  }
}
