/** Review events, numbered per Attempt as they are recorded. */
module EventRecorder {
  import opened Prelude

  datatype Event = Event(sequence: int, attemptId: string, kind: string, payload: string)

  type EventLog = map<string, seq<Event>>

  function EventsOf(log: EventLog, attemptId: string): seq<Event> {
    if attemptId in log then log[attemptId] else []
  }

  /** The Attempt's events are numbered 1, 2, 3, ... in the order they were recorded. */
  ghost predicate Numbered(events: seq<Event>, attemptId: string) {
    forall i {:trigger events[i]} :: 0 <= i < |events| ==>
      events[i].sequence == i + 1 && events[i].attemptId == attemptId
  }

  ghost predicate AllNumbered(log: EventLog) {
    forall a {:trigger EventsOf(log, a)} :: Numbered(EventsOf(log, a), a)
  }

  function MaxSequence(events: seq<Event>): (r: int)
    requires |events| > 0
    ensures forall i :: 0 <= i < |events| ==> events[i].sequence <= r
    ensures exists i :: 0 <= i < |events| && events[i].sequence == r
  {
    if |events| == 1 then events[0].sequence
    else
      var before := MaxSequence(events[..|events| - 1]);
      var last := events[|events| - 1].sequence;
      if last > before then last else before
  }

  class MemoryReviewEventStore {
    var events: EventLog

    constructor ()
      ensures events == map[]
    {
      events := map[];
    }

    method Append(event: Event)
      modifies this
      ensures events == old(events)[event.attemptId := EventsOf(old(events), event.attemptId) + [event]]
    {
      var before := if event.attemptId in events then events[event.attemptId] else [];
      events := events[event.attemptId := before + [event]];
    }
  }

  /** The numbering carries on where the log of the Attempt ends. */
  ghost predicate InStep(log: EventLog, sequences: map<string, int>) {
    forall a {:trigger EventsOf(log, a)} :: a in sequences ==> sequences[a] == |EventsOf(log, a)|
  }

  /** The recorder knows the Attempt, or there is nothing recorded for it yet. */
  predicate Ready(log: EventLog, sequences: map<string, int>, attemptId: string) {
    attemptId in sequences || EventsOf(log, attemptId) == []
  }

  class ReviewEventRecorder {
    const store: MemoryReviewEventStore
    var sequences: map<string, int>

    ghost predicate Valid()
      reads this, store
    {
      AllNumbered(store.events) && InStep(store.events, sequences)
    }

    /** A recorder knows no Attempt at first, also when the store already holds events. */
    constructor (store: MemoryReviewEventStore)
      requires AllNumbered(store.events)
      ensures Valid() && this.store == store && sequences == map[]
    {
      this.store, sequences := store, map[];
    }

    method NextSequence(attemptId: string) returns (current: int)
      modifies this
      ensures current == (if attemptId in old(sequences) then old(sequences)[attemptId] else 0) + 1
      ensures sequences == old(sequences)[attemptId := current]
    {
      current := (if attemptId in sequences then sequences[attemptId] else 0) + 1;
      sequences := sequences[attemptId := current];
    }

    /** After a restart the numbering is picked up from the log. */
    method Hydrate(attemptId: string)
      requires Valid()
      modifies this
      ensures Valid() && Ready(store.events, sequences, attemptId)
      ensures forall a :: a != attemptId ==> (a in sequences <==> a in old(sequences))
    {
      var events := EventsOf(store.events, attemptId);
      if |events| > 0 {
        MaxOfNumbered(events, attemptId);
        sequences := sequences[attemptId := MaxSequence(events)];
      }
    }

    /** The event gets the number after the last one and is appended. */
    method Record(attemptId: string, kind: string, payload: string) returns (event: Event)
      requires Valid() && Ready(store.events, sequences, attemptId)
      modifies this, store
      ensures Valid()
      ensures event == Event(|EventsOf(old(store.events), attemptId)| + 1, attemptId, kind, payload)
      ensures store.events == old(store.events)[attemptId := EventsOf(old(store.events), attemptId) + [event]]
    {
      assert Numbered(EventsOf(store.events, attemptId), attemptId);
      var sequence := NextSequence(attemptId);
      event := Event(sequence, attemptId, kind, payload);
      ghost var before := store.events;
      store.Append(event);
      forall a
        ensures Numbered(EventsOf(store.events, a), a)
        ensures a in sequences ==> sequences[a] == |EventsOf(store.events, a)|
      {
        if a != attemptId { assert EventsOf(store.events, a) == EventsOf(before, a); }
      }
    }
  }

  lemma MaxOfNumbered(events: seq<Event>, attemptId: string)
    requires Numbered(events, attemptId) && |events| > 0
    ensures MaxSequence(events) == |events|
  {
    assert events[|events| - 1].sequence == |events|;
  }

  // ---- whole histories, restarts included -------------------------------------------------------

  datatype Action =
    | DoRecord(attemptId: string, kind: string, payload: string)
    | DoHydrate(attemptId: string)
    | DoRestart

  datatype History = History(log: EventLog, sequences: map<string, int>)

  function Perform(h: History, action: Action): History {
    match action
    case DoRestart => History(h.log, map[])
    case DoHydrate(a) =>
      if EventsOf(h.log, a) == [] then h
      else History(h.log, h.sequences[a := MaxSequence(EventsOf(h.log, a))])
    case DoRecord(a, kind, payload) =>
      var sequence := (if a in h.sequences then h.sequences[a] else 0) + 1;
      History(h.log[a := EventsOf(h.log, a) + [Event(sequence, a, kind, payload)]], h.sequences[a := sequence])
  }

  function PerformAll(actions: seq<Action>): History {
    if |actions| == 0 then History(map[], map[])
    else Perform(PerformAll(actions[..|actions| - 1]), actions[|actions| - 1])
  }

  /** Before it records for an Attempt with a past, a restarted recorder hydrates it. */
  predicate HydratesFirst(actions: seq<Action>) {
    forall i :: 0 <= i < |actions| && actions[i].DoRecord? ==>
      var h := PerformAll(actions[..i]);
      Ready(h.log, h.sequences, actions[i].attemptId)
  }

  lemma HydratesFirstSoFar(actions: seq<Action>)
    requires |actions| > 0
    ensures var n := |actions| - 1;
      var h := PerformAll(actions[..n]);
      HydratesFirst(actions) <==>
        HydratesFirst(actions[..n]) &&
        (actions[n].DoRecord? ==> Ready(h.log, h.sequences, actions[n].attemptId))
  {
    var n := |actions| - 1;
    forall i | 0 <= i <= n ensures actions[..n][..i] == actions[..i] {}
    if HydratesFirst(actions) {
      forall i | 0 <= i < n && actions[..n][i].DoRecord?
        ensures var g := PerformAll(actions[..n][..i]); Ready(g.log, g.sequences, actions[..n][i].attemptId)
      {
        assert actions[i].DoRecord?;
      }
    } else {
      var i :| 0 <= i <= n && actions[i].DoRecord? &&
        var g := PerformAll(actions[..i]); !Ready(g.log, g.sequences, actions[i].attemptId);
      if i < n { assert actions[..n][i].DoRecord?; }
    }
  }

  /**
   * However often the recorder is restarted, every log is numbered 1, 2, 3, ... exactly when it
   * hydrates an Attempt with a past before it records for it.
   */
  lemma {:induction false} HistoryNumbered(actions: seq<Action>)
    ensures AllNumbered(PerformAll(actions).log) <==> HydratesFirst(actions)
    ensures HydratesFirst(actions) ==> InStep(PerformAll(actions).log, PerformAll(actions).sequences)
  {
    hide Perform, HydratesFirst, AllNumbered, InStep;
    if |actions| > 0 {
      var n := |actions| - 1;
      var h := PerformAll(actions[..n]);
      HydratesFirstSoFar(actions);
      HistoryNumbered(actions[..n]);
      if HydratesFirst(actions) {
        PerformNumbered(h, actions[n]);
      } else if HydratesFirst(actions[..n]) {
        UnreadyRecord(h, actions[n]);
      } else if AllNumbered(PerformAll(actions).log) {
        NumberedBefore(h, actions[n]);
      }
    } else {
      NothingRecorded(actions);
    }
  }

  lemma NothingRecorded(actions: seq<Action>)
    requires actions == []
    ensures HydratesFirst(actions) && AllNumbered(PerformAll(actions).log)
    ensures InStep(PerformAll(actions).log, PerformAll(actions).sequences)
  {
  }

  /** Recording appends, so what is numbered now was numbered before. */
  lemma NumberedBefore(h: History, action: Action)
    requires AllNumbered(Perform(h, action).log)
    ensures AllNumbered(h.log)
  {
    var t := Perform(h, action);
    forall a
      ensures Numbered(EventsOf(h.log, a), a)
    {
      var before, after := EventsOf(h.log, a), EventsOf(t.log, a);
      assert Numbered(after, a);
      assert |before| <= |after| && forall i {:trigger before[i]} :: 0 <= i < |before| ==> before[i] == after[i];
    }
  }

  /** A recorder that does not know the Attempt starts again at 1, whatever is recorded. */
  lemma UnreadyRecord(h: History, action: Action)
    requires action.DoRecord? && !Ready(h.log, h.sequences, action.attemptId)
    ensures !AllNumbered(Perform(h, action).log)
  {
    var events := EventsOf(Perform(h, action).log, action.attemptId);
    assert events[|events| - 1].sequence == 1 && |events| > 1;
    assert !Numbered(events, action.attemptId);
  }

  lemma PerformNumbered(h: History, action: Action)
    requires AllNumbered(h.log) && InStep(h.log, h.sequences)
    requires action.DoRecord? ==> Ready(h.log, h.sequences, action.attemptId)
    ensures AllNumbered(Perform(h, action).log)
    ensures InStep(Perform(h, action).log, Perform(h, action).sequences)
  {
    var t := Perform(h, action);
    if !action.DoRestart? {
      var a := action.attemptId;
      assert Numbered(EventsOf(h.log, a), a);
      if action.DoHydrate? && EventsOf(h.log, a) != [] { MaxOfNumbered(EventsOf(h.log, a), a); }
      forall b
        ensures Numbered(EventsOf(t.log, b), b)
        ensures b in t.sequences ==> t.sequences[b] == |EventsOf(t.log, b)|
      {
        assert Numbered(EventsOf(h.log, b), b);
        if b != a { assert EventsOf(t.log, b) == EventsOf(h.log, b); }
      }
    }
  }

  /** Without hydration a restarted recorder gives out the number 1 again. */
  lemma RestartRepeatsNumbers(a: string)
    ensures var h := PerformAll([DoRecord(a, "x", ""), DoRestart, DoRecord(a, "y", "")]);
      |EventsOf(h.log, a)| == 2 && EventsOf(h.log, a)[0].sequence == EventsOf(h.log, a)[1].sequence == 1
  {
    var one: seq<Action> := [DoRecord(a, "x", "")];
    var two: seq<Action> := [DoRecord(a, "x", ""), DoRestart];
    var three: seq<Action> := [DoRecord(a, "x", ""), DoRestart, DoRecord(a, "y", "")];
    assert one[..0] == [] && two[..1] == one && three[..2] == two;
    var h := PerformAll(one);
    assert h == Perform(PerformAll([]), one[0]);
    assert PerformAll(two) == History(h.log, map[]);
    assert PerformAll(three) == Perform(PerformAll(two), three[2]);
  }
}
