/** Answers handed to one-shot callbacks, and everything forwarded in order (core/src/webrtc/signaling.rs). */
module Signaling {

  datatype Message = Answer(sessionId: string, sdp: string) | Other(text: string)

  /** What can happen to a connection, in any order: the server speaks, or the application registers a callback. */
  datatype Event = Arrives(message: Message) | Registers(sessionId: string, callback: nat)

  datatype Call = Call(callback: nat, answer: Message)

  datatype Listener = Listener(callbacks: map<string, nat>, calls: seq<Call>, forwarded: seq<Message>)

  function Start(): Listener {
    Listener(map[], [], [])
  }

  function Step(l: Listener, e: Event): Listener {
    match e
    case Registers(sessionId, callback) => l.(callbacks := l.callbacks[sessionId := callback])
    case Arrives(message) =>
      var answered :=
        if message.Answer? && message.sessionId in l.callbacks then
          l.(callbacks := l.callbacks - {message.sessionId},
          calls := l.calls + [Call(l.callbacks[message.sessionId], message)])
        else l;
      answered.(forwarded := answered.forwarded + [message])
  }

  /** The listener after a history of events. */
  function Run(events: seq<Event>): Listener {
    if events == [] then Start() else Step(Run(events[..|events| - 1]), events[|events| - 1])
  }

  class ManagedConnection {
    var callbacks: map<string, nat>
    var calls: seq<Call>
    var forwarded: seq<Message>

    ghost function State(): Listener
      reads this
    {
      Listener(callbacks, calls, forwarded)
    }

    constructor ()
      ensures State() == Start()
    {
      callbacks, calls, forwarded := map[], [], [];
    }

    method OnAnswer(sessionId: string, callback: nat)
      modifies this
      ensures State() == Step(old(State()), Registers(sessionId, callback))
    {
      callbacks := callbacks[sessionId := callback];
    }

    /** One turn of the listening loop. */
    method Receive(message: Message)
      modifies this
      ensures State() == Step(old(State()), Arrives(message))
    {
      if message.Answer? {
        if message.sessionId in callbacks {
          var callback := callbacks[message.sessionId];
          callbacks := callbacks - {message.sessionId};
          calls := calls + [Call(callback, message)];
        }
      }
      forwarded := forwarded + [message];
    }
  }

  // ----- What a history means ----------------------------------------------------------

  predicate Concerns(e: Event, sessionId: string) {
    match e
    case Registers(id, _) => id == sessionId
    case Arrives(message) => message.Answer? && message.sessionId == sessionId
  }

  /** The registration at r is met by the answer at a: it is the first event after it about that session. */
  ghost predicate Meets(events: seq<Event>, r: int, a: int) {
    && 0 <= r < a < |events|
    && events[r].Registers? && events[a].Arrives? && events[a].message.Answer?
    && events[a].message.sessionId == events[r].sessionId
    && forall k :: r < k < a ==> !Concerns(events[k], events[r].sessionId)
  }

  /** The registration at r still waits: nothing after it is about its session. */
  ghost predicate Waits(events: seq<Event>, r: int) {
    && 0 <= r < |events| && events[r].Registers?
    && forall k :: r < k < |events| ==> !Concerns(events[k], events[r].sessionId)
  }

  predicate Holds(l: Listener, sessionId: string, callback: nat) {
    sessionId in l.callbacks && l.callbacks[sessionId] == callback
  }

  ghost predicate OncePerCallback(events: seq<Event>) {
    forall i, j :: 0 <= i < j < |events| && events[i].Registers? && events[j].Registers?
               ==> events[i].callback != events[j].callback
  }

  lemma {:induction false} CallbacksWait(events: seq<Event>)
    ensures forall id :: id in Run(events).callbacks
              ==> exists r :: Waits(events, r) && events[r] == Registers(id, Run(events).callbacks[id])
    ensures forall r :: Waits(events, r)
              ==> Holds(Run(events), events[r].sessionId, events[r].callback)
  {
    if events != [] {
      var before, last := events[..|events| - 1], events[|events| - 1];
      CallbacksWait(before);
      var l, m := Run(before), Run(events);
      forall id | id in m.callbacks
        ensures exists r :: Waits(events, r) && events[r] == Registers(id, m.callbacks[id])
      {
        if last.Registers? && last.sessionId == id {
          assert Waits(events, |events| - 1);
        } else {
          var r :| Waits(before, r) && before[r] == Registers(id, l.callbacks[id]);
          assert Waits(events, r) && events[r] == before[r];
        }
      }
      forall r | Waits(events, r)
        ensures Holds(m, events[r].sessionId, events[r].callback)
      {
        if r < |events| - 1 {
          assert Waits(before, r);
          assert !Concerns(last, events[r].sessionId);
        }
      }
    }
  }

  lemma {:induction false} CallIsMeeting(events: seq<Event>, c: Call)
    requires c in Run(events).calls
    ensures exists r, a :: Meets(events, r, a) && c == Call(events[r].callback, events[a].message)
  {
    if events != [] {
      var before, last := events[..|events| - 1], events[|events| - 1];
      var l := Run(before);
      assert Run(events) == Step(l, last);
      if c in l.calls {
        CallIsMeeting(before, c);
        hide Run, Step, Concerns;
        var r, a :| Meets(before, r, a) && c == Call(before[r].callback, before[a].message);
        assert Meets(events, r, a) && events[r] == before[r] && events[a] == before[a];
      } else {
        CallbacksWait(before);
        var id := last.message.sessionId;
        hide Run, Concerns;
        var r :| Waits(before, r) && before[r] == Registers(id, l.callbacks[id]);
        assert Meets(events, r, |events| - 1) && events[r] == before[r];
      }
    }
  }

  lemma {:induction false} MeetingIsCall(events: seq<Event>, r: int, a: int)
    requires Meets(events, r, a)
    ensures Call(events[r].callback, events[a].message) in Run(events).calls
  {
    var before, last := events[..|events| - 1], events[|events| - 1];
    assert Run(events) == Step(Run(before), last);
    if a < |events| - 1 {
      assert Meets(before, r, a);
      MeetingIsCall(before, r, a);
    } else {
      CallbacksWait(before);
      assert Waits(before, r);
    }
  }

  /** A call is made exactly where a registration is met, with the answer that met it. */
  lemma CalledExactly(events: seq<Event>)
    ensures forall c :: c in Run(events).calls
              ==> exists r, a :: Meets(events, r, a) && c == Call(events[r].callback, events[a].message)
    ensures forall r, a :: Meets(events, r, a) ==> Call(events[r].callback, events[a].message) in Run(events).calls
  {
    hide Run, Concerns;
    forall c | c in Run(events).calls
      ensures exists r, a :: Meets(events, r, a) && c == Call(events[r].callback, events[a].message)
    {
      CallIsMeeting(events, c);
    }
    forall r, a | Meets(events, r, a)
      ensures Call(events[r].callback, events[a].message) in Run(events).calls
    {
      MeetingIsCall(events, r, a);
    }
  }

  /** A callback registered once is called at most once. */
  lemma {:induction false} CallsAreDistinct(events: seq<Event>)
    requires OncePerCallback(events)
    ensures forall i, j :: 0 <= i < j < |Run(events).calls| ==>
              Run(events).calls[i].callback != Run(events).calls[j].callback
  {
    if events != [] {
      var before, last := events[..|events| - 1], events[|events| - 1];
      CallsAreDistinct(before);
      CalledExactly(before);
      CallbacksWait(before);
      var l, m := Run(before), Run(events);
      if |m.calls| > |l.calls| {
        var id := last.message.sessionId;
        var r :| Waits(before, r) && before[r] == Registers(id, l.callbacks[id]);
        forall i | 0 <= i < |l.calls|
          ensures l.calls[i].callback != l.callbacks[id]
        {
          assert l.calls[i] in l.calls;
          var s, a :| Meets(before, s, a) && l.calls[i] == Call(before[s].callback, before[a].message);
          WaitingIsNotMet(before, r, s, a);
        }
      }
    }
  }

  /** Registrations with different callbacks: one that waits is not the one that was met. */
  lemma WaitingIsNotMet(events: seq<Event>, r: int, s: int, a: int)
    requires Waits(events, r) && Meets(events, s, a) && OncePerCallback(events)
    ensures events[s].callback != events[r].callback
  {
    assert Concerns(events[a], events[s].sessionId);
  }

  /** Everything that arrives is forwarded, once and in order, whatever happens to the callbacks. */
  function Arrivals(events: seq<Event>): seq<Message> {
    if events == [] then []
    else
      var before, last := Arrivals(events[..|events| - 1]), events[|events| - 1];
      if last.Arrives? then before + [last.message] else before
  }

  lemma {:induction false} ForwardsEverything(events: seq<Event>)
    ensures Run(events).forwarded == Arrivals(events)
  {
    if events != [] {
      ForwardsEverything(events[..|events| - 1]);
    }
  }

  /**
   An offer is sent before its callback is registered. The callback is called exactly
   if the answer comes after the registration, with nothing about the session between:
   an answer that overtakes the registration is forwarded and otherwise lost.
   */
  lemma AnswerMustNotOvertake(events: seq<Event>, r: nat, a: nat)
    requires OncePerCallback(events) && r < |events| && a < |events|
    requires events[r].Registers? && events[a].Arrives? && events[a].message.Answer?
    requires events[a].message.sessionId == events[r].sessionId
    requires forall k :: 0 <= k < |events| && k != r && k != a ==> !Concerns(events[k], events[r].sessionId)
    ensures Call(events[r].callback, events[a].message) in Run(events).calls <==> r < a
    ensures events[a].message in Run(events).forwarded
  {
    CalledExactly(events);
    ForwardsEverything(events);
    ArrivalIn(events, a);
    if r < a {
      assert Meets(events, r, a);
    } else if Call(events[r].callback, events[a].message) in Run(events).calls {
      var s, b :| Meets(events, s, b)
                  && Call(events[r].callback, events[a].message) == Call(events[s].callback, events[b].message);
      assert s == r;
      assert Concerns(events[b], events[r].sessionId);
    }
  }

  lemma {:induction false} ArrivalIn(events: seq<Event>, a: nat)
    requires a < |events| && events[a].Arrives?
    ensures events[a].message in Arrivals(events)
  {
    if a < |events| - 1 {
      ArrivalIn(events[..|events| - 1], a);
    }
  }

  /** The smallest lost answer. */
  lemma LostAnswer(sdp: string)
    ensures Run([Arrives(Answer("s", sdp)), Registers("s", 0)]).calls == []
  {
    var events := [Arrives(Answer("s", sdp)), Registers("s", 0)];
    assert events[..1] == [Arrives(Answer("s", sdp))];
    assert events[..1][..0] == [];
    assert Run(events[..1]) == Step(Start(), Arrives(Answer("s", sdp)));
  }
}
