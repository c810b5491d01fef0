/** Offers, answers and refusals over whole runs: nothing is relayed twice, and nothing follows a refusal. */
module RoomRelays {
  import opened Room
  import opened RoomViews
  import opened RoomKnowledge
  import opened RoomTheorems

  // ----- Counting ----------------------------------------------------------------

  /** The message is this offer or answer of p, word for word. */
  predicate IsRelay(m: ServerMsg, p: PeerId, request: ClientMsg)
    requires !request.SetInfo?
  {
    if request.MakeOffer? then
      m.Offer? && m.origin.id == p && m.sessionId == request.sdp.sessionId && m.sdp == request.sdp.sdp
    else m.Answer? && m.origin.id == p && m.sessionId == request.sdp.sessionId && m.sdp == request.sdp.sdp
  }

  function Relays(ms: seq<ServerMsg>, p: PeerId, request: ClientMsg): nat
    requires !request.SetInfo?
  {
    if ms == [] then 0
    else Relays(ms[..|ms| - 1], p, request) + if IsRelay(ms[|ms| - 1], p, request) then 1 else 0
  }

  lemma {:induction false} RelaysAppend(a: seq<ServerMsg>, b: seq<ServerMsg>, p: PeerId, request: ClientMsg)
    requires !request.SetInfo?
    ensures Relays(a + b, p, request) == Relays(a, p, request) + Relays(b, p, request)
    decreases |b|
  {
    if b == [] {
      assert a + b == a;
    } else {
      RelaysAppend(a, b[..|b| - 1], p, request);
      assert (a + b)[..|a + b| - 1] == a + b[..|b| - 1];
    }
  }

  lemma {:induction false} NoRelays(ms: seq<ServerMsg>, p: PeerId, request: ClientMsg)
    requires !request.SetInfo? && forall m :: m in ms ==> !IsRelay(m, p, request)
    ensures Relays(ms, p, request) == 0
  {
    if ms != [] {
      NoRelays(ms[..|ms| - 1], p, request);
    }
  }

  /** Copies of p's request that its target has got. */
  function Arrived(r: Room, p: PeerId, request: ClientMsg): nat
    requires !request.SetInfo?
  {
    Relays(Queue(r, request.sdp.target), p, request)
  }

  predicate InHand(r: Room, p: PeerId, request: ClientMsg) {
    p in r.handlers && r.handlers[p].task == Admitted(request)
  }

  /** Copies of p's request that its task is still going to send to the target, or has yet to route. */
  function Underway(r: Room, p: PeerId, request: ClientMsg): nat
    requires !request.SetInfo?
  {
    Relays(To(request.sdp.target, Sends(r, p, true)), p, request) + if InHand(r, p, request) then 1 else 0
  }

  predicate Admits(limits: Limits, r: Room, a: Action, p: PeerId, request: ClientMsg) {
    a == Request(p, request) && r.count < limits.requests
  }

  /** Copies that a step gives up: the target is not there, or the task is stopped. */
  function GivenUp(r: Room, a: Action, p: PeerId, request: ClientMsg): nat
    requires !request.SetInfo?
  {
    if a.Stop? && a.id == p then Underway(r, p, request)
    else if a.Apply? && a.id == p && InHand(r, p, request) && request.sdp.target !in r.members then 1
    else 0
  }

  // ----- Every step ----------------------------------------------------------------

  ghost predicate Conserved(limits: Limits, r: Room, a: Action, p: PeerId, request: ClientMsg)
    requires Can(r, a) && !request.SetInfo?
  {
    var r' := Step(limits, r, a);
    Arrived(r', p, request) + Underway(r', p, request) + GivenUp(r, a, p, request)
    == Arrived(r, p, request) + Underway(r, p, request) + if Admits(limits, r, a, p, request) then 1 else 0
  }

  lemma NoneToSend(t: PeerId, p: PeerId, request: ClientMsg)
    requires !request.SetInfo?
    ensures Relays(To(t, []), p, request) == 0
  {
  }

  lemma ForeignArrival(r: Room, y: PeerId, byTask: bool, p: PeerId, request: ClientMsg)
    requires Structured(r) && Can(r, Deliver(y, byTask)) && !request.SetInfo? && (y != p || !byTask)
    ensures Relays(Arrival(r, y, byTask, request.sdp.target), p, request) == 0
  {
    var send := r.handlers[y].Sends(byTask)[0];
    assert HandlerOwn(r, y);
    assert Own(r, y, byTask, send);
    NoRelays(Arrival(r, y, byTask, request.sdp.target), p, request);
  }

  lemma DeliverConserves(limits: Limits, r: Room, y: PeerId, byTask: bool, p: PeerId, request: ClientMsg)
    requires Structured(r) && Can(r, Deliver(y, byTask)) && !request.SetInfo?
    ensures Conserved(limits, r, Deliver(y, byTask), p, request)
  {
    hide Structured, Arrival, To, Relays, Handler.Sends;
    var r' := DeliverStep(r, y, byTask);
    var t := request.sdp.target;
    var arrival := Arrival(r, y, byTask, t);
    DeliveryEffect(r, y, byTask, t, p, true);
    RelaysAppend(Queue(r, t), arrival, p, request);
    StillInHand(r, y, byTask, p, request);
    if y == p && byTask {
      RelaysAppend(arrival, To(t, Sends(r', p, true)), p, request);
    } else {
      ForeignArrival(r, y, byTask, p, request);
      assert [] + To(t, Sends(r', p, true)) == To(t, Sends(r', p, true));
    }
    hide DeliverStep;
  }

  lemma StillInHand(r: Room, y: PeerId, byTask: bool, p: PeerId, request: ClientMsg)
    requires Structured(r) && Can(r, Deliver(y, byTask))
    ensures InHand(DeliverStep(r, y, byTask), p, request) == InHand(r, p, request)
  {
    hide QueueGenuine;
    SentKeeps(r, y, byTask);
    assert HandlerOwn(r, y);
  }

  lemma ConnectConserves(limits: Limits, r: Room, y: PeerId, info: Info, order: seq<PeerId>, p: PeerId,
                         request: ClientMsg)
    requires Structured(r) && Can(r, Connect(y, info, order)) && !request.SetInfo?
    ensures Conserved(limits, r, Connect(y, info, order), p, request)
  {
    hide HandlerOwn, QueueGenuine, Enumerates, Broadcast, Full, To, Relays;
    NoneToSend(request.sdp.target, p, request);
    FreshUnknown(r, y, y);
  }

  lemma RequestConserves(limits: Limits, r: Room, y: PeerId, q: ClientMsg, p: PeerId, request: ClientMsg)
    requires Can(r, Request(y, q)) && !request.SetInfo?
    ensures Conserved(limits, r, Request(y, q), p, request)
  {
    if y == p {
      OwnRequestConserves(limits, r, q, p, request);
    } else {
      hide To, Relays;
      assert Sends(RequestStep(limits, r, y, q), p, true) == Sends(r, p, true);
    }
  }

  lemma OwnRequestConserves(limits: Limits, r: Room, q: ClientMsg, p: PeerId, request: ClientMsg)
    requires Can(r, Request(p, q)) && !request.SetInfo?
    ensures Conserved(limits, r, Request(p, q), p, request)
  {
    hide To, Relays;
    NoneToSend(request.sdp.target, p, request);
    ErrorIsNoRelay(request.sdp.target, p, request);
  }

  lemma ErrorIsNoRelay(t: PeerId, p: PeerId, request: ClientMsg)
    requires !request.SetInfo?
    ensures Relays(To(t, [Send(p, Error(TOO_MANY_REQUESTS))]), p, request) == 0
  {
    var sends := [Send(p, Error(TOO_MANY_REQUESTS))];
    ToOnly(t, sends);
    NoRelays(To(t, sends), p, request);
  }

  lemma ApplyConserves(limits: Limits, r: Room, y: PeerId, order: seq<PeerId>, p: PeerId, request: ClientMsg)
    requires Can(r, Apply(y, order)) && !request.SetInfo?
    ensures Conserved(limits, r, Apply(y, order), p, request)
  {
    hide To, Relays, Sendings, Enumerates;
    var r' := ApplyStep(r, y, order);
    var t := request.sdp.target;
    NoneToSend(t, p, request);
    if y == p {
      SendingsRelay(r.members, p, r.joined[p], r.handlers[p].task.request, order, request);
    } else {
      assert Sends(r', p, true) == Sends(r, p, true);
    }
  }

  /** What one request leads to, as far as another is concerned. */
  lemma SendingsRelay(members: map<PeerId, Info>, p: PeerId, joined: Info, q: ClientMsg, order: seq<PeerId>,
                      request: ClientMsg)
    requires !request.SetInfo?
    ensures Relays(To(request.sdp.target, Sendings(members, p, joined, q, order)), p, request)
         == if q == request && request.sdp.target in members then 1 else 0
  {
    var (t, sends) := (request.sdp.target, Sendings(members, p, joined, q, order));
    if q == request && t in members {
      OneRelay(t, Relayed(Client(p, joined), request), p, request);
    } else {
      if q.SetInfo? {
        OnlyThis(order, Update(Client(p, q.info)));
      }
      ToOnly(t, sends);
      forall m | m in To(t, sends)
        ensures !IsRelay(m, p, request)
      {
        assert Send(t, m) in sends;
      }
      NoRelays(To(t, sends), p, request);
    }
  }

  lemma {:induction false} OnlyThis(order: seq<PeerId>, m: ServerMsg)
    ensures forall s :: s in Broadcast(order, m) ==> s.msg == m
  {
    if order != [] {
      OnlyThis(order[1..], m);
    }
  }

  lemma OneRelay(t: PeerId, m: ServerMsg, p: PeerId, request: ClientMsg)
    requires !request.SetInfo? && IsRelay(m, p, request)
    ensures Relays(To(t, [Send(t, m)]), p, request) == 1
  {
    ToGreeting(t, t, m);
    assert [m][..0] == [];
  }

  lemma HandlerConserves(limits: Limits, r: Room, a: Action, p: PeerId, request: ClientMsg)
    requires Can(r, a) && (a.Stop? || a.Close? || a.Remove? || a.Clear?) && !request.SetInfo?
    ensures Conserved(limits, r, a, p, request)
  {
    hide To, Relays, Enumerates, Broadcast;
    NoneToSend(request.sdp.target, p, request);
  }

  lemma StepConserves(limits: Limits, r: Room, a: Action, p: PeerId, request: ClientMsg)
    requires Structured(r) && Can(r, a) && !request.SetInfo?
    ensures Conserved(limits, r, a, p, request)
  {
    hide Structured, Can, Conserved;
    match a
    case Connect(y, info, order) => ConnectConserves(limits, r, y, info, order, p, request);
    case Deliver(y, byTask) => DeliverConserves(limits, r, y, byTask, p, request);
    case Request(y, q) => RequestConserves(limits, r, y, q, p, request);
    case Apply(y, order) => ApplyConserves(limits, r, y, order, p, request);
    case _ => HandlerConserves(limits, r, a, p, request);
  }

  // ----- Whole runs -------------------------------------------------------------------

  /** How often p's request was let through in the first i steps. */
  function Admissions(limits: Limits, rooms: seq<Room>, actions: seq<Action>, i: nat, p: PeerId,
                      request: ClientMsg): nat
    requires i <= |actions| && |rooms| == |actions| + 1
  {
    if i == 0 then 0
    else
      Admissions(limits, rooms, actions, i - 1, p, request)
      + if Admits(limits, rooms[i - 1], actions[i - 1], p, request) then 1 else 0
  }

  /** How many copies were given up in the first i steps. */
  function Lost(rooms: seq<Room>, actions: seq<Action>, i: nat, p: PeerId, request: ClientMsg): nat
    requires i <= |actions| && |rooms| == |actions| + 1 && !request.SetInfo?
  {
    if i == 0 then 0
    else Lost(rooms, actions, i - 1, p, request) + GivenUp(rooms[i - 1], actions[i - 1], p, request)
  }

  /**
   In every state of every run, whatever the interleaving: each time an offer or
   answer was let through, it is at its target once, or still under way, or was
   given up because the target had gone or the sender's task was stopped.
   */
  lemma {:induction false} RelaysAreConserved(
    limits: Limits, rooms: seq<Room>, actions: seq<Action>, i: nat, p: PeerId, request: ClientMsg)
    requires Execution(limits, rooms, actions) && i < |rooms| && !request.SetInfo?
    ensures Arrived(rooms[i], p, request) + Underway(rooms[i], p, request) + Lost(rooms, actions, i, p, request)
         == Admissions(limits, rooms, actions, i, p, request)
  {
    hide Structured, Can, Step, Arrived, Underway, GivenUp, Admits;
    if i == 0 {
      NothingAtFirst(p, request);
    } else {
      RelaysAreConserved(limits, rooms, actions, i - 1, p, request);
      AlwaysConsistent(limits, rooms, actions, i - 1);
      StepConserves(limits, rooms[i - 1], actions[i - 1], p, request);
    }
  }

  lemma NothingAtFirst(p: PeerId, request: ClientMsg)
    requires !request.SetInfo?
    ensures Arrived(EMPTY, p, request) == 0 && Underway(EMPTY, p, request) == 0
  {
  }

  // ----- A refusal is the end -----------------------------------------------------------

  function Errors(ms: seq<ServerMsg>): nat {
    if ms == [] then 0 else Errors(ms[..|ms| - 1]) + if ms[|ms| - 1].Error? then 1 else 0
  }

  lemma {:induction false} ErrorsAppend(a: seq<ServerMsg>, b: seq<ServerMsg>)
    ensures Errors(a + b) == Errors(a) + Errors(b)
    decreases |b|
  {
    if b == [] {
      assert a + b == a;
    } else {
      ErrorsAppend(a, b[..|b| - 1]);
      assert (a + b)[..|a + b| - 1] == a + b[..|b| - 1];
    }
  }

  lemma {:induction false} NoErrors(ms: seq<ServerMsg>)
    requires forall m :: m in ms ==> !m.Error?
    ensures Errors(ms) == 0
  {
    if ms != [] {
      NoErrors(ms[..|ms| - 1]);
    }
  }

  /** Errors p has got or will get. */
  function Refusals(r: Room, p: PeerId): nat {
    Errors(Queue(r, p)) + Errors(To(p, Sends(r, p, true)))
  }

  /** p's task takes no more messages. */
  predicate Over(r: Room, p: PeerId) {
    && p in r.handlers && !r.handlers[p].stage.Refused? && !r.handlers[p].stage.Introducing?
    && (r.handlers[p].task.OverBudget? || r.handlers[p].task.Ended?)
  }

  ghost predicate RefusedOnce(r: Room, p: PeerId) {
    Refusals(r, p) <= 1 && (Refusals(r, p) == 1 ==> Over(r, p))
  }

  lemma OverStays(limits: Limits, r: Room, a: Action, p: PeerId)
    requires Structured(r) && Can(r, a) && Over(r, p)
    ensures Over(Step(limits, r, a), p) && !(a.Request? && a.id == p)
  {
    hide HandlerOwn, QueueGenuine, Enumerates, Broadcast, Sendings;
    if a.Deliver? {
      SentKeeps(r, a.id, a.byTask);
    }
  }

  lemma ForeignError(r: Room, y: PeerId, byTask: bool, p: PeerId)
    requires Structured(r) && Can(r, Deliver(y, byTask)) && (y != p || !byTask)
    ensures Errors(Arrival(r, y, byTask, p)) == 0
  {
    var send := r.handlers[y].Sends(byTask)[0];
    assert HandlerOwn(r, y);
    assert Own(r, y, byTask, send);
    NoErrors(Arrival(r, y, byTask, p));
  }

  lemma DeliveryKeepsRefusals(r: Room, y: PeerId, byTask: bool, p: PeerId)
    requires Structured(r) && Can(r, Deliver(y, byTask))
    ensures Refusals(DeliverStep(r, y, byTask), p) == Refusals(r, p)
  {
    hide Structured, Arrival, To, Errors, Handler.Sends, DeliverStep, Can;
    var r' := DeliverStep(r, y, byTask);
    var arrival := Arrival(r, y, byTask, p);
    DeliveryEffect(r, y, byTask, p, p, true);
    ErrorsAppend(Queue(r, p), arrival);
    if y == p && byTask {
      ErrorsAppend(arrival, To(p, Sends(r', p, true)));
    } else {
      ForeignError(r, y, byTask, p);
      assert [] + To(p, Sends(r', p, true)) == To(p, Sends(r', p, true));
    }
  }

  lemma NoErrorToSend(p: PeerId)
    ensures Errors(To(p, [])) == 0
    ensures Errors(To(p, [Send(p, Error(TOO_MANY_REQUESTS))])) == 1
  {
    var refusal := Error(TOO_MANY_REQUESTS);
    ToGreeting(p, p, refusal);
    assert [refusal][..0] == [];
  }

  lemma SendingsAreNoErrors(members: map<PeerId, Info>, p: PeerId, joined: Info, q: ClientMsg, order: seq<PeerId>)
    ensures Errors(To(p, Sendings(members, p, joined, q, order))) == 0
  {
    var sends := Sendings(members, p, joined, q, order);
    if q.SetInfo? {
      OnlyThis(order, Update(Client(p, q.info)));
    }
    ToOnly(p, sends);
    NoErrors(To(p, sends));
  }

  lemma RefusalStep(limits: Limits, r: Room, a: Action, p: PeerId)
    requires Structured(r) && Can(r, a) && !a.Deliver?
    ensures Refusals(Step(limits, r, a), p)
         <= Refusals(r, p) + if a.Request? && a.id == p && r.count >= limits.requests then 1 else 0
  {
    hide HandlerOwn, QueueGenuine, Enumerates, Broadcast, Sendings, To, Errors, Full;
    NoErrorToSend(p);
    if a.Connect? {
      FreshUnknown(r, a.id, a.id);
    }
    if a.Apply? && a.id == p {
      SendingsAreNoErrors(r.members, p, r.joined[p], r.handlers[p].task.request, a.order);
    }
  }

  lemma RefusedStep(limits: Limits, r: Room, a: Action, p: PeerId)
    requires Structured(r) && Can(r, a) && RefusedOnce(r, p)
    ensures RefusedOnce(Step(limits, r, a), p)
  {
    hide Refusals, Over, Step, Structured, Can;
    if Over(r, p) {
      OverStays(limits, r, a, p);
    }
    if a.Request? && a.id == p {
      RefusedNow(limits, r, a, p);
    }
    if a.Deliver? {
      Delivers(limits, r, a, p);
    } else {
      RefusalStep(limits, r, a, p);
    }
  }

  lemma Delivers(limits: Limits, r: Room, a: Action, p: PeerId)
    requires Structured(r) && Can(r, a) && a.Deliver?
    ensures Refusals(Step(limits, r, a), p) == Refusals(r, p)
  {
    hide Refusals;
    DeliveryKeepsRefusals(r, a.id, a.byTask, p);
  }

  lemma RefusedNow(limits: Limits, r: Room, a: Action, p: PeerId)
    requires Structured(r) && Can(r, a) && a.Request? && a.id == p
    ensures !Over(r, p)
    ensures r.count >= limits.requests ==> Over(Step(limits, r, a), p)
  {
    assert HandlerOwn(r, p);
  }

  lemma {:induction false} AlwaysRefusedOnce(limits: Limits, rooms: seq<Room>, actions: seq<Action>, i: nat, p: PeerId)
    requires Execution(limits, rooms, actions) && i < |rooms|
    ensures RefusedOnce(rooms[i], p)
  {
    hide Can, Step, Structured, RefusedOnce;
    if i == 0 {
      NobodyRefused(p);
    } else {
      AlwaysRefusedOnce(limits, rooms, actions, i - 1, p);
      AlwaysConsistent(limits, rooms, actions, i - 1);
      RefusedStep(limits, rooms[i - 1], actions[i - 1], p);
    }
  }

  lemma NobodyRefused(p: PeerId)
    ensures RefusedOnce(EMPTY, p) && Refusals(EMPTY, p) == 0
  {
  }

  /** The k-th step refused a message of p, and no step up to the i-th took another. */
  ghost predicate LastRequest(
    limits: Limits, rooms: seq<Room>, actions: seq<Action>, k: int, i: nat, p: PeerId)
  {
    && 0 <= k < i <= |actions| < |rooms|
    && actions[k].Request? && actions[k].id == p && rooms[k].count >= limits.requests
    && forall j :: k < j < i ==> !(actions[j].Request? && actions[j].id == p)
  }

  lemma {:induction false} RefusalHasCause(limits: Limits, rooms: seq<Room>, actions: seq<Action>, i: nat, p: PeerId)
    requires Execution(limits, rooms, actions) && i < |rooms| && Refusals(rooms[i], p) > 0
    ensures exists k :: LastRequest(limits, rooms, actions, k, i, p)
  {
    hide Can, Step, Structured, Refusals, RefusedOnce, Over;
    if i == 0 {
      NobodyRefused(p);
    } else {
      var (r, a) := (rooms[i - 1], actions[i - 1]);
      AlwaysConsistent(limits, rooms, actions, i - 1);
      if Refusals(r, p) > 0 {
        RefusalHasCause(limits, rooms, actions, i - 1, p);
        AlwaysRefusedOnce(limits, rooms, actions, i - 1, p);
        RefusedIsOver(r, p);
        OverStays(limits, r, a, p);
        var k :| LastRequest(limits, rooms, actions, k, i - 1, p);
        assert LastRequest(limits, rooms, actions, k, i, p);
      } else {
        if a.Deliver? {
          Delivers(limits, r, a, p);
        } else {
          RefusalStep(limits, r, a, p);
        }
        assert LastRequest(limits, rooms, actions, i - 1, i, p);
      }
    }
  }

  lemma RefusedIsOver(r: Room, p: PeerId)
    requires RefusedOnce(r, p) && Refusals(r, p) > 0
    ensures Over(r, p)
  {
  }

  /**
   In every state of every run a peer has got at most one error, number 429; it
   comes from a message over the budget, and no message of the peer was taken
   after that one.
   */
  lemma OneErrorAndNoMore(limits: Limits, rooms: seq<Room>, actions: seq<Action>, i: nat, p: PeerId)
    requires Execution(limits, rooms, actions) && i < |rooms|
    ensures Errors(Queue(rooms[i], p)) <= 1
    ensures forall m :: m in Queue(rooms[i], p) && m.Error? ==> m.code == 429
    ensures Errors(Queue(rooms[i], p)) == 1 ==>
              Over(rooms[i], p) && exists k :: LastRequest(limits, rooms, actions, k, i, p)
  {
    hide Can, Step;
    var r := rooms[i];
    AlwaysConsistent(limits, rooms, actions, i);
    AlwaysRefusedOnce(limits, rooms, actions, i, p);
    if p in r.queues {
      assert QueueGenuine(r, p);
      assert forall m :: m in r.queues[p] ==> Genuine(r, p, m);
    }
    if Refusals(r, p) > 0 {
      RefusalHasCause(limits, rooms, actions, i, p);
    }
  }
}
