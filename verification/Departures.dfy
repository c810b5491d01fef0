/** Whether a peer's departure is the last that the others hear of it. */
module Departures {
  import opened Room
  import opened RoomViews
  import opened RoomKnowledge
  import opened RoomTheorems

  /** No word follows a departure: a client that takes the last word to be the truth is right about it. */
  ghost predicate LeftIsLast(ms: seq<ServerMsg>) {
    forall i :: 0 <= i < |ms| && ms[i].Left? ==> i == |ms| - 1
  }

  /** One run goes on from another. */
  ghost predicate GoesOn(limits: Limits, rooms: seq<Room>, actions: seq<Action>, rooms': seq<Room>,
                         actions': seq<Action>)
  {
    Execution(limits, rooms', actions') && rooms <= rooms' && actions <= actions'
  }

  /** The run with one more step. */
  lemma OneMore(limits: Limits, rooms: seq<Room>, actions: seq<Action>, a: Action)
    requires Execution(limits, rooms, actions) && Can(rooms[|actions|], a)
    ensures Execution(limits, rooms + [Step(limits, rooms[|actions|], a)], actions + [a])
  {
    hide Can, Step;
  }

  // ----- Without an update in hand ------------------------------------------------

  /** x has left, its task has no news for p, and p has been told or will be told this much and the departure. */
  ghost predicate Departed(r: Room, p: PeerId, x: PeerId, told: seq<ServerMsg>) {
    && p in r.queues && x in r.handlers && r.handlers[x].stage.Leaving? && x !in r.members
    && Part(r, p, x, true) == []
    && Told(r, p, x) + Part(r, p, x, false) == told + [Left(x)]
  }

  lemma RemoveDeparts(limits: Limits, r: Room, x: PeerId, order: seq<PeerId>, p: PeerId)
    requires Structured(r) && Can(r, Remove(x, order)) && p in r.members && p != x && Part(r, p, x, true) == []
    ensures Departed(RemoveStep(r, x, order), p, x, Told(r, p, x))
  {
    RemoveNews(r, x, order, p);
    hide About, To, HandlerOwn, QueueGenuine, Broadcast, Enumerates;
  }

  lemma DeliverDeparted(r: Room, y: PeerId, byTask: bool, p: PeerId, x: PeerId, told: seq<ServerMsg>)
    requires Structured(r) && Can(r, Deliver(y, byTask)) && Departed(r, p, x, told)
    ensures Departed(DeliverStep(r, y, byTask), p, x, told)
  {
    hide Structured, Told, Part, DeliverStep, Can, About, Arrival;
    DeliverKeepsStage(r, y, byTask, p, x);
    NewsMove(r, y, byTask, p, x);
    var news, r' := About(x, Arrival(r, y, byTask, p)), DeliverStep(r, y, byTask);
    if byTask {
      assert news == [] && Told(r, p, x) + [] == Told(r, p, x);
    } else {
      Regroup(Told(r, p, x), news, Part(r', p, x, false));
    }
  }

  lemma Regroup(a: seq<ServerMsg>, b: seq<ServerMsg>, c: seq<ServerMsg>)
    ensures a + (b + c) == (a + b) + c
  {
  }

  lemma DeliverKeepsStage(r: Room, y: PeerId, byTask: bool, p: PeerId, x: PeerId)
    requires Can(r, Deliver(y, byTask)) && p in r.queues && x in r.handlers && r.handlers[x].stage.Leaving?
    ensures
      var r' := DeliverStep(r, y, byTask);
      p in r'.queues && x in r'.handlers && r'.handlers[x].stage.Leaving? && r'.members == r.members
  {
  }

  /** A peer that has left has nothing more to say about itself. */
  lemma NoNewsOnceGone(r: Room, x: PeerId, order: seq<PeerId>, p: PeerId)
    requires Can(r, Apply(x, order)) && x !in r.members
    ensures Part(ApplyStep(r, x, order), p, x, true) == []
  {
    var sends := Sendings(r.members, x, r.joined[x], r.handlers[x].task.request, order);
    ToOnly(p, sends);
    AboutOnly(x, To(p, sends));
  }

  lemma TaskDeparted(limits: Limits, r: Room, a: Action, p: PeerId, x: PeerId, told: seq<ServerMsg>)
    requires Can(r, a) && Departed(r, p, x, told) && (a.Request? || a.Apply? || a.Stop?) && a.id == x
    ensures Departed(Step(limits, r, a), p, x, told)
  {
    hide About, To, Enumerates, Sendings;
    if a.Request? {
      RequestNews(limits, r, x, a.request, p);
    } else if a.Apply? {
      NoNewsOnceGone(r, x, a.order, p);
    } else {
      assert Sends(StopStep(r, x), x, true) == Sends(r, x, true)[..0];
      ToOnly(p, []);
      AboutOnly(x, []);
    }
  }

  /** Other peers come and go without any effect on this. */
  lemma OthersDeparted(limits: Limits, r: Room, a: Action, p: PeerId, x: PeerId, told: seq<ServerMsg>)
    requires Structured(r) && Can(r, a) && Departed(r, p, x, told) && !a.Deliver? && (a.Clear? || a.id != x)
    ensures Departed(Step(limits, r, a), p, x, told)
  {
    hide About, To, Enumerates, Sendings, Introduction, Broadcast, Full, HandlerOwn, QueueGenuine;
    var r' := Step(limits, r, a);
    assert Queue(r', p) == Queue(r, p);
    assert Sends(r', x, true) == Sends(r, x, true) && Sends(r', x, false) == Sends(r, x, false);
  }

  lemma DepartedStep(limits: Limits, r: Room, a: Action, p: PeerId, x: PeerId, told: seq<ServerMsg>)
    requires Structured(r) && Can(r, a) && Departed(r, p, x, told)
    ensures Departed(Step(limits, r, a), p, x, told)
  {
    hide Structured, Part, Told;
    if a.Deliver? {
      DeliverDeparted(r, a.id, a.byTask, p, x, told);
    } else if a.Clear? || a.id != x {
      OthersDeparted(limits, r, a, p, x, told);
    } else {
      TaskDeparted(limits, r, a, p, x, told);
    }
  }

  lemma {:induction false} StaysDeparted(limits: Limits, rooms: seq<Room>, actions: seq<Action>, k: nat, i: nat,
                                         p: PeerId, x: PeerId, told: seq<ServerMsg>)
    requires Execution(limits, rooms, actions) && k <= i < |rooms| && Departed(rooms[k], p, x, told)
    ensures Departed(rooms[i], p, x, told)
    decreases i - k
  {
    hide Departed, Structured, Can, Step;
    if k < i {
      StaysDeparted(limits, rooms, actions, k, i - 1, p, x, told);
      AlwaysConsistent(limits, rooms, actions, i - 1);
      DepartedStep(limits, rooms[i - 1], actions[i - 1], p, x, told);
    }
  }

  /**
   If x is removed while its task has no update for p in hand, then in every later
   state of the run p has been told what it had been told, and at most the departure.
   */
  lemma DepartureIsLast(limits: Limits, rooms: seq<Room>, actions: seq<Action>, k: nat, i: nat, p: PeerId, x: PeerId)
    requires Execution(limits, rooms, actions) && k < i < |rooms|
    requires actions[k].Remove? && actions[k].id == x && p in rooms[k].members && p != x
    requires Part(rooms[k], p, x, true) == []
    ensures Told(rooms[i], p, x) <= Told(rooms[k], p, x) + [Left(x)]
    ensures !HasLeft(Told(rooms[k], p, x))
  {
    hide Structured, Part, Told, Enumerates, RemoveStep;
    AlwaysConsistent(limits, rooms, actions, k);
    RemoveDeparts(limits, rooms[k], x, actions[k].order, p);
    StaysDeparted(limits, rooms, actions, k + 1, i, p, x, Told(rooms[k], p, x));
    NotLeftYet(rooms[k], x, actions[k].order, p);
  }

  lemma NotLeftYet(r: Room, x: PeerId, order: seq<PeerId>, p: PeerId)
    requires Consistent(r) && Can(r, Remove(x, order)) && p in r.members && p != x
    ensures !HasLeft(Told(r, p, x))
  {
    assert Informed(r, p, x);
    assert x in r.found && x in r.members;
    hide Structured, Part, Told;
    assert forall m :: m in Told(r, p, x) ==> m in Track(r, p, x);
  }

  // ----- With an update in hand -----------------------------------------------------

  /** A receive task has no news of its peer but updates. */
  lemma TaskNews(r: Room, p: PeerId, x: PeerId)
    requires Structured(r) && x in r.handlers
    ensures forall m :: m in Part(r, p, x, true) ==> m.Update? && m.peer.id == x
    ensures Part(r, p, x, true) != [] ==> r.handlers[x].task.Serving?
  {
    var sends := Sends(r, x, true);
    ToOnly(p, sends);
    AboutOnly(x, To(p, sends));
    assert HandlerOwn(r, x);
    forall m | m in Part(r, p, x, true)
      ensures m.Update? && m.peer.id == x && r.handlers[x].task.Serving?
    {
      assert Own(r, x, true, Send(p, m));
    }
    if Part(r, p, x, true) != [] {
      assert Part(r, p, x, true)[0] in Part(r, p, x, true);
    }
  }

  lemma DeliverOne(r: Room, x: PeerId, byTask: bool)
    requires Can(r, Deliver(x, byTask)) && r.handlers[x].stage.Leaving? && (byTask ==> r.handlers[x].task.Serving?)
    ensures
      var h := DeliverStep(r, x, byTask).handlers[x];
      && h.stage.Leaving? && (r.handlers[x].task.Serving? ==> h.task.Serving?)
      && h.Sends(byTask) == r.handlers[x].Sends(byTask)[1..]
  {
  }

  lemma NothingToSay(r: Room, p: PeerId, x: PeerId, byTask: bool)
    requires Sends(r, x, byTask) == []
    ensures Part(r, p, x, byTask) == []
  {
  }

  /** All sends of a handler or a task, one after another, with nothing else in between. */
  lemma {:induction false} SendAll(limits: Limits, rooms: seq<Room>, actions: seq<Action>, x: PeerId, byTask: bool,
                                   p: PeerId)
    returns (rooms': seq<Room>, actions': seq<Action>)
    requires Execution(limits, rooms, actions) && x in rooms[|actions|].handlers
    requires rooms[|actions|].handlers[x].stage.Leaving?
    requires byTask ==> rooms[|actions|].handlers[x].task.Serving?
    ensures GoesOn(limits, rooms, actions, rooms', actions')
    ensures
      var (r, r') := (rooms[|actions|], rooms'[|actions'|]);
      && Told(r', p, x) == Told(r, p, x) + Part(r, p, x, byTask)
      && Part(r', p, x, !byTask) == Part(r, p, x, !byTask)
      && x in r'.handlers && r'.handlers[x].stage.Leaving? && r'.handlers[x].Sends(byTask) == []
      && (r.handlers[x].task.Serving? ==> r'.handlers[x].task.Serving?) && r'.members == r.members
    decreases |rooms[|actions|].handlers[x].Sends(byTask)|
  {
    hide Structured, Told, Part, Can, Step, DeliverStep, Handler.Sends;
    var r := rooms[|actions|];
    if r.handlers[x].Sends(byTask) == [] {
      rooms', actions' := rooms, actions;
      NothingToSay(r, p, x, byTask);
      assert Told(r, p, x) + [] == Told(r, p, x);
    } else {
      GuardsHold(limits, rooms, actions, |actions|, x);
      AlwaysConsistent(limits, rooms, actions, |actions|);
      var r1 := SendOne(limits, r, x, byTask, p);
      OneMore(limits, rooms, actions, Deliver(x, byTask));
      rooms', actions' := SendAll(limits, rooms + [r1], actions + [Deliver(x, byTask)], x, byTask, p);
      assert rooms <= rooms + [r1] <= rooms' && actions <= actions + [Deliver(x, byTask)] <= actions';
      var news := Part(r, p, x, byTask)[..|Part(r, p, x, byTask)| - |Part(r1, p, x, byTask)|];
      Regroup(Told(r, p, x), news, Part(r1, p, x, byTask));
    }
  }

  lemma SendOne(limits: Limits, r: Room, x: PeerId, byTask: bool, p: PeerId) returns (r1: Room)
    requires Structured(r) && Can(r, Deliver(x, byTask))
    requires r.handlers[x].stage.Leaving? && (byTask ==> r.handlers[x].task.Serving?)
    ensures r1 == Step(limits, r, Deliver(x, byTask))
    ensures x in r1.handlers && r1.handlers[x].stage.Leaving? && r1.members == r.members
    ensures r.handlers[x].task.Serving? ==> r1.handlers[x].task.Serving?
    ensures |r1.handlers[x].Sends(byTask)| < |r.handlers[x].Sends(byTask)|
    ensures Part(r1, p, x, !byTask) == Part(r, p, x, !byTask)
    ensures
      var (before, after) := (Part(r, p, x, byTask), Part(r1, p, x, byTask));
      && |after| <= |before| && before == before[..|before| - |after|] + after
      && Told(r1, p, x) == Told(r, p, x) + before[..|before| - |after|]
  {
    hide Structured, Told, Part, Arrival, About;
    DeliverOne(r, x, byTask);
    NewsMove(r, x, byTask, p, x);
    r1 := DeliverStep(r, x, byTask);
    var news := About(x, Arrival(r, x, byTask, p));
    assert Part(r, p, x, byTask)[..|news|] == news;
  }

  /**
   If x can be removed while its task has an update for p in hand, then the run can
   go on so that p is told of the departure and then of the update.
   */
  lemma LateIsPossible(limits: Limits, rooms: seq<Room>, actions: seq<Action>, x: PeerId, order: seq<PeerId>,
                       p: PeerId)
    returns (rooms': seq<Room>, actions': seq<Action>)
    requires Execution(limits, rooms, actions) && Can(rooms[|actions|], Remove(x, order))
    requires p in rooms[|actions|].members && p != x && Part(rooms[|actions|], p, x, true) != []
    ensures GoesOn(limits, rooms + [RemoveStep(rooms[|actions|], x, order)], actions + [Remove(x, order)],
                   rooms', actions')
    ensures
      var (before, late, told) :=
        (Told(rooms[|actions|], p, x), Part(rooms[|actions|], p, x, true), Told(rooms'[|actions'|], p, x));
      told == before + [Left(x)] + late && told[|told| - 1].Update?
  {
    hide Told, Part, Structured, Enumerates, RemoveStep;
    var r := rooms[|actions|];
    AlwaysConsistent(limits, rooms, actions, |actions|);
    TaskNews(r, p, x);
    RemoveNews(r, x, order, p);
    RemoveEffect(r, x, order, p);
    OneMore(limits, rooms, actions, Remove(x, order));
    var rooms1, actions1 := rooms + [RemoveStep(r, x, order)], actions + [Remove(x, order)];
    var rooms2, actions2 := SendAll(limits, rooms1, actions1, x, false, p);
    rooms', actions' := SendAll(limits, rooms2, actions2, x, true, p);
    assert Part(r, p, x, true)[|Part(r, p, x, true)| - 1] in Part(r, p, x, true);
  }

  lemma RemoveEffect(r: Room, x: PeerId, order: seq<PeerId>, p: PeerId)
    requires Can(r, Remove(x, order))
    ensures
      var r' := RemoveStep(r, x, order);
      && Told(r', p, x) == Told(r, p, x) && Part(r', p, x, true) == Part(r, p, x, true)
      && x in r'.handlers && r'.handlers[x].stage.Leaving? && r'.handlers[x].task == r.handlers[x].task
  {
  }

  /**
   When a peer is removed, its departure will be the last that p hears of it, however
   the run goes on, exactly if its receive task has no update for p in hand.
   */
  lemma LastExactly(limits: Limits, rooms: seq<Room>, actions: seq<Action>, x: PeerId, order: seq<PeerId>, p: PeerId)
    requires Execution(limits, rooms, actions) && Can(rooms[|actions|], Remove(x, order))
    requires p in rooms[|actions|].members && p != x
    ensures Part(rooms[|actions|], p, x, true) == []
       <==> forall rooms', actions' ::
              GoesOn(limits, rooms + [RemoveStep(rooms[|actions|], x, order)], actions + [Remove(x, order)],
                     rooms', actions')
              ==> LeftIsLast(Told(rooms'[|actions'|], p, x))
  {
    hide Told, Part, Enumerates, RemoveStep, Step;
    var k := |actions|;
    if Part(rooms[k], p, x, true) == [] {
      var rooms1, actions1 := rooms + [RemoveStep(rooms[k], x, order)], actions + [Remove(x, order)];
      forall rooms', actions' | GoesOn(limits, rooms1, actions1, rooms', actions')
        ensures LeftIsLast(Told(rooms'[|actions'|], p, x))
      {
        Continued(limits, rooms1, actions1, rooms', actions');
        DepartureIsLast(limits, rooms', actions', k, |actions'|, p, x);
        OnlyThen(Told(rooms'[k], p, x), Told(rooms'[|actions'|], p, x), x);
      }
    } else {
      var rooms', actions' := LateIsPossible(limits, rooms, actions, x, order, p);
      var told := Told(rooms'[|actions'|], p, x);
      assert told[|Told(rooms[k], p, x)|] == Left(x);
      assert !LeftIsLast(told);
    }
  }

  lemma Continued(limits: Limits, rooms: seq<Room>, actions: seq<Action>, rooms': seq<Room>, actions': seq<Action>)
    requires GoesOn(limits, rooms, actions, rooms', actions') && |rooms| == |actions| + 1 && actions != []
    ensures |rooms'| == |actions'| + 1 && |actions| <= |actions'|
    ensures rooms'[|actions| - 1] == rooms[|actions| - 1] && actions'[|actions| - 1] == actions[|actions| - 1]
  {
  }

  lemma OnlyThen(before: seq<ServerMsg>, told: seq<ServerMsg>, x: PeerId)
    requires told <= before + [Left(x)] && !HasLeft(before)
    ensures LeftIsLast(told)
  {
    assert forall i :: 0 <= i < |before| ==> before[i] in before;
    assert forall i :: 0 <= i < |told| ==> told[i] == (before + [Left(x)])[i];
  }

  // ----- Everybody can leave --------------------------------------------------------

  /** One more step of a run. */
  lemma Moves(limits: Limits, rooms: seq<Room>, actions: seq<Action>, a: Action)
    returns (rooms': seq<Room>, actions': seq<Action>)
    requires Execution(limits, rooms, actions) && Can(rooms[|actions|], a)
    ensures GoesOn(limits, rooms, actions, rooms', actions')
    ensures |actions'| == |actions| + 1 && rooms'[|actions'|] == Step(limits, rooms[|actions|], a)
  {
    hide Can, Step;
    OneMore(limits, rooms, actions, a);
    rooms', actions' := rooms + [Step(limits, rooms[|actions|], a)], actions + [a];
  }

  /** An accepted peer's introduction can be sent to its end. */
  lemma {:induction false} Introduces(limits: Limits, rooms: seq<Room>, actions: seq<Action>, x: PeerId)
    returns (rooms': seq<Room>, actions': seq<Action>)
    requires Execution(limits, rooms, actions) && x in rooms[|actions|].found
    ensures GoesOn(limits, rooms, actions, rooms', actions')
    ensures Past(rooms'[|actions'|], x, {2, 3, 4})
    decreases |Sends(rooms[|actions|], x, false)|
  {
    hide HandlerOwn, QueueGenuine, Can, Step, Handler.Sends, Handler.Sent;
    var r := rooms[|actions|];
    AlwaysConsistent(limits, rooms, actions, |actions|);
    if r.handlers[x].stage.Introducing? {
      GuardsHold(limits, rooms, actions, |actions|, x);
      var shorter := IntroductionStep(limits, r, x);
      var more, acts := Moves(limits, rooms, actions, Deliver(x, false));
      rooms', actions' := Introduces(limits, more, acts, x);
    } else {
      rooms', actions' := rooms, actions;
    }
  }

  lemma IntroductionStep(limits: Limits, r: Room, x: PeerId) returns (r': Room)
    requires Structured(r) && x in r.handlers && r.handlers[x].stage.Introducing? && x in r.found
    ensures r.handlers[x].Sends(false) != []
    ensures Can(r, Deliver(x, false)) ==> r' == Step(limits, r, Deliver(x, false))
    ensures Can(r, Deliver(x, false)) ==> x in r'.found && |Sends(r', x, false)| < |Sends(r, x, false)|
  {
    assert HandlerOwn(r, x);
    r' := r;
    if Can(r, Deliver(x, false)) {
      r' := DeliverStep(r, x, false);
    }
  }

  /** The members can be listed in some order. */
  lemma {:induction false} SomeOrder(ids: set<PeerId>) returns (order: seq<PeerId>)
    ensures Enumerates(order, ids)
    decreases |ids|
  {
    if p :| p in ids {
      var rest := SomeOrder(ids - {p});
      order := [p] + rest;
      assert forall q :: q in ids ==> q == p || q in rest;
      assert order[0] == p;
    } else {
      order := [];
    }
  }

  /** A handler on its way out, in a run. */
  ghost predicate Past(r: Room, x: PeerId, stages: set<int>) {
    x in r.found && x in r.handlers && Rank(r.handlers[x].stage) in stages
  }

  function Rank(stage: Stage): int {
    match stage
    case Refused => 0
    case Introducing(_) => 1
    case Watching => 2
    case Closing => 3
    case Leaving(_) => 4
  }

  lemma Closes(limits: Limits, rooms: seq<Room>, actions: seq<Action>, x: PeerId)
    returns (rooms': seq<Room>, actions': seq<Action>)
    requires Execution(limits, rooms, actions) && Past(rooms[|actions|], x, {2, 3, 4})
    ensures GoesOn(limits, rooms, actions, rooms', actions') && Past(rooms'[|actions'|], x, {3, 4})
  {
    if rooms[|actions|].handlers[x].stage.Watching? {
      rooms', actions' := Moves(limits, rooms, actions, Close(x));
    } else {
      rooms', actions' := rooms, actions;
    }
  }

  lemma LeavesRoom(limits: Limits, rooms: seq<Room>, actions: seq<Action>, x: PeerId)
    returns (rooms': seq<Room>, actions': seq<Action>)
    requires Execution(limits, rooms, actions) && Past(rooms[|actions|], x, {3, 4})
    ensures GoesOn(limits, rooms, actions, rooms', actions') && Past(rooms'[|actions'|], x, {4})
  {
    hide Enumerates, Broadcast;
    if rooms[|actions|].handlers[x].stage.Closing? {
      var order := SomeOrder(rooms[|actions|].members.Keys - {x});
      rooms', actions' := Moves(limits, rooms, actions, Remove(x, order));
    } else {
      rooms', actions' := rooms, actions;
    }
  }

  lemma Ends(limits: Limits, rooms: seq<Room>, actions: seq<Action>, x: PeerId)
    returns (rooms': seq<Room>, actions': seq<Action>)
    requires Execution(limits, rooms, actions) && x in rooms[|actions|].handlers
    requires rooms[|actions|].handlers[x].stage == Leaving([]) && x !in rooms[|actions|].members
    ensures GoesOn(limits, rooms, actions, rooms', actions')
    ensures x in rooms'[|actions'|].handlers && x !in rooms'[|actions'|].members
    ensures rooms'[|actions'|].handlers[x] == Handler(Leaving([]), Ended)
  {
    if rooms[|actions|].handlers[x].task.Ended? {
      rooms', actions' := rooms, actions;
    } else {
      rooms', actions' := Moves(limits, rooms, actions, Stop(x));
    }
  }

  /** Whatever has happened, an accepted peer can come to have left, with everybody told and its task ended. */
  lemma EverybodyCanLeave(limits: Limits, rooms: seq<Room>, actions: seq<Action>, x: PeerId)
    returns (rooms': seq<Room>, actions': seq<Action>)
    requires Execution(limits, rooms, actions) && x in rooms[|actions|].found
    ensures GoesOn(limits, rooms, actions, rooms', actions')
    ensures x in rooms'[|actions'|].handlers && x !in rooms'[|actions'|].members
    ensures rooms'[|actions'|].handlers[x] == Handler(Leaving([]), Ended)
  {
    hide Can, Step, Handler.Sends, HandlerOwn, QueueGenuine;
    var rooms1, actions1 := Introduces(limits, rooms, actions, x);
    var rooms2, actions2 := Closes(limits, rooms1, actions1, x);
    var rooms3, actions3 := LeavesRoom(limits, rooms2, actions2, x);
    AlwaysConsistent(limits, rooms3, actions3, |actions3|);
    var rooms4, actions4 := SendAll(limits, rooms3, actions3, x, false, x);
    NothingLeft(rooms4[|actions4|].handlers[x]);
    rooms', actions' := Ends(limits, rooms4, actions4, x);
  }

  lemma NothingLeft(h: Handler)
    requires h.stage.Leaving? && h.Sends(false) == []
    ensures h.stage == Leaving([])
  {
  }

  // ----- An example ---------------------------------------------------------------

  /** Peer 1 joins peer 0, changes its infos, and leaves before its task has sent the update. */
  function LateActions(before: Info, after: Info): seq<Action> {
    [Connect(0, before, []), Connect(1, before, [0]), Deliver(1, false), Deliver(1, false),
     Request(1, SetInfo(after)), Apply(1, [0]), Close(1), Remove(1, [0]), Deliver(1, false), Deliver(1, true)]
  }

  /** The handler of peer 1 and the queue of peer 0, once both are members. */
  predicate Late(r: Room, h: Handler, queue: seq<ServerMsg>) {
    && r.queues.Keys == {0, 1} && r.joined.Keys == {0, 1} && 1 in r.handlers && r.handlers[1] == h
    && r.queues[0] == queue
  }

  lemma BothJoin(limits: Limits, info: Info) returns (r1: Room, r2: Room, r3: Room, r4: Room)
    requires limits == Limits(2, 3)
    ensures Can(EMPTY, Connect(0, info, [])) && r1 == Step(limits, EMPTY, Connect(0, info, []))
    ensures Can(r1, Connect(1, info, [0])) && r2 == Step(limits, r1, Connect(1, info, [0]))
    ensures Can(r2, Deliver(1, false)) && r3 == Step(limits, r2, Deliver(1, false))
    ensures Can(r3, Deliver(1, false)) && r4 == Step(limits, r3, Deliver(1, false))
    ensures r4.members.Keys == {0, 1} && r4.count == 2
    ensures Late(r4, Handler(Watching, Serving([])), [Join(Client(1, info))])
  {
    r1 := Step(limits, EMPTY, Connect(0, info, []));
    r2 := Step(limits, r1, Connect(1, info, [0]));
    assert Broadcast([0], Join(Client(1, info))) == [Send(0, Join(Client(1, info)))];
    r3 := Step(limits, r2, Deliver(1, false));
    r4 := Step(limits, r3, Deliver(1, false));
  }

  lemma OneLeaves(limits: Limits, first: Info, info: Info, r4: Room)
    returns (r5: Room, r6: Room, r7: Room, r8: Room)
    requires limits == Limits(2, 3) && r4.members.Keys == {0, 1} && r4.count == 2
    requires Late(r4, Handler(Watching, Serving([])), [Join(Client(1, first))])
    ensures Can(r4, Request(1, SetInfo(info))) && r5 == Step(limits, r4, Request(1, SetInfo(info)))
    ensures Can(r5, Apply(1, [0])) && r6 == Step(limits, r5, Apply(1, [0]))
    ensures Can(r6, Close(1)) && r7 == Step(limits, r6, Close(1))
    ensures Can(r7, Remove(1, [0])) && r8 == Step(limits, r7, Remove(1, [0]))
    ensures r8.members.Keys == {0}
    ensures Late(r8, Handler(Leaving([Send(0, Left(1))]), Serving([Send(0, Update(Client(1, info)))])),
                 [Join(Client(1, first))])
  {
    r5 := Step(limits, r4, Request(1, SetInfo(info)));
    assert Enumerates([0], r5.members.Keys - {1});
    r6 := Step(limits, r5, Apply(1, [0]));
    assert Broadcast([0], Update(Client(1, info))) == [Send(0, Update(Client(1, info)))];
    r7 := Step(limits, r6, Close(1));
    r8 := Step(limits, r7, Remove(1, [0]));
    assert Broadcast([0], Left(1)) == [Send(0, Left(1))];
  }

  lemma BothSends(limits: Limits, r8: Room, queue: seq<ServerMsg>, a: ServerMsg, b: ServerMsg)
    returns (r9: Room, r10: Room)
    requires Late(r8, Handler(Leaving([Send(0, a)]), Serving([Send(0, b)])), queue)
    ensures Can(r8, Deliver(1, false)) && r9 == Step(limits, r8, Deliver(1, false))
    ensures Can(r9, Deliver(1, true)) && r10 == Step(limits, r9, Deliver(1, true))
    ensures r10.members == r8.members && 0 in r10.queues && r10.queues[0] == queue + [a] + [b]
  {
    r9 := Step(limits, r8, Deliver(1, false));
    r10 := Step(limits, r9, Deliver(1, true));
  }

  /** The last word peer 0 hears of peer 1 is not that it has left: its update was collected before it was removed. */
  lemma LateUpdateExample(first: Info, info: Info) returns (rooms: seq<Room>)
    ensures Execution(Limits(2, 3), rooms, LateActions(first, info))
    ensures 1 !in rooms[10].members && 0 in rooms[10].queues
    ensures rooms[10].queues[0] == [Join(Client(1, first)), Left(1), Update(Client(1, info))]
  {
    hide Can, Step;
    var limits := Limits(2, 3);
    var r1, r2, r3, r4 := BothJoin(limits, first);
    var r5, r6, r7, r8 := OneLeaves(limits, first, info, r4);
    var r9, r10 := BothSends(limits, r8, [Join(Client(1, first))], Left(1), Update(Client(1, info)));
    rooms := [EMPTY, r1, r2, r3, r4, r5, r6, r7, r8, r9, r10];
  }
}
