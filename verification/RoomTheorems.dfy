/** The guarantees of one room, over all its runs. */
module RoomTheorems {
  import opened Prelude
  import opened Room
  import opened RoomViews
  import opened RoomKnowledge

  lemma EmptyConsistent()
    ensures Consistent(EMPTY)
  {
    assert Hellos([]) == [] && To(0, []) == [];
  }

  lemma {:induction false} AlwaysConsistent(limits: Limits, rooms: seq<Room>, actions: seq<Action>, i: nat)
    requires Execution(limits, rooms, actions) && i < |rooms|
    ensures Consistent(rooms[i])
  {
    hide Consistent;
    hide Step;
    hide Can;
    if i == 0 {
      EmptyConsistent();
    } else {
      AlwaysConsistent(limits, rooms, actions, i - 1);
      ConsistentStep(limits, rooms[i - 1], actions[i - 1]);
    }
  }

  // ----- Views ----------------------------------------------------------------

  /** Every send has been made and no connection is half closed. */
  ghost predicate Settled(r: Room) {
    forall p :: p in r.handlers ==>
      r.handlers[p].Sends(false) == [] && r.handlers[p].Sends(true) == [] && !r.handlers[p].stage.Closing?
  }

  /** What a member makes of its queue: its `Hello`, wherever it stands, overridden by the news. */
  ghost function View(queue: seq<ServerMsg>, x: PeerId): Option<Info> {
    var hellos := Hellos(queue);
    Merge(if hellos != [] && hellos[0].Hello? && x in hellos[0].peers then Some(hellos[0].peers[x]) else None,
          About(x, queue))
  }

  /**
   Once everything is delivered, each member sees exactly the others, with their
   latest info, even if an aborted task sent an update after the departure.
   */
  lemma ViewsConverge(limits: Limits, rooms: seq<Room>, actions: seq<Action>, i: nat, p: PeerId, x: PeerId)
    requires Execution(limits, rooms, actions) && i < |rooms| && Settled(rooms[i])
    requires p in rooms[i].members && x != p
    ensures p in rooms[i].queues
    ensures View(rooms[i].queues[p], x) == if x in rooms[i].members then Some(rooms[i].members[x]) else None
  {
    var r := rooms[i];
    AlwaysConsistent(limits, rooms, actions, i);
    assert Informed(r, p, x) && Greeted(r, p);
    assert Part(r, p, x, false) == [] && Part(r, p, x, true) == [];
    assert Told(r, p, x) + ([] + []) == Told(r, p, x);
    assert Hellos(To(p, Sends(r, p, false))) == [];
    assert Hellos(r.queues[p]) + [] == Hellos(r.queues[p]);
  }

  // ----- Introductions ---------------------------------------------------------

  /** x was told of p by its `Hello`, p of x by one `Join`; sent or still to be sent. */
  ghost predicate IntroducedByLaterOne(r: Room, p: PeerId, x: PeerId)
    requires p in r.found && x in r.found && x in r.joined
  {
    && p in r.found[x] && x !in r.found[p]
    && Greetings(r, x) == [Hello(Client(x, r.joined[x]), r.found[x])]
    && Joins(Track(r, p, x)) == 1
    && Joins(Track(r, x, p)) == 0
  }

  /** Of two peers that are members together, the later one finds the earlier, which hears of it once. */
  lemma ExactlyOnce(limits: Limits, rooms: seq<Room>, actions: seq<Action>, i: nat, j: nat, p: PeerId, x: PeerId)
    requires Execution(limits, rooms, actions) && i <= j < |rooms|
    requires p in rooms[i].members && x in rooms[i].members && p != x
    ensures p in rooms[j].found && x in rooms[j].found && p in rooms[j].joined && x in rooms[j].joined
    ensures IntroducedByLaterOne(rooms[j], p, x) != IntroducedByLaterOne(rooms[j], x, p)
  {
    AlwaysConsistent(limits, rooms, actions, i);
    AlwaysConsistent(limits, rooms, actions, j);
    HistoryKept(limits, rooms, actions, i, j);
    assert OneWay(rooms[i], p, x);
    assert OneWay(rooms[j], p, x) && Introduced(rooms[j], p, x) && Introduced(rooms[j], x, p);
    assert Greeted(rooms[j], p) && Greeted(rooms[j], x);
  }

  lemma {:induction false} HistoryKept(limits: Limits, rooms: seq<Room>, actions: seq<Action>, i: nat, j: nat)
    requires Execution(limits, rooms, actions) && i <= j < |rooms|
    ensures forall p :: p in rooms[i].found ==> p in rooms[j].found && rooms[j].found[p] == rooms[i].found[p]
    ensures forall p :: p in rooms[i].handlers && rooms[i].handlers[p].stage.Refused?
              ==> p in rooms[j].handlers && rooms[j].handlers[p].stage.Refused?
    decreases j - i
  {
    hide Structured, Can, Step;
    if i < j {
      HistoryKept(limits, rooms, actions, i, j - 1);
      AlwaysConsistent(limits, rooms, actions, j - 1);
      HistoryStep(limits, rooms[j - 1], actions[j - 1]);
    }
  }

  lemma HistoryStep(limits: Limits, r: Room, a: Action)
    requires Structured(r) && Can(r, a)
    ensures
      var r' := Step(limits, r, a);
      && (forall p :: p in r.found ==> p in r'.found && r'.found[p] == r.found[p])
      && (forall p :: p in r.handlers && r.handlers[p].stage.Refused?
            ==> p in r'.handlers && r'.handlers[p].stage.Refused?)
  {
    hide Enumerates, Broadcast, HandlerOwn, QueueGenuine, Handler.Sends, Handler.Sent, Sendings;
    if a.Deliver? {
      SentKeeps(r, a.id, a.byTask);
    }
  }

  /** A newcomer's own `Hello` is the last that its introduction sends. */
  ghost predicate HelloLast(r: Room) {
    forall p :: p in r.handlers && r.handlers[p].stage.Introducing? ==>
                  var sends := r.handlers[p].stage.sends;
                  sends != [] && sends[|sends| - 1].to == p && sends[|sends| - 1].msg.Hello?
  }

  lemma HelloLastStep(limits: Limits, r: Room, a: Action)
    requires HelloLast(r) && Can(r, a)
    ensures HelloLast(Step(limits, r, a))
  {
    hide Enumerates, Broadcast, Sendings, Full;
    if a.Deliver? {
      HelloLastSent(r, a.id, a.byTask);
    }
  }

  lemma HelloLastSent(r: Room, y: PeerId, byTask: bool)
    requires HelloLast(r) && Can(r, Deliver(y, byTask))
    ensures HelloLast(DeliverStep(r, y, byTask))
  {
  }

  lemma {:induction false} AlwaysHelloLast(limits: Limits, rooms: seq<Room>, actions: seq<Action>, i: nat)
    requires Execution(limits, rooms, actions) && i < |rooms|
    ensures HelloLast(rooms[i])
  {
    hide HelloLast, Step, Can;
    if i == 0 {
      NobodyYet();
    } else {
      AlwaysHelloLast(limits, rooms, actions, i - 1);
      HelloLastStep(limits, rooms[i - 1], actions[i - 1]);
    }
  }

  lemma NobodyYet()
    ensures HelloLast(EMPTY)
  {
  }

  lemma {:induction false} HelloStays(p: PeerId, sends: seq<Send>)
    requires sends != [] && sends[|sends| - 1].to == p && sends[|sends| - 1].msg.Hello?
    ensures Hellos(To(p, sends)) != []
  {
    var last := |sends| - 1;
    ToAppend(p, sends[..last], [sends[last]]);
    assert sends == sends[..last] + [sends[last]];
    ToGreeting(p, p, sends[last].msg);
    HellosAppend(To(p, sends[..last]), [sends[last].msg]);
    One(p, sends[last].msg);
  }

  /** Whoever has got its `Hello` has been announced, once, to everybody named there. */
  lemma AnnouncedFirst(limits: Limits, rooms: seq<Room>, actions: seq<Action>, i: nat, p: PeerId, x: PeerId)
    requires Execution(limits, rooms, actions) && i < |rooms|
    requires p in rooms[i].queues && exists m :: m in rooms[i].queues[p] && m.Hello? && x in m.peers
    ensures Joins(Told(rooms[i], x, p)) == 1
  {
    hide Joins, About, To, QueueGenuine;
    var r := rooms[i];
    AlwaysConsistent(limits, rooms, actions, i);
    AlwaysHelloLast(limits, rooms, actions, i);
    var m :| m in r.queues[p] && m.Hello? && x in m.peers;
    HelloCounted(r.queues[p], m);
    assert Greeted(r, p) && p in r.found && p in r.joined;
    OnlyOne(Hellos(r.queues[p]), Hellos(To(p, Sends(r, p, false))), Hello(Client(p, r.joined[p]), r.found[p]), m);
    if r.handlers[p].stage.Introducing? {
      HelloStays(p, r.handlers[p].stage.sends);
    }
    assert x in r.found[p] && x != p && x in r.found;
    NoIntroduction(r, x, p);
    assert Introduced(r, x, p);
  }

  lemma OnlyOne(a: seq<ServerMsg>, b: seq<ServerMsg>, h: ServerMsg, m: ServerMsg)
    requires a + b == [h] && m in a
    ensures m == h && b == []
  {
    assert |a + b| == 1 && (a + b)[0] == a[0];
  }

  lemma {:induction false} HelloCounted(ms: seq<ServerMsg>, m: ServerMsg)
    requires m in ms && m.Hello?
    ensures m in Hellos(ms)
  {
    if m != ms[|ms| - 1] {
      HelloCounted(ms[..|ms| - 1], m);
    }
  }

  /** A refused connection is never announced to anybody, then or later. */
  lemma RefusedNeverAnnounced(limits: Limits, rooms: seq<Room>, actions: seq<Action>, i: nat, j: nat, p: PeerId,
                              x: PeerId)
    requires Execution(limits, rooms, actions) && i <= j < |rooms|
    requires x in rooms[i].handlers && rooms[i].handlers[x].stage.Refused?
    ensures Track(rooms[j], p, x) == [] && x !in rooms[j].members
    ensures p in rooms[j].found ==> x !in rooms[j].found[p]
  {
    var r := rooms[j];
    AlwaysConsistent(limits, rooms, actions, j);
    HistoryKept(limits, rooms, actions, i, j);
    AboutOnly(x, Queue(r, p));
    if p in r.queues {
      assert QueueGenuine(r, p);
      assert forall m :: m in r.queues[p] ==> Genuine(r, p, m);
    }
  }

  // ----- Routing ----------------------------------------------------------------

  /** The request of which p would get this message. */
  function Asking(m: ServerMsg, p: PeerId): ClientMsg
    requires m.Offer? || m.Answer?
  {
    var sdp := Sdp(m.sessionId, p, m.sdp);
    if m.Offer? then MakeOffer(sdp) else MakeAnswer(sdp)
  }

  /**
   Whatever is queued for p as an offer was asked for by its origin, a peer of this
   room, for p, word for word, and shows the origin as it was when it connected.
   */
  lemma OffersAreGenuine(limits: Limits, rooms: seq<Room>, actions: seq<Action>, i: nat, p: PeerId, m: ServerMsg)
    requires Execution(limits, rooms, actions) && i < |rooms|
    requires p in rooms[i].queues && m in rooms[i].queues[p] && (m.Offer? || m.Answer?)
    ensures m.origin.id in rooms[i].found
    ensures exists k :: 0 <= k < i && actions[k] == Request(m.origin.id, Asking(m, p))
    ensures exists k, order :: 0 <= k < i && actions[k] == Connect(m.origin.id, m.origin.info, order)
  {
    var r := rooms[i];
    AlwaysConsistent(limits, rooms, actions, i);
    assert QueueGenuine(r, p) && Genuine(r, p, m);
    assert AsJoined(r, m.origin);
    JoinedAtConnect(limits, rooms, actions, i, m.origin.id);
    RequestsWereMade(limits, rooms, actions, i, m.origin.id, Asking(m, p));
  }

  /** What is remembered of a peer is what it connected with. */
  lemma {:induction false} JoinedAtConnect(limits: Limits, rooms: seq<Room>, actions: seq<Action>, i: nat, p: PeerId)
    requires Execution(limits, rooms, actions) && i < |rooms| && p in rooms[i].joined
    ensures exists k, order :: 0 <= k < i && actions[k] == Connect(p, rooms[i].joined[p], order)
  {
    hide Can, Step;
    if i > 0 {
      NewlyJoined(limits, rooms[i - 1], actions[i - 1], p);
      if p in rooms[i - 1].joined && rooms[i].joined[p] == rooms[i - 1].joined[p] {
        JoinedAtConnect(limits, rooms, actions, i - 1, p);
      } else {
        assert actions[i - 1] == Connect(p, rooms[i].joined[p], actions[i - 1].order);
      }
    }
  }

  lemma NewlyJoined(limits: Limits, r: Room, a: Action, p: PeerId)
    requires Can(r, a) && p in Step(limits, r, a).joined
    ensures (p in r.joined && Step(limits, r, a).joined[p] == r.joined[p])
         || (a.Connect? && a.id == p && a.info == Step(limits, r, a).joined[p])
  {
    hide Enumerates, Broadcast, Sendings, Introduction;
  }

  lemma {:induction false} RequestsWereMade(limits: Limits, rooms: seq<Room>, actions: seq<Action>, i: nat, p: PeerId,
                                            request: ClientMsg)
    requires Execution(limits, rooms, actions) && i < |rooms| && (p, request) in rooms[i].requests
    ensures exists k :: 0 <= k < i && actions[k] == Request(p, request)
  {
    if i > 0 {
      if (p, request) in rooms[i - 1].requests {
        RequestsWereMade(limits, rooms, actions, i - 1, p, request);
      } else {
        hide Can;
        NewRequest(limits, rooms[i - 1], actions[i - 1], p, request);
        assert actions[i - 1] == Request(p, request);
      }
    }
  }

  lemma NewRequest(limits: Limits, r: Room, a: Action, p: PeerId, request: ClientMsg)
    requires Can(r, a) && (p, request) in Step(limits, r, a).requests && (p, request) !in r.requests
    ensures a == Request(p, request)
  {
    hide Enumerates, Broadcast, Sendings;
  }

  // ----- Limits -------------------------------------------------------------------

  /** Connects and messages let through. */
  predicate Spends(limits: Limits, r: Room, a: Action) {
    (a.Connect? && !Full(limits, r)) || (a.Request? && r.count < limits.requests)
  }

  /** How many were let through since the last hourly clear. */
  function Spent(limits: Limits, rooms: seq<Room>, actions: seq<Action>, i: nat): nat
    requires i <= |actions| && |rooms| == |actions| + 1
  {
    if i == 0 || actions[i - 1].Clear? then 0
    else Spent(limits, rooms, actions, i - 1) + if Spends(limits, rooms[i - 1], actions[i - 1]) then 1 else 0
  }

  lemma {:induction false} WithinLimits(limits: Limits, rooms: seq<Room>, actions: seq<Action>, i: nat)
    requires Execution(limits, rooms, actions) && i < |rooms|
    ensures |rooms[i].members| <= limits.connections
    ensures rooms[i].count == Spent(limits, rooms, actions, i) <= limits.requests
  {
    if i > 0 {
      WithinLimits(limits, rooms, actions, i - 1);
      AlwaysConsistent(limits, rooms, actions, i - 1);
      LimitsStep(limits, rooms[i - 1], actions[i - 1]);
    }
  }

  lemma KeysStep(limits: Limits, r: Room, a: Action)
    requires Structured(r) && Can(r, a)
    ensures
      var keys := Step(limits, r, a).members.Keys;
      if a.Connect? && !Full(limits, r) then keys == r.members.Keys + {a.id}
      else if a.Remove? then keys == r.members.Keys - {a.id}
      else keys == r.members.Keys
  {
    hide Enumerates, Broadcast, HandlerOwn, QueueGenuine, Sendings;
  }

  lemma CountStep(limits: Limits, r: Room, a: Action)
    requires Can(r, a)
    ensures Step(limits, r, a).count == if a.Clear? then 0 else r.count + if Spends(limits, r, a) then 1 else 0
  {
    hide Enumerates, Broadcast, Sendings;
  }

  lemma LimitsStep(limits: Limits, r: Room, a: Action)
    requires Structured(r) && Can(r, a) && |r.members| <= limits.connections && r.count <= limits.requests
    ensures |Step(limits, r, a).members| <= limits.connections
    ensures Step(limits, r, a).count
            == (if a.Clear? then 0 else r.count + if Spends(limits, r, a) then 1 else 0) <= limits.requests
  {
    KeysStep(limits, r, a);
    CountStep(limits, r, a);
    hide Step;
    hide Structured;
    hide Can;
    var r' := Step(limits, r, a);
    assert |r'.members| == |r'.members.Keys| && |r.members| == |r.members.Keys|;
  }

  // ----- Nothing is left waiting for lack of a recipient ----------------------------

  /**
   The guards that name a recipient or a joined peer never hold a handler up. A
   request in hand finds its peer in the room exactly until the handler has
   removed it.
   */
  lemma GuardsHold(limits: Limits, rooms: seq<Room>, actions: seq<Action>, i: nat, p: PeerId)
    requires Execution(limits, rooms, actions) && i < |rooms| && p in rooms[i].handlers
    ensures forall byTask :: rooms[i].handlers[p].Sends(byTask) != [] ==> Can(rooms[i], Deliver(p, byTask))
    ensures rooms[i].handlers[p].task.Admitted? ==>
              p in rooms[i].joined && (p in rooms[i].members <==> !rooms[i].handlers[p].stage.Leaving?)
  {
    var r := rooms[i];
    AlwaysConsistent(limits, rooms, actions, i);
    assert HandlerOwn(r, p);
    forall byTask | r.handlers[p].Sends(byTask) != []
      ensures Can(r, Deliver(p, byTask))
    {
      assert Own(r, p, byTask, r.handlers[p].Sends(byTask)[0]);
    }
  }
}
