/** What the members of a room know about each other, in every state of every run. */
module RoomViews {
  import opened Prelude
  import opened Room

  // ----- Messages about one peer --------------------------------------------

  predicate IsAbout(x: PeerId, m: ServerMsg) {
    match m
    case Join(peer) => peer.id == x
    case Update(peer) => peer.id == x
    case Left(id) => id == x
    case _ => false
  }

  /** The membership messages about x, in order. */
  function About(x: PeerId, ms: seq<ServerMsg>): seq<ServerMsg> {
    if ms == [] then []
    else About(x, ms[..|ms| - 1]) + if IsAbout(x, ms[|ms| - 1]) then [ms[|ms| - 1]] else []
  }

  /** The messages among these sends that are for p, in order. */
  function To(p: PeerId, sends: seq<Send>): seq<ServerMsg> {
    if sends == [] then []
    else (if sends[0].to == p then [sends[0].msg] else []) + To(p, sends[1..])
  }

  lemma {:induction false} AboutAppend(x: PeerId, a: seq<ServerMsg>, b: seq<ServerMsg>)
    ensures About(x, a + b) == About(x, a) + About(x, b)
    decreases |b|
  {
    if b == [] {
      assert a + b == a;
    } else {
      AboutAppend(x, a, b[..|b| - 1]);
      assert (a + b)[..|a + b| - 1] == a + b[..|b| - 1];
    }
  }

  lemma {:induction false} AboutOnly(x: PeerId, ms: seq<ServerMsg>)
    ensures forall m :: m in About(x, ms) ==> m in ms && IsAbout(x, m)
    ensures (forall m :: m in ms ==> !IsAbout(x, m)) ==> About(x, ms) == []
  {
    if ms != [] {
      AboutOnly(x, ms[..|ms| - 1]);
    }
  }

  lemma {:induction false} ToOnly(p: PeerId, sends: seq<Send>)
    ensures forall m :: m in To(p, sends) ==> Send(p, m) in sends
    ensures (forall s :: s in sends ==> s.to != p) ==> To(p, sends) == []
  {
    if sends != [] {
      ToOnly(p, sends[1..]);
      assert forall s :: s in sends[1..] ==> s in sends;
    }
  }

  lemma {:induction false} ToAppend(p: PeerId, a: seq<Send>, b: seq<Send>)
    ensures To(p, a + b) == To(p, a) + To(p, b)
  {
    if a == [] {
      assert a + b == b;
    } else {
      ToAppend(p, a[1..], b);
      assert (a + b)[1..] == a[1..] + b;
    }
  }

  /** A broadcast sends one message to each peer of the order. */
  lemma {:induction false} ToBroadcast(p: PeerId, order: seq<PeerId>, m: ServerMsg)
    requires forall i, j :: 0 <= i < j < |order| ==> order[i] != order[j]
    ensures To(p, Broadcast(order, m)) == if p in order then [m] else []
    ensures forall s :: s in Broadcast(order, m) ==> s.msg == m && s.to in order
  {
    if order != [] {
      var rest := order[1..];
      assert forall i, j :: 0 <= i < j < |rest| ==> rest[i] != rest[j] by {
        assert forall i :: 0 <= i < |rest| ==> rest[i] == order[i + 1];
      }
      ToBroadcast(p, rest, m);
    }
  }

  // ----- The structure of a reachable room -----------------------------------

  /** A client as it was when it connected. */
  predicate AsJoined(r: Room, c: Client) {
    c.id in r.joined && r.joined[c.id] == c.info
  }

  /** What `handle_socket` itself sends is about its own peer, and so is what its receive task sends. */
  predicate Own(r: Room, p: PeerId, byTask: bool, s: Send)
    requires p in r.handlers
  {
    var (stage, task) := (r.handlers[p].stage, r.handlers[p].task);
    && s.to in r.found
    && match s.msg
       case Hello(client, _) => !byTask && s.to == p == client.id && stage.Introducing?
       case Join(peer) => !byTask && peer.id == p != s.to && stage.Introducing?
       case Left(id) => !byTask && id == p != s.to && stage.Leaving?
       case Update(peer) => byTask && peer.id == p != s.to && task.Serving?
       case Offer(origin, sessionId, sdp) =>
         && byTask && task.Serving? && origin.id == p && AsJoined(r, origin)
         && (p, MakeOffer(Sdp(sessionId, s.to, sdp))) in r.requests
       case Answer(origin, sessionId, sdp) =>
         && byTask && task.Serving? && origin.id == p && AsJoined(r, origin)
         && (p, MakeAnswer(Sdp(sessionId, s.to, sdp))) in r.requests
       case Error(code) => byTask && s.to == p && task.OverBudget? && code == TOO_MANY_REQUESTS
  }

  /** A message in p's queue comes from an accepted peer, and carries an offer or answer only on its request. */
  predicate Genuine(r: Room, p: PeerId, m: ServerMsg) {
    match m
    case Hello(client, _) => client.id == p
    case Join(peer) => peer.id in r.found && peer.id != p
    case Update(peer) => peer.id in r.found && peer.id != p
    case Left(id) => id in r.found && id != p
    case Offer(origin, sessionId, sdp) =>
      origin.id in r.found && AsJoined(r, origin) && (origin.id, MakeOffer(Sdp(sessionId, p, sdp))) in r.requests
    case Answer(origin, sessionId, sdp) =>
      origin.id in r.found && AsJoined(r, origin) && (origin.id, MakeAnswer(Sdp(sessionId, p, sdp))) in r.requests
    case Error(code) => code == TOO_MANY_REQUESTS
  }

  ghost predicate Shaped(r: Room) {
    && r.found.Keys == r.joined.Keys == r.queues.Keys <= r.handlers.Keys
    && (forall p :: p in r.handlers ==> (p in r.found <==> !r.handlers[p].stage.Refused?))
    && (forall p :: p in r.found ==> (p in r.members <==> !r.handlers[p].stage.Leaving?))
    && r.members.Keys <= r.found.Keys
    && (forall p :: p in r.found ==> p !in r.found[p] && r.found[p].Keys <= r.found.Keys)
  }

  ghost predicate HandlerOwn(r: Room, p: PeerId)
    requires p in r.handlers
  {
    var h := r.handlers[p];
    && (forall byTask, s :: s in h.Sends(byTask) ==> Own(r, p, byTask, s))
    && (h.task.Admitted? ==> (p, h.task.request) in r.requests)
    && (h.stage.Introducing? ==> h.stage.Sends() != [])
    && (h.stage.Refused? || h.stage.Introducing? ==> h.task.Ended?)
  }

  ghost predicate QueueGenuine(r: Room, p: PeerId)
    requires p in r.queues
  {
    forall m :: m in r.queues[p] ==> Genuine(r, p, m)
  }

  ghost predicate Structured(r: Room) {
    && Shaped(r)
    && (forall p :: p in r.handlers ==> HandlerOwn(r, p))
    && (forall p :: p in r.queues ==> QueueGenuine(r, p))
  }

  lemma BroadcastFrom(order: seq<PeerId>, m: ServerMsg, ids: set<PeerId>)
    requires Enumerates(order, ids)
    ensures forall s :: s in Broadcast(order, m) ==> s.msg == m && s.to in ids
  {
    ToBroadcast(0, order, m);
  }

  /** Who has joined, whom it found and what it asked for is never forgotten. */
  predicate Remembers(r: Room, r': Room) {
    && r.found.Keys <= r'.found.Keys && r.requests <= r'.requests
    && (forall p :: p in r.joined ==> p in r'.joined && r'.joined[p] == r.joined[p])
  }

  lemma OwnKept(r: Room, r': Room, p: PeerId)
    requires p in r.handlers && p in r'.handlers && r'.handlers[p] == r.handlers[p]
    requires Remembers(r, r')
    requires HandlerOwn(r, p)
    ensures HandlerOwn(r', p)
  {
    forall byTask, s | s in r'.handlers[p].Sends(byTask)
      ensures Own(r', p, byTask, s)
    {
      assert Own(r, p, byTask, s);
    }
  }

  lemma QueueKept(r: Room, r': Room, p: PeerId)
    requires p in r.queues && p in r'.queues && r'.queues[p] == r.queues[p]
    requires Remembers(r, r')
    requires QueueGenuine(r, p)
    ensures QueueGenuine(r', p)
  {
    forall m | m in r'.queues[p]
      ensures Genuine(r', p, m)
    {
      assert Genuine(r, p, m);
    }
  }

  /** Only p's handler and q's queue have changed; new queues are empty. */
  ghost predicate Frame(r: Room, r': Room, p: PeerId, q: Option<PeerId>) {
    && Remembers(r, r')
    && r'.handlers.Keys == r.handlers.Keys + {p}
    && (forall x :: x in r'.handlers && x != p ==> r'.handlers[x] == r.handlers[x])
    && r.queues.Keys <= r'.queues.Keys
    && (forall x :: x in r.queues && Some(x) != q ==> r'.queues[x] == r.queues[x])
    && (forall x :: x in r'.queues && x !in r.queues ==> r'.queues[x] == [])
  }

  /** Handlers and queues a step does not touch stay as they should be; history only grows. */
  lemma OthersKept(r: Room, r': Room, p: PeerId, q: Option<PeerId>)
    requires Structured(r) && Shaped(r')
    requires Frame(r, r', p, q)
    requires HandlerOwn(r', p)
    requires q.Some? && q.value in r'.queues ==> QueueGenuine(r', q.value)
    ensures Structured(r')
  {
    forall x | x in r'.handlers && x != p
      ensures HandlerOwn(r', x)
    {
      OwnKept(r, r', x);
    }
    forall x | x in r'.queues && Some(x) != q
      ensures QueueGenuine(r', x)
    {
      if x in r.queues {
        QueueKept(r, r', x);
      }
    }
  }

  lemma ConnectShaped(limits: Limits, r: Room, p: PeerId, info: Info, order: seq<PeerId>)
    requires Shaped(r) && p !in r.handlers
    ensures Shaped(ConnectStep(limits, r, p, info, order))
  {
    hide Broadcast;
  }

  lemma RefusalFrame(limits: Limits, r: Room, p: PeerId, info: Info, order: seq<PeerId>)
    requires p !in r.handlers && Full(limits, r)
    ensures Frame(r, ConnectStep(limits, r, p, info, order), p, None)
  {
    hide Broadcast, Full;
  }

  lemma AdmissionFrame(limits: Limits, r: Room, p: PeerId, info: Info, order: seq<PeerId>)
    requires Shaped(r) && p !in r.handlers && !Full(limits, r)
    ensures Frame(r, ConnectStep(limits, r, p, info, order), p, None)
  {
    hide Broadcast, Full;
  }

  lemma ConnectStructured(limits: Limits, r: Room, p: PeerId, info: Info, order: seq<PeerId>)
    requires Structured(r) && Can(r, Connect(p, info, order))
    ensures Structured(ConnectStep(limits, r, p, info, order))
  {
    hide HandlerOwn, QueueGenuine, Shaped, Frame, ConnectStep, Enumerates;
    ConnectShaped(limits, r, p, info, order);
    IntroductionOwn(limits, r, p, info, order);
    if Full(limits, r) {
      RefusalFrame(limits, r, p, info, order);
    } else {
      AdmissionFrame(limits, r, p, info, order);
    }
    OthersKept(r, ConnectStep(limits, r, p, info, order), p, None);
  }

  lemma IntroductionOwn(limits: Limits, r: Room, p: PeerId, info: Info, order: seq<PeerId>)
    requires Shaped(r) && Can(r, Connect(p, info, order))
    ensures HandlerOwn(ConnectStep(limits, r, p, info, order), p)
  {
    BroadcastFrom(order, Join(Client(p, info)), r.members.Keys);
  }

  lemma DeliverStructured(r: Room, p: PeerId, byTask: bool)
    requires Structured(r) && Can(r, Deliver(p, byTask))
    ensures Structured(DeliverStep(r, p, byTask))
  {
    hide HandlerOwn, QueueGenuine, Handler.Sends, Handler.Sent;
    var r' := DeliverStep(r, p, byTask);
    SentKeeps(r, p, byTask);
    DeliveryOwn(r, p, byTask);
    OthersKept(r, r', p, Some(r.handlers[p].Sends(byTask)[0].to));
  }

  /** A send moves one part of a handler on and leaves the other. */
  lemma SentKeeps(r: Room, p: PeerId, byTask: bool)
    requires Structured(r) && Can(r, Deliver(p, byTask))
    ensures
      var (h, h') := (r.handlers[p], r.handlers[p].Sent(byTask));
      && (h'.stage.Leaving? <==> h.stage.Leaving?) && !h.stage.Refused? && !h'.stage.Refused?
      && (h'.stage.Closing? <==> h.stage.Closing?)
      && (h.stage.Introducing? ==> !byTask && h.task.Ended?)
      && (h'.stage.Introducing? ==> h.stage.Introducing?)
      && h'.Sends(byTask) == h.Sends(byTask)[1..] && h'.Sends(!byTask) == h.Sends(!byTask)
  {
    assert HandlerOwn(r, p);
    if byTask {
      assert !r.handlers[p].task.Ended?;
    }
  }

  lemma DeliveryOwn(r: Room, p: PeerId, byTask: bool)
    requires Structured(r) && Can(r, Deliver(p, byTask))
    ensures HandlerOwn(DeliverStep(r, p, byTask), p)
    ensures QueueGenuine(DeliverStep(r, p, byTask), r.handlers[p].Sends(byTask)[0].to)
  {
    var r' := DeliverStep(r, p, byTask);
    var first := r.handlers[p].Sends(byTask)[0];
    assert HandlerOwn(r, p) && QueueGenuine(r, first.to);
    assert Own(r, p, byTask, first);
    SentKeeps(r, p, byTask);
    forall other, s | s in r'.handlers[p].Sends(other)
      ensures Own(r', p, other, s)
    {
      assert s in r.handlers[p].Sends(other);
      assert Own(r, p, other, s);
    }
    forall m | m in r'.queues[first.to]
      ensures Genuine(r', first.to, m)
    {
      assert m == first.msg || m in r.queues[first.to];
    }
  }

  lemma RequestStructured(limits: Limits, r: Room, p: PeerId, request: ClientMsg)
    requires Structured(r) && Can(r, Request(p, request))
    ensures Structured(RequestStep(limits, r, p, request))
  {
    var r' := RequestStep(limits, r, p, request);
    RequestOwn(limits, r, p, request);
    hide HandlerOwn, QueueGenuine;
    OthersKept(r, r', p, None);
  }

  lemma RequestOwn(limits: Limits, r: Room, p: PeerId, request: ClientMsg)
    requires Structured(r) && Can(r, Request(p, request))
    ensures HandlerOwn(RequestStep(limits, r, p, request), p)
  {
    hide QueueGenuine;
    var r' := RequestStep(limits, r, p, request);
    assert HandlerOwn(r, p);
    forall other, s | s in r'.handlers[p].Sends(other)
      ensures Own(r', p, other, s)
    {
      if !other {
        assert s in r.handlers[p].Sends(other);
        assert Own(r, p, other, s);
      }
    }
  }

  lemma ApplyOwn(r: Room, p: PeerId, order: seq<PeerId>)
    requires Structured(r) && Can(r, Apply(p, order))
    ensures HandlerOwn(ApplyStep(r, p, order), p)
  {
    var r' := ApplyStep(r, p, order);
    var request := r.handlers[p].task.request;
    assert HandlerOwn(r, p);
    SendingsOwn(r, p, order);
    forall other, s | s in r'.handlers[p].Sends(other)
      ensures Own(r', p, other, s)
    {
      if !other {
        assert s in r.handlers[p].Sends(other);
        assert Own(r, p, other, s);
      }
    }
  }

  lemma SendingsOwn(r: Room, p: PeerId, order: seq<PeerId>)
    requires Structured(r) && Can(r, Apply(p, order))
    ensures
      var r' := ApplyStep(r, p, order);
      forall s :: s in r'.handlers[p].Sends(true) ==> Own(r', p, true, s)
  {
    assert HandlerOwn(r, p);
    var request := r.handlers[p].task.request;
    match request {
      case SetInfo(info) => BroadcastFrom(order, Update(Client(p, info)), r.members.Keys - {p});
      case MakeOffer(sdp) => assert Sdp(sdp.sessionId, sdp.target, sdp.sdp) == sdp;
      case MakeAnswer(sdp) => assert Sdp(sdp.sessionId, sdp.target, sdp.sdp) == sdp;
    }
  }

  /** A step that only moves one handler on, and perhaps changes its peer's entry. */
  lemma HandlerMoves(r: Room, r': Room, p: PeerId)
    requires Structured(r) && p in r.found && r' == r.(members := r'.members, handlers := r'.handlers)
    requires p in r'.handlers && r'.handlers == r.handlers[p := r'.handlers[p]]
    requires r'.members.Keys - {p} == r.members.Keys - {p}
    requires !r'.handlers[p].stage.Refused? && (p in r'.members <==> !r'.handlers[p].stage.Leaving?)
    requires HandlerOwn(r', p)
    ensures Structured(r')
  {
    hide HandlerOwn, QueueGenuine;
    assert forall q :: q != p ==>
        (q in r'.members <==> q in r'.members.Keys - {p}) && (q in r.members <==> q in r.members.Keys - {p});
    OthersKept(r, r', p, None);
  }

  lemma ApplyStructured(r: Room, p: PeerId, order: seq<PeerId>)
    requires Structured(r) && Can(r, Apply(p, order))
    ensures Structured(ApplyStep(r, p, order))
  {
    hide HandlerOwn, QueueGenuine, Sendings, Enumerates;
    var r' := ApplyStep(r, p, order);
    ApplyOwn(r, p, order);
    assert r'.members.Keys - {p} == r.members.Keys - {p};
    HandlerMoves(r, r', p);
  }

  lemma RemoveStructured(r: Room, p: PeerId, order: seq<PeerId>)
    requires Structured(r) && Can(r, Remove(p, order))
    ensures Structured(RemoveStep(r, p, order))
  {
    hide QueueGenuine;
    var r' := RemoveStep(r, p, order);
    RemoveOwn(r, p, order);
    assert r'.members.Keys - {p} == r.members.Keys - {p};
    HandlerMoves(r, r', p);
  }

  lemma RemoveOwn(r: Room, p: PeerId, order: seq<PeerId>)
    requires Structured(r) && Can(r, Remove(p, order))
    ensures HandlerOwn(RemoveStep(r, p, order), p)
  {
    hide QueueGenuine;
    var r' := RemoveStep(r, p, order);
    assert HandlerOwn(r, p);
    BroadcastFrom(order, Left(p), r.members.Keys - {p});
    forall other, s | s in r'.handlers[p].Sends(other)
      ensures Own(r', p, other, s)
    {
      if other {
        assert s in r.handlers[p].Sends(other);
        assert Own(r, p, other, s);
      }
    }
  }

  lemma StopStructured(r: Room, p: PeerId)
    requires Structured(r) && Can(r, Stop(p))
    ensures Structured(StopStep(r, p))
  {
    assert HandlerOwn(r, p);
    var r' := StopStep(r, p);
    forall other, s | s in r'.handlers[p].Sends(other)
      ensures Own(r', p, other, s)
    {
      assert Own(r, p, other, s);
    }
    HandlerMoves(r, r', p);
  }

  lemma CloseStructured(r: Room, p: PeerId)
    requires Structured(r) && Can(r, Close(p))
    ensures Structured(CloseStep(r, p))
  {
    assert HandlerOwn(r, p);
    var r' := CloseStep(r, p);
    forall other, s | s in r'.handlers[p].Sends(other)
      ensures Own(r', p, other, s)
    {
      assert Own(r, p, other, s);
    }
    HandlerMoves(r, r', p);
  }

  lemma StructuredStep(limits: Limits, r: Room, a: Action)
    requires Structured(r) && Can(r, a)
    ensures Structured(Step(limits, r, a))
  {
    match a
    case Connect(p, info, order) => ConnectStructured(limits, r, p, info, order);
    case Deliver(p, byTask) => DeliverStructured(r, p, byTask);
    case Request(p, request) => RequestStructured(limits, r, p, request);
    case Apply(p, order) => ApplyStructured(r, p, order);
    case Stop(p) => StopStructured(r, p);
    case Close(p) => CloseStructured(r, p);
    case Remove(p, order) => RemoveStructured(r, p, order);
    case Clear =>
  }
}
