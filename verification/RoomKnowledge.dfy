/** View convergence and exactly-once introduction, as invariants of every reachable room. */
module RoomKnowledge {
  import opened Prelude
  import opened Room
  import opened RoomViews

  function Queue(r: Room, p: PeerId): seq<ServerMsg> {
    if p in r.queues then r.queues[p] else []
  }

  function Sends(r: Room, x: PeerId, byTask: bool): seq<Send> {
    if x in r.handlers then r.handlers[x].Sends(byTask) else []
  }

  /** What p has been sent about x. */
  function Told(r: Room, p: PeerId, x: PeerId): seq<ServerMsg> {
    About(x, Queue(r, p))
  }

  /** What x's handler, or its receive task, is still going to send p about x. */
  function Part(r: Room, p: PeerId, x: PeerId, byTask: bool): seq<ServerMsg> {
    About(x, To(p, Sends(r, x, byTask)))
  }

  /** All news of x for p, sent or still to be sent. */
  function Track(r: Room, p: PeerId, x: PeerId): seq<ServerMsg> {
    Told(r, p, x) + (Part(r, p, x, false) + Part(r, p, x, true))
  }

  ghost predicate HasLeft(ms: seq<ServerMsg>) {
    exists m :: m in ms && m.Left?
  }

  /**
   What p takes x to be: a `Left` removes it for good, otherwise the last message
   counts, otherwise the `Hello` entry.
   */
  ghost function Merge(hello: Option<Info>, ms: seq<ServerMsg>): Option<Info> {
    if HasLeft(ms) then None
    else if ms == [] then hello
    else match ms[|ms| - 1]
      case Join(peer) => Some(peer.info)
      case Update(peer) => Some(peer.info)
      case _ => None
  }

  /** x's entry in the snapshot p was given. */
  function Entry(r: Room, p: PeerId, x: PeerId): Option<Info> {
    if p in r.found && x in r.found[p] then Some(r.found[p][x]) else None
  }

  function Member(r: Room, x: PeerId): Option<Info> {
    if x in r.members then Some(r.members[x]) else None
  }

  predicate IsClosing(r: Room, x: PeerId) {
    x in r.handlers && r.handlers[x].stage.Closing?
  }

  /**
   What somebody with this entry and this news believes of a peer: the truth.
   Only while the peer's connection is being closed may its latest update be
   lost; nobody takes it to be gone then, and afterwards everybody does, even if
   an update comes in after the departure.
   */
  ghost predicate Knows(truth: Option<Info>, closing: bool, entry: Option<Info>, news: seq<ServerMsg>) {
    if truth.Some? then !HasLeft(news) && (!closing ==> Merge(entry, news) == truth)
    else HasLeft(news) || (entry == None && news == [])
  }

  ghost predicate Informed(r: Room, p: PeerId, x: PeerId) {
    Knows(Member(r, x), IsClosing(r, x), Entry(r, p, x), Track(r, p, x))
  }

  function Joins(ms: seq<ServerMsg>): nat {
    if ms == [] then 0 else Joins(ms[..|ms| - 1]) + if ms[|ms| - 1].Join? then 1 else 0
  }

  /** p is told of x by a `Join` exactly if x found p there, and not otherwise. */
  ghost predicate Introduced(r: Room, p: PeerId, x: PeerId) {
    p in r.found && x in r.found ==> Joins(Track(r, p, x)) == if p in r.found[x] then 1 else 0
  }

  function Hellos(ms: seq<ServerMsg>): seq<ServerMsg> {
    if ms == [] then []
    else Hellos(ms[..|ms| - 1]) + if ms[|ms| - 1].Hello? then [ms[|ms| - 1]] else []
  }

  /** The `Hello` p has got or will get. */
  function Greetings(r: Room, p: PeerId): seq<ServerMsg> {
    Hellos(Queue(r, p)) + Hellos(To(p, Sends(r, p, false)))
  }

  /** p gets one `Hello`, with the members it found. */
  ghost predicate Greeted(r: Room, p: PeerId) {
    p in r.found && p in r.joined ==> Greetings(r, p) == [Hello(Client(p, r.joined[p]), r.found[p])]
  }

  /** Of two members, exactly one found the other. */
  ghost predicate OneWay(r: Room, p: PeerId, x: PeerId) {
    p in r.found && x in r.found ==>
      && !(p in r.found[x] && x in r.found[p])
      && (p in r.members && x in r.members ==> p in r.found[x] || x in r.found[p])
  }

  ghost predicate Consistent(r: Room) {
    && Structured(r)
    && (forall p, x :: p in r.members && x != p ==> Informed(r, p, x))
    && (forall p, x :: x != p ==> Introduced(r, p, x))
    && (forall p, x :: x != p ==> OneWay(r, p, x))
    && (forall p :: Greeted(r, p))
  }

  // ----- Small facts about the filters ---------------------------------------

  lemma {:induction false} JoinsAppend(a: seq<ServerMsg>, b: seq<ServerMsg>)
    ensures Joins(a + b) == Joins(a) + Joins(b)
    decreases |b|
  {
    if b == [] {
      assert a + b == a;
    } else {
      JoinsAppend(a, b[..|b| - 1]);
      assert (a + b)[..|a + b| - 1] == a + b[..|b| - 1];
    }
  }

  lemma {:induction false} HellosAppend(a: seq<ServerMsg>, b: seq<ServerMsg>)
    ensures Hellos(a + b) == Hellos(a) + Hellos(b)
    decreases |b|
  {
    if b == [] {
      assert a + b == a;
    } else {
      HellosAppend(a, b[..|b| - 1]);
      assert (a + b)[..|a + b| - 1] == a + b[..|b| - 1];
    }
  }

  lemma One(x: PeerId, m: ServerMsg)
    ensures About(x, [m]) == if IsAbout(x, m) then [m] else []
    ensures Joins([m]) == if m.Join? then 1 else 0
    ensures Hellos([m]) == if m.Hello? then [m] else []
  {
    assert [m][..0] == [];
  }

  // ----- Deliveries -----------------------------------------------------------

  /** The part of a delivery that reaches p. */
  function Arrival(r: Room, y: PeerId, byTask: bool, p: PeerId): seq<ServerMsg>
    requires Can(r, Deliver(y, byTask))
  {
    var send := r.handlers[y].Sends(byTask)[0];
    if send.to == p then [send.msg] else []
  }

  lemma DeliveryEffect(r: Room, y: PeerId, byTask: bool, p: PeerId, x: PeerId, part: bool)
    requires Structured(r) && Can(r, Deliver(y, byTask))
    ensures
      var r' := DeliverStep(r, y, byTask);
      && Queue(r', p) == Queue(r, p) + Arrival(r, y, byTask, p)
      && To(p, Sends(r, x, part))
         == (if x == y && part == byTask then Arrival(r, y, byTask, p) else []) + To(p, Sends(r', x, part))
  {
    SentKeeps(r, y, byTask);
    hide Handler.Sends, Handler.Sent, Structured;
  }

  lemma ArrivalIsOwn(r: Room, y: PeerId, byTask: bool, p: PeerId, x: PeerId)
    requires Structured(r) && Can(r, Deliver(y, byTask))
    ensures x != y ==> About(x, Arrival(r, y, byTask, p)) == []
    ensures p != y || byTask ==> Hellos(Arrival(r, y, byTask, p)) == []
    ensures byTask ==> Joins(About(y, Arrival(r, y, byTask, p))) == 0
  {
    var send := r.handlers[y].Sends(byTask)[0];
    assert HandlerOwn(r, y);
    assert Own(r, y, byTask, send);
    One(x, send.msg);
    One(y, send.msg);
  }

  /** Where the news of x are after a delivery. */
  lemma NewsMove(r: Room, y: PeerId, byTask: bool, p: PeerId, x: PeerId)
    requires Structured(r) && Can(r, Deliver(y, byTask))
    ensures
      var r' := DeliverStep(r, y, byTask);
      var news := About(x, Arrival(r, y, byTask, p));
      && Told(r', p, x) == Told(r, p, x) + news
      && Part(r, p, x, byTask) == news + Part(r', p, x, byTask)
      && Part(r, p, x, !byTask) == Part(r', p, x, !byTask)
  {
    hide Structured, DeliverStep, Arrival, Handler.Sends, Can, About, To;
    var r' := DeliverStep(r, y, byTask);
    var arrival := Arrival(r, y, byTask, p);
    DeliveryEffect(r, y, byTask, p, x, byTask);
    DeliveryEffect(r, y, byTask, p, x, !byTask);
    AboutAppend(x, Queue(r, p), arrival);
    ArrivalIsOwn(r, y, byTask, p, x);
    if x == y {
      AboutAppend(x, arrival, To(p, Sends(r', x, byTask)));
    }
    assert [] + To(p, Sends(r', x, byTask)) == To(p, Sends(r', x, byTask));
    assert [] + To(p, Sends(r', x, !byTask)) == To(p, Sends(r', x, !byTask));
    assert [] + Part(r', p, x, byTask) == Part(r', p, x, byTask);
  }

  /** A task sends while the handler itself has nothing to send, unless its peer is gone. */
  lemma OnlyOneSends(r: Room, p: PeerId, y: PeerId)
    requires Structured(r) && y in r.members && y in r.handlers && !r.handlers[y].task.Ended?
    ensures Part(r, p, y, false) == []
  {
    assert HandlerOwn(r, y);
    assert !r.handlers[y].stage.Leaving?;
  }

  lemma TaskRuns(r: Room, y: PeerId)
    requires Can(r, Deliver(y, true))
    ensures y in r.handlers && !r.handlers[y].task.Ended?
  {
  }

  /** A delivery keeps all news; those of a member stay in their order. */
  lemma DeliveryKeepsTracks(r: Room, y: PeerId, byTask: bool, p: PeerId, x: PeerId)
    requires Structured(r) && Can(r, Deliver(y, byTask))
    ensures
      var (before, after) := (Track(r, p, x), Track(DeliverStep(r, y, byTask), p, x));
      && multiset(after) == multiset(before)
      && (x in r.members ==> after == before)
      && Joins(after) == Joins(before)
  {
    hide Told, Part, About, Arrival, DeliverStep, Structured, Can, Joins;
    var news := About(x, Arrival(r, y, byTask, p));
    var r' := DeliverStep(r, y, byTask);
    NewsMove(r, y, byTask, p, x);
    if byTask && x == y && x in r.members {
      TaskRuns(r, y);
      OnlyOneSends(r, p, y);
    }
    ArrivalIsOwn(r, y, byTask, p, x);
    Moved(Told(r, p, x), news, Part(r', p, x, byTask), Part(r, p, x, !byTask), byTask);
  }

  lemma Moved(told: seq<ServerMsg>, news: seq<ServerMsg>, rest: seq<ServerMsg>, other: seq<ServerMsg>, byTask: bool)
    ensures
      var before := told + (if byTask then other + (news + rest) else (news + rest) + other);
      var after := (told + news) + (if byTask then other + rest else rest + other);
      && multiset(after) == multiset(before)
      && (!byTask || other == [] || news == [] ==> after == before)
      && Joins(after) == Joins(before)
  {
    hide Joins;
    if byTask {
      MovedPast(told, news, rest, other);
    } else {
      assert told + ((news + rest) + other) == (told + news) + (rest + other);
    }
  }

  lemma MovedPast(told: seq<ServerMsg>, news: seq<ServerMsg>, rest: seq<ServerMsg>, other: seq<ServerMsg>)
    ensures
      var (before, after) := (told + (other + (news + rest)), (told + news) + (other + rest));
      && multiset(after) == multiset(before)
      && (other == [] || news == [] ==> after == before)
      && Joins(after) == Joins(before)
  {
    hide Joins;
    JoinsOfAll(told, other, news + rest);
    JoinsAppend(news, rest);
    JoinsOfAll(told + news, other, rest);
    JoinsAppend(told, news);
    if other == [] {
      assert told + (other + (news + rest)) == (told + news) + (other + rest);
    } else if news == [] {
      assert told + (other + (news + rest)) == (told + news) + (other + rest);
    }
  }

  lemma JoinsOfAll(a: seq<ServerMsg>, b: seq<ServerMsg>, c: seq<ServerMsg>)
    ensures Joins(a + (b + c)) == Joins(a) + Joins(b) + Joins(c)
  {
    hide Joins;
    JoinsAppend(a, b + c);
    JoinsAppend(b, c);
  }

  lemma KnowsSameNews(truth: Option<Info>, closing: bool, closing': bool, entry: Option<Info>,
                      news: seq<ServerMsg>, news': seq<ServerMsg>)
    requires Knows(truth, closing, entry, news) && (closing ==> closing')
    requires multiset(news') == multiset(news) && (truth.Some? ==> news' == news)
    ensures Knows(truth, closing', entry, news')
  {
    assert forall m :: m in news ==> m in multiset(news);
    assert forall m :: m in multiset(news) ==> m in news';
    if news == [] {
      assert |news'| == |multiset(news')| == 0;
    }
  }

  lemma DeliverInforms(r: Room, y: PeerId, byTask: bool, p: PeerId, x: PeerId)
    requires Structured(r) && Can(r, Deliver(y, byTask)) && Informed(r, p, x)
    ensures Informed(DeliverStep(r, y, byTask), p, x)
  {
    hide Knows, Structured, Track, Handler.Sent, Handler.Sends;
    var r' := DeliverStep(r, y, byTask);
    SentKeeps(r, y, byTask);
    DeliveryKeepsTracks(r, y, byTask, p, x);
    KnowsSameNews(Member(r, x), IsClosing(r, x), IsClosing(r', x), Entry(r, p, x), Track(r, p, x), Track(r', p, x));
  }

  lemma DeliverGreets(r: Room, y: PeerId, byTask: bool, p: PeerId)
    requires Structured(r) && Can(r, Deliver(y, byTask))
    ensures Greetings(DeliverStep(r, y, byTask), p) == Greetings(r, p)
  {
    hide DeliverStep, Arrival, Structured, Can, To, Hellos, Queue, Sends;
    var arrival := Arrival(r, y, byTask, p);
    var (sent, left) := (Queue(r, p), To(p, Sends(DeliverStep(r, y, byTask), p, false)));
    DeliveryEffect(r, y, byTask, p, p, false);
    ArrivalIsOwn(r, y, byTask, p, p);
    HellosAppend(sent, arrival);
    if p == y && !byTask {
      HellosAppend(arrival, left);
      assert (Hellos(sent) + Hellos(arrival)) + Hellos(left) == Hellos(sent) + (Hellos(arrival) + Hellos(left));
    } else {
      assert [] + left == left && Hellos(sent) + [] == Hellos(sent);
    }
  }

  // ----- Steps that change one handler ---------------------------------------

  /** Everything but one handler, its peer's entry, the counter and the requests stays. */
  predicate OnlyHandler(r: Room, r': Room, y: PeerId) {
    && r' == r.(members := r'.members, count := r'.count, handlers := r'.handlers, requests := r'.requests)
    && y in r.handlers && y in r'.handlers && r'.handlers == r.handlers[y := r'.handlers[y]]
    && r'.members.Keys - {y} == r.members.Keys - {y}
    && (forall x :: x in r.members && x in r'.members && x != y ==> r'.members[x] == r.members[x])
  }

  lemma OthersUnchanged(r: Room, r': Room, y: PeerId, p: PeerId, x: PeerId)
    requires OnlyHandler(r, r', y) && x != y
    ensures Track(r', p, x) == Track(r, p, x) && Entry(r', p, x) == Entry(r, p, x)
    ensures Member(r', x) == Member(r, x) && IsClosing(r', x) == IsClosing(r, x)
  {
    assert x in r.members <==> x in r.members.Keys - {y};
    assert x in r'.members <==> x in r'.members.Keys - {y};
  }

  lemma ComingOfBroadcast(y: PeerId, p: PeerId, order: seq<PeerId>, ids: set<PeerId>, m: ServerMsg)
    requires Enumerates(order, ids) && IsAbout(y, m)
    ensures About(y, To(p, Broadcast(order, m))) == if p in ids then [m] else []
  {
    ToBroadcast(p, order, m);
    One(y, m);
  }

  lemma {:induction false} NoJoins(ms: seq<ServerMsg>)
    requires forall m :: m in ms ==> !m.Join?
    ensures Joins(ms) == 0
  {
    if ms != [] {
      NoJoins(ms[..|ms| - 1]);
    }
  }

  lemma {:induction false} NoHellos(ms: seq<ServerMsg>)
    requires forall m :: m in ms ==> !m.Hello?
    ensures Hellos(ms) == []
  {
    if ms != [] {
      NoHellos(ms[..|ms| - 1]);
    }
  }

  /** Only an introduction announces joins or greets, and no receive task announces a departure. */
  lemma OnlyIntroductions(r: Room, p: PeerId, y: PeerId, byTask: bool)
    requires y in r.handlers && HandlerOwn(r, y) && (byTask || !r.handlers[y].stage.Introducing?)
    ensures Joins(Part(r, p, y, byTask)) == 0 && Hellos(To(p, Sends(r, y, byTask))) == []
    ensures byTask ==> !HasLeft(Part(r, p, y, byTask))
  {
    var sends := r.handlers[y].Sends(byTask);
    ToOnly(p, sends);
    AboutOnly(y, To(p, sends));
    forall m | m in To(p, sends)
      ensures !m.Join? && !m.Hello? && (byTask ==> !m.Left?)
    {
      assert Own(r, y, byTask, Send(p, m));
    }
    NoJoins(Part(r, p, y, byTask));
    NoHellos(To(p, sends));
  }

  lemma NoIntroduction(r: Room, p: PeerId, y: PeerId)
    requires y in r.handlers && HandlerOwn(r, y) && !r.handlers[y].stage.Introducing?
    ensures Joins(Track(r, p, y)) == Joins(Told(r, p, y))
    ensures Hellos(To(p, Sends(r, y, false))) == []
  {
    OnlyIntroductions(r, p, y, false);
    OnlyIntroductions(r, p, y, true);
    JoinsAppend(Told(r, p, y), Part(r, p, y, false) + Part(r, p, y, true));
    JoinsAppend(Part(r, p, y, false), Part(r, p, y, true));
    hide HandlerOwn, Told, Part, Joins, Hellos, To;
  }

  /** A step from one such handler to another changes neither introductions nor greetings. */
  lemma IntroductionsKept(r: Room, r': Room, y: PeerId)
    requires Consistent(r) && Structured(r') && OnlyHandler(r, r', y)
    requires !r.handlers[y].stage.Introducing? && !r'.handlers[y].stage.Introducing?
    requires r'.members.Keys <= r.members.Keys
    ensures forall p, x :: x != p ==> Introduced(r', p, x) && OneWay(r', p, x)
    ensures forall p :: Greeted(r', p)
  {
    assert HandlerOwn(r, y) && HandlerOwn(r', y);
    hide HandlerOwn, Joins, Hellos, Track;
    forall p, x | x != p
      ensures Introduced(r', p, x) && OneWay(r', p, x)
    {
      assert Introduced(r, p, x) && OneWay(r, p, x);
      if x == y {
        NoIntroduction(r, p, y);
        NoIntroduction(r', p, y);
      } else {
        OthersUnchanged(r, r', y, p, x);
      }
    }
    forall p
      ensures Greeted(r', p)
    {
      assert Greeted(r, p);
      if p == y {
        NoIntroduction(r, p, y);
        NoIntroduction(r', p, y);
      }
    }
  }

  // ----- What such steps change for the others --------------------------------

  /** A task that has nothing to send about its peer, before and after. */
  lemma QuietTask(r: Room, r': Room, p: PeerId, y: PeerId)
    requires OnlyHandler(r, r', y) && r'.members == r.members && r'.handlers[y].stage == r.handlers[y].stage
    requires Part(r, p, y, true) == Part(r', p, y, true) && Informed(r, p, y)
    ensures Informed(r', p, y)
  {
    hide About, To;
    assert Part(r, p, y, false) == Part(r', p, y, false);
  }

  lemma RequestNews(limits: Limits, r: Room, y: PeerId, request: ClientMsg, p: PeerId)
    requires Can(r, Request(y, request))
    ensures Part(r, p, y, true) == [] == Part(RequestStep(limits, r, y, request), p, y, true)
  {
    var r' := RequestStep(limits, r, y, request);
    ToOnly(p, Sends(r', y, true));
    AboutOnly(y, To(p, Sends(r', y, true)));
  }

  lemma RequestInforms(limits: Limits, r: Room, y: PeerId, request: ClientMsg, p: PeerId)
    requires Can(r, Request(y, request)) && Informed(r, p, y)
    ensures Informed(RequestStep(limits, r, y, request), p, y)
  {
    hide Informed, Part;
    RequestNews(limits, r, y, request, p);
    QuietTask(r, RequestStep(limits, r, y, request), p, y);
  }

  /** What an admitted request changes for others. */
  lemma SendingsNews(members: map<PeerId, Info>, y: PeerId, joined: Info, q: ClientMsg, order: seq<PeerId>, p: PeerId)
    requires Enumerates(order, members.Keys - {y}) && p in members && p != y
    ensures About(y, To(p, Sendings(members, y, joined, q, order)))
         == if q.SetInfo? && y in members then [Update(Client(y, q.info))] else []
  {
    var sends := Sendings(members, y, joined, q, order);
    if q.SetInfo? && y in members {
      ComingOfBroadcast(y, p, order, members.Keys - {y}, Update(Client(y, q.info)));
    } else {
      ToOnly(p, sends);
      AboutOnly(y, To(p, sends));
    }
  }

  lemma ApplyNews(r: Room, y: PeerId, order: seq<PeerId>, p: PeerId)
    requires Can(r, Apply(y, order)) && p in r.members && p != y
    ensures
      var (r', request) := (ApplyStep(r, y, order), r.handlers[y].task.request);
      Part(r', p, y, true) == if request.SetInfo? && y in r.members then [Update(Client(y, request.info))] else []
  {
    hide Sendings, About, To, Enumerates;
    SendingsNews(r.members, y, r.joined[y], r.handlers[y].task.request, order, p);
  }

  lemma ApplyInforms(r: Room, y: PeerId, order: seq<PeerId>, p: PeerId)
    requires Structured(r) && Can(r, Apply(y, order)) && p in r.members && p != y && Informed(r, p, y)
    ensures Informed(ApplyStep(r, y, order), p, y)
  {
    var r' := ApplyStep(r, y, order);
    var request := r.handlers[y].task.request;
    ApplyNews(r, y, order, p);
    ApplyTouches(r, y, order);
    assert Part(r, p, y, true) == [];
    hide Structured, About, To, Sendings, Enumerates;
    if request.SetInfo? && y in r.members {
      OnlyOneSends(r, p, y);
      assert Part(r', p, y, false) == [];
      KnowsUpdate(Member(r, y), IsClosing(r, y), Entry(r, p, y), Told(r, p, y), Client(y, request.info));
    } else {
      QuietTask(r, r', p, y);
    }
  }

  lemma KnowsUpdate(truth: Option<Info>, closing: bool, entry: Option<Info>, told: seq<ServerMsg>, peer: Client)
    requires truth.Some? && Knows(truth, closing, entry, told + ([] + []))
    ensures Knows(Some(peer.info), closing, entry, told + ([] + [Update(peer)]))
  {
    assert told + ([] + []) == told;
    var news := told + ([] + [Update(peer)]);
    assert forall m :: m in news ==> m in told || m == Update(peer);
  }

  lemma RemoveNews(r: Room, y: PeerId, order: seq<PeerId>, p: PeerId)
    requires Can(r, Remove(y, order)) && p in r.members && p != y
    ensures Part(RemoveStep(r, y, order), p, y, false) == [Left(y)]
  {
    hide About, To, Broadcast, Enumerates;
    ComingOfBroadcast(y, p, order, r.members.Keys - {y}, Left(y));
  }

  lemma RemoveInforms(r: Room, y: PeerId, order: seq<PeerId>, p: PeerId)
    requires Can(r, Remove(y, order)) && p in r.members && p != y
    ensures Informed(RemoveStep(r, y, order), p, y)
  {
    hide Part, Told, Broadcast, Enumerates;
    RemoveNews(r, y, order, p);
    assert Left(y) in Track(RemoveStep(r, y, order), p, y);
  }

  lemma StopInforms(r: Room, y: PeerId, p: PeerId)
    requires Structured(r) && Can(r, Stop(y)) && Informed(r, p, y)
    ensures Informed(StopStep(r, y), p, y)
  {
    var r' := StopStep(r, y);
    assert HandlerOwn(r, y);
    OnlyIntroductions(r, p, y, true);
    assert Part(r', p, y, true) == [] && Part(r', p, y, false) == Part(r, p, y, false);
    assert r.handlers[y].task == Serving([]) ==> Part(r, p, y, true) == [];
    assert r.handlers[y].stage.Introducing? ==> r.handlers[y].task.Ended?;
    assert y in r.found && (y in r.members <==> !r.handlers[y].stage.Leaving?);
    hide HandlerOwn, QueueGenuine, Part, About, To, Told;
    var (told, mine, task) := (Told(r, p, y), Part(r, p, y, false), Part(r, p, y, true));
    assert forall m :: m in told + (mine + []) ==> m in told + (mine + task);
    assert forall m :: m in told + (mine + task) && m !in task ==> m in told + (mine + []);
    if told + (mine + task) == [] {
      assert told == [] && mine == [];
    }
  }

  lemma CloseInforms(r: Room, y: PeerId, p: PeerId)
    requires Structured(r) && Can(r, Close(y)) && Informed(r, p, y)
    ensures Informed(CloseStep(r, y), p, y)
  {
    var r' := CloseStep(r, y);
    assert y in r.members;
    assert Part(r', p, y, true) == Part(r, p, y, true) && Part(r', p, y, false) == [] == Part(r, p, y, false);
    hide Structured, Part, About, To;
  }

  // ----- A new member ---------------------------------------------------------

  lemma FreshUnknown(r: Room, p: PeerId, y: PeerId)
    requires Structured(r) && y !in r.handlers
    ensures Told(r, p, y) == [] && Queue(r, y) == [] && Entry(r, p, y) == None && y !in r.members && y !in r.found
    ensures forall x, byTask :: Part(r, y, x, byTask) == []
  {
    AboutOnly(y, Queue(r, p));
    if p in r.queues {
      assert QueueGenuine(r, p);
      assert forall m :: m in r.queues[p] ==> Genuine(r, p, m);
    }
    forall x, byTask
      ensures Part(r, y, x, byTask) == []
    {
      if x in r.handlers {
        assert HandlerOwn(r, x);
        assert forall s :: s in r.handlers[x].Sends(byTask) ==> Own(r, x, byTask, s);
      }
      ToOnly(y, Sends(r, x, byTask));
    }
  }

  lemma ToGreeting(p: PeerId, y: PeerId, greeting: ServerMsg)
    ensures To(p, [Send(y, greeting)]) == if p == y then [greeting] else []
  {
    assert [Send(y, greeting)][1..] == [];
  }

  lemma Introduces(r: Room, y: PeerId, info: Info, order: seq<PeerId>, p: PeerId)
    requires Enumerates(order, r.members.Keys) && y !in r.members
    ensures
      var sends := Introduction(y, info, r.members, order).stage.Sends();
      && About(y, To(p, sends)) == (if p in r.members then [Join(Client(y, info))] else [])
      && (p == y ==> Hellos(To(p, sends)) == [Hello(Client(y, info), r.members)])
  {
    hide About, To, Hellos, Broadcast, Enumerates;
    var (news, greeting) := (Join(Client(y, info)), Hello(Client(y, info), r.members));
    ToAppend(p, Broadcast(order, news), [Send(y, greeting)]);
    ToGreeting(p, y, greeting);
    ComingOfBroadcast(y, p, order, r.members.Keys, news);
    AboutAppend(y, To(p, Broadcast(order, news)), To(p, [Send(y, greeting)]));
    One(y, greeting);
    NothingAbout(y);
    if p == y {
      ToNobody(p, order, r.members.Keys, news);
      assert [] + [greeting] == [greeting];
    }
  }

  lemma NothingAbout(y: PeerId)
    ensures About(y, []) == []
  {
  }

  lemma ToNobody(p: PeerId, order: seq<PeerId>, ids: set<PeerId>, m: ServerMsg)
    requires Enumerates(order, ids) && p !in ids
    ensures To(p, Broadcast(order, m)) == []
  {
    ToBroadcast(p, order, m);
  }

  lemma ConnectEffect(limits: Limits, r: Room, y: PeerId, info: Info, order: seq<PeerId>, p: PeerId)
    requires Shaped(r) && Can(r, Connect(y, info, order)) && !Full(limits, r)
    ensures
      var r' := ConnectStep(limits, r, y, info, order);
      && Queue(r', p) == (if p == y then [] else Queue(r, p))
      && (p != y ==> forall byTask :: Sends(r', p, byTask) == Sends(r, p, byTask))
      && (p != y ==> forall x :: Entry(r', p, x) == Entry(r, p, x))
      && (forall x :: Entry(r', y, x) == Member(r, x))
  {
    hide Introduction, Enumerates, Full;
  }

  /** The others are going to hear of the newcomer. */
  lemma TracksOfNewcomer(limits: Limits, r: Room, y: PeerId, info: Info, order: seq<PeerId>, p: PeerId)
    requires Structured(r) && Can(r, Connect(y, info, order)) && !Full(limits, r) && p != y
    ensures
      var r' := ConnectStep(limits, r, y, info, order);
      Track(r', p, y) == (if p in r.members then [Join(Client(y, info))] else []) && Entry(r', p, y) == None
  {
    FreshUnknown(r, p, y);
    ConnectEffect(limits, r, y, info, order, p);
    Introduces(r, y, info, order, p);
    hide About, To, Broadcast, Structured;
  }

  /** The newcomer has found the others. */
  lemma TracksForNewcomer(limits: Limits, r: Room, y: PeerId, info: Info, order: seq<PeerId>, x: PeerId)
    requires Structured(r) && Can(r, Connect(y, info, order)) && !Full(limits, r) && x != y
    ensures
      var r' := ConnectStep(limits, r, y, info, order);
      Track(r', y, x) == [] && Entry(r', y, x) == Member(r, x)
  {
    FreshUnknown(r, x, y);
    ConnectEffect(limits, r, y, info, order, y);
    ConnectEffect(limits, r, y, info, order, x);
    assert Part(r, y, x, false) == [] && Part(r, y, x, true) == [];
    hide To, Structured, ConnectStep;
  }

  lemma OtherTracks(limits: Limits, r: Room, y: PeerId, info: Info, order: seq<PeerId>, p: PeerId, x: PeerId)
    requires Structured(r) && Can(r, Connect(y, info, order)) && !Full(limits, r) && p != y && x != y
    ensures
      var r' := ConnectStep(limits, r, y, info, order);
      Track(r', p, x) == Track(r, p, x) && Entry(r', p, x) == Entry(r, p, x)
  {
    ConnectEffect(limits, r, y, info, order, p);
    ConnectEffect(limits, r, y, info, order, x);
    hide Structured, ConnectStep, About, To;
  }

  lemma KnowsNewcomer(info: Info, y: PeerId)
    ensures Knows(Some(info), false, None, [Join(Client(y, info))])
    ensures Joins([Join(Client(y, info))]) == 1 && Joins([]) == 0
  {
    One(y, Join(Client(y, info)));
  }

  lemma KnowsFound(truth: Option<Info>, closing: bool)
    ensures Knows(truth, closing, truth, []) && Joins([]) == 0
  {
  }

  /** Who is where after a connect, and what stays as it was. */
  lemma ConnectStates(limits: Limits, r: Room, y: PeerId, info: Info, order: seq<PeerId>, x: PeerId)
    requires Shaped(r) && Can(r, Connect(y, info, order)) && !Full(limits, r)
    ensures
      var r' := ConnectStep(limits, r, y, info, order);
      && Member(r', x) == (if x == y then Some(info) else Member(r, x))
      && IsClosing(r', x) == (x != y && IsClosing(r, x))
      && (x in r'.members <==> x == y || x in r.members) && (x in r'.found <==> x == y || x in r.found)
      && (x in r'.found ==> r'.found[x] == if x == y then r.members else r.found[x])
  {
    hide Broadcast, Enumerates, Full;
  }

  lemma ConnectInforms(limits: Limits, r: Room, y: PeerId, info: Info, order: seq<PeerId>, p: PeerId, x: PeerId)
    requires Consistent(r) && Can(r, Connect(y, info, order)) && !Full(limits, r) && x != p
    ensures
      var r' := ConnectStep(limits, r, y, info, order);
      (p in r'.members ==> Informed(r', p, x)) && Introduced(r', p, x)
  {
    hide Track, QueueGenuine, HandlerOwn, ConnectStep, Full, Enumerates, Greeted, OneWay, Knows, Joins, Entry, Member;
    FreshUnknown(r, y, y);
    ConnectStates(limits, r, y, info, order, p);
    ConnectStates(limits, r, y, info, order, x);
    assert Introduced(r, p, x);
    assert p in r.members ==> Informed(r, p, x);
    if x == y {
      TracksOfNewcomer(limits, r, y, info, order, p);
      KnowsNewcomer(info, y);
    } else if p == y {
      TracksForNewcomer(limits, r, y, info, order, x);
      KnowsFound(Member(r, x), IsClosing(r, x));
    } else {
      OtherTracks(limits, r, y, info, order, p, x);
    }
  }

  lemma ConnectOneWay(limits: Limits, r: Room, y: PeerId, info: Info, order: seq<PeerId>, p: PeerId, x: PeerId)
    requires Consistent(r) && Can(r, Connect(y, info, order)) && !Full(limits, r) && x != p
    ensures OneWay(ConnectStep(limits, r, y, info, order), p, x)
  {
    hide Informed, Introduced, Greeted, Introduction, Enumerates;
    FreshUnknown(r, y, y);
    assert OneWay(r, p, x);
  }

  lemma ConnectGreets(limits: Limits, r: Room, y: PeerId, info: Info, order: seq<PeerId>, p: PeerId)
    requires Consistent(r) && Can(r, Connect(y, info, order)) && !Full(limits, r)
    ensures Greeted(ConnectStep(limits, r, y, info, order), p)
  {
    FreshUnknown(r, y, y);
    Introduces(r, y, info, order, y);
    assert Greeted(r, p);
  }

  lemma RefusalTouches(limits: Limits, r: Room, y: PeerId, info: Info, order: seq<PeerId>, p: PeerId, x: PeerId)
    requires y !in r.handlers && Full(limits, r)
    ensures
      var r' := ConnectStep(limits, r, y, info, order);
      && r' == r.(handlers := r'.handlers) && Track(r', p, x) == Track(r, p, x)
      && Sends(r', p, false) == Sends(r, p, false) && (IsClosing(r', x) <==> IsClosing(r, x))
  {
    hide Full, About, To, Introduction;
  }

  lemma RefusalUnnoticed(limits: Limits, r: Room, y: PeerId, info: Info, order: seq<PeerId>, p: PeerId, x: PeerId)
    requires Consistent(r) && Can(r, Connect(y, info, order)) && Full(limits, r) && x != p
    ensures
      var r' := ConnectStep(limits, r, y, info, order);
      && (p in r'.members ==> Informed(r', p, x))
      && Introduced(r', p, x) && OneWay(r', p, x) && Greeted(r', p)
  {
    hide Structured, Track, Full, Enumerates, ConnectStep, Sends, Knows, Joins, Hellos, IsClosing;
    RefusalTouches(limits, r, y, info, order, p, x);
    assert p in r.members ==> Informed(r, p, x);
    assert Introduced(r, p, x) && OneWay(r, p, x) && Greeted(r, p);
  }

  lemma RefusedConsistent(limits: Limits, r: Room, y: PeerId, info: Info, order: seq<PeerId>)
    requires Consistent(r) && Can(r, Connect(y, info, order)) && Full(limits, r)
    ensures Consistent(ConnectStep(limits, r, y, info, order))
  {
    hide Structured, Informed, Introduced, OneWay, Greeted, Enumerates, Full, ConnectStep;
    var r' := ConnectStep(limits, r, y, info, order);
    ConnectStructured(limits, r, y, info, order);
    forall p, x | x != p
      ensures p in r'.members ==> Informed(r', p, x)
      ensures Introduced(r', p, x) && OneWay(r', p, x)
    {
      RefusalUnnoticed(limits, r, y, info, order, p, x);
    }
    forall p
      ensures Greeted(r', p)
    {
      RefusalUnnoticed(limits, r, y, info, order, p, p + 1);
    }
  }

  lemma AdmittedConsistent(limits: Limits, r: Room, y: PeerId, info: Info, order: seq<PeerId>)
    requires Consistent(r) && Can(r, Connect(y, info, order)) && !Full(limits, r)
    ensures Consistent(ConnectStep(limits, r, y, info, order))
  {
    hide Structured, Informed, Introduced, OneWay, Greeted, Enumerates, Full, ConnectStep;
    var r' := ConnectStep(limits, r, y, info, order);
    ConnectStructured(limits, r, y, info, order);
    forall p, x | x != p
      ensures p in r'.members ==> Informed(r', p, x)
      ensures Introduced(r', p, x) && OneWay(r', p, x)
    {
      ConnectInforms(limits, r, y, info, order, p, x);
      ConnectOneWay(limits, r, y, info, order, p, x);
    }
    forall p
      ensures Greeted(r', p)
    {
      ConnectGreets(limits, r, y, info, order, p);
    }
  }

  // ----- Every step ------------------------------------------------------------

  lemma DeliveryTouches(r: Room, y: PeerId, byTask: bool)
    requires Can(r, Deliver(y, byTask))
    ensures
      var r' := DeliverStep(r, y, byTask);
      r'.members == r.members && r'.found == r.found && r'.joined == r.joined
  {
  }

  lemma DeliverConsistent(r: Room, y: PeerId, byTask: bool)
    requires Consistent(r) && Can(r, Deliver(y, byTask))
    ensures Consistent(DeliverStep(r, y, byTask))
  {
    hide Structured, Informed, Track, Greetings, DeliverStep, Can, Joins;
    var r' := DeliverStep(r, y, byTask);
    DeliveryTouches(r, y, byTask);
    DeliverStructured(r, y, byTask);
    forall p, x | x != p
      ensures p in r'.members ==> Informed(r', p, x)
      ensures Introduced(r', p, x) && OneWay(r', p, x)
    {
      assert p in r.members ==> Informed(r, p, x);
      assert Introduced(r, p, x) && OneWay(r, p, x);
      DeliveryKeepsTracks(r, y, byTask, p, x);
      if p in r.members {
        DeliverInforms(r, y, byTask, p, x);
      }
    }
    forall p
      ensures Greeted(r', p)
    {
      assert Greeted(r, p);
      DeliverGreets(r, y, byTask, p);
    }
  }

  /** A step of a handler that is past its introduction. */
  lemma HandlerStepConsistent(r: Room, r': Room, y: PeerId)
    requires Consistent(r) && Structured(r') && OnlyHandler(r, r', y)
    requires !r.handlers[y].stage.Introducing? && !r'.handlers[y].stage.Introducing?
    requires r'.members.Keys <= r.members.Keys
    requires forall p :: p in r'.members && p != y ==> Informed(r', p, y)
    ensures Consistent(r')
  {
    IntroductionsKept(r, r', y);
    forall p, x | p in r'.members && x != p
      ensures Informed(r', p, x)
    {
      if x != y {
        assert Informed(r, p, x);
        OthersUnchanged(r, r', y, p, x);
      }
    }
    hide Structured, Introduced, OneWay, Greeted, Track, Knows;
  }

  lemma ConsistentStep(limits: Limits, r: Room, a: Action)
    requires Consistent(r) && Can(r, a)
    ensures Consistent(Step(limits, r, a))
  {
    hide Consistent;
    match a
    case Connect(y, info, order) =>
      if Full(limits, r) {
        RefusedConsistent(limits, r, y, info, order);
      } else {
        AdmittedConsistent(limits, r, y, info, order);
      }
    case Deliver(y, byTask) => DeliverConsistent(r, y, byTask);
    case Request(y, request) => RequestConsistent(limits, r, y, request);
    case Apply(y, order) => ApplyConsistent(r, y, order);
    case Stop(y) => StopConsistent(r, y);
    case Close(y) => CloseConsistent(r, y);
    case Remove(y, order) => RemoveConsistent(r, y, order);
    case Clear => ClearConsistent(r);
  }

  lemma TaskNotIntroducing(r: Room, y: PeerId)
    requires Structured(r) && y in r.handlers && !r.handlers[y].task.Ended?
    ensures !r.handlers[y].stage.Introducing?
  {
    assert HandlerOwn(r, y);
  }

  lemma RequestConsistent(limits: Limits, r: Room, y: PeerId, request: ClientMsg)
    requires Consistent(r) && Can(r, Request(y, request))
    ensures Consistent(RequestStep(limits, r, y, request))
  {
    hide Structured, Informed, Introduced, OneWay, Greeted;
    RequestStructured(limits, r, y, request);
    TaskNotIntroducing(r, y);
    forall p | p in r.members && p != y
      ensures Informed(RequestStep(limits, r, y, request), p, y)
    {
      RequestInforms(limits, r, y, request, p);
    }
    HandlerStepConsistent(r, RequestStep(limits, r, y, request), y);
  }

  lemma ApplyTouches(r: Room, y: PeerId, order: seq<PeerId>)
    requires Can(r, Apply(y, order))
    ensures OnlyHandler(r, ApplyStep(r, y, order), y)
    ensures ApplyStep(r, y, order).members.Keys == r.members.Keys
    ensures ApplyStep(r, y, order).handlers[y].stage == r.handlers[y].stage
  {
    hide Enumerates, Sendings;
  }

  lemma ApplyConsistent(r: Room, y: PeerId, order: seq<PeerId>)
    requires Consistent(r) && Can(r, Apply(y, order))
    ensures Consistent(ApplyStep(r, y, order))
  {
    hide Structured, Informed, Introduced, OneWay, Greeted, Enumerates, ApplyStep, OnlyHandler;
    var r' := ApplyStep(r, y, order);
    ApplyStructured(r, y, order);
    ApplyTouches(r, y, order);
    TaskNotIntroducing(r, y);
    forall p | p in r'.members && p != y
      ensures Informed(r', p, y)
    {
      ApplyInforms(r, y, order, p);
    }
    HandlerStepConsistent(r, r', y);
  }

  lemma StopConsistent(r: Room, y: PeerId)
    requires Consistent(r) && Can(r, Stop(y))
    ensures Consistent(StopStep(r, y))
  {
    hide Structured, Informed, Introduced, OneWay, Greeted;
    var r' := StopStep(r, y);
    StopStructured(r, y);
    TaskNotIntroducing(r, y);
    forall p | p in r'.members && p != y
      ensures Informed(r', p, y)
    {
      StopInforms(r, y, p);
    }
    HandlerStepConsistent(r, r', y);
  }

  lemma CloseConsistent(r: Room, y: PeerId)
    requires Consistent(r) && Can(r, Close(y))
    ensures Consistent(CloseStep(r, y))
  {
    hide Structured, Informed, Introduced, OneWay, Greeted;
    var r' := CloseStep(r, y);
    CloseStructured(r, y);
    forall p | p in r'.members && p != y
      ensures Informed(r', p, y)
    {
      CloseInforms(r, y, p);
    }
    HandlerStepConsistent(r, r', y);
  }

  lemma RemoveConsistent(r: Room, y: PeerId, order: seq<PeerId>)
    requires Consistent(r) && Can(r, Remove(y, order))
    ensures Consistent(RemoveStep(r, y, order))
  {
    hide Structured, Informed, Introduced, OneWay, Greeted, Broadcast;
    var r' := RemoveStep(r, y, order);
    RemoveStructured(r, y, order);
    assert r'.members.Keys - {y} == r.members.Keys - {y};
    forall p | p in r'.members && p != y
      ensures Informed(r', p, y)
    {
      RemoveInforms(r, y, order, p);
    }
    HandlerStepConsistent(r, r', y);
  }

  lemma ClearConsistent(r: Room)
    requires Consistent(r)
    ensures Consistent(r.(count := 0))
  {
    var r' := r.(count := 0);
    assert forall p :: p in r.handlers ==> HandlerOwn(r, p) && HandlerOwn(r', p);
    forall p, x | x != p
      ensures p in r'.members ==> Informed(r', p, x)
      ensures Introduced(r', p, x) && OneWay(r', p, x)
    {
      assert p in r.members ==> Informed(r, p, x);
      assert Introduced(r, p, x) && OneWay(r, p, x);
    }
    forall p
      ensures Greeted(r', p)
    {
      assert Greeted(r, p);
    }
  }
}
