/**
 The signaling server as a whole (server/src/controller/ws_controller.rs and
 server/src/config/scheduler.rs): two maps shared by the handlers of all IP
 groups. `SharedState` holds them with the lock regions as methods; the state
 machine below runs those regions for all groups at once, and each group on its
 own turns out to be a `Room`.
 */
module Server {
  import opened Prelude
  import opened Room
  import RoomViews
  import RoomTheorems

  type Group = string

  type TxMap = map<Group, map<PeerId, Info>>

  type RequestCounts = map<Group, nat>

  function MembersOf(tx: TxMap, g: Group): map<PeerId, Info> {
    if g in tx then tx[g] else map[]
  }

  function CountOf(counts: RequestCounts, g: Group): nat {
    if g in counts then counts[g] else 0
  }

  // ----- The lock regions ------------------------------------------------------

  /** `protect_ddos_request_count`. */
  function TakeRequest(limits: Limits, counts: RequestCounts, g: Group): (RequestCounts, bool) {
    if CountOf(counts, g) >= limits.requests then (counts[g := CountOf(counts, g)], false)
    else (counts[g := CountOf(counts, g) + 1], true)
  }

  datatype Entered = Entered(tx: TxMap, counts: RequestCounts, found: Option<map<PeerId, Info>>)

  /** The connect region. A refused connect may leave an empty room behind. */
  function Enter(limits: Limits, tx: TxMap, counts: RequestCounts, g: Group, p: PeerId, info: Info): Entered {
    var local := MembersOf(tx, g);
    if |local| >= limits.connections then Entered(tx[g := local], counts, None)
    else
      var (taken, ok) := TakeRequest(limits, counts, g);
      if ok then Entered(tx[g := local[p := info]], taken, Some(local)) else Entered(tx[g := local], taken, None)
  }

  /** The update region: whether the peer is there to be updated. */
  function SetInfoOf(tx: TxMap, g: Group, p: PeerId, info: Info): (TxMap, bool) {
    if g in tx && p in tx[g] then (tx[g := tx[g][p := info]], true) else (tx, false)
  }

  /** The disconnect region. The last to leave removes the room. */
  function Leave(tx: TxMap, g: Group, p: PeerId): TxMap {
    if g !in tx then tx
    else if tx[g] - {p} == map[] then tx - {g}
    else tx[g := tx[g] - {p}]
  }

  class SharedState {
    const limits: Limits
    var txMap: TxMap
    var requestCountMap: RequestCounts

    constructor (limits: Limits)
      ensures this.limits == limits && txMap == map[] && requestCountMap == map[]
    {
      this.limits := limits;
      txMap, requestCountMap := map[], map[];
    }

    method ProtectDdosRequestCount(g: Group) returns (ok: bool)
      modifies this`requestCountMap
      ensures (requestCountMap, ok) == TakeRequest(limits, old(requestCountMap), g)
    {
      if g !in requestCountMap {
        requestCountMap := requestCountMap[g := 0];
      }
      assert requestCountMap == old(requestCountMap)[g := CountOf(old(requestCountMap), g)];
      if requestCountMap[g] >= limits.requests {
        return false;
      }
      requestCountMap := requestCountMap[g := requestCountMap[g] + 1];
      assert requestCountMap == old(requestCountMap)[g := CountOf(old(requestCountMap), g) + 1];
      ok := true;
    }

    method Connect(g: Group, p: PeerId, info: Info) returns (found: Option<map<PeerId, Info>>)
      modifies this
      ensures Entered(txMap, requestCountMap, found) == Enter(limits, old(txMap), old(requestCountMap), g, p, info)
    {
      if g !in txMap {
        txMap := txMap[g := map[]];
      }
      var local := txMap[g];
      assert txMap == old(txMap)[g := MembersOf(old(txMap), g)];
      if |local| >= limits.connections {
        return None;
      }
      var ok := ProtectDdosRequestCount(g);
      if !ok {
        return None;
      }
      txMap := txMap[g := local[p := info]];
      found := Some(local);
    }

    method UpdateInfo(g: Group, p: PeerId, info: Info) returns (present: bool)
      modifies this`txMap
      ensures (txMap, present) == SetInfoOf(old(txMap), g, p, info)
    {
      present := false;
      if g in txMap {
        if p in txMap[g] {
          txMap := txMap[g := txMap[g][p := info]];
          present := true;
        }
      }
    }

    method Disconnect(g: Group, p: PeerId)
      modifies this`txMap
      ensures txMap == Leave(old(txMap), g, p)
    {
      if g in txMap {
        var local := txMap[g] - {p};
        txMap := txMap[g := local];
        if local == map[] {
          txMap := txMap - {g};
          assert txMap == old(txMap) - {g};
        }
      }
    }

    /** The hourly job. */
    method ClearRequestCounts()
      modifies this`requestCountMap
      ensures requestCountMap == map[]
    {
      requestCountMap := map[];
    }
  }

  /** The loop over the senders collected in a region. */
  method BroadcastTo(order: seq<PeerId>, m: ServerMsg) returns (sends: seq<Send>)
    ensures sends == Broadcast(order, m)
  {
    sends := [];
    for i := 0 to |order|
      invariant Broadcast(order, m) == sends + Broadcast(order[i..], m)
    {
      sends := sends + [Send(order[i], m)];
      assert order[i..][1..] == order[i + 1..];
    }
  }

  // ----- The state machine -----------------------------------------------------

  datatype State = State(
    tx: TxMap,
    counts: RequestCounts,
    groups: map<PeerId, Group>,
    handlers: map<PeerId, Handler>,
    queues: map<PeerId, seq<ServerMsg>>,
    joined: map<PeerId, Info>,
    found: map<PeerId, map<PeerId, Info>>,
    requests: set<(PeerId, ClientMsg)>)

  const IDLE: State := State(map[], map[], map[], map[], map[], map[], map[], {})

  /** Only a connect names its group; a handler knows its own. */
  datatype ServerAction = ServerAction(group: Group, action: Action)

  function GroupOf(s: State, a: ServerAction): Group {
    if a.action.Connect? || a.action.Clear? || a.action.id !in s.groups then a.group else s.groups[a.action.id]
  }

  predicate CanServe(s: State, a: ServerAction) {
    match a.action
    case Connect(p, _, order) => p !in s.handlers && p !in s.groups && Enumerates(order, MembersOf(s.tx, a.group).Keys)
    case Deliver(p, byTask) =>
      && p in s.groups && p in s.handlers && s.handlers[p].Sends(byTask) != []
      && s.handlers[p].Sends(byTask)[0].to in s.queues
    case Request(p, _) => p in s.groups && p in s.handlers && s.handlers[p].task == Serving([])
    case Apply(p, order) =>
      && p in s.groups && p in s.handlers && s.handlers[p].task.Admitted? && p in s.joined
      && Enumerates(order, MembersOf(s.tx, s.groups[p]).Keys - {p})
    case Stop(p) => p in s.groups && p in s.handlers && s.handlers[p].MayStop()
    case Close(p) => p in s.groups && p in s.handlers && s.handlers[p].stage.Watching?
    case Remove(p, order) =>
      && p in s.groups && p in s.handlers && s.handlers[p].stage.Closing?
      && Enumerates(order, MembersOf(s.tx, s.groups[p]).Keys - {p})
    case Clear => true
  }

  function Serve(limits: Limits, s: State, a: ServerAction): State
    requires CanServe(s, a)
  {
    match a.action
    case Connect(p, info, order) =>
      var entered := Enter(limits, s.tx, s.counts, a.group, p, info);
      var s1 := s.(tx := entered.tx, counts := entered.counts, groups := s.groups[p := a.group]);
      if entered.found == None then s1.(handlers := s.handlers[p := Handler(Refused, Ended)])
      else
        s1.(handlers := s.handlers[p := Introduction(p, info, entered.found.value, order)],
        queues := s.queues[p := []],
        joined := s.joined[p := info],
        found := s.found[p := entered.found.value])
    case Deliver(p, byTask) =>
      var send := s.handlers[p].Sends(byTask)[0];
      s.(handlers := s.handlers[p := s.handlers[p].Sent(byTask)],
      queues := s.queues[send.to := s.queues[send.to] + [send.msg]])
    case Request(p, request) =>
      var (taken, ok) := TakeRequest(limits, s.counts, s.groups[p]);
      var stage := s.handlers[p].stage;
      if ok then
        s.(counts := taken,
        handlers := s.handlers[p := Handler(stage, Admitted(request))],
        requests := s.requests + {(p, request)})
      else
        s.(counts := taken,
        handlers := s.handlers[p := Handler(stage, OverBudget([Send(p, Error(TOO_MANY_REQUESTS))]))])
    case Apply(p, order) => Perform(s, p, order)
    case Stop(p) => s.(handlers := s.handlers[p := Handler(s.handlers[p].stage, Ended)])
    case Close(p) => s.(handlers := s.handlers[p := Handler(Closing, s.handlers[p].task)])
    case Remove(p, order) =>
      s.(tx := Leave(s.tx, s.groups[p], p),
      handlers := s.handlers[p := Handler(Leaving(Broadcast(order, Left(p))), s.handlers[p].task)])
    case Clear => s.(counts := map[])
  }

  function Perform(s: State, p: PeerId, order: seq<PeerId>): State
    requires p in s.groups && p in s.handlers && s.handlers[p].task.Admitted? && p in s.joined
  {
    var g := s.groups[p];
    var request := s.handlers[p].task.request;
    var sends := Sendings(MembersOf(s.tx, g), p, s.joined[p], request, order);
    s.(tx := if request.SetInfo? then SetInfoOf(s.tx, g, p, request.info).0 else s.tx,
    handlers := s.handlers[p := Handler(s.handlers[p].stage, Serving(sends))])
  }

  // ----- Projection on one group -------------------------------------------------

  predicate In(groups: map<PeerId, Group>, g: Group, p: PeerId) {
    p in groups && groups[p] == g
  }

  function Restrict<V>(m: map<PeerId, V>, groups: map<PeerId, Group>, g: Group): map<PeerId, V> {
    map p | p in m && In(groups, g, p) :: m[p]
  }

  function RequestsOf(requests: set<(PeerId, ClientMsg)>, groups: map<PeerId, Group>, g: Group)
    : set<(PeerId, ClientMsg)>
  {
    set q | q in requests && In(groups, g, q.0)
  }

  function Project(s: State, g: Group): Room {
    Room(
      MembersOf(s.tx, g),
      CountOf(s.counts, g),
      Restrict(s.handlers, s.groups, g),
      Restrict(s.queues, s.groups, g),
      Restrict(s.joined, s.groups, g),
      Restrict(s.found, s.groups, g),
      RequestsOf(s.requests, s.groups, g))
  }

  lemma RestrictAt<V>(m: map<PeerId, V>, groups: map<PeerId, Group>, g: Group, p: PeerId)
    requires In(groups, g, p) && p in m
    ensures p in Restrict(m, groups, g) && Restrict(m, groups, g)[p] == m[p]
  {
  }

  lemma RestrictLacks<V>(m: map<PeerId, V>, groups: map<PeerId, Group>, g: Group, p: PeerId)
    requires p !in m
    ensures p !in Restrict(m, groups, g)
  {
  }

  lemma RestrictUpdate<V>(m: map<PeerId, V>, groups: map<PeerId, Group>, g: Group, p: PeerId, v: V)
    ensures Restrict(m[p := v], groups, g)
         == if In(groups, g, p) then Restrict(m, groups, g)[p := v] else Restrict(m, groups, g)
  {
  }

  lemma RestrictNewcomer<V>(m: map<PeerId, V>, groups: map<PeerId, Group>, g: Group, p: PeerId, h: Group)
    requires p !in m
    ensures Restrict(m, groups[p := h], g) == Restrict(m, groups, g)
  {
  }

  lemma RequestsNewcomer(requests: set<(PeerId, ClientMsg)>, groups: map<PeerId, Group>, g: Group, p: PeerId, h: Group)
    requires forall q :: q in requests ==> q.0 != p
    ensures RequestsOf(requests, groups[p := h], g) == RequestsOf(requests, groups, g)
  {
  }

  lemma RequestsAdd(requests: set<(PeerId, ClientMsg)>, groups: map<PeerId, Group>, g: Group, p: PeerId, m: ClientMsg)
    ensures RequestsOf(requests + {(p, m)}, groups, g)
         == if In(groups, g, p) then RequestsOf(requests, groups, g) + {(p, m)} else RequestsOf(requests, groups, g)
  {
  }

  /** The regions touch no group but their own. */
  lemma RegionsAreLocal(limits: Limits, tx: TxMap, counts: RequestCounts, g: Group, p: PeerId, info: Info, h: Group)
    ensures
      var e := Enter(limits, tx, counts, g, p, info);
      && (h != g ==> MembersOf(e.tx, h) == MembersOf(tx, h) && CountOf(e.counts, h) == CountOf(counts, h))
      && (e.found == None <==> |MembersOf(tx, g)| >= limits.connections || CountOf(counts, g) >= limits.requests)
      && MembersOf(e.tx, g) == (if e.found == None then MembersOf(tx, g) else MembersOf(tx, g)[p := info])
      && CountOf(e.counts, g) == (if e.found == None then CountOf(counts, g) else CountOf(counts, g) + 1)
      && (e.found.Some? ==> e.found.value == MembersOf(tx, g))
    ensures
      var (taken, ok) := TakeRequest(limits, counts, g);
      && ok == (CountOf(counts, g) < limits.requests)
      && CountOf(taken, h) == if h == g && ok then CountOf(counts, g) + 1 else CountOf(counts, h)
    ensures
      var (set', present) := SetInfoOf(tx, g, p, info);
      && present == (p in MembersOf(tx, g))
      && MembersOf(set', h) == if h == g && present then MembersOf(tx, g)[p := info] else MembersOf(tx, h)
    ensures MembersOf(Leave(tx, g, p), h) == if h == g then MembersOf(tx, g) - {p} else MembersOf(tx, h)
  {
  }

  /** Nothing about a peer is recorded before it has a group. */
  ghost predicate Grouped(s: State) {
    && s.handlers.Keys == s.groups.Keys
    && s.queues.Keys <= s.groups.Keys && s.joined.Keys <= s.groups.Keys && s.found.Keys <= s.groups.Keys
    && (forall q :: q in s.requests ==> q.0 in s.groups)
  }

  lemma GroupedStep(limits: Limits, s: State, a: ServerAction)
    requires Grouped(s) && CanServe(s, a)
    ensures Grouped(Serve(limits, s, a))
  {
    hide Grouped, Serve, CanServe;
    if a.action.Connect? {
      GroupedConnect(limits, s, a);
    } else if a.action.Clear? {
      GroupedClear(limits, s, a);
    } else if a.action.Deliver? {
      GroupedDeliver(limits, s, a);
    } else if a.action.Request? {
      GroupedRequest(limits, s, a);
    } else {
      GroupedMove(limits, s, a);
    }
  }

  lemma GroupedConnect(limits: Limits, s: State, a: ServerAction)
    requires Grouped(s) && CanServe(s, a) && a.action.Connect?
    ensures Grouped(Serve(limits, s, a))
  {
    hide Introduction, Enumerates, Enter, MembersOf;
  }

  lemma GroupedDeliver(limits: Limits, s: State, a: ServerAction)
    requires Grouped(s) && CanServe(s, a) && a.action.Deliver?
    ensures Grouped(Serve(limits, s, a))
  {
    hide Handler.Sends, Handler.Sent, Grouped;
    var s' := Serve(limits, s, a);
    assert s'.handlers == s.handlers[a.action.id := s'.handlers[a.action.id]];
    GroupedSame(s, s');
  }

  lemma GroupedRequest(limits: Limits, s: State, a: ServerAction)
    requires Grouped(s) && CanServe(s, a) && a.action.Request?
    ensures Grouped(Serve(limits, s, a))
  {
    hide TakeRequest, Handler.Sends, Grouped, Enter, Perform, Leave, Enumerates, CountOf, MembersOf;
    var s' := Serve(limits, s, a);
    assert s'.handlers == s.handlers[a.action.id := s'.handlers[a.action.id]];
    GroupedSame(s, s');
  }

  lemma GroupedMove(limits: Limits, s: State, a: ServerAction)
    requires Grouped(s) && CanServe(s, a) && (a.action.Apply? || a.action.Stop? || a.action.Close? || a.action.Remove?)
    ensures Grouped(Serve(limits, s, a))
  {
    hide Enumerates, Leave, SetInfoOf, MembersOf, Sendings, Broadcast, Grouped;
    var s' := Serve(limits, s, a);
    assert s'.handlers == s.handlers[a.action.id := s'.handlers[a.action.id]];
    GroupedSame(s, s');
  }

  lemma GroupedClear(limits: Limits, s: State, a: ServerAction)
    requires Grouped(s) && CanServe(s, a) && a.action.Clear?
    ensures Grouped(Serve(limits, s, a))
  {
  }

  lemma GroupedSame(s: State, s': State)
    requires Grouped(s) && s'.groups == s.groups && s'.joined == s.joined && s'.found == s.found
    requires s'.handlers.Keys == s.handlers.Keys && s'.queues.Keys == s.queues.Keys
    requires forall q :: q in s'.requests && q !in s.requests ==> q.0 in s.groups
    ensures Grouped(s')
  {
  }

  /** A newcomer's group matters to no room before something is recorded about it. */
  lemma ProjectNewcomer(s: State, p: PeerId, h: Group, g: Group)
    requires Grouped(s) && p !in s.groups
    ensures Project(s.(groups := s.groups[p := h]), g) == Project(s, g)
  {
    hide Restrict, RequestsOf, MembersOf, CountOf;
    RestrictNewcomer(s.handlers, s.groups, g, p, h);
    RestrictNewcomer(s.queues, s.groups, g, p, h);
    RestrictNewcomer(s.joined, s.groups, g, p, h);
    RestrictNewcomer(s.found, s.groups, g, p, h);
    RequestsNewcomer(s.requests, s.groups, g, p, h);
  }

  lemma ConnectRefused(limits: Limits, s: State, a: ServerAction, g: Group)
    requires Grouped(s) && CanServe(s, a) && a.action.Connect?
    requires Enter(limits, s.tx, s.counts, a.group, a.action.id, a.action.info).found == None
    ensures Project(Serve(limits, s, a), g)
         == if g == a.group then ConnectStep(limits, Project(s, g), a.action.id, a.action.info, a.action.order)
            else Project(s, g)
  {
    hide Restrict, RequestsOf, MembersOf, CountOf, Enter, Introduction, Enumerates, Grouped;
    var p := a.action.id;
    var s1 := s.(groups := s.groups[p := a.group]);
    RegionsAreLocal(limits, s.tx, s.counts, a.group, p, a.action.info, g);
    ProjectNewcomer(s, p, a.group, g);
    RestrictUpdate(s1.handlers, s1.groups, g, p, Handler(Refused, Ended));
  }

  lemma ConnectAdmitted(limits: Limits, s: State, a: ServerAction, g: Group)
    requires Grouped(s) && CanServe(s, a) && a.action.Connect?
    requires Enter(limits, s.tx, s.counts, a.group, a.action.id, a.action.info).found.Some?
    ensures Project(Serve(limits, s, a), g)
         == if g == a.group then ConnectStep(limits, Project(s, g), a.action.id, a.action.info, a.action.order)
            else Project(s, g)
  {
    hide Restrict, RequestsOf, MembersOf, CountOf, Enter, Introduction, Enumerates, Grouped;
    var p := a.action.id;
    var s1 := s.(groups := s.groups[p := a.group]);
    var s' := Serve(limits, s, a);
    RegionsAreLocal(limits, s.tx, s.counts, a.group, p, a.action.info, g);
    ProjectNewcomer(s, p, a.group, g);
    RestrictUpdate(s1.handlers, s1.groups, g, p, s'.handlers[p]);
    RestrictUpdate(s1.queues, s1.groups, g, p, []);
    RestrictUpdate(s1.joined, s1.groups, g, p, a.action.info);
    RestrictUpdate(s1.found, s1.groups, g, p, s'.found[p]);
  }

  lemma ConnectProjects(limits: Limits, s: State, a: ServerAction, g: Group)
    requires Grouped(s) && CanServe(s, a) && a.action.Connect?
    ensures g != a.group ==> Project(Serve(limits, s, a), g) == Project(s, g)
    ensures g == a.group ==>
              Can(Project(s, g), a.action) && Project(Serve(limits, s, a), g) == Step(limits, Project(s, g), a.action)
  {
    hide Restrict, RequestsOf, Enter, Serve, ConnectStep, Enumerates, Grouped;
    RestrictLacks(s.handlers, s.groups, g, a.action.id);
    if Enter(limits, s.tx, s.counts, a.group, a.action.id, a.action.info).found == None {
      ConnectRefused(limits, s, a, g);
    } else {
      ConnectAdmitted(limits, s, a, g);
    }
  }

  /** A delivery stays within the group, because handlers only send to peers of their room. */
  lemma DeliverProjects(limits: Limits, s: State, a: ServerAction, g: Group)
    requires Grouped(s) && CanServe(s, a) && a.action.Deliver?
    requires RoomViews.Structured(Project(s, s.groups[a.action.id]))
    ensures g != GroupOf(s, a) ==> Project(Serve(limits, s, a), g) == Project(s, g)
    ensures g == GroupOf(s, a) ==>
              Can(Project(s, g), a.action) && Project(Serve(limits, s, a), g) == Step(limits, Project(s, g), a.action)
  {
    hide Restrict, RequestsOf, MembersOf, CountOf, Handler.Sends, Handler.Sent, Grouped;
    var p, byTask := a.action.id, a.action.byTask;
    var send := s.handlers[p].Sends(byTask)[0];
    SendStaysInGroup(s, p, byTask);
    RestrictUpdate(s.handlers, s.groups, g, p, s.handlers[p].Sent(byTask));
    RestrictUpdate(s.queues, s.groups, g, send.to, s.queues[send.to] + [send.msg]);
    if g == s.groups[p] {
      RestrictAt(s.handlers, s.groups, g, p);
      RestrictAt(s.queues, s.groups, g, send.to);
    }
  }

  lemma SendStaysInGroup(s: State, p: PeerId, byTask: bool)
    requires p in s.groups && p in s.handlers && s.handlers[p].Sends(byTask) != []
    requires RoomViews.Structured(Project(s, s.groups[p]))
    ensures In(s.groups, s.groups[p], s.handlers[p].Sends(byTask)[0].to)
  {
    var own := Project(s, s.groups[p]);
    assert own.handlers[p] == s.handlers[p];
    assert RoomViews.HandlerOwn(own, p) && RoomViews.Own(own, p, byTask, s.handlers[p].Sends(byTask)[0]);
  }

  lemma RequestTaken(limits: Limits, s: State, a: ServerAction, g: Group)
    requires Grouped(s) && CanServe(s, a) && a.action.Request? && CountOf(s.counts, GroupOf(s, a)) < limits.requests
    ensures Project(Serve(limits, s, a), g)
         == if g == GroupOf(s, a) then RequestStep(limits, Project(s, g), a.action.id, a.action.request)
           else Project(s, g)
  {
    hide Restrict, RequestsOf, TakeRequest, MembersOf, CountOf, Grouped, Enter, SetInfoOf, Leave, Perform, Enumerates;
    var p, s' := a.action.id, Serve(limits, s, a);
    RegionsAreLocal(limits, s.tx, s.counts, s.groups[p], p, Info("", "", ""), g);
    RestrictUpdate(s.handlers, s.groups, g, p, s'.handlers[p]);
    RequestsAdd(s.requests, s.groups, g, p, a.action.request);
    if g == s.groups[p] {
      RestrictAt(s.handlers, s.groups, g, p);
    }
  }

  lemma RequestRefused(limits: Limits, s: State, a: ServerAction, g: Group)
    requires Grouped(s) && CanServe(s, a) && a.action.Request? && CountOf(s.counts, GroupOf(s, a)) >= limits.requests
    ensures Project(Serve(limits, s, a), g)
         == if g == GroupOf(s, a) then RequestStep(limits, Project(s, g), a.action.id, a.action.request)
           else Project(s, g)
  {
    hide Restrict, RequestsOf, TakeRequest, MembersOf, CountOf, Grouped, Enter, SetInfoOf, Leave, Perform, Enumerates;
    var p, s' := a.action.id, Serve(limits, s, a);
    RegionsAreLocal(limits, s.tx, s.counts, s.groups[p], p, Info("", "", ""), g);
    RestrictUpdate(s.handlers, s.groups, g, p, s'.handlers[p]);
    if g == s.groups[p] {
      RestrictAt(s.handlers, s.groups, g, p);
    }
  }

  lemma RequestProjects(limits: Limits, s: State, a: ServerAction, g: Group)
    requires Grouped(s) && CanServe(s, a) && a.action.Request?
    ensures g != GroupOf(s, a) ==> Project(Serve(limits, s, a), g) == Project(s, g)
    ensures g == GroupOf(s, a) ==>
              Can(Project(s, g), a.action) && Project(Serve(limits, s, a), g) == Step(limits, Project(s, g), a.action)
  {
    hide Restrict, RequestsOf, MembersOf, CountOf, Grouped, Serve, RequestStep;
    if CountOf(s.counts, GroupOf(s, a)) < limits.requests {
      RequestTaken(limits, s, a, g);
    } else {
      RequestRefused(limits, s, a, g);
    }
    if g == GroupOf(s, a) {
      RestrictAt(s.handlers, s.groups, g, a.action.id);
    }
  }

  lemma ApplyMembers(limits: Limits, s: State, p: PeerId, order: seq<PeerId>, g: Group)
    requires p in s.groups && p in s.handlers && s.handlers[p].task.Admitted? && p in s.joined
    ensures
      var request := s.handlers[p].task.request;
      MembersOf(Perform(s, p, order).tx, g)
      == if request.SetInfo? && g == s.groups[p] && p in MembersOf(s.tx, g) then MembersOf(s.tx, g)[p := request.info]
         else MembersOf(s.tx, g)
  {
    hide SetInfoOf, MembersOf, Sendings;
    var request := s.handlers[p].task.request;
    RegionsAreLocal(limits, s.tx, map[], s.groups[p], p,
                    if request.SetInfo? then request.info else Info("", "", ""), g);
  }

  lemma ApplyTaken(limits: Limits, s: State, a: ServerAction, g: Group)
    requires Grouped(s) && CanServe(s, a) && a.action.Apply? && g == GroupOf(s, a)
    ensures Can(Project(s, g), a.action)
    ensures Project(Serve(limits, s, a), g) == ApplyStep(Project(s, g), a.action.id, a.action.order)
  {
    hide Restrict, RequestsOf, SetInfoOf, MembersOf, CountOf, Sendings, Enumerates, Grouped;
    var p, s' := a.action.id, Serve(limits, s, a);
    ApplyMembers(limits, s, p, a.action.order, g);
    RestrictAt(s.handlers, s.groups, g, p);
    RestrictAt(s.joined, s.groups, g, p);
    RestrictUpdate(s.handlers, s.groups, g, p, s'.handlers[p]);
  }

  lemma ApplyElsewhere(limits: Limits, s: State, a: ServerAction, g: Group)
    requires Grouped(s) && CanServe(s, a) && a.action.Apply? && g != GroupOf(s, a)
    ensures Project(Serve(limits, s, a), g) == Project(s, g)
  {
    hide Restrict, RequestsOf, SetInfoOf, MembersOf, CountOf, Sendings, Enumerates, Grouped;
    var p, s' := a.action.id, Serve(limits, s, a);
    ApplyMembers(limits, s, p, a.action.order, g);
    RestrictUpdate(s.handlers, s.groups, g, p, s'.handlers[p]);
  }

  lemma ApplyProjects(limits: Limits, s: State, a: ServerAction, g: Group)
    requires Grouped(s) && CanServe(s, a) && a.action.Apply?
    ensures g != GroupOf(s, a) ==> Project(Serve(limits, s, a), g) == Project(s, g)
    ensures g == GroupOf(s, a) ==>
              Can(Project(s, g), a.action) && Project(Serve(limits, s, a), g) == Step(limits, Project(s, g), a.action)
  {
    hide Project, Serve, ApplyStep, Grouped, CanServe, Can;
    if g == GroupOf(s, a) {
      ApplyTaken(limits, s, a, g);
    } else {
      ApplyElsewhere(limits, s, a, g);
    }
  }

  lemma RemoveProjects(limits: Limits, s: State, a: ServerAction, g: Group)
    requires Grouped(s) && CanServe(s, a) && a.action.Remove?
    ensures g != GroupOf(s, a) ==> Project(Serve(limits, s, a), g) == Project(s, g)
    ensures g == GroupOf(s, a) ==>
              Can(Project(s, g), a.action) && Project(Serve(limits, s, a), g) == Step(limits, Project(s, g), a.action)
  {
    hide Restrict, RequestsOf, Leave, MembersOf, CountOf, Broadcast, Enumerates, Grouped;
    var p, s' := a.action.id, Serve(limits, s, a);
    RegionsAreLocal(limits, s.tx, s.counts, s.groups[p], p, Info("", "", ""), g);
    RestrictUpdate(s.handlers, s.groups, g, p, s'.handlers[p]);
    if g == s.groups[p] {
      RestrictAt(s.handlers, s.groups, g, p);
    }
  }

  lemma CloseProjects(limits: Limits, s: State, a: ServerAction, g: Group)
    requires Grouped(s) && CanServe(s, a) && (a.action.Stop? || a.action.Close?)
    ensures g != GroupOf(s, a) ==> Project(Serve(limits, s, a), g) == Project(s, g)
    ensures g == GroupOf(s, a) ==>
              Can(Project(s, g), a.action) && Project(Serve(limits, s, a), g) == Step(limits, Project(s, g), a.action)
  {
    hide Restrict, RequestsOf, MembersOf, CountOf, Grouped;
    var p, s' := a.action.id, Serve(limits, s, a);
    RestrictUpdate(s.handlers, s.groups, g, p, s'.handlers[p]);
    if g == s.groups[p] {
      RestrictAt(s.handlers, s.groups, g, p);
    }
  }

  /**
   One step of the server is a step of the room it concerns and leaves every
   other room as it was; the hourly clear is a step of every room.
   */
  lemma StepProjects(limits: Limits, s: State, a: ServerAction, g: Group)
    requires Grouped(s) && CanServe(s, a)
    requires RoomViews.Structured(Project(s, GroupOf(s, a)))
    ensures g != GroupOf(s, a) && !a.action.Clear? ==> Project(Serve(limits, s, a), g) == Project(s, g)
    ensures g == GroupOf(s, a) || a.action.Clear? ==>
              Can(Project(s, g), a.action) && Project(Serve(limits, s, a), g) == Step(limits, Project(s, g), a.action)
  {
    hide Grouped, RoomViews.Structured, Serve, Step, Project, Can;
    match a.action
    case Connect(_, _, _) => ConnectProjects(limits, s, a, g);
    case Deliver(_, _) => DeliverProjects(limits, s, a, g);
    case Request(_, _) => RequestProjects(limits, s, a, g);
    case Apply(_, _) => ApplyProjects(limits, s, a, g);
    case Stop(_) => CloseProjects(limits, s, a, g);
    case Close(_) => CloseProjects(limits, s, a, g);
    case Remove(_, _) => RemoveProjects(limits, s, a, g);
    case Clear => ClearProjects(limits, s, a, g);
  }

  lemma ClearProjects(limits: Limits, s: State, a: ServerAction, g: Group)
    requires a.action.Clear?
    ensures Can(Project(s, g), a.action)
    ensures Project(Serve(limits, s, a), g) == Step(limits, Project(s, g), a.action)
  {
  }

  // ----- Runs ---------------------------------------------------------------------

  ghost predicate ServerExecution(limits: Limits, states: seq<State>, actions: seq<ServerAction>) {
    && |states| == |actions| + 1
    && states[0] == IDLE
    && forall i :: 0 <= i < |actions| ==>
                     CanServe(states[i], actions[i]) && states[i + 1] == Serve(limits, states[i], actions[i])
  }

  /** The steps that concern one group: its own, and the hourly clears. */
  function ActionsOf(states: seq<State>, actions: seq<ServerAction>, g: Group): seq<Action>
    requires |states| == |actions| + 1
  {
    if actions == [] then []
    else
      var last := |actions| - 1;
      ActionsOf(states[..last + 1], actions[..last], g)
      + if actions[last].action.Clear? || GroupOf(states[last], actions[last]) == g then [actions[last].action] else []
  }

  /**
   The projection of any run of the server to one group is a run of that group
   alone, by the group's own steps and the hourly clears, and it ends in the
   projection of the server's state. What holds in every run of a room
   therefore holds of every group in every run of the server.
   */
  lemma {:induction false} RoomsAreIndependent(limits: Limits, states: seq<State>, actions: seq<ServerAction>, g: Group)
    returns (rooms: seq<Room>)
    requires |states| == |actions| + 1 && ServerExecution(limits, states, actions)
    ensures Grouped(states[|actions|])
    ensures Execution(limits, rooms, ActionsOf(states, actions, g))
    ensures rooms[|rooms| - 1] == Project(states[|actions|], g)
    decreases |actions|
  {
    hide *;
    if actions == [] {
      rooms := [EMPTY];
      NoSteps(limits, states, g);
    } else {
      var last := |actions| - 1;
      var s, a, front := states[last], actions[last], states[..last + 1];
      FrontOfExecution(limits, states, actions, g);
      var before := RoomsAreIndependent(limits, front, actions[..last], g);
      var own := RoomsAreIndependent(limits, front, actions[..last], GroupOf(s, a));
      GroupStructured(limits, own, ActionsOf(front, actions[..last], GroupOf(s, a)));
      StepProjects(limits, s, a, g);
      GroupedStep(limits, s, a);
      if a.action.Clear? || GroupOf(s, a) == g {
        rooms := before + [Project(states[last + 1], g)];
        ExtendExecution(limits, before, ActionsOf(front, actions[..last], g), a.action);
      } else {
        rooms := before;
        assert ActionsOf(states, actions, g) == ActionsOf(front, actions[..last], g);
      }
    }
  }

  lemma NoSteps(limits: Limits, states: seq<State>, g: Group)
    requires ServerExecution(limits, states, [])
    ensures Grouped(states[0]) && Project(states[0], g) == EMPTY
    ensures Execution(limits, [EMPTY], ActionsOf(states, [], g))
  {
  }

  lemma GroupStructured(limits: Limits, rooms: seq<Room>, actions: seq<Action>)
    requires Execution(limits, rooms, actions)
    ensures RoomViews.Structured(rooms[|rooms| - 1])
  {
    RoomTheorems.AlwaysConsistent(limits, rooms, actions, |rooms| - 1);
  }

  lemma FrontOfExecution(limits: Limits, states: seq<State>, actions: seq<ServerAction>, g: Group)
    requires ServerExecution(limits, states, actions) && actions != []
    ensures
      var last := |actions| - 1;
      && ServerExecution(limits, states[..last + 1], actions[..last])
      && CanServe(states[last], actions[last]) && states[last + 1] == Serve(limits, states[last], actions[last])
      && states[..last + 1][last] == states[last]
      && ActionsOf(states, actions, g)
         == ActionsOf(states[..last + 1], actions[..last], g)
            + if actions[last].action.Clear? || GroupOf(states[last], actions[last]) == g then [actions[last].action]
              else []
  {
    hide Serve;
    hide CanServe;
  }

  lemma ExtendExecution(limits: Limits, rooms: seq<Room>, actions: seq<Action>, a: Action)
    requires Execution(limits, rooms, actions) && Can(rooms[|rooms| - 1], a)
    ensures Execution(limits, rooms + [Step(limits, rooms[|rooms| - 1], a)], actions + [a])
  {
    hide Step;
    hide Can;
  }

  // ----- Every run of a room is one of the server ------------------------------------

  /** What a room can do, the server can do for it. */
  lemma RoomStepIsServed(s: State, g: Group, a: Action)
    requires Grouped(s) && Can(Project(s, g), a) && (a.Connect? ==> a.id !in s.groups)
    ensures CanServe(s, ServerAction(g, a)) && GroupOf(s, ServerAction(g, a)) == g
  {
    hide MembersOf, CountOf, RequestsOf, Enumerates, Handler.MayStop, Handler.Sends;
  }

  ghost predicate OnlyGroup(s: State, g: Group) {
    forall p :: p in s.groups ==> s.groups[p] == g
  }

  lemma GroupsServed(limits: Limits, s: State, a: ServerAction)
    requires CanServe(s, a)
    ensures Serve(limits, s, a).groups == if a.action.Connect? then s.groups[a.action.id := a.group] else s.groups
  {
    hide Enter, Perform, Leave, CanServe, Handler.Sends, Handler.Sent, TakeRequest, Introduction, Broadcast;
    if a.action.Apply? {
      PerformedGroups(limits, s, a);
    }
  }

  lemma PerformedGroups(limits: Limits, s: State, a: ServerAction)
    requires CanServe(s, a) && a.action.Apply?
    ensures Serve(limits, s, a).groups == s.groups
  {
    hide SetInfoOf, Sendings, Enumerates;
  }

  lemma OnlyGroupStep(limits: Limits, s: State, a: ServerAction, g: Group)
    requires OnlyGroup(s, g) && CanServe(s, a) && a.group == g
    ensures OnlyGroup(Serve(limits, s, a), g)
  {
    hide Serve, CanServe;
    GroupsServed(limits, s, a);
  }

  lemma NewToTheServer(s: State, g: Group, a: Action)
    requires Grouped(s) && OnlyGroup(s, g) && Can(Project(s, g), a) && a.Connect?
    ensures a.id !in s.groups
  {
    hide Enumerates, MembersOf, CountOf;
  }

  function Tagged(actions: seq<Action>, g: Group): seq<ServerAction> {
    seq(|actions|, i requires 0 <= i < |actions| => ServerAction(g, actions[i]))
  }

  /** Nothing that a room can do is lost: each of its runs is the projection of a run of the server. */
  lemma {:induction false} RoomsRunFreely(limits: Limits, rooms: seq<Room>, actions: seq<Action>, g: Group)
    returns (states: seq<State>)
    requires Execution(limits, rooms, actions)
    ensures ServerExecution(limits, states, Tagged(actions, g))
    ensures forall i :: 0 <= i < |rooms| ==> Project(states[i], g) == rooms[i]
    ensures Grouped(states[|actions|]) && OnlyGroup(states[|actions|], g)
    decreases |actions|
  {
    hide Grouped, OnlyGroup, Project, Can, Step, CanServe, Serve;
    if actions == [] {
      states := [IDLE];
      IdleProjects(g);
    } else {
      var last := |actions| - 1;
      states := RoomsRunFreely(limits, rooms[..last + 1], actions[..last], g);
      var s, a := states[last], ServerAction(g, actions[last]);
      RoomTheorems.AlwaysConsistent(limits, rooms, actions, last);
      if actions[last].Connect? {
        NewToTheServer(s, g, actions[last]);
      }
      RoomStepIsServed(s, g, actions[last]);
      StepProjects(limits, s, a, g);
      OnlyGroupStep(limits, s, a, g);
      GroupedStep(limits, s, a);
      assert Tagged(actions, g) == Tagged(actions[..last], g) + [a];
      states := states + [Serve(limits, s, a)];
    }
  }

  lemma IdleProjects(g: Group)
    ensures Project(IDLE, g) == EMPTY && Grouped(IDLE) && OnlyGroup(IDLE, g)
  {
  }

  /** The peer a message speaks for. */
  function SenderOf(m: ServerMsg): Option<PeerId> {
    match m
    case Join(peer) => Some(peer.id)
    case Update(peer) => Some(peer.id)
    case Left(id) => Some(id)
    case Offer(origin, _, _) => Some(origin.id)
    case Answer(origin, _, _) => Some(origin.id)
    case _ => None
  }

  /** What reaches a peer was sent by a peer of its own group. */
  lemma OriginIsLocal(limits: Limits, states: seq<State>, actions: seq<ServerAction>, p: PeerId, m: ServerMsg)
    requires |states| == |actions| + 1 && ServerExecution(limits, states, actions)
    requires p in states[|actions|].queues && m in states[|actions|].queues[p] && SenderOf(m).Some?
    ensures p in states[|actions|].groups && SenderOf(m).value in states[|actions|].groups
    ensures states[|actions|].groups[SenderOf(m).value] == states[|actions|].groups[p]
  {
    hide Serve, CanServe, Step, Can, ServerExecution, RoomViews.HandlerOwn, MembersOf, CountOf;
    var s := states[|actions|];
    var g := if p in s.groups then s.groups[p] else "";
    var rooms := RoomsAreIndependent(limits, states, actions, g);
    GroupStructured(limits, rooms, ActionsOf(states, actions, g));
    var r := Project(s, g);
    assert RoomViews.QueueGenuine(r, p);
    assert RoomViews.Genuine(r, p, m);
  }

  lemma GroupWithinLimits(limits: Limits, states: seq<State>, actions: seq<ServerAction>, g: Group)
    requires |states| == |actions| + 1 && ServerExecution(limits, states, actions)
    ensures |MembersOf(states[|actions|].tx, g)| <= limits.connections
    ensures CountOf(states[|actions|].counts, g) <= limits.requests
  {
    hide Serve, CanServe, Step, Can, ServerExecution, MembersOf, CountOf;
    var rooms := RoomsAreIndependent(limits, states, actions, g);
    RoomTheorems.WithinLimits(limits, rooms, ActionsOf(states, actions, g), |rooms| - 1);
  }

  /**
   In every run of the server, whatever reaches a peer comes from its own group, and
   every group keeps to its limits.
   */
  lemma GroupsAreIsolated(limits: Limits, states: seq<State>, actions: seq<ServerAction>, p: PeerId, m: ServerMsg)
    requires |states| == |actions| + 1 && ServerExecution(limits, states, actions)
    requires p in states[|actions|].queues && m in states[|actions|].queues[p] && SenderOf(m).Some?
    ensures p in states[|actions|].groups && SenderOf(m).value in states[|actions|].groups
    ensures states[|actions|].groups[SenderOf(m).value] == states[|actions|].groups[p]
    ensures |MembersOf(states[|actions|].tx, states[|actions|].groups[p])| <= limits.connections
    ensures CountOf(states[|actions|].counts, states[|actions|].groups[p]) <= limits.requests
  {
    hide *;
    OriginIsLocal(limits, states, actions, p, m);
    GroupWithinLimits(limits, states, actions, states[|actions|].groups[p]);
  }

  // ----- Rooms without members --------------------------------------------------------

  /** The shared map has an entry for the group, with nobody in it. */
  predicate EmptyRoom(tx: TxMap, g: Group) {
    g in tx && tx[g] == map[]
  }

  /** The connect region leaves one exactly if it refuses the first of a group. */
  lemma EnterLeavesEmptyRoom(limits: Limits, tx: TxMap, counts: RequestCounts, g: Group, p: PeerId, info: Info)
    ensures EmptyRoom(Enter(limits, tx, counts, g, p, info).tx, g)
       <==> (MembersOf(tx, g) == map[] && (limits.connections == 0 || CountOf(counts, g) >= limits.requests))
  {
    var local := MembersOf(tx, g);
    assert p in local[p := info];
    assert |local| == 0 <==> local == map[];
  }

  predicate ConnectsTo(a: ServerAction, g: Group) {
    a.action.Connect? && a.group == g
  }

  predicate Enters(limits: Limits, s: State, a: ServerAction)
    requires a.action.Connect?
  {
    Enter(limits, s.tx, s.counts, a.group, a.action.id, a.action.info).found.Some?
  }

  /** How a step makes and unmakes an empty room. */
  lemma EmptyRoomStep(limits: Limits, s: State, a: ServerAction, g: Group)
    requires Grouped(s) && CanServe(s, a) && RoomViews.Structured(Project(s, GroupOf(s, a)))
    ensures EmptyRoom(Serve(limits, s, a).tx, g)
       <==> (if ConnectsTo(a, g) then MembersOf(s.tx, g) == map[] && !Enters(limits, s, a) else EmptyRoom(s.tx, g))
  {
    hide RoomViews.Structured, Project, Grouped, Introduction, Enumerates, Handler.Sends, Handler.Sent, Sendings,
         Broadcast;
    match a.action
    case Connect(p, info, _) =>
      EnterLeavesEmptyRoom(limits, s.tx, s.counts, a.group, p, info);
      ConnectKeepsOthers(limits, s, a, g);
    case Remove(p, _) =>
      RemoveFindsPeer(s, p);
    case _ =>
  }

  lemma ConnectKeepsOthers(limits: Limits, s: State, a: ServerAction, g: Group)
    requires CanServe(s, a) && a.action.Connect?
    ensures
      var e := Enter(limits, s.tx, s.counts, a.group, a.action.id, a.action.info);
      && Serve(limits, s, a).tx == e.tx
      && (g != a.group ==> EmptyRoom(e.tx, g) == EmptyRoom(s.tx, g))
      && (e.found == None
          <==> |MembersOf(s.tx, a.group)| >= limits.connections || CountOf(s.counts, a.group) >= limits.requests)
  {
    EnterKeepsOthers(limits, s.tx, s.counts, a.group, a.action.id, a.action.info, g);
    hide Enter, EmptyRoom, MembersOf, CountOf, Introduction, Enumerates;
  }

  lemma EnterKeepsOthers(limits: Limits, tx: TxMap, counts: RequestCounts, h: Group, p: PeerId, info: Info, g: Group)
    ensures
      var e := Enter(limits, tx, counts, h, p, info);
      && (g != h ==> EmptyRoom(e.tx, g) == EmptyRoom(tx, g))
      && (e.found == None <==> |MembersOf(tx, h)| >= limits.connections || CountOf(counts, h) >= limits.requests)
  {
  }

  lemma RemoveFindsPeer(s: State, p: PeerId)
    requires Grouped(s) && p in s.groups && p in s.handlers && s.handlers[p].stage.Closing?
    requires RoomViews.Structured(Project(s, s.groups[p]))
    ensures s.groups[p] in s.tx && p in s.tx[s.groups[p]]
  {
    var own := Project(s, s.groups[p]);
    assert own.handlers[p] == s.handlers[p];
    hide RoomViews.HandlerOwn, RoomViews.QueueGenuine;
  }

  /** The k-th step refused a connect while nobody was there, and nobody has entered since. */
  ghost predicate LeftEmpty(limits: Limits, states: seq<State>, actions: seq<ServerAction>, g: Group, k: int) {
    && 0 <= k < |actions| < |states|
    && ConnectsTo(actions[k], g) && MembersOf(states[k].tx, g) == map[] && !Enters(limits, states[k], actions[k])
    && forall j :: k < j < |actions| && ConnectsTo(actions[j], g) ==> !Enters(limits, states[j], actions[j])
  }

  /**
   In every reachable state an empty room is recorded exactly if a connect was
   refused while nobody was there, and nobody has entered since.
   */
  lemma {:induction false} EmptyRoomExactly(limits: Limits, states: seq<State>, actions: seq<ServerAction>, g: Group)
    requires |states| == |actions| + 1 && ServerExecution(limits, states, actions)
    ensures EmptyRoom(states[|actions|].tx, g) <==> exists k :: LeftEmpty(limits, states, actions, g, k)
    decreases |actions|
  {
    if actions != [] {
      hide Enters, MembersOf, Serve, CanServe, ServerExecution, LeftEmpty;
      var last := |actions| - 1;
      var s, a, front := states[last], actions[last], states[..last + 1];
      FrontOfExecution(limits, states, actions, g);
      EmptyRoomExactly(limits, front, actions[..last], g);
      var own := RoomsAreIndependent(limits, front, actions[..last], GroupOf(s, a));
      GroupStructured(limits, own, ActionsOf(front, actions[..last], GroupOf(s, a)));
      EmptyRoomStep(limits, s, a, g);
      LeftEmptyMore(limits, states, actions, g, front, actions[..last]);
    }
  }

  lemma LeftEmptyMore(limits: Limits, states: seq<State>, actions: seq<ServerAction>, g: Group,
                      front: seq<State>, before: seq<ServerAction>)
    requires |states| == |actions| + 1 && actions != []
    requires front == states[..|actions|] && before == actions[..|actions| - 1]
    ensures
      var last := |actions| - 1;
      (exists k :: LeftEmpty(limits, states, actions, g, k))
      <==> (if ConnectsTo(actions[last], g) && Enters(limits, states[last], actions[last]) then false
            else if ConnectsTo(actions[last], g) && MembersOf(states[last].tx, g) == map[] then true
            else exists k :: LeftEmpty(limits, front, before, g, k))
  {
    hide Enters, MembersOf;
    var last := |actions| - 1;
    if k :| LeftEmpty(limits, states, actions, g, k) {
      if k < last {
        assert LeftEmpty(limits, front, before, g, k);
      }
    }
    if k :| LeftEmpty(limits, front, before, g, k) {
      if !(ConnectsTo(actions[last], g) && Enters(limits, states[last], actions[last])) {
        assert LeftEmpty(limits, states, actions, g, k);
      }
    }
    if ConnectsTo(actions[last], g) && MembersOf(states[last].tx, g) == map[]
       && !Enters(limits, states[last], actions[last]) {
      assert LeftEmpty(limits, states, actions, g, last);
    }
  }

  /** The one peer the budget allows comes and goes; the next is refused and leaves an empty room. */
  lemma EmptyRoomExample(info: Info) returns (states: seq<State>, actions: seq<ServerAction>)
    ensures |states| == |actions| + 1 && ServerExecution(Limits(1, 1), states, actions)
    ensures EmptyRoom(states[|actions|].tx, "g")
  {
    hide Serve, Enter, EmptyRoom;
    var limits := Limits(1, 1);
    var c0 := ServerAction("g", Connect(0, info, []));
    var s1 := ComesIn(limits, info);
    var s2, s3, s4 := GoesOut(limits, info, s1);
    var c4 := ServerAction("g", Connect(1, info, []));
    EnterLeavesEmptyRoom(limits, s4.tx, s4.counts, "g", 1, info);
    ConnectKeepsOthers(limits, s4, c4, "g");
    var s5 := Serve(limits, s4, c4);
    states := [IDLE, s1, s2, s3, s4, s5];
    actions := [c0] + GOING + [c4];
  }

  const GOING: seq<ServerAction> :=
    [ServerAction("g", Deliver(0, false)), ServerAction("g", Close(0)), ServerAction("g", Remove(0, []))]

  lemma GoesOut(limits: Limits, info: Info, s1: State) returns (s2: State, s3: State, s4: State)
    requires s1.tx == map["g" := map[0 := info]] && s1.counts == map["g" := 1] && s1.groups == map[0 := "g"]
    requires s1.handlers == map[0 := Handler(Introducing([Send(0, Hello(Client(0, info), map[]))]), Ended)]
    requires s1.queues == map[0 := []]
    ensures CanServe(s1, GOING[0]) && s2 == Serve(limits, s1, GOING[0])
    ensures CanServe(s2, GOING[1]) && s3 == Serve(limits, s2, GOING[1])
    ensures CanServe(s3, GOING[2]) && s4 == Serve(limits, s3, GOING[2])
    ensures s4.tx == map[] && s4.counts == map["g" := 1] && s4.groups == map[0 := "g"] && s4.handlers.Keys == {0}
  {
    hide Restrict;
    s2 := Serve(limits, s1, GOING[0]);
    assert s2.handlers[0] == Handler(Watching, Serving([]));
    s3 := Serve(limits, s2, GOING[1]);
    assert s3.tx["g"] - {0} == map[] && MembersOf(s3.tx, "g").Keys - {0} == {};
    s4 := Serve(limits, s3, GOING[2]);
    assert s4.tx == map[];
  }

  lemma ComesIn(limits: Limits, info: Info) returns (s: State)
    requires limits == Limits(1, 1)
    ensures CanServe(IDLE, ServerAction("g", Connect(0, info, [])))
    ensures s == Serve(limits, IDLE, ServerAction("g", Connect(0, info, [])))
    ensures s.tx == map["g" := map[0 := info]] && s.counts == map["g" := 1] && s.groups == map[0 := "g"]
    ensures s.handlers == map[0 := Handler(Introducing([Send(0, Hello(Client(0, info), map[]))]), Ended)]
    ensures s.queues == map[0 := []]
  {
    s := Serve(limits, IDLE, ServerAction("g", Connect(0, info, [])));
    assert Broadcast([], Join(Client(0, info))) + [Send(0, Hello(Client(0, info), map[]))]
        == [Send(0, Hello(Client(0, info), map[]))];
  }
}
