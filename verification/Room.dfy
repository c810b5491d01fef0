/**
 One room of the signaling server (server/src/controller/ws_controller.rs): the
 devices behind one IP group. Every lock region is one step and every channel
 send is a later step of its own, so handlers interleave freely.
 */
module Room {

  /** A random UUID; a connection never reuses one. */
  type PeerId = int

  datatype Info = Info(alias: string, version: string, token: string)

  datatype Client = Client(id: PeerId, info: Info)

  datatype Sdp = Sdp(sessionId: string, target: PeerId, sdp: string)

  datatype ClientMsg = SetInfo(info: Info) | MakeOffer(sdp: Sdp) | MakeAnswer(sdp: Sdp)

  datatype ServerMsg =
    | Hello(client: Client, peers: map<PeerId, Info>)
    | Join(peer: Client)
    | Update(peer: Client)
    | Left(peerId: PeerId)
    | Offer(origin: Client, sessionId: string, sdp: string)
    | Answer(origin: Client, sessionId: string, sdp: string)
    | Error(code: nat)

  datatype Send = Send(to: PeerId, msg: ServerMsg)

  /** Where `handle_socket` itself stands, with the sends it has yet to make. */
  datatype Stage =
    | Refused
    | Introducing(sends: seq<Send>)
    | Watching
    | Closing
    | Leaving(sends: seq<Send>)
  {
    function Sends(): seq<Send> {
      match this
      case Introducing(s) => s
      case Leaving(s) => s
      case _ => []
    }
  }

  /** Where its receive task stands. */
  datatype Task =
    | Serving(sends: seq<Send>)
    | Admitted(request: ClientMsg)
    | OverBudget(sends: seq<Send>)
    | Ended
  {
    function Sends(): seq<Send> {
      match this
      case Serving(s) => s
      case OverBudget(s) => s
      case _ => []
    }
  }

  /**
   One connection. The receive task is started after the introduction. It may go
   on for a while after it has been aborted, because an abort takes effect only
   where the task yields; meanwhile the connection is closed under it.
   */
  datatype Handler = Handler(stage: Stage, task: Task) {
    function Sends(byTask: bool): seq<Send> {
      if byTask then task.Sends() else stage.Sends()
    }

    /** After a send. */
    function Sent(byTask: bool): Handler
      requires Sends(byTask) != []
    {
      var rest := Sends(byTask)[1..];
      if byTask then
        Handler(stage, if task.Serving? then Serving(rest) else if rest == [] then Ended else OverBudget(rest))
      else if stage.Leaving? then Handler(Leaving(rest), task)
      else if rest == [] then Handler(Watching, Serving([]))
      else Handler(Introducing(rest), task)
    }

    /** The task ends between two messages, or anywhere once it has been aborted. */
    predicate MayStop() {
      !task.Ended? && (task == Serving([]) || !stage.Watching?)
    }
  }

  datatype Limits = Limits(connections: nat, requests: nat)

  const TOO_MANY_REQUESTS: nat := 429

  /**
   `members` and `count` are the shared maps' entries for this room. The last
   three fields are history: what each accepted peer joined as, whom it found
   there, and which requests were admitted.
   */
  datatype Room = Room(
    members: map<PeerId, Info>,
    count: nat,
    handlers: map<PeerId, Handler>,
    queues: map<PeerId, seq<ServerMsg>>,
    joined: map<PeerId, Info>,
    found: map<PeerId, map<PeerId, Info>>,
    requests: set<(PeerId, ClientMsg)>)

  /** An order is the one in which a hash map happens to be iterated. */
  datatype Action =
    | Connect(id: PeerId, info: Info, order: seq<PeerId>)
    | Deliver(id: PeerId, byTask: bool)
    | Request(id: PeerId, request: ClientMsg)
    | Apply(id: PeerId, order: seq<PeerId>)
    | Stop(id: PeerId)
    | Close(id: PeerId)
    | Remove(id: PeerId, order: seq<PeerId>)
    | Clear

  predicate Enumerates(order: seq<PeerId>, ids: set<PeerId>) {
    && (forall i :: 0 <= i < |order| ==> order[i] in ids)
    && (forall p :: p in ids ==> p in order)
    && (forall i, j :: 0 <= i < j < |order| ==> order[i] != order[j])
  }

  function Broadcast(order: seq<PeerId>, m: ServerMsg): seq<Send> {
    if order == [] then [] else [Send(order[0], m)] + Broadcast(order[1..], m)
  }

  const EMPTY: Room := Room(map[], 0, map[], map[], map[], map[], {})

  predicate Full(limits: Limits, r: Room) {
    |r.members| >= limits.connections || r.count >= limits.requests
  }

  predicate Can(r: Room, a: Action) {
    match a
    case Connect(p, _, order) => p !in r.handlers && Enumerates(order, r.members.Keys)
    case Deliver(p, byTask) =>
      p in r.handlers && r.handlers[p].Sends(byTask) != [] && r.handlers[p].Sends(byTask)[0].to in r.queues
    case Request(p, _) => p in r.handlers && r.handlers[p].task == Serving([])
    case Apply(p, order) =>
      p in r.handlers && r.handlers[p].task.Admitted? && p in r.joined && Enumerates(order, r.members.Keys - {p})
    case Stop(p) => p in r.handlers && r.handlers[p].MayStop()
    case Close(p) => p in r.handlers && r.handlers[p].stage.Watching?
    case Remove(p, order) =>
      p in r.handlers && r.handlers[p].stage.Closing? && Enumerates(order, r.members.Keys - {p})
    case Clear => true
  }

  function Introduction(p: PeerId, info: Info, found: map<PeerId, Info>, order: seq<PeerId>): Handler {
    Handler(Introducing(Broadcast(order, Join(Client(p, info))) + [Send(p, Hello(Client(p, info), found))]), Ended)
  }

  /** The first lock region of `handle_socket`. */
  function ConnectStep(limits: Limits, r: Room, p: PeerId, info: Info, order: seq<PeerId>): Room {
    if Full(limits, r) then r.(handlers := r.handlers[p := Handler(Refused, Ended)])
    else
      r.(members := r.members[p := info],
      count := r.count + 1,
      handlers := r.handlers[p := Introduction(p, info, r.members, order)],
      queues := r.queues[p := []],
      joined := r.joined[p := info],
      found := r.found[p := r.members])
  }

  /** The message an offer or answer is relayed as. */
  function Relayed(origin: Client, request: ClientMsg): ServerMsg
    requires !request.SetInfo?
  {
    if request.MakeOffer? then Offer(origin, request.sdp.sessionId, request.sdp.sdp)
    else Answer(origin, request.sdp.sessionId, request.sdp.sdp)
  }

  /**
   `send_update_to_other_peers_with_lock` and `send_to_peer_with_lock`: the sends
   that follow the lock region, of a peer that joined with some info.
   */
  function Sendings(
    members: map<PeerId, Info>, p: PeerId, joined: Info, request: ClientMsg, order: seq<PeerId>): seq<Send>
  {
    if request.SetInfo? then (if p in members then Broadcast(order, Update(Client(p, request.info))) else [])
    else if request.sdp.target in members then [Send(request.sdp.target, Relayed(Client(p, joined), request))]
    else []
  }

  function ApplyStep(r: Room, p: PeerId, order: seq<PeerId>): Room
    requires p in r.handlers && r.handlers[p].task.Admitted? && p in r.joined
  {
    var h := r.handlers[p];
    var request := h.task.request;
    r.(members := if request.SetInfo? && p in r.members then r.members[p := request.info] else r.members,
    handlers := r.handlers[p := Handler(h.stage, Serving(Sendings(r.members, p, r.joined[p], request, order)))])
  }

  /** The first send a handler or its task has yet to make. */
  function DeliverStep(r: Room, p: PeerId, byTask: bool): Room
    requires Can(r, Deliver(p, byTask))
  {
    var send := r.handlers[p].Sends(byTask)[0];
    r.(handlers := r.handlers[p := r.handlers[p].Sent(byTask)],
    queues := r.queues[send.to := r.queues[send.to] + [send.msg]])
  }

  /** `protect_ddos_request_count` for one message. */
  function RequestStep(limits: Limits, r: Room, p: PeerId, request: ClientMsg): Room
    requires p in r.handlers
  {
    var stage := r.handlers[p].stage;
    if r.count >= limits.requests then
      r.(handlers := r.handlers[p := Handler(stage, OverBudget([Send(p, Error(TOO_MANY_REQUESTS))]))])
    else
      r.(count := r.count + 1,
      handlers := r.handlers[p := Handler(stage, Admitted(request))],
      requests := r.requests + {(p, request)})
  }

  /** The last lock region of `handle_socket`. */
  function RemoveStep(r: Room, p: PeerId, order: seq<PeerId>): Room
    requires p in r.handlers
  {
    r.(members := r.members - {p},
    handlers := r.handlers[p := Handler(Leaving(Broadcast(order, Left(p))), r.handlers[p].task)])
  }

  function StopStep(r: Room, p: PeerId): Room
    requires p in r.handlers
  {
    r.(handlers := r.handlers[p := Handler(r.handlers[p].stage, Ended)])
  }

  /** One of the two tasks has ended, and the other is told to. */
  function CloseStep(r: Room, p: PeerId): Room
    requires p in r.handlers
  {
    r.(handlers := r.handlers[p := Handler(Closing, r.handlers[p].task)])
  }

  function Step(limits: Limits, r: Room, a: Action): Room
    requires Can(r, a)
  {
    match a
    case Connect(p, info, order) => ConnectStep(limits, r, p, info, order)
    case Deliver(p, byTask) => DeliverStep(r, p, byTask)
    case Request(p, request) => RequestStep(limits, r, p, request)
    case Apply(p, order) => ApplyStep(r, p, order)
    case Stop(p) => StopStep(r, p)
    case Close(p) => CloseStep(r, p)
    case Remove(p, order) => RemoveStep(r, p, order)
    case Clear => r.(count := 0)
  }

  /** A run of the room, action by action. */
  ghost predicate Execution(limits: Limits, rooms: seq<Room>, actions: seq<Action>) {
    && |rooms| == |actions| + 1
    && rooms[0] == EMPTY
    && forall i :: 0 <= i < |actions| ==>
                     Can(rooms[i], actions[i]) && rooms[i + 1] == Step(limits, rooms[i], actions[i])
  }
}
