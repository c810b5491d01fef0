/** The two reading loops of the transfer (core/src/webrtc/webrtc.rs) against any peer whatever. */
module Loops {
  import opened Prelude
  import opened Channel
  import opened Framing
  import opened Transfer
  import opened Session
  import opened Reading

  // ----- verify_pin ---------------------------------------------------------

  /** The PINs in the messages up to the first one that holds none. */
  function Entries(json: Json, queue: seq<Msg>): seq<string> {
    if queue == [] || json.pin.read(queue[0].data) == None then []
    else [json.pin.read(queue[0].data).value] + Entries(json, queue[1..])
  }

  lemma {:induction false} EntriesPrefix(json: Json, queue: seq<Msg>, k: nat)
    requires k < |queue| && k <= |Entries(json, queue)|
    ensures k < |Entries(json, queue)| <==> json.pin.read(queue[k].data).Some?
    ensures k < |Entries(json, queue)| ==> Some(Entries(json, queue)[k]) == json.pin.read(queue[k].data)
  {
    if k > 0 {
      EntriesPrefix(json, queue[1..], k - 1);
    }
  }

  lemma {:induction false} EntriesLength(json: Json, queue: seq<Msg>)
    ensures |Entries(json, queue)| <= |queue|
  {
    if queue != [] {
      EntriesLength(json, queue[1..]);
    }
  }

  /** How many notices have been sent when the k-th entry has been asked for. */
  function Notices(initial: bool, k: nat): nat {
    if initial then k + 1 else k
  }

  /**
   Whatever the other side sends: the check succeeds only on the PIN, reads at
   most `maxTries` messages, and its 8-bit counter does not overflow.
   */
  method VerifyPin(json: Json, config: PinConfig, initialNotice: bool, inbox: Inbox)
    returns (accepted: bool, notices: nat, refused: bool)
    modifies inbox
    ensures accepted <==> config.pin == "" || Presented(config, Entries(json, old(inbox.queue)))
    ensures |inbox.queue| <= |old(inbox.queue)| <= |inbox.queue| + config.maxTries as nat
    ensures inbox.queue == old(inbox.queue)[|old(inbox.queue)| - |inbox.queue|..]
    ensures config.pin == "" ==> accepted && !refused && notices == 0 && inbox.queue == old(inbox.queue)
    ensures refused ==> !accepted
    ensures
      config.pin != "" ==>
        var c := Challenge(config, Entries(json, old(inbox.queue)), 0);
        && accepted == c.Passed? && refused == c.Exhausted?
        && |old(inbox.queue)| - |inbox.queue| == (if c.RanOut? then Min(c.rounds + 1, |old(inbox.queue)|) else c.rounds)
        && notices == (if c.RanOut? then Notices(initialNotice, c.rounds)
                       else if c.rounds == 0 then 0 else Notices(initialNotice, c.rounds - 1))
  {
    hide Entries, Presented, Challenge;
    ghost var entries := Entries(json, inbox.queue);
    ghost var total := inbox.queue;
    ChallengeMeaning(config, entries, 0);
    EntriesLength(json, total);
    var remotePin := "";
    var pinTry: u8 := 0;
    var sendInitialNotice := initialNotice;
    notices, refused := 0, false;
    while true
      invariant pinTry <= config.maxTries && pinTry as nat <= |entries|
      invariant inbox.queue == total[pinTry as nat..]
      invariant remotePin == if pinTry == 0 then "" else entries[pinTry as nat - 1]
      invariant pinTry > 0 ==> config.pin != ""
      invariant config.pin != "" && (pinTry == 0 || remotePin != config.pin) ==>
          Challenge(config, entries, pinTry as nat) == Challenge(config, entries, 0)
      invariant pinTry > 0 && remotePin == config.pin ==> Challenge(config, entries, 0) == Passed(pinTry as nat)
      invariant notices == if pinTry == 0 then 0 else Notices(initialNotice, pinTry as nat - 1)
      invariant sendInitialNotice == (initialNotice && pinTry == 0)
      decreases config.maxTries - pinTry
    {
      ChallengeStep(config, entries, pinTry as nat);
      if remotePin == config.pin {
        return true, notices, false;
      }
      if pinTry >= config.maxTries {
        return false, notices, true;
      }
      if sendInitialNotice || pinTry > 0 {
        sendInitialNotice := false;
        notices := notices + 1;
      }
      var m := inbox.Receive();
      if m == None {
        return false, notices, false;
      }
      EntriesPrefix(json, total, pinTry as nat);
      assert inbox.queue == total[pinTry as nat + 1..];
      var pin := json.pin.read(m.value.data);
      if pin == None {
        return false, notices, false;
      }
      assert pinTry as nat < |entries| && entries[pinTry as nat] == pin.value;
      remotePin := pin.value;
      pinTry := pinTry + 1;
    }
  }

  // ----- handle_pin ---------------------------------------------------------

  /** What `parse_response` makes of a reply. */
  datatype PinVerdict<+T> = Granted(value: T) | Again | TooMany | Unreadable

  datatype Challenged<+T> = Cleared(value: T) | GivenUp | Broken

  /** How the challenge went: its end, how often the user was asked, and what is left unread. */
  datatype Dialogue<T> = Dialogue(end: Challenged<T>, asked: nat, rest: seq<Msg>)

  /** The reply to one PIN: a whole string, or a single message that must be a string. */
  function NextReply(queue: seq<Msg>, inChunks: bool): (Option<Bytes>, seq<Msg>) {
    if inChunks then (Some(TakeString(queue).0), TakeString(queue).1)
    else if queue == [] then (None, [])
    else (if queue[0].Text? then Some(queue[0].data) else None, queue[1..])
  }

  /** The rest of the challenge, once k PINs have been sent and answered. */
  function Converse<T>(parse: Bytes -> PinVerdict<T>, entered: seq<string>, k: nat, queue: seq<Msg>,
                       inChunks: bool): Dialogue<T>
    decreases |entered| - k
  {
    if k >= |entered| then Dialogue(Broken, k + 1, queue)
    else
      var (reply, rest) := NextReply(queue, inChunks);
      if reply == None then Dialogue(Broken, k + 1, rest)
      else match parse(reply.value)
           case Granted(value) => Dialogue(Cleared(value), k + 1, rest)
           case TooMany => Dialogue(GivenUp, k + 1, rest)
           case Unreadable => Dialogue(Broken, k + 1, rest)
           case Again => Converse(parse, entered, k + 1, rest, inChunks)
  }

  /** One PIN for each time the user is asked, as long as the replies ask for another. */
  method HandlePin<T>(parse: Bytes -> PinVerdict<T>, entered: seq<string>, inbox: Inbox, inChunks: bool)
    returns (end: Challenged<T>, sent: seq<string>, asked: nat)
    modifies inbox
    ensures Dialogue(end, asked, inbox.queue) == Converse(parse, entered, 0, old(inbox.queue), inChunks)
    ensures sent == entered[..Min(asked, |entered|)]
  {
    hide TakeString;
    sent, asked := [], 0;
    while true
      invariant asked <= |entered| && sent == entered[..asked]
      invariant Converse(parse, entered, asked, inbox.queue, inChunks)
                == Converse(parse, entered, 0, old(inbox.queue), inChunks)
      decreases |entered| - asked
    {
      asked := asked + 1;
      if asked > |entered| {
        return Broken, sent, asked;
      }
      sent := sent + [entered[asked - 1]];
      var bytes: Bytes;
      if inChunks {
        bytes := ReceiveStringFromChunks(inbox);
      } else {
        var m := inbox.Receive();
        if m == None || m.value.Binary? {
          return Broken, sent, asked;
        }
        bytes := m.value.data;
      }
      match parse(bytes) {
        case Granted(value) => return Cleared(value), sent, asked;
        case TooMany => return GivenUp, sent, asked;
        case Unreadable => return Broken, sent, asked;
        case Again =>
      }
    }
  }

  /** The k-th reply of the conversation, and what follows it. */
  function ReplyAt(queue: seq<Msg>, inChunks: bool, k: nat): (Option<Bytes>, seq<Msg>)
    decreases k
  {
    if k == 0 then NextReply(queue, inChunks) else ReplyAt(NextReply(queue, inChunks).1, inChunks, k - 1)
  }

  /** Without chunks the replies are the messages one by one, and only a string is one. */
  lemma {:induction false} SingleReplies(queue: seq<Msg>, k: nat)
    ensures ReplyAt(queue, false, k).0
         == if k < |queue| && queue[k].Text? then Some(queue[k].data) else None
    ensures k < |queue| ==> ReplyAt(queue, false, k).1 == queue[k + 1..]
    decreases k
  {
    if k > 0 {
      SingleReplies(NextReply(queue, false).1, k - 1);
    }
  }

  /** The first k replies all ask for another PIN. */
  ghost predicate Asks<T>(parse: Bytes -> PinVerdict<T>, queue: seq<Msg>, inChunks: bool, k: int) {
    forall i :: 0 <= i < k ==>
                  ReplyAt(queue, inChunks, i).0.Some? && parse(ReplyAt(queue, inChunks, i).0.value).Again?
  }

  lemma AsksFirst<T>(parse: Bytes -> PinVerdict<T>, queue: seq<Msg>, inChunks: bool, k: nat)
    requires k > 0
    ensures
      var (reply, rest) := NextReply(queue, inChunks);
      Asks(parse, queue, inChunks, k)
      <==> reply.Some? && parse(reply.value).Again? && Asks(parse, rest, inChunks, k - 1)
  {
    hide NextReply;
    var rest := NextReply(queue, inChunks).1;
    assert forall i :: 0 < i < k ==> ReplyAt(queue, inChunks, i) == ReplyAt(rest, inChunks, i - 1);
    assert forall i :: 0 <= i < k - 1 ==> ReplyAt(rest, inChunks, i) == ReplyAt(queue, inChunks, i + 1);
    assert ReplyAt(queue, inChunks, 0) == NextReply(queue, inChunks);
  }

  /**
   The user is asked again exactly as long as the replies say so, and the first
   reply that says something else decides; only running out of entries breaks it off.
   */
  lemma {:induction false} ConverseMeaning<T>(parse: Bytes -> PinVerdict<T>, entered: seq<string>, k: nat,
                                              queue: seq<Msg>, inChunks: bool)
    requires k <= |entered|
    ensures
      var d := Converse(parse, entered, k, queue, inChunks);
      && k < d.asked <= |entered| + 1
      && Asks(parse, queue, inChunks, d.asked - 1 - k)
      && (d.asked > |entered| <==> Asks(parse, queue, inChunks, |entered| - k))
      && d.end == if d.asked > |entered| then Broken
                  else
                    var last := ReplyAt(queue, inChunks, d.asked - 1 - k).0;
                    if last == None then Broken
                    else match parse(last.value)
                         case Granted(value) => Cleared(value)
                         case TooMany => GivenUp
                         case _ => Broken
    decreases |entered| - k
  {
    hide NextReply, Asks;
    if k == |entered| {
      NothingAsked(parse, queue, inChunks);
    } else {
      var (reply, rest) := NextReply(queue, inChunks);
      AsksFirst(parse, queue, inChunks, |entered| - k);
      if reply.Some? && parse(reply.value).Again? {
        ConverseMeaning(parse, entered, k + 1, rest, inChunks);
        AsksFirst(parse, queue, inChunks, Converse(parse, entered, k + 1, rest, inChunks).asked - 1 - k);
      } else {
        NothingAsked(parse, queue, inChunks);
      }
    }
  }

  lemma NothingAsked<T>(parse: Bytes -> PinVerdict<T>, queue: seq<Msg>, inChunks: bool)
    ensures Asks(parse, queue, inChunks, 0)
  {
  }

  // ----- The receive loop ---------------------------------------------------

  datatype LoopState = Going(open: Option<string>, done: nat) | Over(ending: Ending)

  /** One message, with the reply it may cause, as the receiver's program handles it. */
  function Handle(env: ReceiverEnv, json: Json, plan: Plan, s: LoopState, m: Msg): Move<LoopState, Event> {
    if s.Over? then Move(s, [], [])
    else
      var first := ReceiverReceive(env, json, RAwaitFile(plan, s.open, s.done), m);
      if first.next.RReply? then
        var second := ReceiverRun(env, json, first.next);
        Move(LoopStateOf(second.next), second.send, first.log + second.log)
      else Move(LoopStateOf(first.next), first.send, first.log)
  }

  function LoopStateOf(r: Receiver): LoopState {
    if r.RAwaitFile? then Going(r.open, r.done) else if r.REnded? then Over(r.ending) else Over(Failed)
  }

  function After(env: ReceiverEnv, json: Json, plan: Plan, msgs: seq<Msg>): LoopState {
    if msgs == [] then Going(None, 0)
    else Handle(env, json, plan, After(env, json, plan, msgs[..|msgs| - 1]), msgs[|msgs| - 1]).next
  }

  function LoopLog(env: ReceiverEnv, json: Json, plan: Plan, msgs: seq<Msg>): seq<Event> {
    if msgs == [] then []
    else
      var init := msgs[..|msgs| - 1];
      LoopLog(env, json, plan, init) + Handle(env, json, plan, After(env, json, plan, init), msgs[|msgs| - 1]).log
  }

  function LoopReplies(env: ReceiverEnv, json: Json, plan: Plan, msgs: seq<Msg>): seq<Msg> {
    if msgs == [] then []
    else
      var init := msgs[..|msgs| - 1];
      LoopReplies(env, json, plan, init) + Handle(env, json, plan, After(env, json, plan, init), msgs[|msgs| - 1]).send
  }

  lemma AfterOneMore(env: ReceiverEnv, json: Json, plan: Plan, used: seq<Msg>, m: Msg)
    ensures
      var move := Handle(env, json, plan, After(env, json, plan, used), m);
      && After(env, json, plan, used + [m]) == move.next
      && LoopLog(env, json, plan, used + [m]) == LoopLog(env, json, plan, used) + move.log
      && LoopReplies(env, json, plan, used + [m]) == LoopReplies(env, json, plan, used) + move.send
  {
    hide Handle;
    assert (used + [m])[..|used|] == used;
  }

  lemma BeforeAll(env: ReceiverEnv, json: Json, plan: Plan)
    ensures After(env, json, plan, []) == Going(None, 0)
    ensures LoopLog(env, json, plan, []) == [] && LoopReplies(env, json, plan, []) == []
  {
  }

  /** The body of the loop. */
  method HandleMessage(env: ReceiverEnv, json: Json, plan: Plan, fileState: Option<string>, done: nat, msg: Msg)
    returns (s: LoopState, replies: seq<Msg>, log: seq<Event>)
    ensures Move(s, replies, log) == Handle(env, json, plan, Going(fileState, done), msg)
  {
    replies, log := [], [];
    if msg.Binary? {
      s := Going(fileState, done);
      log := [if fileState.Some? then Data(fileState.value, msg.data)
              else FileError("unknown", "Received binary data without a header")];
      return;
    }
    var count := done;
    if fileState.Some? {
      log := [Closed(fileState.value)];
      replies := SendJson(json.fileResponse.write(Reply(env, fileState.value, done)));
      if IsDelimiter(msg) {
        return Over(Finished), replies, log;
      }
      count := done + 1;
    }
    var header := json.header.read(msg.data);
    if header == None {
      return Over(Failed), replies, log;
    }
    var id := header.value.id;
    s := Going(None, count);
    if id !in plan.tokens {
      log := log + [FileError(id, "File not found")];
    } else if header.value.token != plan.tokens[id] {
      log := log + [FileError(id, "Invalid token")];
    } else if !Listed(plan.files, id) {
      log := log + [FileError(id, "Expected size to be available")];
    } else {
      s := Going(Some(id), count);
      log := log + [Opened(id)];
    }
  }

  /** The loop over messages that arrive until the channel closes; `used` are those it took. */
  method ReceiveFiles(env: ReceiverEnv, json: Json, plan: Plan, inbox: Inbox)
    returns (ending: Ending, replies: seq<Msg>, log: seq<Event>, used: seq<Msg>)
    modifies inbox
    ensures old(inbox.queue) == used + inbox.queue
    ensures
      var s := After(env, json, plan, used);
      && ending == (if s.Over? then s.ending else Finished)
      && (s.Over? || inbox.queue == [])
    ensures used != [] ==> After(env, json, plan, used[..|used| - 1]).Going?
    ensures log == LoopLog(env, json, plan, used) && replies == LoopReplies(env, json, plan, used)
  {
    hide *;
    var s := Going(None, 0);
    replies, log, used := [], [], [];
    ghost var all := inbox.queue;
    BeforeAll(env, json, plan);
    var m := inbox.Receive();
    while m.Some? && s.Going?
      invariant |used| + (if m.Some? then 1 else 0) <= |all| && used == all[..|used|]
      invariant inbox.queue == all[|used| + (if m.Some? then 1 else 0)..] && (m.Some? ==> m.value == all[|used|])
      invariant m.None? ==> inbox.queue == [] || s.Over?
      invariant s.Over? ==> m.None?
      invariant After(env, json, plan, used) == s
      invariant used != [] ==> After(env, json, plan, used[..|used| - 1]).Going?
      invariant log == LoopLog(env, json, plan, used) && replies == LoopReplies(env, json, plan, used)
      decreases |inbox.queue|, m.Some?
    {
      AfterOneMore(env, json, plan, used, m.value);
      var sent, events;
      s, sent, events := HandleMessage(env, json, plan, s.open, s.done, m.value);
      assert (used + [m.value])[..|used|] == used;
      replies, log, used := replies + sent, log + events, used + [m.value];
      m := None;
      if s.Going? {
        m := inbox.Receive();
      }
    }
    ending := if s.Over? then s.ending else Finished;
  }

  // ----- Which bytes reach which stream -------------------------------------

  /** A header naming an offered file with the token handed out for it. */
  predicate AcceptedHeader(json: Json, plan: Plan, m: Msg, id: string) {
    && m.Text?
    && json.header.read(m.data) == Some(Header(id, if id in plan.tokens then plan.tokens[id] else ""))
    && id in plan.tokens && Listed(plan.files, id)
  }

  /** A string message that is no header: a delimiter, or something malformed. */
  predicate EndsLoop(json: Json, m: Msg) {
    m.Text? && json.header.read(m.data) == None
  }

  ghost predicate Ended(json: Json, msgs: seq<Msg>) {
    exists j :: 0 <= j < |msgs| && EndsLoop(json, msgs[j])
  }

  /** The last string message is an accepted header for this file. */
  ghost predicate InsideFile(json: Json, plan: Plan, msgs: seq<Msg>, id: string) {
    exists j :: 0 <= j < |msgs| && AcceptedHeader(json, plan, msgs[j], id)
                && forall k :: j < k < |msgs| ==> msgs[k].Binary?
  }

  lemma StillInside(json: Json, plan: Plan, init: seq<Msg>, m: Msg, id: string)
    ensures InsideFile(json, plan, init + [m], id)
       <==> (if m.Binary? then InsideFile(json, plan, init, id) else AcceptedHeader(json, plan, m, id))
  {
    var msgs := init + [m];
    hide AcceptedHeader;
    if m.Binary? && InsideFile(json, plan, init, id) {
      var j :| 0 <= j < |init| && AcceptedHeader(json, plan, init[j], id)
               && forall k :: j < k < |init| ==> init[k].Binary?;
      assert AcceptedHeader(json, plan, msgs[j], id);
    }
    if InsideFile(json, plan, msgs, id) {
      var j :| 0 <= j < |msgs| && AcceptedHeader(json, plan, msgs[j], id)
               && forall k :: j < k < |msgs| ==> msgs[k].Binary?;
      AcceptedIsText(json, plan, msgs[j], id);
      if j < |init| {
        assert msgs[|init|].Binary? && AcceptedHeader(json, plan, init[j], id);
        assert forall k :: j < k < |init| ==> init[k] == msgs[k];
      }
    }
    if !m.Binary? && AcceptedHeader(json, plan, m, id) {
      assert AcceptedHeader(json, plan, msgs[|init|], id);
    }
  }

  lemma AcceptedIsText(json: Json, plan: Plan, m: Msg, id: string)
    requires AcceptedHeader(json, plan, m, id)
    ensures m.Text?
  {
  }

  /**
   After any messages whatever: the loop is over exactly if a string message
   that is no header came by, and a file is open exactly if the last string
   message is its accepted header.
   */
  lemma {:induction false} Isolation(env: ReceiverEnv, json: Json, plan: Plan, msgs: seq<Msg>, id: string)
    requires json.Lawful()
    ensures After(env, json, plan, msgs).Over? <==> Ended(json, msgs)
    ensures After(env, json, plan, msgs).Going? ==>
              (After(env, json, plan, msgs).open == Some(id) <==> InsideFile(json, plan, msgs, id))
  {
    hide Handle, After, InsideFile, Ended, EndsLoop, AcceptedHeader, AcceptedFile, Json.Lawful;
    if msgs == [] {
      BeforeAll(env, json, plan);
      NothingBefore(json, plan, id);
    } else {
      var init, m := msgs[..|msgs| - 1], msgs[|msgs| - 1];
      var s := After(env, json, plan, init);
      Isolation(env, json, plan, init, id);
      assert msgs == init + [m];
      AfterOneMore(env, json, plan, init, m);
      StillInside(json, plan, init, m, id);
      StillEnded(json, init, m);
      if s.Over? {
        OverIsOver(env, json, plan, s, m);
      } else if m.Binary? {
        BinaryHandled(env, json, plan, s, m);
        BinaryGoesOn(json, m);
      } else {
        var header := TextHandled(env, json, plan, s, m);
        AcceptedMeaning(json, plan, m, id);
      }
    }
  }

  lemma NothingBefore(json: Json, plan: Plan, id: string)
    ensures !Ended(json, []) && !InsideFile(json, plan, [], id)
  {
  }

  lemma StillEnded(json: Json, init: seq<Msg>, m: Msg)
    ensures Ended(json, init + [m]) <==> Ended(json, init) || EndsLoop(json, m)
  {
    hide EndsLoop;
    var msgs := init + [m];
    assert EndsLoop(json, msgs[|init|]) <==> EndsLoop(json, m);
    if j :| 0 <= j < |init| && EndsLoop(json, init[j]) {
      assert EndsLoop(json, msgs[j]);
    }
  }

  lemma BinaryGoesOn(json: Json, m: Msg)
    requires m.Binary?
    ensures !EndsLoop(json, m)
  {
  }

  lemma AcceptedMeaning(json: Json, plan: Plan, m: Msg, id: string)
    ensures AcceptedFile(json, plan, m) == Some(id) <==> AcceptedHeader(json, plan, m, id)
  {
  }

  /** The j-th message is a delimiter inside a file, and the loop was not over before. */
  ghost predicate Finishes(json: Json, plan: Plan, msgs: seq<Msg>, j: int) {
    && 0 <= j < |msgs| && msgs[j].Text? && |msgs[j].data| <= 1
    && !Ended(json, msgs[..j]) && exists id :: InsideFile(json, plan, msgs[..j], id)
  }

  lemma FinishesMore(json: Json, plan: Plan, init: seq<Msg>, m: Msg)
    ensures (exists j :: Finishes(json, plan, init + [m], j))
       <==> ((exists j :: Finishes(json, plan, init, j))
             || (m.Text? && |m.data| <= 1 && !Ended(json, init) && exists id :: InsideFile(json, plan, init, id)))
  {
    var msgs := init + [m];
    hide InsideFile, Ended;
    assert msgs[..|init|] == init;
    if j :| Finishes(json, plan, msgs, j) {
      if j < |init| {
        assert msgs[..j] == init[..j];
        assert Finishes(json, plan, init, j);
      }
    }
    if j :| Finishes(json, plan, init, j) {
      assert msgs[..j] == init[..j];
      assert Finishes(json, plan, msgs, j);
    }
    if m.Text? && |m.data| <= 1 && !Ended(json, init) && exists id :: InsideFile(json, plan, init, id) {
      assert Finishes(json, plan, msgs, |init|);
    }
  }

  lemma MessageFinishes(env: ReceiverEnv, json: Json, plan: Plan, s: LoopState, m: Msg)
    requires json.Lawful()
    ensures Handle(env, json, plan, s, m).next == Over(Finished)
       <==> (s == Over(Finished) || (s.Going? && m.Text? && |m.data| <= 1 && s.open.Some?))
  {
    hide Listed, RoundTrips, NeverEmpty;
  }

  lemma OpenIsInside(env: ReceiverEnv, json: Json, plan: Plan, msgs: seq<Msg>)
    requires json.Lawful() && After(env, json, plan, msgs).Going?
    ensures After(env, json, plan, msgs).open.Some? <==> exists id :: InsideFile(json, plan, msgs, id)
  {
    hide After, InsideFile, Json.Lawful;
    var s := After(env, json, plan, msgs);
    if s.open.Some? {
      Isolation(env, json, plan, msgs, s.open.value);
    }
    if id :| InsideFile(json, plan, msgs, id) {
      Isolation(env, json, plan, msgs, id);
    }
  }

  /** After any messages whatever: the loop has finished exactly if it came to a delimiter inside a file. */
  lemma {:induction false} FinishesExactly(env: ReceiverEnv, json: Json, plan: Plan, msgs: seq<Msg>)
    requires json.Lawful()
    ensures After(env, json, plan, msgs) == Over(Finished) <==> exists j :: Finishes(json, plan, msgs, j)
  {
    hide Handle, After, InsideFile, Ended, Json.Lawful;
    if msgs == [] {
      BeforeAll(env, json, plan);
    } else {
      var init, m := msgs[..|msgs| - 1], msgs[|msgs| - 1];
      var s := After(env, json, plan, init);
      assert msgs == init + [m];
      FinishesExactly(env, json, plan, init);
      AfterOneMore(env, json, plan, init, m);
      MessageFinishes(env, json, plan, s, m);
      FinishesMore(json, plan, init, m);
      Isolation(env, json, plan, init, "");
      if s.Going? {
        OpenIsInside(env, json, plan, init);
      }
    }
  }

  // ----- The streams of any messages ----------------------------------------

  /** The binary messages up to the next string message. */
  function Leading(msgs: seq<Msg>): Bytes {
    if msgs == [] || msgs[0].Text? then [] else msgs[0].data + Leading(msgs[1..])
  }

  /** Each accepted header starts a file of the binary messages behind it; a string that is no header ends it all. */
  function Segments(json: Json, plan: Plan, msgs: seq<Msg>): seq<(string, Bytes)> {
    if msgs == [] || EndsLoop(json, msgs[0]) then []
    else
      (if msgs[0].Binary? then []
       else
         var h := json.header.read(msgs[0].data).value;
         if AcceptedHeader(json, plan, msgs[0], h.id) then [(h.id, Leading(msgs[1..]))] else [])
      + Segments(json, plan, msgs[1..])
  }

  /** What these messages add to what has been heard so far. */
  function HeardAfter(json: Json, plan: Plan, s: LoopState, streams: seq<(string, Bytes)>,
                      msgs: seq<Msg>): seq<(string, Bytes)> {
    if s.Over? then streams
    else
      (if s.open.Some? then AppendToLast(streams, s.open.value, Leading(msgs)) else streams)
      + Segments(json, plan, msgs)
  }

  /** The open file is the last one heard of. */
  predicate HearsOpen(s: LoopState, streams: seq<(string, Bytes)>) {
    s.Going? && s.open.Some? ==> streams != [] && streams[|streams| - 1].0 == s.open.value
  }

  lemma AppendTwice(streams: seq<(string, Bytes)>, id: string, a: Bytes, b: Bytes)
    ensures AppendToLast(AppendToLast(streams, id, a), id, b) == AppendToLast(streams, id, a + b)
    ensures AppendToLast(streams, id, []) == streams
  {
    if streams != [] && streams[|streams| - 1].0 == id {
      var (id', bytes) := streams[|streams| - 1];
      assert bytes + a + b == bytes + (a + b) && bytes + [] == bytes;
    }
  }

  lemma BinaryHandled(env: ReceiverEnv, json: Json, plan: Plan, s: LoopState, m: Msg)
    requires s.Going? && m.Binary?
    ensures Handle(env, json, plan, s, m).next == s && Handle(env, json, plan, s, m).send == []
    ensures Handle(env, json, plan, s, m).log
         == [if s.open.Some? then Data(s.open.value, m.data)
             else FileError("unknown", "Received binary data without a header")]
  {
  }

  /** The header a string message holds, if it is accepted. */
  function AcceptedFile(json: Json, plan: Plan, m: Msg): Option<string> {
    var h := json.header.read(m.data);
    if h.Some? && AcceptedHeader(json, plan, m, h.value.id) then Some(h.value.id) else None
  }

  lemma HeaderHandled(json: Json, plan: Plan, done: nat, m: Msg)
    requires m.Text?
    ensures
      var move := OpenFile(json, plan, done, m);
      && move.send == []
      && (EndsLoop(json, m) ==> move.next == REnded(Failed) && move.log == [])
      && (!EndsLoop(json, m) ==>
            && move.next == RAwaitFile(plan, AcceptedFile(json, plan, m), done) && |move.log| == 1
            && if AcceptedFile(json, plan, m).Some? then move.log[0] == Opened(AcceptedFile(json, plan, m).value)
               else move.log[0].FileError?)
  {
  }

  lemma DelimiterEnds(json: Json, m: Msg)
    requires json.Lawful() && IsDelimiter(m)
    ensures EndsLoop(json, m)
  {
  }

  /** A string message closes the open file, and then counts as a header. */
  lemma TextHandled(env: ReceiverEnv, json: Json, plan: Plan, s: LoopState, m: Msg) returns (header: seq<Event>)
    requires json.Lawful() && s.Going? && m.Text?
    ensures
      var move := Handle(env, json, plan, s, m);
      && move.log == CloseLog(s.open) + header
      && (move.next.Over? <==> EndsLoop(json, m))
      && (EndsLoop(json, m) ==> header == [])
      && (!EndsLoop(json, m) ==>
            && move.next.open == AcceptedFile(json, plan, m) && |header| == 1
            && if AcceptedFile(json, plan, m).Some? then header[0] == Opened(AcceptedFile(json, plan, m).value)
               else header[0].FileError?)
  {
    hide OpenFile, AcceptedFile, EndsLoop, Json.Lawful;
    var done := if s.open.Some? then s.done + 1 else s.done;
    HeaderHandled(json, plan, done, m);
    if IsDelimiter(m) {
      DelimiterEnds(json, m);
    }
    header := OpenFile(json, plan, done, m).log;
  }

  lemma BinarySegments(json: Json, plan: Plan, m: Msg, rest: seq<Msg>)
    requires m.Binary?
    ensures Leading([m] + rest) == m.data + Leading(rest)
    ensures Segments(json, plan, [m] + rest) == Segments(json, plan, rest)
  {
    assert ([m] + rest)[1..] == rest;
  }

  lemma TextSegments(json: Json, plan: Plan, m: Msg, rest: seq<Msg>)
    requires m.Text?
    ensures Leading([m] + rest) == []
    ensures Segments(json, plan, [m] + rest)
         == if EndsLoop(json, m) then []
            else if AcceptedFile(json, plan, m).Some? then
              [(AcceptedFile(json, plan, m).value, Leading(rest))] + Segments(json, plan, rest)
            else Segments(json, plan, rest)
  {
    assert ([m] + rest)[1..] == rest;
  }

  lemma BinaryHeard(env: ReceiverEnv, json: Json, plan: Plan, s: LoopState, log: seq<Event>, m: Msg, rest: seq<Msg>)
    requires s.Going? && m.Binary? && HearsOpen(s, Streams(log))
    ensures
      var move := Handle(env, json, plan, s, m);
      && HearsOpen(move.next, Streams(log + move.log))
      && HeardAfter(json, plan, move.next, Streams(log + move.log), rest)
         == HeardAfter(json, plan, s, Streams(log), [m] + rest)
  {
    BinaryHandled(env, json, plan, s, m);
    BinarySegments(json, plan, m, rest);
    hide Handle, Streams, Segments, Leading, AppendToLast;
    var streams := Streams(log);
    StreamsPush(log, Handle(env, json, plan, s, m).log[0]);
    if s.open.Some? {
      AppendTwice(streams, s.open.value, m.data, Leading(rest));
      AppendKeepsLast(streams, s.open.value, m.data);
    }
  }

  lemma AppendKeepsLast(streams: seq<(string, Bytes)>, id: string, bytes: Bytes)
    requires streams != [] && streams[|streams| - 1].0 == id
    ensures
      var after := AppendToLast(streams, id, bytes);
      after != [] && after[|after| - 1].0 == id
  {
  }

  lemma StringHeard(log: seq<Event>, open: Option<string>, header: seq<Event>, id: Option<string>)
    requires header == [] || (|header| == 1 && if id.Some? then header[0] == Opened(id.value) else header[0].FileError?)
    requires id.Some? ==> header != []
    ensures Streams(log + (CloseLog(open) + header)) == Streams(log) + if id.Some? then [(id.value, [])] else []
  {
    StreamsQuiet(log, CloseLog(open));
    var closed := log + CloseLog(open);
    assert log + (CloseLog(open) + header) == closed + header;
    hide Streams;
    if header == [] {
      assert closed + header == closed;
    } else {
      assert header == [header[0]];
      StreamsPush(closed, header[0]);
    }
  }

  lemma TextHeard(env: ReceiverEnv, json: Json, plan: Plan, s: LoopState, log: seq<Event>, m: Msg, rest: seq<Msg>)
    requires json.Lawful() && s.Going? && m.Text? && HearsOpen(s, Streams(log))
    ensures
      var move := Handle(env, json, plan, s, m);
      && HearsOpen(move.next, Streams(log + move.log))
      && HeardAfter(json, plan, move.next, Streams(log + move.log), rest)
         == HeardAfter(json, plan, s, Streams(log), [m] + rest)
  {
    hide Handle, Streams, HearsOpen, HeardAfter, Json.Lawful, EndsLoop, AcceptedFile, CloseLog;
    var header := TextHandled(env, json, plan, s, m);
    if EndsLoop(json, m) {
      NoFileAtTheEnd(json, plan, m);
    }
    StringHeard(log, s.open, header, AcceptedFile(json, plan, m));
    HeardAfterString(json, plan, s, Handle(env, json, plan, s, m).next, Streams(log), m, rest);
  }

  lemma NoFileAtTheEnd(json: Json, plan: Plan, m: Msg)
    requires EndsLoop(json, m)
    ensures AcceptedFile(json, plan, m) == None
  {
  }

  lemma HeardAfterString(json: Json, plan: Plan, s: LoopState, next: LoopState, streams: seq<(string, Bytes)>, m: Msg,
                         rest: seq<Msg>)
    requires s.Going? && m.Text? && HearsOpen(s, streams)
    requires if EndsLoop(json, m) then next.Over? else next.Going? && next.open == AcceptedFile(json, plan, m)
    ensures
      var id := AcceptedFile(json, plan, m);
      var after := streams + if id.Some? then [(id.value, [])] else [];
      && HearsOpen(next, after)
      && HeardAfter(json, plan, next, after, rest) == HeardAfter(json, plan, s, streams, [m] + rest)
  {
    hide AppendToLast, Segments, Leading, EndsLoop, AcceptedFile;
    TextSegments(json, plan, m, rest);
    NothingAppended(s, streams);
    if EndsLoop(json, m) {
      NoFileAtTheEnd(json, plan, m);
    } else if AcceptedFile(json, plan, m).Some? {
      FileHeard(streams, AcceptedFile(json, plan, m).value, Leading(rest), Segments(json, plan, rest));
    }
  }

  lemma NothingAppended(s: LoopState, streams: seq<(string, Bytes)>)
    requires s.Going?
    ensures s.open.Some? ==> AppendToLast(streams, s.open.value, []) == streams
  {
    if s.open.Some? {
      AppendTwice(streams, s.open.value, [], []);
    }
  }

  lemma FileHeard(streams: seq<(string, Bytes)>, id: string, bytes: Bytes, more: seq<(string, Bytes)>)
    ensures AppendToLast(streams + [(id, [])], id, bytes) + more == streams + ([(id, bytes)] + more)
  {
    HearData(streams, id, [], bytes);
    assert [] + bytes == bytes;
  }

  /** Once the loop has this state and has reported this log. */
  lemma {:induction false} HeardFrom(env: ReceiverEnv, json: Json, plan: Plan, used: seq<Msg>, msgs: seq<Msg>)
    requires json.Lawful() && HearsOpen(After(env, json, plan, used), Streams(LoopLog(env, json, plan, used)))
    ensures Streams(LoopLog(env, json, plan, used + msgs))
         == HeardAfter(json, plan, After(env, json, plan, used), Streams(LoopLog(env, json, plan, used)), msgs)
    decreases |msgs|
  {
    hide Handle, After, LoopLog, Streams;
    var s, log := After(env, json, plan, used), LoopLog(env, json, plan, used);
    if msgs == [] {
      assert used + msgs == used;
      NothingHeard(json, plan, s, Streams(log));
    } else {
      var m, rest := msgs[0], msgs[1..];
      assert used + [m] + rest == used + msgs && [m] + rest == msgs;
      AfterOneMore(env, json, plan, used, m);
      if s.Over? {
        OverIsOver(env, json, plan, s, m);
        assert log + [] == log;
      } else if m.Binary? {
        BinaryHeard(env, json, plan, s, log, m, rest);
      } else {
        TextHeard(env, json, plan, s, log, m, rest);
      }
      HeardFrom(env, json, plan, used + [m], rest);
    }
  }

  lemma NothingHeard(json: Json, plan: Plan, s: LoopState, streams: seq<(string, Bytes)>)
    ensures HeardAfter(json, plan, s, streams, []) == streams
  {
    if s.Going? {
      NothingAppended(s, streams);
    }
  }

  lemma OverIsOver(env: ReceiverEnv, json: Json, plan: Plan, s: LoopState, m: Msg)
    requires s.Over?
    ensures Handle(env, json, plan, s, m) == Move(s, [], [])
  {
  }

  function LoopBracket(s: LoopState): Bracket {
    if s.Going? && s.open.Some? then Open(s.open.value) else Shut
  }

  lemma MessageFollows(env: ReceiverEnv, json: Json, plan: Plan, s: LoopState, m: Msg)
    requires json.Lawful()
    ensures LoopBracket(Handle(env, json, plan, s, m).next)
         == FollowAll(LoopBracket(s), Handle(env, json, plan, s, m).log)
  {
    hide FollowAll, Handle, EndsLoop, AcceptedFile, Json.Lawful;
    if s.Over? {
      OverIsOver(env, json, plan, s, m);
    } else if m.Binary? {
      BinaryHandled(env, json, plan, s, m);
    } else {
      var header := TextHandled(env, json, plan, s, m);
    }
    FollowShort(LoopBracket(s), Handle(env, json, plan, s, m).log);
  }

  /** And every byte of it is reported while its own file is open. */
  lemma {:induction false} LoopIsBracketed(env: ReceiverEnv, json: Json, plan: Plan, msgs: seq<Msg>)
    requires json.Lawful()
    ensures Brackets(LoopLog(env, json, plan, msgs)) == LoopBracket(After(env, json, plan, msgs))
  {
    hide Handle, FollowAll, LoopBracket;
    if msgs == [] {
      ShutBeforeAll(env, json, plan);
    } else {
      var init, m := msgs[..|msgs| - 1], msgs[|msgs| - 1];
      LoopIsBracketed(env, json, plan, init);
      MessageFollows(env, json, plan, After(env, json, plan, init), m);
      BracketsOn(LoopLog(env, json, plan, init), Handle(env, json, plan, After(env, json, plan, init), m).log);
    }
  }

  lemma ShutBeforeAll(env: ReceiverEnv, json: Json, plan: Plan)
    ensures Brackets(LoopLog(env, json, plan, [])) == LoopBracket(After(env, json, plan, []))
  {
  }

  /**
   For any messages whatever: what the application reads is exactly the
   messages cut up by their accepted headers, byte for byte and in order.
   */
  lemma StreamsAreSegments(env: ReceiverEnv, json: Json, plan: Plan, msgs: seq<Msg>)
    requires json.Lawful()
    ensures Streams(LoopLog(env, json, plan, msgs)) == Segments(json, plan, msgs)
  {
    HeardFrom(env, json, plan, [], msgs);
    assert [] + msgs == msgs;
  }

  // ----- Single messages ----------------------------------------------------

  lemma HandledData(env: ReceiverEnv, json: Json, plan: Plan, s: LoopState, m: Msg, id: string, bytes: Bytes)
    requires json.Lawful()
    ensures Data(id, bytes) in Handle(env, json, plan, s, m).log
       <==> s.Going? && s.open == Some(id) && m == Binary(bytes)
  {
    hide Handle, Json.Lawful, EndsLoop, AcceptedFile;
    if s.Over? {
      OverIsOver(env, json, plan, s, m);
    } else if m.Binary? {
      BinaryHandled(env, json, plan, s, m);
    } else {
      var header := TextHandled(env, json, plan, s, m);
    }
  }

  /** The k-th message carries these bytes inside this file, before the loop ended. */
  ghost predicate Carries(json: Json, plan: Plan, msgs: seq<Msg>, k: int, id: string, bytes: Bytes) {
    && 0 <= k < |msgs| && msgs[k] == Binary(bytes)
    && InsideFile(json, plan, msgs[..k], id) && !Ended(json, msgs[..k])
  }

  lemma CarriesOneMore(json: Json, plan: Plan, init: seq<Msg>, m: Msg, id: string, bytes: Bytes)
    ensures (exists k :: Carries(json, plan, init + [m], k, id, bytes))
       <==> ((exists k :: Carries(json, plan, init, k, id, bytes))
             || (m == Binary(bytes) && InsideFile(json, plan, init, id) && !Ended(json, init)))
  {
    var msgs := init + [m];
    hide InsideFile, Ended;
    assert msgs[..|init|] == init;
    if k :| Carries(json, plan, msgs, k, id, bytes) {
      if k < |init| {
        assert msgs[..k] == init[..k];
        assert Carries(json, plan, init, k, id, bytes);
      }
    }
    if k :| Carries(json, plan, init, k, id, bytes) {
      assert msgs[..k] == init[..k];
      assert Carries(json, plan, msgs, k, id, bytes);
    }
    if m == Binary(bytes) && InsideFile(json, plan, init, id) && !Ended(json, init) {
      assert Carries(json, plan, msgs, |init|, id, bytes);
    }
  }

  /**
   For any messages whatever: these bytes reach this file's stream exactly if
   they came in a binary message, inside that file, before the loop ended.
   */
  lemma {:induction false} BytesStayInTheirFile(env: ReceiverEnv, json: Json, plan: Plan, msgs: seq<Msg>, id: string,
                                                bytes: Bytes)
    requires json.Lawful()
    ensures Data(id, bytes) in LoopLog(env, json, plan, msgs) <==> exists k :: Carries(json, plan, msgs, k, id, bytes)
  {
    hide Handle, After, Carries, InsideFile, Ended;
    if msgs == [] {
      NothingCarried(json, plan, id, bytes);
    } else {
      var init, m := msgs[..|msgs| - 1], msgs[|msgs| - 1];
      var s := After(env, json, plan, init);
      assert msgs == init + [m];
      BytesStayInTheirFile(env, json, plan, init, id, bytes);
      Isolation(env, json, plan, init, id);
      HandledData(env, json, plan, s, m, id, bytes);
      CarriesOneMore(json, plan, init, m, id, bytes);
    }
  }

  lemma NothingCarried(json: Json, plan: Plan, id: string, bytes: Bytes)
    ensures !exists k :: Carries(json, plan, [], k, id, bytes)
  {
  }
}
