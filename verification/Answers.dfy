/** What the sender's application learns about its files: the user's word on each, in the order they were opened. */
module Answers {
  import opened Prelude
  import opened Channel
  import opened Framing
  import opened Transfer
  import opened Session
  import opened Loops

  /** The files opened so far. */
  function Opens(log: seq<Event>): seq<string> {
    if log == [] then []
    else Opens(log[..|log| - 1]) + if log[|log| - 1].Opened? then [log[|log| - 1].id] else []
  }

  /**
   This tells of the k-th file what the user said of it: success, or a failure
   with a reason, which is the user's if there is one.
   */
  ghost predicate Tells(json: Json, results: seq<UserResult>, k: nat, id: string, m: Msg) {
    && m.Text? && json.fileResponse.read(m.data).Some?
    && var r := json.fileResponse.read(m.data).value;
    && r.id == id
    && (r.success <==> k < |results| && results[k].success)
    && (r.success ==> r.error == None)
    && (!r.success ==> r.error.Some?)
    && (k < |results| && !results[k].success && results[k].error.Some? ==> r.error == results[k].error)
  }

  lemma ReplyTells(env: ReceiverEnv, json: Json, id: string, k: nat)
    requires RoundTrips(json.fileResponse)
    ensures Tells(json, env.results, k, id, Text(json.fileResponse.write(Reply(env, id, k))))
  {
    Reads(json.fileResponse, Reply(env, id, k));
  }

  lemma {:induction false} OpensAppend(a: seq<Event>, b: seq<Event>)
    ensures Opens(a + b) == Opens(a) + Opens(b)
    decreases |b|
  {
    if b == [] {
      assert a + b == a;
    } else {
      assert (a + b)[..|a + b| - 1] == a + b[..|b| - 1];
      OpensAppend(a, b[..|b| - 1]);
    }
  }

  // ----- After any messages -----------------------------------------------------

  /** How many of the opened files wait for their end. */
  function Unanswered(s: LoopState): nat {
    if s.Going? && s.open.Some? then 1 else 0
  }

  /** The k-th message tells of the k-th file, for as many as there are messages. */
  ghost predicate TellsAll(json: Json, results: seq<UserResult>, ids: seq<string>, ms: seq<Msg>) {
    |ms| <= |ids| && forall k :: 0 <= k < |ms| ==> Tells(json, results, k, ids[k], ms[k])
  }

  lemma TellsMore(json: Json, results: seq<UserResult>, ids: seq<string>, more: seq<string>, ms: seq<Msg>,
                  next: seq<Msg>)
    requires TellsAll(json, results, ids, ms) && |next| <= 1
    requires next != [] ==> |ms| < |ids| && Tells(json, results, |ms|, ids[|ms|], next[0])
    ensures TellsAll(json, results, ids + more, ms + next)
  {
    hide Tells;
  }

  ghost predicate Counted(s: LoopState, ids: seq<string>, replies: seq<Msg>) {
    && |ids| == |replies| + Unanswered(s)
    && (s.Going? ==> s.done == |replies|)
    && (s.Going? && s.open.Some? ==> ids[|ids| - 1] == s.open.value)
  }

  lemma TextAnswered(env: ReceiverEnv, json: Json, plan: Plan, s: LoopState, m: Msg)
    requires json.Lawful() && s.Going? && m.Text?
    ensures
      var move := Handle(env, json, plan, s, m);
      && move.send == ReplyTo(env, json, s.open, s.done)
      && (move.next.Going? ==> move.next.done == s.done + Unanswered(s))
  {
    hide Listed, RoundTrips;
  }

  lemma OneEvent(e: Event)
    ensures Opens([e]) == if e.Opened? then [e.id] else []
    ensures Opens([]) == []
  {
    assert [e][..0] == [];
  }

  lemma MessageCounted(env: ReceiverEnv, json: Json, plan: Plan, s: LoopState, ids: seq<string>, replies: seq<Msg>,
                       m: Msg)
    requires json.Lawful() && Counted(s, ids, replies)
    ensures
      var move := Handle(env, json, plan, s, m);
      Counted(move.next, ids + Opens(move.log), replies + move.send)
  {
    hide Handle, Opens, Json.Lawful, EndsLoop, AcceptedFile;
    OneEvent(GaveUp);
    if s.Over? {
      OverIsOver(env, json, plan, s, m);
    } else if m.Binary? {
      BinaryHandled(env, json, plan, s, m);
      OneEvent(Handle(env, json, plan, s, m).log[0]);
    } else {
      var header := TextHandled(env, json, plan, s, m);
      TextAnswered(env, json, plan, s, m);
      OpensAppend(CloseLog(s.open), header);
      if s.open.Some? {
        OneEvent(Closed(s.open.value));
      }
      if header != [] {
        OneEvent(header[0]);
        assert header == [header[0]];
      }
    }
  }

  lemma MessageTells(env: ReceiverEnv, json: Json, plan: Plan, s: LoopState, ids: seq<string>, replies: seq<Msg>,
                     m: Msg)
    requires json.Lawful() && Counted(s, ids, replies) && TellsAll(json, env.results, ids, replies)
    ensures
      var move := Handle(env, json, plan, s, m);
      TellsAll(json, env.results, ids + Opens(move.log), replies + move.send)
  {
    hide Handle, Opens, Tells, Json.Lawful;
    var move := Handle(env, json, plan, s, m);
    if s.Over? {
      OverIsOver(env, json, plan, s, m);
    } else if m.Binary? {
      BinaryHandled(env, json, plan, s, m);
    } else {
      TextAnswered(env, json, plan, s, m);
      if s.open.Some? {
        FilesRoundTrip(json);
        ReplyTells(env, json, s.open.value, s.done);
      }
    }
    TellsMore(json, env.results, ids, Opens(move.log), replies, move.send);
  }

  lemma FilesRoundTrip(json: Json)
    requires json.Lawful()
    ensures RoundTrips(json.fileResponse)
  {
  }

  /**
   After any messages whatever: every opened file but the open one has been
   answered, in the order of their opening, each with the user's word on it.
   */
  lemma {:induction false} LoopTells(env: ReceiverEnv, json: Json, plan: Plan, msgs: seq<Msg>)
    requires json.Lawful()
    ensures
      var (s, ids, replies) :=
        (After(env, json, plan, msgs), Opens(LoopLog(env, json, plan, msgs)), LoopReplies(env, json, plan, msgs));
      && |replies| == |ids| - Unanswered(s)
      && forall k :: 0 <= k < |replies| ==> Tells(json, env.results, k, ids[k], replies[k])
  {
    LoopCounted(env, json, plan, msgs);
  }

  lemma {:induction false} LoopCounted(env: ReceiverEnv, json: Json, plan: Plan, msgs: seq<Msg>)
    requires json.Lawful()
    ensures
      var (s, ids, replies) :=
        (After(env, json, plan, msgs), Opens(LoopLog(env, json, plan, msgs)), LoopReplies(env, json, plan, msgs));
      Counted(s, ids, replies) && TellsAll(json, env.results, ids, replies)
  {
    hide Handle, Json.Lawful, Tells;
    if msgs != [] {
      var init, m := msgs[..|msgs| - 1], msgs[|msgs| - 1];
      var s := After(env, json, plan, init);
      var ids, replies := Opens(LoopLog(env, json, plan, init)), LoopReplies(env, json, plan, init);
      LoopCounted(env, json, plan, init);
      MessageCounted(env, json, plan, s, ids, replies, m);
      MessageTells(env, json, plan, s, ids, replies, m);
      OpensAppend(LoopLog(env, json, plan, init), Handle(env, json, plan, s, m).log);
    }
  }

  // ----- In a session -----------------------------------------------------------

  /** Where the receiver stands once it has sent what it is sending. */
  function Base(r: Receiver): Receiver {
    match r
    case RStream(_, next) => Base(next)
    case RDelimit(next) => Base(next)
    case _ => r
  }

  /** How many of the opened files have no reply yet. */
  function Waiting(r: Receiver): nat {
    if r.RReply? || (r.RAwaitFile? && r.open.Some?) then 1 else 0
  }

  /** The receiver's count is that of the files it has opened, and the last of them is the open one. */
  ghost predicate Keeps(r: Receiver, ids: seq<string>) {
    match Base(r)
    case RAwaitFile(_, open, done) =>
      && |ids| == done + Waiting(Base(r)) && (Base(r) != r ==> ids == [] && open == None)
      && (open.Some? ==> ids[|ids| - 1] == open.value)
    case RReply(_, id, done, _) => Base(r) == r && |ids| == done + 1 && ids[done] == id
    case REnded(_) => Base(r) != r ==> ids == []
    case _ => ids == []
  }

  /** The last messages on their way to the sender tell, in order, of the last files answered. */
  ghost predicate Tidings(x: Session, ids: seq<string>, answered: int, ms: seq<Msg>) {
    && answered <= |ids|
    && forall i :: 0 <= i < |ms| && 0 <= answered - |ms| + i ==>
                     Tells(x.json, x.receiver.results, answered - |ms| + i, ids[answered - |ms| + i], ms[i])
  }

  ghost predicate Told(x: Session, n: Peers) {
    var ids := Opens(n.logRight);
    Keeps(n.right, ids) && Tidings(x, ids, |ids| - Waiting(n.right), n.toLeft)
  }

  lemma KeepsString(bytes: Bytes, next: Receiver)
    ensures Base(RSendString(bytes, next)) == Base(next)
  {
    assert Base(RDelimit(next)) == Base(next);
  }

  lemma OpenKeeps(json: Json, plan: Plan, done: nat, m: Msg, ids: seq<string>)
    requires |ids| == done
    ensures
      var move := OpenFile(json, plan, done, m);
      Keeps(move.next, ids + Opens(move.log)) && |ids + Opens(move.log)| - Waiting(move.next) == done
  {
    hide Listed;
    var move := OpenFile(json, plan, done, m);
    if move.log != [] {
      OneEvent(move.log[0]);
      assert move.log == [move.log[0]];
    }
  }

  lemma ChoiceKeeps(env: ReceiverEnv, json: Json, r: Receiver, ids: seq<string>)
    requires Keeps(r, ids) && r.RChoose?
    ensures
      var move := ReceiverRun(env, json, r);
      var more := ids + Opens(move.log);
      Keeps(move.next, more) && |more| - Waiting(move.next) == 0
  {
    hide OpenFile, Feed.Step, Opens;
    KeepsString(json.fileList.write(ListDeclined), REnded(Declined));
    KeepsString(json.fileList.write(ListOk(FileTokens(env))), RAwaitFile(Plan(r.files, FileTokens(env)), None, 0));
    assert [Connected, Published(r.files)] == [Connected] + [Published(r.files)];
    OpensAppend([Connected], [Published(r.files)]);
    OneEvent(Connected);
    OneEvent(Published(r.files));
  }

  lemma RunKeeps(env: ReceiverEnv, json: Json, r: Receiver, ids: seq<string>)
    requires Keeps(r, ids) && ReceiverMode(r) == Running
    ensures
      var move := ReceiverRun(env, json, r);
      var more := ids + Opens(move.log);
      && Keeps(move.next, more)
      && (r.RReply? ==> |more| - Waiting(move.next) == |ids|)
      && (!r.RReply? ==> |more| - Waiting(move.next) == 0)
  {
    hide OpenFile, Feed.Step, Opens;
    var move := ReceiverRun(env, json, r);
    OneEvent(GaveUp);
    if r.RReply? {
      OpenKeeps(json, r.plan, r.done + 1, r.m, ids);
    } else if r.RChoose? {
      ChoiceKeeps(env, json, r, ids);
    } else if move.log != [] {
      assert move.log == [move.log[0]];
      OneEvent(move.log[0]);
    }
  }

  lemma TakeKeeps(x: Session, r: Receiver, m: Msg, ids: seq<string>)
    requires Keeps(r, ids) && ReceiverMode(r) == Mode.Waiting
    ensures
      var move := ReceiverTakes(x.receiver, x.json, x.strict, r, m);
      var more := ids + Opens(move.log);
      Keeps(move.next, more) && |more| - Waiting(move.next) == |ids| - Waiting(r) && move.send == []
  {
    hide OpenFile, Opens;
    var move := ReceiverTakes(x.receiver, x.json, x.strict, r, m);
    OneEvent(GaveUp);
    if r.RAwaitFile? && m.Text? && r.open == None {
      OpenKeeps(x.json, r.plan, r.done, m, ids);
      OpenSendsNothing(x.json, r.plan, r.done, m);
    } else if move.log != [] {
      assert move.log == [move.log[0]];
      OneEvent(move.log[0]);
    }
  }

  lemma OpenSendsNothing(json: Json, plan: Plan, done: nat, m: Msg)
    ensures OpenFile(json, plan, done, m).send == []
  {
  }

  lemma TidingsTaken(x: Session, ids: seq<string>, answered: int, ms: seq<Msg>)
    requires Tidings(x, ids, answered, ms) && ms != []
    ensures Tidings(x, ids, answered, ms[1..])
  {
    hide Tells;
    assert forall i :: 0 <= i < |ms| - 1 ==> ms[1..][i] == ms[i + 1];
    forall i | 0 <= i < |ms| - 1 && 0 <= answered - (|ms| - 1) + i
      ensures Tells(x.json, x.receiver.results, answered - (|ms| - 1) + i, ids[answered - (|ms| - 1) + i], ms[1..][i])
    {
      var j := i + 1;
      assert Tells(x.json, x.receiver.results, answered - |ms| + j, ids[answered - |ms| + j], ms[j]);
    }
  }

  lemma TidingsKept(x: Session, ids: seq<string>, more: seq<string>, answered: int, ms: seq<Msg>)
    requires Tidings(x, ids, answered, ms)
    ensures Tidings(x, ids + more, answered, ms)
  {
    hide Tells;
  }

  lemma NoTidings(x: Session, ids: seq<string>, ms: seq<Msg>)
    ensures Tidings(x, ids, 0, ms)
  {
  }

  lemma TidingsSent(x: Session, ids: seq<string>, more: seq<string>, answered: nat, ms: seq<Msg>, m: Msg)
    requires Tidings(x, ids, answered, ms) && answered < |ids|
    requires Tells(x.json, x.receiver.results, answered, ids[answered], m)
    ensures Tidings(x, ids + more, answered + 1, ms + [m])
  {
    hide Tells;
    forall i | 0 <= i < |ms| + 1 && 0 <= answered - |ms| + i
      ensures Tells(x.json, x.receiver.results, answered - |ms| + i, (ids + more)[answered - |ms| + i], (ms + [m])[i])
    {
      if i < |ms| {
        assert Tells(x.json, x.receiver.results, answered - |ms| + i, ids[answered - |ms| + i], ms[i]);
      }
    }
  }

  lemma LeftTold(x: Session, n: Peers)
    requires x.Pair().Enabled(n, Left) && Told(x, n)
    ensures Told(x, x.Pair().Next(n, Left))
  {
    hide SenderRun, SenderTakes, Keeps, Tidings;
    if SenderMode(n.left) == Mode.Waiting {
      TidingsTaken(x, Opens(n.logRight), |Opens(n.logRight)| - Waiting(n.right), n.toLeft);
    }
  }

  lemma RightRunTold(x: Session, n: Peers)
    requires x.json.Lawful() && ReceiverMode(n.right) == Running && Told(x, n)
    ensures
      var move := ReceiverRun(x.receiver, x.json, n.right);
      Told(x, n.(right := move.next, toLeft := n.toLeft + move.send, logRight := n.logRight + move.log))
  {
    hide Json.Lawful, Tidings, Opens, OpenFile;
    var move := ReceiverRun(x.receiver, x.json, n.right);
    var ids, ms := Opens(n.logRight), n.toLeft;
    RunKeeps(x.receiver, x.json, n.right, ids);
    OpensAppend(n.logRight, move.log);
    if n.right.RReply? {
      FilesRoundTrip(x.json);
      ReplyTells(x.receiver, x.json, n.right.id, n.right.done);
      TidingsSent(x, ids, Opens(move.log), |ids| - 1, ms, move.send[0]);
      assert move.send == [move.send[0]];
    } else {
      NoTidings(x, ids + Opens(move.log), ms + move.send);
    }
  }

  lemma RightTold(x: Session, n: Peers)
    requires x.json.Lawful() && x.Pair().Enabled(n, Right) && Told(x, n)
    ensures Told(x, x.Pair().Next(n, Right))
  {
    hide ReceiverRun, ReceiverTakes, Keeps, Tidings, Json.Lawful, Opens, Waiting;
    if ReceiverMode(n.right) == Running {
      RightRunTold(x, n);
    } else {
      var move := ReceiverTakes(x.receiver, x.json, x.strict, n.right, n.toRight[0]);
      var ids := Opens(n.logRight);
      TakeKeeps(x, n.right, n.toRight[0], ids);
      OpensAppend(n.logRight, move.log);
      TidingsKept(x, ids, Opens(move.log), |ids| - Waiting(n.right), n.toLeft);
      assert n.toLeft + [] == n.toLeft;
    }
  }

  lemma {:induction false} AlwaysTold(x: Session, n: Peers, t: seq<Side>, m: Peers)
    requires x.json.Lawful() && x.Pair().Runs(n, t, m) && Told(x, n)
    ensures Told(x, m)
    decreases |t|
  {
    hide Told, Json.Lawful, System.Next, System.Enabled;
    if t != [] {
      if t[0].Left? {
        LeftTold(x, n);
      } else {
        RightTold(x, n);
      }
      AlwaysTold(x, x.Pair().Next(n, t[0]), t[1..], m);
    }
  }

  lemma ToldAtFirst(x: Session)
    ensures Told(x, OPENING)
  {
  }

  /**
   In every reachable state of every session: all opened files but the one in
   hand have been answered, and of the messages on their way to the sender the
   last ones, as many as there are answers at most, are the last of these
   answers: in the order of the opening of the files, each with the user's word.
   */
  lemma SessionTells(x: Session, m: Peers, i: nat)
    requires x.Valid() && x.Reached(m) && i < |m.toLeft|
    ensures
      var ids := Opens(m.logRight);
      var k := |ids| - Waiting(m.right) - |m.toLeft| + i;
      0 <= k ==> k < |ids| && Tells(x.json, x.receiver.results, k, ids[k], m.toLeft[i])
  {
    hide System.Runs, Keeps, Tells, Opens, Waiting;
    var t :| x.Pair().Runs(OPENING, t, m);
    ToldAtFirst(x);
    AlwaysTold(x, OPENING, t, m);
  }
}
