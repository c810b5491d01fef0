/** From the sender's files to what the receiving application reads: order, contents, brackets, replies. */
module EndToEnd {
  import opened Prelude
  import opened Channel
  import opened Framing
  import opened Transfer
  import opened Session
  import opened Reference
  import opened Delivery
  import opened Reading
  import opened Answers
  import opened TransferTheorems

  // ----- Contents -----------------------------------------------------------

  function Contents(files: seq<Outgoing>): seq<(string, Bytes)> {
    if files == [] then [] else [(files[0].id, Flatten(files[0].pieces))] + Contents(files[1..])
  }

  lemma HearsData(streams: seq<(string, Bytes)>, id: string, c: Bytes)
    ensures Hear(streams, Data(id, c)) == AppendToLast(streams, id, c)
  {
  }

  lemma ChunkLogStep(log: seq<Event>, id: string, cs: seq<Bytes>, bytes: Bytes)
    requires cs != []
    ensures log + ChunkLog(Some(id), cs) == log + [Data(id, cs[0])] + ChunkLog(Some(id), cs[1..])
    ensures bytes + Flatten(cs) == bytes + cs[0] + Flatten(cs[1..])
  {
  }

  lemma ChunkLogEnd(log: seq<Event>, id: string, bytes: Bytes)
    ensures log + ChunkLog(Some(id), []) == log && bytes + Flatten([]) == bytes
  {
  }

  lemma {:induction false} StreamsOfChunks(log: seq<Event>, before: seq<(string, Bytes)>, id: string, bytes: Bytes,
                                               cs: seq<Bytes>)
    requires Streams(log) == before + [(id, bytes)]
    ensures Streams(log + ChunkLog(Some(id), cs)) == before + [(id, bytes + Flatten(cs))]
    decreases |cs|
  {
    hide *;
    if cs == [] {
      ChunkLogEnd(log, id, bytes);
    } else {
      ChunkLogStep(log, id, cs, bytes);
      StreamsPush(log, Data(id, cs[0]));
      HearData(before, id, bytes, cs[0]);
      HearsData(before + [(id, bytes)], id, cs[0]);
      StreamsOfChunks(log + [Data(id, cs[0])], before, id, bytes + cs[0], cs[1..]);
    }
  }

  lemma StreamsOfFile(log: seq<Event>, plan: Plan, file: Outgoing)
    ensures Streams(log + FileLog(plan, file))
         == Streams(log) + if Listed(plan.files, file.id) then [(file.id, Flatten(file.pieces))] else []
  {
    var cs := Chunks(Flatten(file.pieces), CHUNK_SIZE);
    FileLogUnfolds(log, plan, file, cs);
    hide *;
    if Listed(plan.files, file.id) {
      ChunksAreCanonical(Flatten(file.pieces), CHUNK_SIZE, cs);
      StreamsPush(log, Opened(file.id));
      StreamsOfChunks(log + [Opened(file.id)], Streams(log), file.id, [], cs);
    } else {
      Unheard(cs);
      StreamsQuiet(log, FileLog(plan, file));
    }
  }

  lemma FileLogUnfolds(log: seq<Event>, plan: Plan, file: Outgoing, cs: seq<Bytes>)
    requires cs == Chunks(Flatten(file.pieces), CHUNK_SIZE)
    ensures Listed(plan.files, file.id) ==>
              && log + FileLog(plan, file) == log + [Opened(file.id)] + ChunkLog(Some(file.id), cs)
              && Hear(Streams(log), Opened(file.id)) == Streams(log) + [(file.id, [])]
              && [] + Flatten(cs) == Flatten(file.pieces)
    ensures !Listed(plan.files, file.id) ==> forall e :: e in FileLog(plan, file) ==> e.FileError?
  {
    ChunksAreCanonical(Flatten(file.pieces), CHUNK_SIZE, cs);
    Unheard(cs);
    hide Chunks;
    hide Streams;
  }

  lemma {:induction false} Unheard(cs: seq<Bytes>)
    ensures forall e :: e in ChunkLog(None, cs) ==> e.FileError?
  {
    if cs != [] {
      Unheard(cs[1..]);
    }
  }

  lemma CloseIsQuiet(log: seq<Event>, open: Option<string>)
    ensures Streams(log + CloseLog(open)) == Streams(log)
  {
    StreamsQuiet(log, CloseLog(open));
  }

  lemma FilesLogUnfolds(log: seq<Event>, plan: Plan, open: Option<string>, sent: seq<Outgoing>)
    ensures sent == [] ==> FilesLog(plan, open, sent) == CloseLog(open) && Contents(Accepted(plan.files, sent)) == []
    ensures sent != [] ==>
              log + FilesLog(plan, open, sent)
              == log + CloseLog(open) + FileLog(plan, sent[0]) + FilesLog(plan, OpenedBy(plan, sent[0]), sent[1..])
  {
    hide CloseLog;
    hide FileLog;
  }

  /** The streams over the whole file phase are the accepted files, whole and in order. */
  lemma {:induction false} StreamsOfFiles(log: seq<Event>, plan: Plan, open: Option<string>, sent: seq<Outgoing>)
    ensures Streams(log + FilesLog(plan, open, sent)) == Streams(log) + Contents(Accepted(plan.files, sent))
    decreases sent
  {
    hide *;
    CloseIsQuiet(log, open);
    FilesLogUnfolds(log, plan, open, sent);
    if sent != [] {
      var closed := log + CloseLog(open);
      StreamsOfFile(closed, plan, sent[0]);
      StreamsOfFiles(closed + FileLog(plan, sent[0]), plan, OpenedBy(plan, sent[0]), sent[1..]);
      AcceptedContents(plan.files, sent);
    }
  }

  lemma AcceptedContents(files: seq<FileDto>, sent: seq<Outgoing>)
    requires sent != []
    ensures Contents(Accepted(files, sent))
         == (if Listed(files, sent[0].id) then [(sent[0].id, Flatten(sent[0].pieces))] else [])
           + Contents(Accepted(files, sent[1..]))
  {
    var rest := Accepted(files, sent[1..]);
    if Listed(files, sent[0].id) {
      assert ([sent[0]] + rest)[1..] == rest;
    } else {
      assert [] + rest == rest;
    }
  }

  // ----- Brackets -----------------------------------------------------------

  /** The file the receiver has open now. */
  function OpenIn(r: Receiver): Option<string> {
    match r
    case RStream(_, next) => OpenIn(next)
    case RDelimit(next) => OpenIn(next)
    case RAwaitFile(_, open, _) => open
    case _ => None
  }

  function BracketOf(r: Receiver): Bracket {
    if OpenIn(r).Some? then Open(OpenIn(r).value) else Shut
  }

  lemma OpenInString(bytes: Bytes, next: Receiver)
    ensures OpenIn(RSendString(bytes, next)) == OpenIn(next)
  {
    assert OpenIn(RDelimit(next)) == OpenIn(next);
  }

  lemma OpenFollows(json: Json, plan: Plan, done: nat, m: Msg)
    ensures
      var move := OpenFile(json, plan, done, m);
      BracketOf(move.next) == FollowAll(Shut, move.log)
  {
    hide Listed;
    FollowShort(Shut, OpenFile(json, plan, done, m).log);
  }

  lemma RunFollows(env: ReceiverEnv, json: Json, r: Receiver)
    requires ReceiverMode(r) == Running
    ensures
      var move := ReceiverRun(env, json, r);
      BracketOf(move.next) == FollowAll(BracketOf(r), move.log)
  {
    hide OpenFile, Feed.Step, FollowAll;
    FollowShort(BracketOf(r), ReceiverRun(env, json, r).log);
    if r.RReply? {
      OpenFollows(json, r.plan, r.done + 1, r.m);
    }
    if r.RChoose? {
      OpenInString(json.fileList.write(ListDeclined), REnded(Declined));
      OpenInString(json.fileList.write(ListOk(FileTokens(env))), RAwaitFile(Plan(r.files, FileTokens(env)), None, 0));
    }
  }

  lemma ReceiveFollows(env: ReceiverEnv, json: Json, strict: bool, r: Receiver, m: Msg)
    requires ReceiverMode(r) == Waiting
    ensures
      var move := ReceiverTakes(env, json, strict, r, m);
      BracketOf(move.next) == FollowAll(BracketOf(r), move.log)
  {
    hide OpenFile, FollowAll;
    FollowShort(BracketOf(r), ReceiverTakes(env, json, strict, r, m).log);
    if r.RAwaitFile? {
      OpenFollows(json, r.plan, r.done, m);
    }
  }

  lemma BracketsStep(x: Session, n: Peers, side: Side)
    requires x.Pair().Enabled(n, side) && Brackets(n.logRight) == BracketOf(n.right)
    ensures Brackets(x.Pair().Next(n, side).logRight) == BracketOf(x.Pair().Next(n, side).right)
  {
    hide ReceiverRun, ReceiverTakes, SenderRun, SenderTakes, BracketOf, Brackets, FollowAll;
    if side.Right? {
      if ReceiverMode(n.right) == Running {
        RunFollows(x.receiver, x.json, n.right);
        BracketsOn(n.logRight, ReceiverRun(x.receiver, x.json, n.right).log);
      } else {
        ReceiveFollows(x.receiver, x.json, x.strict, n.right, n.toRight[0]);
        BracketsOn(n.logRight, ReceiverTakes(x.receiver, x.json, x.strict, n.right, n.toRight[0]).log);
      }
    } else {
      assert x.Pair().Next(n, side).logRight == n.logRight && x.Pair().Next(n, side).right == n.right;
    }
  }

  lemma {:induction false} BracketsRun(x: Session, n: Peers, t: seq<Side>, m: Peers)
    requires x.Pair().Runs(n, t, m) && Brackets(n.logRight) == BracketOf(n.right)
    ensures Brackets(m.logRight) == BracketOf(m.right)
    decreases |t|
  {
    hide BracketOf, Brackets, System.Next, System.Enabled;
    if t != [] {
      BracketsStep(x, n, t[0]);
      BracketsRun(x, x.Pair().Next(n, t[0]), t[1..], m);
    }
  }

  lemma ShutAtFirst()
    ensures Brackets(OPENING.logRight) == BracketOf(OPENING.right)
  {
  }

  /**
   In every reachable state of every session whatever: the receiver opens a
   file only while none is open, and reports bytes and the end of a file only
   while that file is open; it ends with no file open.
   */
  lemma FilesAreBracketed(x: Session, m: Peers)
    requires x.Reached(m)
    ensures Brackets(m.logRight) == BracketOf(m.right)
    ensures m.right.REnded? ==> Brackets(m.logRight) == Shut
  {
    hide Brackets, System.Runs;
    var t :| x.Pair().Runs(OPENING, t, m);
    ShutAtFirst();
    BracketsRun(x, OPENING, t, m);
  }

  // ----- The whole transfer -------------------------------------------------

  /** All replies but the first, each telling what the user said of its file. */
  ghost predicate Unread(x: Session, ids: seq<string>, ms: seq<Msg>) {
    && |ms| == |ids| - 1
    && forall i :: 0 <= i < |ms| ==> Tells(x.json, x.receiver.results, i + 1, ids[i + 1], ms[i])
  }

  /**
   For any files, cut into pieces in any way, and in every interleaving: what
   the receiving application has been given is always an initial part of the
   accepted files in the order they were sent, in the end it is all of them
   byte for byte, and there is one reply for each in the same order. Every
   byte is reported for the file that is open at that moment.
   */
  lemma EndToEnd(x: Session, m: Peers)
    requires x.Valid() && Admitted(x) && x.receiver.selection.Chosen?
    requires x.Reached(m)
    ensures Brackets(m.logRight) == BracketOf(m.right)
    ensures InitialPart(Streams(m.logRight), Contents(Accepted(x.sender.files, Sent(x))))
    ensures x.Pair().Stuck(m) ==>
              && Streams(m.logRight) == Contents(Accepted(x.sender.files, Sent(x)))
              && (EndsOnAcceptedFile(x) ==>
                    && m.left == Ended(Finished) && m.right == REnded(Finished) && m.toRight == []
                    && RepliesTo(x, Ids(Accepted(x.sender.files, Sent(x))), 0) != []
                    && m.toLeft == RepliesTo(x, Ids(Accepted(x.sender.files, Sent(x))), 0)[1..]
                    && Unread(x, Ids(Accepted(x.sender.files, Sent(x))), m.toLeft))
  {
    hide *;
    var end := End(x);
    TowardEnd(x, m);
    FilesAreBracketed(x, m);
    EndStreams(x);
    StreamsGrow(m.logRight, end.logRight[|m.logRight|..]);
    assert m.logRight + end.logRight[|m.logRight|..] == end.logRight;
    if EndsOnAcceptedFile(x) {
      EndReplies(x);
    }
  }

  lemma EndReplies(x: Session)
    requires x.Valid() && EndsOnAcceptedFile(x)
    ensures
      var replies := RepliesTo(x, Ids(Accepted(x.sender.files, Sent(x))), 0);
      && replies != [] && End(x).toLeft == replies[1..] && End(x).toRight == []
      && End(x).left == Ended(Finished) && End(x).right == REnded(Finished)
      && Unread(x, Ids(Accepted(x.sender.files, Sent(x))), End(x).toLeft)
  {
    RepliesExist(x);
    OneReplyEach(x);
    hide Tells;
    OneReplyPerFile(x, None, 0, Sent(x));
    assert [] + Ids(Accepted(x.sender.files, Sent(x))) == Ids(Accepted(x.sender.files, Sent(x)));
  }

  lemma EndStreams(x: Session)
    ensures Streams(End(x).logRight) == Contents(Accepted(x.sender.files, Sent(x)))
  {
    OnlyAskedBefore(x);
    var before := ReceiverLogAfterSelection(x);
    StreamsQuiet([], before);
    assert [] + before == before;
    StreamsOfFiles(before, ThePlan(x), None, Sent(x));
  }
}
