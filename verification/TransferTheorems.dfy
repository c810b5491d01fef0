/** What every interleaving of the two transfer tasks comes to. */
module TransferTheorems {
  import opened Prelude
  import opened Channel
  import opened Framing
  import opened Transfer
  import opened Session
  import opened Reference
  import opened Delivery
  import opened Answers

  // ----- When a transfer completes ------------------------------------------

  /** The outgoing files for which the sender holds a token. */
  function Sent(x: Session): seq<Outgoing> {
    Known(Tokens(x), x.sender.outgoing)
  }

  /** Those of them that the sender had offered: the receiver opens exactly these. */
  function Accepted(files: seq<FileDto>, sent: seq<Outgoing>): seq<Outgoing> {
    if sent == [] then []
    else (if Listed(files, sent[0].id) then [sent[0]] else []) + Accepted(files, sent[1..])
  }

  /** At least one file is sent, and the last one sent was offered. */
  predicate EndsOnAcceptedFile(x: Session) {
    Sent(x) != [] && Listed(x.sender.files, Sent(x)[|Sent(x)| - 1].id)
  }

  ghost predicate Completes(x: Session) {
    Admitted(x) && x.receiver.selection.Chosen? && EndsOnAcceptedFile(x)
  }

  lemma {:induction false} KnownMeaning(tokens: map<string, string>, files: seq<Outgoing>, f: Outgoing)
    ensures multiset(Known(tokens, files))[f] == if f.id in tokens then multiset(files)[f] else 0
  {
    if files != [] {
      KnownMeaning(tokens, files[1..], f);
      assert files == [files[0]] + files[1..];
    }
  }

  lemma {:induction false} AcceptedMeaning(files: seq<FileDto>, sent: seq<Outgoing>, f: Outgoing)
    ensures multiset(Accepted(files, sent))[f] == if Listed(files, f.id) then multiset(sent)[f] else 0
  {
    if sent != [] {
      AcceptedMeaning(files, sent[1..], f);
      assert sent == [sent[0]] + sent[1..];
    }
  }

  /** The files accepted are those, as often as they are to be sent, that were offered and selected. */
  lemma AcceptedExactly(x: Session, f: Outgoing)
    requires x.receiver.selection.Chosen?
    ensures multiset(Accepted(x.sender.files, Sent(x)))[f]
         == if f.id in x.receiver.selection.ids && Listed(x.sender.files, f.id) then multiset(x.sender.outgoing)[f]
            else 0
  {
    KnownMeaning(Tokens(x), x.sender.outgoing, f);
    AcceptedMeaning(x.sender.files, Sent(x), f);
  }

  lemma {:induction false} LastOpenMeaning(plan: Plan, open: Option<string>, sent: seq<Outgoing>)
    ensures LastOpen(plan, open, sent)
         == if sent == [] then open else OpenedBy(plan, sent[|sent| - 1])
    decreases sent
  {
    if sent != [] {
      LastOpenMeaning(plan, OpenedBy(plan, sent[0]), sent[1..]);
    }
  }

  // ----- The end of every run -----------------------------------------------

  function AllReplies(x: Session): seq<Msg> {
    Replies(x.receiver, x.json, ThePlan(x), None, 0, Sent(x))
  }

  /** Where an admitted session with a selection ends. The sender reads just one of the replies. */
  function End(x: Session): Peers {
    Net(if AllReplies(x) == [] then AwaitLastReply else Ended(Finished),
        REnded(if EndsOnAcceptedFile(x) then Finished else Failed),
        [],
        if AllReplies(x) == [] then [] else AllReplies(x)[1..],
        SenderLogAfterSelection(x) + UnknownLog(Tokens(x), x.sender.outgoing),
        ReceiverLogAfterSelection(x) + FilesLog(ThePlan(x), None, Sent(x)))
  }

  lemma ReferenceRun(x: Session)
    requires x.Valid() && Admitted(x) && x.receiver.selection.Chosen?
    ensures x.Reached(End(x)) && x.Pair().Stuck(End(x))
  {
    var n1 := UpToFiles(x);
    var n2 := SelectionMade(x, n1);
    hide Session.Reached;
    var n3 := FilesStreamed(x, n2);
    LastReplyTaken(x, n3);
  }

  lemma FilesStreamed(x: Session, n: Peers) returns (after: Peers)
    requires x.Valid() && x.Reached(n)
    requires n.left == NextFile(Tokens(x), 0) && n.right == RAwaitFile(ThePlan(x), None, 0)
    requires n.toLeft == n.toRight == []
    ensures x.Reached(after)
    ensures after == n.(left := AwaitLastReply,
                     right := REnded(if EndsOnAcceptedFile(x) then Finished else Failed),
                     toLeft := AllReplies(x),
                     logLeft := n.logLeft + UnknownLog(Tokens(x), x.sender.outgoing),
                     logRight := n.logRight + FilesLog(ThePlan(x), None, Sent(x)))
  {
    hide *;
    assert x.sender.outgoing[0..] == x.sender.outgoing;
    var n1 := SenderStreams(x, n, Tokens(x), 0);
    var n2 := SenderFinishes(x, n1);
    after := ReceiverTakesSent(x, n2);
  }

  lemma SenderFinishes(x: Session, n: Peers) returns (after: Peers)
    requires x.Reached(n) && n.left == Finish
    ensures x.Reached(after) && after == n.(left := AwaitLastReply, toRight := n.toRight + [DELIMITER])
  {
    after := x.SenderRuns(n);
  }

  lemma ReceiverTakesSent(x: Session, n: Peers) returns (after: Peers)
    requires x.Valid() && x.Reached(n) && n.right == RAwaitFile(ThePlan(x), None, 0)
    requires n.toRight == [] + AllMessages(x.json, Tokens(x), Known(Tokens(x), x.sender.outgoing)) + [DELIMITER]
    ensures x.Reached(after)
    ensures after == n.(right := REnded(if EndsOnAcceptedFile(x) then Finished else Failed),
                     toRight := [],
                     toLeft := n.toLeft + AllReplies(x),
                     logRight := n.logRight + FilesLog(ThePlan(x), None, Sent(x)))
  {
    hide Session.Reached;
    hide Session.Valid;
    hide FilesLog;
    hide Replies;
    hide AllMessages;
    hide LastOpen;
    LastOpenMeaning(ThePlan(x), None, Sent(x));
    assert n.toRight == AllMessages(x.json, Tokens(x), Sent(x)) + [DELIMITER];
    after := ReceiverTakesAll(x, n, Sent(x));
  }

  lemma {:induction false} RepliesAreText(x: Session, open: Option<string>, done: nat, sent: seq<Outgoing>)
    ensures forall m :: m in Replies(x.receiver, x.json, ThePlan(x), open, done, sent) ==> m.Text?
    decreases sent
  {
    if sent != [] {
      RepliesAreText(x, OpenedBy(ThePlan(x), sent[0]), if open.Some? then done + 1 else done, sent[1..]);
    }
  }

  lemma LastReplyTaken(x: Session, n: Peers)
    requires x.Valid() && x.Reached(n) && n.left == AwaitLastReply && n.toRight == []
    requires n.right == End(x).right && n.toLeft == AllReplies(x)
    requires n.logLeft == End(x).logLeft && n.logRight == End(x).logRight
    ensures x.Reached(End(x)) && x.Pair().Stuck(End(x))
  {
    hide Session.Reached, Session.Valid, FilesLog, Replies, UnknownLog, SenderLogAfterSelection,
         ReceiverLogAfterSelection;
    if AllReplies(x) == [] {
      WaitingIsStuck(x, n);
    } else {
      RepliesAreText(x, None, 0, Sent(x));
      assert AllReplies(x) == [AllReplies(x)[0]] + AllReplies(x)[1..];
      var end := x.SenderReceives(n, AllReplies(x)[0], AllReplies(x)[1..]);
      assert end.logLeft == n.logLeft && end.toRight == [];
      EndedIsStuck(x, end);
    }
  }

  lemma WaitingIsStuck(x: Session, n: Peers)
    requires n.left == AwaitLastReply && n.toLeft == [] && n.right.REnded?
    ensures x.Pair().Stuck(n)
  {
  }

  /** Where a session ends: exactly, if both are admitted, and otherwise early, with a failure. */
  ghost predicate EndsIn(x: Session, end: Peers) {
    if !Admitted(x) then DeadEnd(x, end)
    else match x.receiver.selection
         case Chosen(_) => end == End(x)
         case Dropped =>
           end == Net(AwaitFileTokens([]), REnded(Abandoned), [], [],
                      SenderLogBeforeFiles(x), ReceiverLogAfterSelection(x))
         case Refused =>
           end == Net(Ended(Declined), REnded(Declined), [], [],
                      SenderLogBeforeFiles(x) + [WasDeclined], ReceiverLogAfterSelection(x))
  }

  /** Whoever does not choose ends the session; nobody fails. */
  lemma Unselected(x: Session, n: Peers) returns (end: Peers)
    requires x.Valid() && x.Reached(n) && Admitted(x) && !x.receiver.selection.Chosen?
    requires n == Net(AwaitFileTokens([]), RChoose(x.sender.files), [], [],
                      SenderLogBeforeFiles(x), ReceiverLogBeforeFiles(x))
    ensures EndsIn(x, end) && x.Reached(end) && x.Pair().Stuck(end)
  {
    hide Session.Reached, Session.Valid, Admitted, DeadEnd, End, SenderLogBeforeFiles, ReceiverLogBeforeFiles;
    end := SelectionMade(x, n);
    if x.receiver.selection.Refused? {
      EndedIsStuck(x, end);
    } else {
      HalfEndedIsStuck(x, end);
    }
  }

  lemma HalfEndedIsStuck(x: Session, n: Peers)
    requires n.left.AwaitFileTokens? && n.toLeft == [] && n.right.REnded?
    ensures x.Pair().Stuck(n)
  {
  }

  lemma EndReached(x: Session) returns (end: Peers)
    requires x.Valid()
    ensures EndsIn(x, end) && x.Reached(end) && x.Pair().Stuck(end)
  {
    hide Session.Reached, Session.Valid, Admitted, End, System.Stuck, SenderLogBeforeFiles, ReceiverLogBeforeFiles;
    end := UpToFiles(x);
    if Admitted(x) {
      if x.receiver.selection.Chosen? {
        ReferenceRun(x);
        end := End(x);
      } else {
        end := Unselected(x, end);
      }
    }
  }

  /** This run is a beginning of one to the end, of this length, and shows a beginning of its logs. */
  ghost predicate LeadsTo(x: Session, t: seq<Side>, m: Peers, end: Peers, length: nat) {
    && (exists rest :: x.Pair().Runs(m, rest, end) && |t| + |rest| == length)
    && m.logLeft <= end.logLeft && m.logRight <= end.logRight
    && (m.left.Ended? ==> m.left == end.left)
    && (m.right.REnded? ==> m.right == end.right)
    && (x.Pair().Stuck(m) ==> m == end)
  }

  lemma RunsToward(x: Session, end: Peers, s: seq<Side>, t: seq<Side>, m: Peers)
    requires x.Pair().Runs(OPENING, s, end) && x.Pair().Stuck(end) && x.Pair().Runs(OPENING, t, m)
    ensures LeadsTo(x, t, m, end, |s|)
  {
    hide System.Stuck, System.Runs;
    var rest := x.Pair().EveryRunEndsThere(OPENING, s, end, t, m);
  }

  /** Every run of a session, whatever its users do, is a beginning of one with the same end and of the same length. */
  lemma EveryInterleaving(x: Session) returns (end: Peers, length: nat)
    requires x.Valid()
    ensures EndsIn(x, end) && x.Reached(end) && x.Pair().Stuck(end)
    ensures forall t, m :: x.Pair().Runs(OPENING, t, m) ==> LeadsTo(x, t, m, end, length)
  {
    end := EndReached(x);
    var s :| x.Pair().Runs(OPENING, s, end);
    length := |s|;
    hide *;
    forall t, m | x.Pair().Runs(OPENING, t, m)
      ensures LeadsTo(x, t, m, end, length)
    {
      RunsToward(x, end, s, t, m);
    }
  }

  /** There is a bound on the length of all runs: no session can go on for ever. */
  lemma RunsAreBounded(x: Session) returns (bound: nat)
    requires x.Valid()
    ensures forall t, m :: x.Pair().Runs(OPENING, t, m) ==> |t| <= bound
  {
    hide Session.Valid, EndsIn, System.Stuck, System.Runs;
    var end;
    end, bound := EveryInterleaving(x);
    forall t, m | x.Pair().Runs(OPENING, t, m)
      ensures |t| <= bound
    {
      assert LeadsTo(x, t, m, end, bound);
    }
  }

  /** What every reachable state owes to an end that has been reached. */
  lemma Toward(x: Session, end: Peers, m: Peers)
    requires x.Reached(end) && x.Pair().Stuck(end) && x.Reached(m)
    ensures x.Pair().Reaches(m, end)
    ensures m.logLeft <= end.logLeft && m.logRight <= end.logRight
    ensures m.left.Ended? ==> m.left == end.left
    ensures m.right.REnded? ==> m.right == end.right
    ensures x.Pair().Stuck(m) ==> m == end
  {
    hide System.Stuck, System.Runs;
    var s :| x.Pair().Runs(OPENING, s, end);
    var t :| x.Pair().Runs(OPENING, t, m);
    var rest := x.Pair().EveryRunEndsThere(OPENING, s, end, t, m);
  }

  /** The same for a session that is admitted and gets a selection. */
  lemma TowardEnd(x: Session, m: Peers)
    requires x.Valid() && Admitted(x) && x.receiver.selection.Chosen? && x.Reached(m)
    ensures x.Pair().Reaches(m, End(x))
    ensures m.logLeft <= End(x).logLeft && m.logRight <= End(x).logRight
    ensures m.left.Ended? ==> m.left == End(x).left
    ensures m.right.REnded? ==> m.right == End(x).right
    ensures x.Pair().Stuck(m) ==> m == End(x)
  {
    hide *;
    ReferenceRun(x);
    Toward(x, End(x), m);
  }

  predicate BothFinished(n: Peers) {
    n.left == Ended(Finished) && n.right == REnded(Finished)
  }

  lemma EveryRunCompletes(x: Session)
    requires x.Valid() && Admitted(x) && x.receiver.selection.Chosen?
    ensures forall m :: x.Reached(m) ==> x.Pair().Reaches(m, End(x))
  {
    hide *;
    forall m | x.Reached(m)
      ensures x.Pair().Reaches(m, End(x))
    {
      TowardEnd(x, m);
    }
  }

  /**
   Some run lets both tasks finish exactly if the session meets the condition, and
   then every run goes on to do so.
   */
  lemma CompletesExactly(x: Session)
    requires x.Valid()
    ensures Completes(x) <==> exists m :: x.Reached(m) && BothFinished(m)
    ensures Completes(x) ==>
              && BothFinished(End(x))
              && forall m :: x.Reached(m) ==> x.Pair().Reaches(m, End(x))
  {
    hide Session.Reached, Session.Valid, Admitted, System.Runs, EndsIn, AllReplies;
    if Completes(x) {
      ReferenceRun(x);
      RepliesExist(x);
      assert x.Reached(End(x)) && BothFinished(End(x));
      EveryRunCompletes(x);
    } else {
      var end := EndReached(x);
      NotBoth(x, end);
      forall m | x.Reached(m)
        ensures !BothFinished(m)
      {
        Toward(x, end, m);
      }
    }
  }

  lemma NotBoth(x: Session, end: Peers)
    requires EndsIn(x, end) && !Completes(x)
    ensures !BothFinished(end)
  {
    hide Admitted, AllReplies, SenderLogBeforeFiles, ReceiverLogBeforeFiles;
  }

  /**
   With everything else in order but no file to send, the receiver fails on the
   delimiter and the sender waits for a reply.
   */
  lemma NoFilesFail(x: Session, t: seq<Side>, m: Peers)
    requires x.Valid() && Admitted(x) && x.receiver.selection.Chosen? && x.sender.outgoing == []
    requires x.Pair().Runs(OPENING, t, m) && x.Pair().Stuck(m)
    ensures m.left == AwaitLastReply && m.right == REnded(Failed) && m.toLeft == []
  {
    TowardEnd(x, m);
    assert AllReplies(x) == [] && !EndsOnAcceptedFile(x);
    hide Session.Valid, Admitted, System.Runs, System.Stuck;
  }

  lemma RepliesExist(x: Session)
    requires EndsOnAcceptedFile(x)
    ensures AllReplies(x) != []
  {
    OneReplyPerFile(x, None, 0, Sent(x));
    AcceptedLast(x.sender.files, Sent(x));
  }

  lemma {:induction false} AcceptedLast(files: seq<FileDto>, sent: seq<Outgoing>)
    requires sent != [] && Listed(files, sent[|sent| - 1].id)
    ensures Accepted(files, sent) != []
  {
    if |sent| > 1 {
      AcceptedLast(files, sent[1..]);
    }
  }

  function Ids(files: seq<Outgoing>): seq<string> {
    if files == [] then [] else [files[0].id] + Ids(files[1..])
  }

  /** The replies to these files in this order, with the user's results in order from the k-th. */
  function RepliesTo(x: Session, ids: seq<string>, k: nat): seq<Msg> {
    if ids == [] then []
    else SendJson(x.json.fileResponse.write(Reply(x.receiver, ids[0], k))) + RepliesTo(x, ids[1..], k + 1)
  }

  lemma {:induction false} RepliesTell(x: Session, ids: seq<string>, k: nat)
    requires x.Valid()
    ensures |RepliesTo(x, ids, k)| == |ids|
    ensures forall i :: 0 <= i < |ids| ==> Tells(x.json, x.receiver.results, k + i, ids[i], RepliesTo(x, ids, k)[i])
    decreases |ids|
  {
    hide Tells, Json.Lawful;
    if ids != [] {
      RepliesTell(x, ids[1..], k + 1);
      FilesRoundTrip(x.json);
      ReplyTells(x.receiver, x.json, ids[0], k);
      forall i | 0 <= i < |ids|
        ensures Tells(x.json, x.receiver.results, k + i, ids[i], RepliesTo(x, ids, k)[i])
      {
        if i > 0 {
          var j := i - 1;
          assert Tells(x.json, x.receiver.results, k + 1 + j, ids[1..][j], RepliesTo(x, ids[1..], k + 1)[j]);
        }
      }
    }
  }

  /** The replies the receiver sends: one for each accepted file, in order, telling what the user said of it. */
  lemma OneReplyEach(x: Session)
    requires x.Valid()
    ensures
      var ids := Ids(Accepted(x.sender.files, Sent(x)));
      && |AllReplies(x)| == |ids|
      && forall i :: 0 <= i < |ids| ==> Tells(x.json, x.receiver.results, i, ids[i], AllReplies(x)[i])
  {
    hide Tells, Session.Valid;
    var ids := Ids(Accepted(x.sender.files, Sent(x)));
    OneReplyPerFile(x, None, 0, Sent(x));
    assert [] + ids == ids;
    RepliesTell(x, ids, 0);
    assert forall i :: 0 <= i < |ids| ==> Tells(x.json, x.receiver.results, 0 + i, ids[i], AllReplies(x)[i]);
  }

  /** One reply for each accepted file, in the order of the files. */
  lemma {:induction false} OneReplyPerFile(x: Session, open: Option<string>, done: nat, sent: seq<Outgoing>)
    ensures Replies(x.receiver, x.json, ThePlan(x), open, done, sent)
         == RepliesTo(x, (if open.Some? then [open.value] else []) + Ids(Accepted(x.sender.files, sent)), done)
    decreases sent
  {
    var ids := Ids(Accepted(x.sender.files, sent));
    if open.Some? {
      assert ([open.value] + ids)[1..] == ids;
    } else {
      assert [] + ids == ids;
    }
    if sent != [] {
      var now := OpenedBy(ThePlan(x), sent[0]);
      var rest := Accepted(x.sender.files, sent[1..]);
      OneReplyPerFile(x, now, if open.Some? then done + 1 else done, sent[1..]);
      if now.Some? {
        assert ([sent[0]] + rest)[1..] == rest;
      } else {
        assert [] + rest == rest && [] + Ids(rest) == Ids(rest);
      }
    }
  }

  lemma EndedIsStuck(x: Session, n: Peers)
    requires n.left.Ended? && n.right.REnded?
    ensures x.Pair().Stuck(n)
  {
  }

  // ----- PINs and agreement -------------------------------------------------

  /** Only an admitted session gets as far as the files, on either side. */
  lemma NotEarly(x: Session, m: Peers)
    requires x.Valid() && x.Reached(m) && !(Early(m.logLeft) && Early(m.logRight))
    ensures Admitted(x)
  {
    hide Session.Reached, Session.Valid, Admitted;
    var end := EndReached(x);
    Toward(x, end, m);
  }

  /** What is published is the sender's offer, in every state of every run. */
  lemma PublishedIsTheOffer(x: Session, m: Peers, e: Event)
    requires x.Valid() && x.Reached(m) && e in m.logRight && e.Published?
    ensures e == Published(x.sender.files)
    ensures ReceiverLogAfterSelection(x) <= m.logRight
  {
    hide Session.Reached, Session.Valid, Admitted, ReceiverLogBeforeFiles, FilesLog;
    NotEarly(x, m);
    var end := EndReached(x);
    Toward(x, end, m);
    EndPublishes(x);
    OnlyAskedBefore(x);
    var before := ReceiverLogBeforeFiles(x);
    PublishedAfter(before, [Connected, Published(x.sender.files)], end.logRight, m.logRight, e);
  }

  lemma PublishedAfter(before: seq<Event>, shown: seq<Event>, whole: seq<Event>, log: seq<Event>, e: Event)
    requires before + shown <= whole && log <= whole && |shown| == 2 && !shown[0].Published?
    requires Early(before) && e in log && e.Published?
    ensures before + shown <= log
  {
    assert forall k :: 0 <= k < |before| ==> whole[k] == (before + shown)[k] == before[k];
    assert whole[|before|] == (before + shown)[|before|] == shown[0];
    assert forall k :: 0 <= k < |log| ==> log[k] == whole[k];
  }

  lemma EndPublishes(x: Session)
    ensures forall e :: e in End(x).logRight && e.Published? ==> e == Published(x.sender.files)
  {
    OnlyAskedBefore(x);
    FilesLogEvents(ThePlan(x), None, Sent(x));
    hide FilesLog;
    hide ReceiverLogBeforeFiles;
  }

  lemma OnlyAskedBefore(x: Session)
    ensures forall e :: e in ReceiverLogBeforeFiles(x) ==> e == Agreed(Nonce(x)) || e == AskedForPin
  {
    if x.sender.pin.Some? {
      OnlyAsked(Challenge(x.sender.pin.value, x.receiver.entered, 0).rounds);
    }
  }

  lemma {:induction false} FilesLogEvents(plan: Plan, open: Option<string>, sent: seq<Outgoing>)
    ensures forall e :: e in FilesLog(plan, open, sent) ==> e.Opened? || e.Data? || e.Closed? || e.FileError?
    decreases sent
  {
    if sent != [] {
      var now := OpenedBy(plan, sent[0]);
      ChunkLogEvents(now, Chunks(Flatten(sent[0].pieces), CHUNK_SIZE));
      FilesLogEvents(plan, now, sent[1..]);
    }
  }

  lemma {:induction false} ChunkLogEvents(open: Option<string>, cs: seq<Bytes>)
    ensures forall e :: e in ChunkLog(open, cs) ==> e.Data? || e.FileError?
  {
    if cs != [] {
      ChunkLogEvents(open, cs[1..]);
    }
  }

  lemma ReceiverAsks(x: Session) returns (n: Peers)
    requires x.Valid() && ReceiverTrusts(x) && SenderTrusts(x) && x.receiver.pin.Some?
    requires x.receiver.pin.value.pin != "" && x.receiver.pin.value.maxTries >= 1
    ensures x.Reached(n)
    ensures n == Net(EnterPin(0), RAwaitPin(0), [], [], [Agreed(Nonce(x))], [Agreed(Nonce(x)), AskedForPin])
  {
    hide Session.Reached, Session.Valid;
    n := TokensExchanged(x);
    n := PinAwaited(x, n);
  }

  lemma {:induction false} AskedOnceMore(k: nat)
    ensures Asked(k) + [AskedForPin] == Asked(k + 1)
  {
    if k > 0 {
      AskedOnceMore(k - 1);
      assert [AskedForPin] + Asked(k - 1) + [AskedForPin] == [AskedForPin] + (Asked(k - 1) + [AskedForPin]);
    }
  }

  /** Some question at this user, within the tries, was answered with the PIN; this log shows it being asked. */
  ghost predicate Answered(config: PinConfig, entered: seq<string>, before: seq<Event>, log: seq<Event>) {
    exists r :: 1 <= r <= |entered| && r <= config.maxTries as nat && entered[r - 1] == config.pin
                && before + Asked(r) <= log
  }

  /** While the sender's user has the PIN to enter still, the receiver shows no more than that it wants one. */
  lemma SenderEnteredPin(x: Session, m: Peers)
    requires x.Valid() && x.Reached(m) && Admitted(x) && x.receiver.pin.Some?
    requires !(m.logRight <= [Agreed(Nonce(x)), AskedForPin])
    ensures Answered(x.receiver.pin.value, x.sender.entered, [Agreed(Nonce(x))], m.logLeft)
  {
    hide Session.Valid, System.Runs, Challenge, Asked;
    var c := Challenge(x.receiver.pin.value, x.sender.entered, 0);
    ChallengeMeaning(x.receiver.pin.value, x.sender.entered, 0);
    var n := ReceiverAsks(x);
    n := ReceiverRounds(x, n, 0, c.rounds - 1);
    AskedOnceMore(c.rounds - 1);
    var s :| x.Pair().Runs(OPENING, s, n);
    var t :| x.Pair().Runs(OPENING, t, m);
    x.Pair().LeftWentOn(OPENING, s, n, t, m);
    assert x.Pair().Next(n, Left).logLeft == [Agreed(Nonce(x))] + Asked(c.rounds);
  }

  /**
   The receiver shows a file list only if both tokens convinced and each PIN
   was presented to its owner, and only after that.
   */
  lemma PinGate(x: Session, m: Peers)
    requires x.Valid() && x.Reached(m)
    requires exists e :: e in m.logRight && e.Published?
    ensures Admitted(x)
    ensures x.receiver.pin.Some? ==>
              Answered(x.receiver.pin.value, x.sender.entered, [Agreed(Nonce(x))], m.logLeft)
    ensures x.sender.pin.Some? && x.sender.pin.value.pin != "" ==>
              Answered(x.sender.pin.value, x.receiver.entered,
                       [Agreed(Nonce(x))] + (if x.receiver.pin.Some? then [AskedForPin] else []), m.logRight)
  {
    hide Session.Reached, Session.Valid, Challenge, Asked;
    NotEarly(x, m);
    var e :| e in m.logRight && e.Published?;
    PublishedIsTheOffer(x, m, e);
    if x.receiver.pin.Some? {
      SenderEnteredPin(x, m);
    }
    if x.sender.pin.Some? {
      ChallengeMeaning(x.sender.pin.value, x.receiver.entered, 0);
    }
  }

  lemma ReceiverChallengeLost(x: Session) returns (end: Peers)
    requires x.Valid() && ReceiverTrusts(x) && SenderTrusts(x) && x.receiver.pin.Some?
    requires x.receiver.pin.value.pin != "" && 1 <= x.receiver.pin.value.maxTries as nat <= |x.sender.entered|
    requires !Presented(x.receiver.pin.value, x.sender.entered)
    ensures x.Reached(end)
    ensures end == Net(Ended(Failed), REnded(Failed), [], [],
                       [Agreed(Nonce(x))] + Asked(x.receiver.pin.value.maxTries as nat) + [GaveUp],
                       [Agreed(Nonce(x)), AskedForPin, GaveUp])
  {
    hide Session.Reached, Session.Valid, Challenge, Presented, Asked;
    ChallengeMeaning(x.receiver.pin.value, x.sender.entered, 0);
    var n := ReceiverAsks(x);
    end := ReceiverChallenge(x, n, 0);
  }

  /**
   With enough wrong entries every run comes to both tasks failing together, after
   exactly `maxTries` rounds, with empty queues.
   */
  lemma ReceiverPinExhausted(x: Session, m: Peers) returns (end: Peers)
    requires x.Valid() && ReceiverTrusts(x) && SenderTrusts(x) && x.receiver.pin.Some?
    requires x.receiver.pin.value.pin != "" && 1 <= x.receiver.pin.value.maxTries as nat <= |x.sender.entered|
    requires !Presented(x.receiver.pin.value, x.sender.entered)
    requires x.Reached(m)
    ensures end == Net(Ended(Failed), REnded(Failed), [], [],
                       [Agreed(Nonce(x))] + Asked(x.receiver.pin.value.maxTries as nat) + [GaveUp],
                       [Agreed(Nonce(x)), AskedForPin, GaveUp])
    ensures x.Pair().Reaches(m, end) && (x.Pair().Stuck(m) ==> m == end)
  {
    hide *;
    end := ReceiverChallengeLost(x);
    EndedIsStuck(x, end);
    Toward(x, end, m);
  }

  /** What the two users have seen when the sender's challenge begins. */
  function BeforeSenderPin(x: Session): (seq<Event>, seq<Event>) {
    if x.receiver.pin.Some? then
      ([Agreed(Nonce(x))] + Asked(Challenge(x.receiver.pin.value, x.sender.entered, 0).rounds),
       [Agreed(Nonce(x)), AskedForPin])
    else ([Agreed(Nonce(x))], [Agreed(Nonce(x))])
  }

  lemma ToSenderPin(x: Session) returns (n: Peers)
    requires x.Valid() && ReceiverTrusts(x) && SenderTrusts(x) && ReceiverPinPasses(x)
    ensures x.Reached(n)
    ensures n == Net(StartPinCheck, RAwaitString([], FirstStatus), [], [], BeforeSenderPin(x).0, BeforeSenderPin(x).1)
  {
    hide Session.Reached, Session.Valid, Challenge, Presented, Asked, DeadEnd;
    n := TokensExchanged(x);
    if x.receiver.pin.Some? {
      n := ReceiverPinPhase(x, n);
    }
  }

  lemma SenderChallengeLost(x: Session) returns (end: Peers)
    requires x.Valid() && ReceiverTrusts(x) && SenderTrusts(x) && ReceiverPinPasses(x) && x.sender.pin.Some?
    requires x.sender.pin.value.pin != "" && 1 <= x.sender.pin.value.maxTries as nat <= |x.receiver.entered|
    requires !Presented(x.sender.pin.value, x.receiver.entered)
    ensures x.Reached(end)
    ensures end == Net(Ended(Failed), REnded(Failed), [], [],
                       BeforeSenderPin(x).0 + [AskedForPin, GaveUp],
                       BeforeSenderPin(x).1 + Asked(x.sender.pin.value.maxTries as nat) + [GaveUp])
  {
    hide Session.Reached, Session.Valid, Challenge, Presented, Asked, BeforeSenderPin, ReceiverPinPasses;
    ChallengeMeaning(x.sender.pin.value, x.receiver.entered, 0);
    var n1 := ToSenderPin(x);
    var n2 := SenderNotifies(x, n1);
    end := SenderChallenge(x, n2, 0);
  }

  /** The same with the sender verifying, whether or not the receiver has had a PIN presented first. */
  lemma SenderPinExhausted(x: Session, m: Peers) returns (end: Peers)
    requires x.Valid() && ReceiverTrusts(x) && SenderTrusts(x) && ReceiverPinPasses(x) && x.sender.pin.Some?
    requires x.sender.pin.value.pin != "" && 1 <= x.sender.pin.value.maxTries as nat <= |x.receiver.entered|
    requires !Presented(x.sender.pin.value, x.receiver.entered)
    requires x.Reached(m)
    ensures end == Net(Ended(Failed), REnded(Failed), [], [],
                       BeforeSenderPin(x).0 + [AskedForPin, GaveUp],
                       BeforeSenderPin(x).1 + Asked(x.sender.pin.value.maxTries as nat) + [GaveUp])
    ensures x.Pair().Reaches(m, end) && (x.Pair().Stuck(m) ==> m == end)
  {
    hide *;
    end := SenderChallengeLost(x);
    EndedIsStuck(x, end);
    Toward(x, end, m);
  }
}
