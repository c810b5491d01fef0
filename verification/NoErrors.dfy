/**
 Sessions in which nothing goes wrong: no message of the wrong kind, none that
 cannot be parsed, none out of order.
 */
module NoErrors {
  import opened Prelude
  import opened Channel
  import opened Framing
  import opened Transfer
  import opened Session
  import opened Reference
  import opened Delivery
  import opened TransferTheorems

  ghost predicate AllListed(files: seq<FileDto>, sent: seq<Outgoing>) {
    forall f :: f in sent ==> Listed(files, f.id)
  }

  /** A session that completes, and in which every file sent was offered. */
  ghost predicate Sound(x: Session) {
    x.Valid() && Completes(x) && AllListed(x.sender.files, Sent(x))
  }

  ghost predicate NoFileErrors(log: seq<Event>) {
    forall e :: e in log ==> !e.FileError?
  }

  lemma {:induction false} ChunkLogClean(id: string, cs: seq<Bytes>)
    ensures NoFileErrors(ChunkLog(Some(id), cs))
  {
    if cs != [] {
      ChunkLogClean(id, cs[1..]);
    }
  }

  lemma {:induction false} FilesLogClean(plan: Plan, open: Option<string>, sent: seq<Outgoing>)
    requires AllListed(plan.files, sent)
    ensures NoFileErrors(FilesLog(plan, open, sent))
    decreases sent
  {
    hide Chunks, Listed;
    if sent != [] {
      assert Listed(plan.files, sent[0].id);
      ChunkLogClean(sent[0].id, Chunks(Flatten(sent[0].pieces), CHUNK_SIZE));
      FilesLogClean(plan, OpenedBy(plan, sent[0]), sent[1..]);
    }
  }

  lemma {:induction false} FilesLogUnclean(plan: Plan, open: Option<string>, sent: seq<Outgoing>)
    requires !AllListed(plan.files, sent)
    ensures !NoFileErrors(FilesLog(plan, open, sent))
    decreases sent
  {
    hide Chunks, Listed, ChunkLog;
    if Listed(plan.files, sent[0].id) {
      FilesLogUnclean(plan, OpenedBy(plan, sent[0]), sent[1..]);
      var e :| e in FilesLog(plan, OpenedBy(plan, sent[0]), sent[1..]) && e.FileError?;
      assert e in FilesLog(plan, open, sent);
    } else {
      var e := FileError(sent[0].id, "Expected size to be available");
      assert e in FileLog(plan, sent[0]);
      assert e in FilesLog(plan, open, sent);
    }
  }

  /** A user who selects offered files only makes sure of that. */
  lemma OfferedSelection(x: Session)
    requires x.Valid() && Completes(x)
    requires forall id :: id in x.receiver.selection.ids ==> Listed(x.sender.files, id)
    ensures Sound(x)
  {
    hide Session.Valid, Admitted, EndsOnAcceptedFile, Listed;
    assert forall f :: f in Known(Tokens(x), x.sender.outgoing) ==> f.id in Tokens(x);
  }

  lemma EndLogClean(x: Session)
    ensures NoFileErrors(End(x).logRight) <==> AllListed(x.sender.files, Sent(x))
  {
    OnlyAskedBefore(x);
    var before, log := ReceiverLogAfterSelection(x), FilesLog(ThePlan(x), None, Sent(x));
    assert forall e :: e in before ==> !e.FileError? by {
      hide FilesLog, Sent;
    }
    if AllListed(x.sender.files, Sent(x)) {
      FilesLogClean(ThePlan(x), None, Sent(x));
    } else {
      FilesLogUnclean(ThePlan(x), None, Sent(x));
    }
    NoErrorsInBoth(before, log);
  }

  lemma NoErrorsInBoth(a: seq<Event>, b: seq<Event>)
    ensures NoFileErrors(a + b) <==> NoFileErrors(a) && NoFileErrors(b)
  {
    if NoFileErrors(a + b) {
      forall e | e in a ensures !e.FileError? { assert e in a + b; }
      forall e | e in b ensures !e.FileError? { assert e in a + b; }
    }
  }

  /**
   In a session that completes neither task ever fails, and it is sound exactly if
   no file error is ever reported to the receiver.
   */
  lemma NoErrorReachable(x: Session)
    requires x.Valid() && Completes(x)
    ensures forall m :: x.Reached(m) ==> m.left != Ended(Failed) && m.right != REnded(Failed)
    ensures Sound(x) <==> forall m :: x.Reached(m) ==> NoFileErrors(m.logRight)
  {
    hide Session.Reached, Session.Valid, Admitted, AllReplies, FilesLog, System.Runs, AllListed, NoFileErrors;
    CompletesExactly(x);
    EndLogClean(x);
    ReferenceRun(x);
    forall m | x.Reached(m)
      ensures m.left != Ended(Failed) && m.right != REnded(Failed)
      ensures Sound(x) ==> NoFileErrors(m.logRight)
    {
      TowardEnd(x, m);
      if Sound(x) {
        CleanPrefix(m.logRight, End(x).logRight);
      }
    }
  }

  lemma CleanPrefix(log: seq<Event>, whole: seq<Event>)
    requires log <= whole && NoFileErrors(whole)
    ensures NoFileErrors(log)
  {
  }

  // ----- Kinds of messages --------------------------------------------------

  /** The next message of either task is of the kind it takes, and binary data comes to an open file. */
  ghost predicate KindsFit(m: Peers) {
    && (SenderMode(m.left) == Waiting && m.toLeft != [] ==> SenderExpects(m.left, m.toLeft[0]))
    && (ReceiverMode(m.right) == Waiting && m.toRight != [] ==>
          && ReceiverExpects(m.right, m.toRight[0])
          && (m.right.RAwaitFile? && m.toRight[0].Binary? ==> m.right.open.Some?))
  }

  /** A strict task would fail on a message of the wrong kind; a file loop reports it. */
  lemma MisfitShows(x: Session, m: Peers)
    requires x.strict && !KindsFit(m)
    ensures
      || (x.Pair().Enabled(m, Left) && x.Pair().Next(m, Left).left == Ended(Failed))
      || (x.Pair().Enabled(m, Right)
          && (x.Pair().Next(m, Right).right == REnded(Failed) || !NoFileErrors(x.Pair().Next(m, Right).logRight)))
  {
    hide SenderReceive, SenderRun, ReceiverRun;
    if m.right.RAwaitFile? && m.toRight != [] && m.toRight[0].Binary? && m.right.open == None {
      var e := FileError("unknown", "Received binary data without a header");
      assert e in x.Pair().Next(m, Right).logRight;
    }
  }

  lemma NextIsClean(x: Session, m: Peers, side: Side)
    requires Sound(x) && x.Reached(m) && x.Pair().Enabled(m, side)
    ensures
      var next := x.Pair().Next(m, side);
      next.left != Ended(Failed) && next.right != REnded(Failed) && NoFileErrors(next.logRight)
  {
    hide System.Reaches, Session.Valid, Completes, AllListed, NoFileErrors, System.Next, System.Enabled;
    x.Pair().Then(OPENING, m, side);
    NoErrorReachable(x);
    assert x.Reached(x.Pair().Next(m, side));
  }

  lemma StrictKinds(x: Session, m: Peers)
    requires x.strict && Sound(x) && x.Reached(m)
    ensures KindsFit(m)
  {
    hide Session.Reached, Sound, KindsFit, NoFileErrors, System.Next, System.Enabled;
    if x.Pair().Enabled(m, Left) {
      NextIsClean(x, m, Left);
    }
    if x.Pair().Enabled(m, Right) {
      NextIsClean(x, m, Right);
    }
    if !KindsFit(m) {
      MisfitShows(x, m);
    }
  }

  lemma StrictIsSound(x: Session)
    requires Sound(x)
    ensures Sound(x.(strict := true))
  {
    hide Json.Lawful, Challenge, Presented, Known, Listed;
  }

  lemma SameStep(x: Session, y: Session, n: Peers, side: Side)
    requires y == x.(strict := true) && KindsFit(n) && x.Pair().Enabled(n, side)
    ensures y.Pair().Enabled(n, side) && y.Pair().Next(n, side) == x.Pair().Next(n, side)
  {
    hide SenderReceive, SenderRun, ReceiverReceive, ReceiverRun;
  }

  /** As long as every message is of the kind that strict tasks want, both behave alike. */
  lemma {:induction false} StrictRunsToo(x: Session, y: Session, n: Peers, t: seq<Side>, m: Peers)
    requires y == x.(strict := true) && Sound(y) && y.Reached(n) && x.Pair().Runs(n, t, m)
    ensures y.Reached(m)
    decreases |t|
  {
    hide System.Reaches, Sound, KindsFit, System.Next, System.Enabled;
    if t != [] {
      StrictKinds(y, n);
      SameStep(x, y, n, t[0]);
      y.Pair().Then(OPENING, n, t[0]);
      StrictRunsToo(x, y, x.Pair().Next(n, t[0]), t[1..], m);
    }
  }

  /**
   The tasks do not check the kind of a PIN or of the last reply, but in every
   reachable state the next message is of the right kind, and binary data
   comes only while a file is open.
   */
  lemma KindsExpected(x: Session, m: Peers)
    requires Sound(x) && x.Reached(m)
    ensures KindsFit(m)
  {
    hide Sound, KindsFit, System.Runs;
    var y := x.(strict := true);
    var t :| x.Pair().Runs(OPENING, t, m);
    StrictIsSound(x);
    y.Opens();
    StrictRunsToo(x, y, OPENING, t, m);
    StrictKinds(y, m);
  }
}
