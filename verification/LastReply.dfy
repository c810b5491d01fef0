/** The sender ends with the first message it gets after its delimiter: when that is the end of the transfer. */
module LastReply {
  import opened Prelude
  import opened Channel
  import opened Framing
  import opened Transfer
  import opened Session
  import opened Reference
  import opened Delivery
  import opened TransferTheorems

  /** How many replies are still to come: for the open file, and for each accepted file to follow. */
  function Expected(files: seq<FileDto>, open: Option<string>, known: seq<Outgoing>): nat {
    (if open.Some? then 1 else 0) + |Accepted(files, known)|
  }

  lemma ExpectedNext(plan: Plan, known: seq<Outgoing>)
    requires known != []
    ensures Expected(plan.files, None, known) == Expected(plan.files, OpenedBy(plan, known[0]), known[1..])
  {
  }

  /** The receiver in its loop, with the rest of the stream in front of it and no reply sent. */
  ghost predicate Streaming(x: Session, n: Peers, known: seq<Outgoing>) {
    && x.Valid() && x.Reached(n) && n.left == AwaitLastReply && n.toLeft == []
    && n.right.RAwaitFile? && n.right.plan == ThePlan(x)
    && (forall f :: f in known ==> f.id in Tokens(x))
    && n.toRight == AllMessages(x.json, Tokens(x), known) + [DELIMITER]
  }

  /** The receiver takes one more file. */
  lemma OneFile(x: Session, n: Peers, known: seq<Outgoing>) returns (after: Peers)
    requires Streaming(x, n, known) && known != []
    ensures x.Reached(after) && after.left == AwaitLastReply && after.right.RAwaitFile?
    ensures n.right.open == None ==>
              Streaming(x, after, known[1..]) && after.right.open == OpenedBy(ThePlan(x), known[0])
    ensures n.right.open.Some? ==> |after.toLeft| == 1 && after.toLeft[0].Text?
  {
    hide Session.Reached, Session.Valid, AllMessages, FileMessages, FileLog;
    NextMessages(x, Tokens(x), known);
    after := ReceiverTakesFile(x, n, known[0], AllMessages(x.json, Tokens(x), known[1..]) + [DELIMITER]);
  }

  /** With two replies to come, the first is sent while the receiver is still in its loop. */
  lemma {:induction false} EarlyReply(x: Session, n: Peers, known: seq<Outgoing>) returns (after: Peers)
    requires Streaming(x, n, known) && Expected(x.sender.files, n.right.open, known) >= 2
    ensures x.Reached(after) && after.left == AwaitLastReply && after.right.RAwaitFile?
    ensures |after.toLeft| == 1 && after.toLeft[0].Text?
    decreases |known|
  {
    hide Session.Reached, Session.Valid, AllMessages, Tokens;
    after := OneFile(x, n, known);
    if n.right.open == None {
      ExpectedNext(ThePlan(x), known);
      after := EarlyReply(x, after, known[1..]);
    }
  }

  /** With one reply to come, and the last file an accepted one, it is sent with the last step of the receiver. */
  lemma {:induction false} LoneReply(x: Session, n: Peers, known: seq<Outgoing>) returns (after: Peers)
    requires Streaming(x, n, known) && Expected(x.sender.files, n.right.open, known) == 1
    requires LastOpen(ThePlan(x), n.right.open, known).Some?
    ensures x.Reached(after) && after.left == AwaitLastReply && after.toLeft == []
    ensures after.right.RReply? && after.right.m == DELIMITER
    decreases |known|
  {
    hide Session.Reached, Session.Valid;
    if known == [] {
      after := AtDelimiter(x, n);
    } else {
      LastOpenMeaning(ThePlan(x), n.right.open, known);
      AcceptedLast(x.sender.files, known);
      after := OneFile(x, n, known);
      ExpectedNext(ThePlan(x), known);
      after := LoneReply(x, after, known[1..]);
    }
  }

  lemma AtDelimiter(x: Session, n: Peers) returns (after: Peers)
    requires Streaming(x, n, []) && n.right.open.Some?
    ensures x.Reached(after)
    ensures after.left == AwaitLastReply && after.toLeft == [] && after.right.RReply? && after.right.m == DELIMITER
  {
    hide Session.Reached, Session.Valid, OpenFile;
    assert n.toRight == [DELIMITER] + [];
    after := x.ReceiverReceives(n, DELIMITER, []);
  }

  lemma Selected(x: Session) returns (n: Peers)
    requires x.Valid() && Admitted(x) && x.receiver.selection.Chosen?
    ensures x.Reached(n) && n.left == NextFile(Tokens(x), 0) && n.right == RAwaitFile(ThePlan(x), None, 0)
    ensures n.toLeft == n.toRight == []
  {
    hide Session.Reached, Session.Valid, Admitted, SenderLogBeforeFiles, ReceiverLogBeforeFiles;
    n := UpToFiles(x);
    n := SelectionMade(x, n);
  }

  lemma StreamSent(x: Session) returns (n: Peers)
    requires x.Valid() && Admitted(x) && x.receiver.selection.Chosen?
    ensures Streaming(x, n, Sent(x)) && n.right.open == None
  {
    hide Session.Reached, Session.Valid, Admitted, UnknownLog, AllMessages;
    n := Selected(x);
    assert x.sender.outgoing[0..] == x.sender.outgoing;
    n := SenderStreams(x, n, Tokens(x), 0);
    n := SenderFinishes(x, n);
    assert [] + AllMessages(x.json, Tokens(x), Sent(x)) == AllMessages(x.json, Tokens(x), Sent(x));
  }

  /** A run in which the sender has finished and the receiver has not. */
  lemma SenderLeavesFirst(x: Session) returns (m: Peers)
    requires x.Valid() && Completes(x) && |Accepted(x.sender.files, Sent(x))| >= 2
    ensures x.Reached(m) && m.left == Ended(Finished) && !m.right.REnded?
  {
    hide Session.Reached, Session.Valid, Admitted, Streaming, Accepted, Sent;
    var n := StreamSent(x);
    n := EarlyReply(x, n, Sent(x));
    assert n.toLeft == [n.toLeft[0]] + [];
    m := x.SenderReceives(n, n.toLeft[0], []);
  }

  lemma LastStep(x: Session, n: Peers)
    requires n.left == AwaitLastReply && n.toLeft == [] && n.right.RReply? && n.right.m == DELIMITER
    ensures x.Pair().Enabled(n, Right) && !x.Pair().Enabled(n, Left)
    ensures x.Pair().Next(n, Right).right == REnded(Finished)
  {
  }

  /** Where there is just one reply, a sender that has finished has it. */
  lemma SenderLeavesLast(x: Session, m: Peers)
    requires x.Valid() && Completes(x) && |Accepted(x.sender.files, Sent(x))| == 1
    requires x.Reached(m) && m.left == Ended(Finished)
    ensures m.right == REnded(Finished)
  {
    hide Session.Valid, Admitted, Streaming, Accepted, Sent, System.Runs, System.Next, System.Enabled;
    var n := StreamSent(x);
    LastOpenMeaning(ThePlan(x), None, Sent(x));
    n := LoneReply(x, n, Sent(x));
    LastStep(x, n);
    var s :| x.Pair().Runs(OPENING, s, n);
    var t :| x.Pair().Runs(OPENING, t, m);
    x.Pair().RightGoesFirst(OPENING, s, n, t, m);
    if m.right != REnded(Finished) {
      var v :| x.Pair().Runs(m, v, n);
      x.Pair().Persistence(m, v, n);
    }
  }

  /**
   In a session that completes, the sender finishes, and closes the connection, only
   after the receiver has finished, exactly if just one of the files sent was accepted.
   */
  lemma SenderWaitsExactly(x: Session)
    requires x.Valid() && Completes(x)
    ensures (forall m :: x.Reached(m) && m.left == Ended(Finished) ==> m.right == REnded(Finished))
       <==> |Accepted(x.sender.files, Sent(x))| == 1
  {
    hide Session.Reached, Session.Valid, Admitted, Accepted, Sent;
    AcceptedLast(x.sender.files, Sent(x));
    if |Accepted(x.sender.files, Sent(x))| == 1 {
      forall m | x.Reached(m) && m.left == Ended(Finished)
        ensures m.right == REnded(Finished)
      {
        SenderLeavesLast(x, m);
      }
    } else {
      var m := SenderLeavesFirst(x);
    }
  }
}
