/** Both transfer tasks work from one plan: the same files, the same tokens, the user's selection. */
module Agreement {
  import opened Prelude
  import opened Channel
  import opened Transfer
  import opened Session
  import opened Reference
  import opened TransferTheorems

  /** The files and tokens the receiver goes by from now on, if it has any. */
  function PlanOf(r: Receiver): Option<Plan> {
    match r
    case RStream(_, next) => PlanOf(next)
    case RDelimit(next) => PlanOf(next)
    case RAwaitFile(plan, _, _) => Some(plan)
    case RReply(plan, _, _, _) => Some(plan)
    case _ => None
  }

  /** A plan is about files that were shown to the user, and has a token for each selected one. */
  ghost predicate Planned(x: Session, n: Peers) {
    PlanOf(n.right).Some? ==>
      && Published(PlanOf(n.right).value.files) in n.logRight
      && PlanOf(n.right).value.tokens == Tokens(x) && x.receiver.selection.Chosen?
  }

  lemma RunPlans(env: ReceiverEnv, json: Json, r: Receiver)
    ensures
      var move := ReceiverRun(env, json, r);
      && (PlanOf(move.next).Some? && !r.RChoose? ==> PlanOf(move.next) == PlanOf(r))
      && (PlanOf(move.next).Some? && r.RChoose? ==>
            && PlanOf(move.next).value == Plan(r.files, FileTokens(env))
            && env.selection.Chosen? && Published(r.files) in move.log)
  {
    if r.RChoose? {
      PlanOfString(json.fileList.write(ListDeclined), REnded(Declined));
      PlanOfString(json.fileList.write(ListOk(FileTokens(env))), RAwaitFile(Plan(r.files, FileTokens(env)), None, 0));
    }
  }

  lemma PlanOfString(bytes: Bytes, next: Receiver)
    ensures PlanOf(RSendString(bytes, next)) == PlanOf(next)
  {
    assert PlanOf(RDelimit(next)) == PlanOf(next);
  }

  lemma ReceivePlans(env: ReceiverEnv, json: Json, strict: bool, r: Receiver, m: Msg)
    ensures
      var next := ReceiverTakes(env, json, strict, r, m).next;
      PlanOf(next).Some? ==> PlanOf(next) == PlanOf(r)
  {
  }

  lemma PlannedStep(x: Session, n: Peers, side: Side)
    requires x.Pair().Enabled(n, side) && Planned(x, n)
    ensures Planned(x, x.Pair().Next(n, side))
  {
    hide ReceiverRun, ReceiverTakes, SenderRun, SenderTakes, PlanOf, FileTokens;
    if side.Right? {
      if ReceiverMode(n.right) == Running {
        RunPlans(x.receiver, x.json, n.right);
      } else {
        ReceivePlans(x.receiver, x.json, x.strict, n.right, n.toRight[0]);
      }
    }
  }

  lemma {:induction false} PlannedAlways(x: Session, n: Peers, schedule: seq<Side>, m: Peers)
    requires x.Pair().Runs(n, schedule, m) && Planned(x, n)
    ensures Planned(x, m)
    decreases |schedule|
  {
    hide Planned;
    if schedule != [] {
      PlannedStep(x, n, schedule[0]);
      PlannedAlways(x, x.Pair().Next(n, schedule[0]), schedule[1..], m);
    }
  }

  lemma PlannedAtFirst(x: Session)
    ensures Planned(x, OPENING)
  {
  }

  lemma {:induction false} UnknownAreErrors(tokens: map<string, string>, files: seq<Outgoing>)
    ensures forall e :: e in UnknownLog(tokens, files) ==> e.FileError?
  {
    if files != [] {
      UnknownAreErrors(tokens, files[1..]);
    }
  }

  lemma BeforeFiles(x: Session)
    ensures forall e :: e in SenderLogBeforeFiles(x) ==> !e.Selected?
  {
    hide Challenge, Asked, Nonce;
    if x.receiver.pin.Some? {
      OnlyAsked(Challenge(x.receiver.pin.value, x.sender.entered, 0).rounds);
    }
  }

  lemma SelectedAtTheEnd(x: Session, tokens: map<string, string>)
    requires Selected(tokens) in End(x).logLeft
    ensures tokens == Tokens(x)
  {
    hide UnknownLog, SenderLogBeforeFiles, FilesLog, Replies, Tokens;
    UnknownAreErrors(Tokens(x), x.sender.outgoing);
    BeforeFiles(x);
  }

  lemma StillThere(e: Event, log: seq<Event>, whole: seq<Event>)
    requires e in log && log <= whole
    ensures e in whole
  {
  }

  /** A sender that has been given a map has been given the receiver's, from an admitted session with a selection. */
  lemma SenderHasTokens(x: Session, m: Peers, tokens: map<string, string>)
    requires x.Valid() && x.Reached(m) && Selected(tokens) in m.logLeft
    ensures tokens == Tokens(x) && Admitted(x) && x.receiver.selection.Chosen?
  {
    hide Session.Reached, Session.Valid, End, Admitted, SenderLogBeforeFiles, ReceiverLogBeforeFiles;
    NotEarly(x, m);
    var end := EndReached(x);
    Toward(x, end, m);
    BeforeFiles(x);
    StillThere(Selected(tokens), m.logLeft, end.logLeft);
    if x.receiver.selection.Chosen? {
      SelectedAtTheEnd(x, tokens);
    }
  }

  /** A receiver that goes by a plan goes by the sender's offer and its own selection. */
  lemma ReceiverHasPlan(x: Session, m: Peers)
    requires x.Valid() && x.Reached(m) && PlanOf(m.right).Some?
    ensures PlanOf(m.right) == Some(Plan(x.sender.files, Tokens(x)))
    ensures Admitted(x) && x.receiver.selection.Chosen?
  {
    hide System.Runs, Session.Valid, PlanOf, Admitted;
    var t :| x.Pair().Runs(OPENING, t, m);
    PlannedAtFirst(x);
    PlannedAlways(x, OPENING, t, m);
    PublishedIsTheOffer(x, m, Published(PlanOf(m.right).value.files));
    PinGate(x, m);
  }

  /**
   In every reachable state, whichever task has a plan or a token map, also
   after the other has ended: the files are the sender's offer, and the tokens
   are the receiver's, one for each selected file.
   */
  lemma OnePlan(x: Session, m: Peers, tokens: map<string, string>)
    requires x.Valid() && x.Reached(m)
    ensures PlanOf(m.right).Some? ==> PlanOf(m.right) == Some(Plan(x.sender.files, Tokens(x)))
    ensures Selected(tokens) in m.logLeft ==> tokens == Tokens(x)
    ensures PlanOf(m.right).Some? || Selected(tokens) in m.logLeft ==>
              Admitted(x) && x.receiver.selection.Chosen? && Tokens(x).Keys == x.receiver.selection.ids
    ensures Selected(tokens) in m.logLeft ==>
              forall id :: id in x.receiver.selection.ids ==> id in tokens && tokens[id] == x.receiver.fileToken(id)
  {
    hide Session.Reached, Session.Valid, PlanOf, Admitted;
    if PlanOf(m.right).Some? {
      ReceiverHasPlan(x, m);
    }
    if Selected(tokens) in m.logLeft {
      SenderHasTokens(x, m, tokens);
    }
  }

  /** Whoever goes on after the nonces goes on with sender nonce followed by receiver nonce, in every session. */
  lemma SameNonce(x: Session, m: Peers)
    requires x.Valid() && x.Reached(m)
    ensures m.logLeft != [] ==> m.logLeft[0] == Agreed(x.sender.nonce + x.receiver.nonce)
    ensures m.logRight != [] ==> m.logRight[0] == Agreed(x.sender.nonce + x.receiver.nonce)
  {
    hide Session.Valid, System.Runs;
    var n := Handshake(x);
    var s :| x.Pair().Runs(OPENING, s, n);
    var t :| x.Pair().Runs(OPENING, t, m);
    var d, u, v := x.Pair().Join(OPENING, s, n, t, m);
    x.Pair().Persistence(n, u, d);
    x.Pair().Persistence(m, v, d);
    assert d.logLeft[0] == d.logRight[0] == Agreed(Nonce(x));
  }
}
