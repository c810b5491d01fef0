/** The reference run of the transfer protocol, from the first nonce to the end of both tasks. */
module Reference {
  import opened Prelude
  import opened Channel
  import opened Framing
  import opened Transfer
  import opened Session
  import Base64

  function Nonce(x: Session): Bytes {
    x.sender.nonce + x.receiver.nonce
  }

  function Tokens(x: Session): map<string, string> {
    FileTokens(x.receiver)
  }

  function ThePlan(x: Session): Plan {
    Plan(x.sender.files, Tokens(x))
  }

  // ----- Nonces and tokens --------------------------------------------------

  /** A nonce is taken from any text of JSON of base64 of 16 to 128 bytes, and from no other message. */
  lemma NonceTaken(json: Json, m: Msg, nonce: Bytes)
    ensures ReadNonce(json, m) == Some(nonce)
       <==> (m.Text? && json.nonce.read(m.data) == Some(Base64.Encode(nonce)) && 16 <= |nonce| <= 128)
  {
    if m.Text? && json.nonce.read(m.data).Some? {
      Base64.Bijection(nonce, json.nonce.read(m.data).value);
    }
  }

  lemma NonceArrives(x: Session, nonce: Bytes)
    requires x.Valid() && |nonce| == 32
    ensures ReadNonce(x.json, Text(x.json.nonce.write(Base64.Encode(nonce)))) == Some(nonce)
  {
    Base64.Bijection(nonce, Base64.Encode(nonce));
    Reads(x.json.nonce, Base64.Encode(nonce));
  }

  lemma NoncesExchanged(x: Session) returns (n: Peers)
    requires x.Valid()
    ensures x.Reached(n)
    ensures n == Net(SendToken(Nonce(x)), RAwaitToken(Nonce(x)), [], [], [Agreed(Nonce(x))], [Agreed(Nonce(x))])
  {
    hide Session.Reached, RoundTrips, ReadNonce, Feed.Step, OpenFile, Listed;
    NonceArrives(x, x.sender.nonce);
    NonceArrives(x, x.receiver.nonce);
    x.Opens();
    var n1 := x.SenderRuns(OPENING);
    var n2 := x.ReceiverReceives(n1, Text(x.json.nonce.write(Base64.Encode(x.sender.nonce))), []);
    var n3 := x.ReceiverRuns(n2);
    n := x.SenderReceives(n3, Text(x.json.nonce.write(Base64.Encode(x.receiver.nonce))), []);
  }

  lemma Handshake(x: Session) returns (n: Peers)
    requires x.Valid()
    ensures x.Reached(n)
    ensures n == Net(AwaitToken(Nonce(x)), RSendToken(Nonce(x), x.sender.sign(Nonce(x))), [], [],
                     [Agreed(Nonce(x))], [Agreed(Nonce(x))])
  {
    hide Session.Reached, RoundTrips, Feed.Step, OpenFile, Listed;
    Reads(x.json.tokenRequest, x.sender.sign(Nonce(x)));
    var n1 := NoncesExchanged(x);
    var n2 := x.SenderRuns(n1);
    n := x.ReceiverReceives(n2, Text(x.json.tokenRequest.write(x.sender.sign(Nonce(x)))), []);
  }

  predicate ReceiverTrusts(x: Session) {
    x.receiver.trusts(x.sender.sign(Nonce(x)), Nonce(x))
  }

  predicate SenderTrusts(x: Session) {
    x.sender.trusts(x.receiver.sign(Nonce(x)), Nonce(x))
  }

  /** After the receiver's token: where each side stands. */
  lemma TokensExchanged(x: Session) returns (n: Peers)
    requires x.Valid()
    ensures x.Reached(n) && n.toLeft == n.toRight == []
    ensures n.logLeft == n.logRight == [Agreed(Nonce(x))]
    ensures !ReceiverTrusts(x) ==> n.left == Ended(Failed) && n.right == REnded(Failed)
    ensures ReceiverTrusts(x) ==>
              && n.right == (if x.receiver.pin.Some? then RStartPinCheck else RAwaitString([], FirstStatus))
              && n.left == if !SenderTrusts(x) then Ended(Failed)
                           else if x.receiver.pin.Some? then EnterPin(0) else StartPinCheck
  {
    hide Session.Reached, Feed.Step, OpenFile, Listed;
    var n1 := Handshake(x);
    var n2 := x.ReceiverRuns(n1);
    var token := x.receiver.sign(Nonce(x));
    var response := if !ReceiverTrusts(x) then TokenInvalidSignature
                    else if x.receiver.pin.Some? then TokenPinRequired(token) else TokenOk(token);
    n := x.SenderReceives(n2, Text(x.json.tokenResponse.write(response)), []);
  }

  // ----- The receiver's PIN -------------------------------------------------

  lemma ReceiverHears(x: Session, n: Peers, k: nat) returns (after: Peers)
    requires x.Valid() && x.Reached(n) && k < |x.sender.entered|
    requires n.left == EnterPin(k) && n.right == RAwaitPin(k) && n.toLeft == n.toRight == []
    ensures x.Reached(after)
    ensures after == n.(left := AwaitPinReply(k + 1), right := RCheckPin(x.sender.entered[k], k + 1),
                     logLeft := n.logLeft + [AskedForPin])
  {
    hide Session.Reached, Feed.Step, OpenFile, Listed;
    var n1 := x.SenderRuns(n);
    after := x.ReceiverReceives(n1, Text(x.json.pin.write(x.sender.entered[k])), []);
  }

  /** One entry at the sender, judged by the receiver. */
  lemma ReceiverRound(x: Session, n: Peers, k: nat) returns (after: Peers)
    requires x.Valid() && x.Reached(n) && x.receiver.pin.Some?
    requires k < x.receiver.pin.value.maxTries as nat
    requires n.left == EnterPin(k) && n.right == RAwaitPin(k) && n.toLeft == n.toRight == []
    ensures x.Reached(after)
    ensures
      var asked := n.logLeft + [AskedForPin];
      after == if k >= |x.sender.entered| then n.(left := Ended(Failed), logLeft := asked)
               else if x.sender.entered[k] == x.receiver.pin.value.pin then
                 n.(left := StartPinCheck, right := RAwaitString([], FirstStatus), logLeft := asked)
               else if k + 1 >= x.receiver.pin.value.maxTries as nat then
                 n.(left := Ended(Failed), right := REnded(Failed),
                 logLeft := asked + [GaveUp], logRight := n.logRight + [GaveUp])
               else n.(left := EnterPin(k + 1), right := RAwaitPin(k + 1), logLeft := asked)
  {
    hide Session.Reached, Feed.Step, OpenFile, Listed;
    if k >= |x.sender.entered| {
      after := x.SenderRuns(n);
      return;
    }
    var heard := ReceiverHears(x, n, k);
    var pin := x.sender.entered[k];
    var passed := pin == x.receiver.pin.value.pin;
    var judged := x.ReceiverRuns(heard);
    if passed {
      judged := x.ReceiverRuns(judged);
    }
    var response: PinResponse<()> :=
      if passed then PinOk(())
      else if k + 1 >= x.receiver.pin.value.maxTries as nat then TooManyAttempts else PinRequired;
    after := x.SenderReceives(judged, Text(x.json.pinReceiving.write(response)), []);
  }

  lemma AskedMore(log: seq<Event>, k: nat)
    ensures log + [AskedForPin] + Asked(k) == log + Asked(k + 1)
    ensures log + [AskedForPin] == log + Asked(1)
  {
  }

  lemma {:induction false} ReceiverChallenge(x: Session, n: Peers, k: nat) returns (after: Peers)
    requires x.Valid() && x.Reached(n) && x.receiver.pin.Some?
    requires k < x.receiver.pin.value.maxTries as nat
    requires n.left == EnterPin(k) && n.right == RAwaitPin(k) && n.toLeft == n.toRight == []
    ensures x.Reached(after)
    ensures Challenge(x.receiver.pin.value, x.sender.entered, k).rounds >= k
    ensures after == match Challenge(x.receiver.pin.value, x.sender.entered, k)
                     case Passed(r) =>
                       n.(left := StartPinCheck, right := RAwaitString([], FirstStatus),
                       logLeft := n.logLeft + Asked(r - k))
                     case Exhausted(r) =>
                       n.(left := Ended(Failed), right := REnded(Failed),
                       logLeft := n.logLeft + Asked(r - k) + [GaveUp], logRight := n.logRight + [GaveUp])
                     case RanOut(r) =>
                       n.(left := Ended(Failed), right := RAwaitPin(r), logLeft := n.logLeft + Asked(r - k + 1))
    decreases x.receiver.pin.value.maxTries as nat - k
  {
    hide *;
    ChallengeStep(x.receiver.pin.value, x.sender.entered, k);
    ChallengeStep(x.receiver.pin.value, x.sender.entered, k + 1);
    after := ReceiverRound(x, n, k);
    AskedMore(n.logLeft, 0);
    if after.left.EnterPin? {
      var next := after;
      after := ReceiverChallenge(x, next, k + 1);
      var c := Challenge(x.receiver.pin.value, x.sender.entered, k + 1);
      AskedMore(n.logLeft, c.rounds - k - 1 + if c.RanOut? then 1 else 0);
    }
  }

  /** The challenge up to its j-th entry, which has not been made yet. */
  lemma {:induction false} ReceiverRounds(x: Session, n: Peers, k: nat, j: nat) returns (after: Peers)
    requires x.Valid() && x.Reached(n) && x.receiver.pin.Some? && k <= j
    requires Challenge(x.receiver.pin.value, x.sender.entered, k).Passed?
    requires j < Challenge(x.receiver.pin.value, x.sender.entered, k).rounds
    requires n.left == EnterPin(k) && n.right == RAwaitPin(k) && n.toLeft == n.toRight == []
    ensures x.Reached(after)
    ensures after == n.(left := EnterPin(j), right := RAwaitPin(j), logLeft := n.logLeft + Asked(j - k))
    decreases j - k
  {
    hide Session.Reached, Session.Valid;
    after := n;
    if k < j {
      after := ReceiverRound(x, n, k);
      after := ReceiverRounds(x, after, k + 1, j);
      AskedMore(n.logLeft, j - k - 1);
    }
  }

  // ----- The sender's PIN ---------------------------------------------------

  lemma SenderHears(x: Session, n: Peers, k: nat) returns (after: Peers)
    requires x.Valid() && x.Reached(n) && k < |x.receiver.entered|
    requires n.left == AwaitPin(k) && n.right == REnterPin(k) && n.toLeft == n.toRight == []
    ensures x.Reached(after)
    ensures after == n.(left := CheckPin(x.receiver.entered[k], k + 1, false),
                     right := RAwaitString([], PinReply(k + 1)),
                     logRight := n.logRight + [AskedForPin])
  {
    hide Session.Reached, Feed.Step, OpenFile, Listed;
    var n1 := x.ReceiverRuns(n);
    after := x.SenderReceives(n1, Text(x.json.pin.write(x.receiver.entered[k])), []);
  }

  /** The sender refuses, or asks again, with a string in chunks. */
  lemma SenderAnswers(x: Session, n: Peers, refuse: bool, tries: nat, purpose: Purpose) returns (after: Peers)
    requires x.Valid() && x.Reached(n) && n.toLeft == n.toRight == []
    requires n.left == if refuse then SendString(x.json.pinSending.write(TooManyAttempts), GiveUp)
                       else SendString(x.json.pinSending.write(PinRequired), AwaitPin(tries))
    requires n.right == RAwaitString([], purpose)
    ensures x.Reached(after)
    ensures after == if refuse then
                       n.(left := Ended(Failed), right := REnded(Failed), logLeft := n.logLeft + [GaveUp],
                       logRight := n.logRight + if purpose.PinReply? then [GaveUp] else [])
                     else n.(left := AwaitPin(tries),
                     right := REnterPin(if purpose.PinReply? then purpose.entered else 0))
  {
    hide Session.Reached, Feed.Step, OpenFile, Listed;
    if refuse {
      after := x.StringToReceiver(n, x.json.pinSending.write(TooManyAttempts), GiveUp, purpose);
      after := x.SenderRuns(after);
    } else {
      after := x.StringToReceiver(n, x.json.pinSending.write(PinRequired), AwaitPin(tries), purpose);
    }
  }

  /** One entry at the receiver, judged by the sender; replies come in chunks. */
  lemma SenderRound(x: Session, n: Peers, k: nat) returns (after: Peers)
    requires x.Valid() && x.Reached(n) && x.sender.pin.Some?
    requires k < x.sender.pin.value.maxTries as nat
    requires n.left == AwaitPin(k) && n.right == REnterPin(k) && n.toLeft == n.toRight == []
    ensures x.Reached(after)
    ensures
      var asked := n.logRight + [AskedForPin];
      after == if k >= |x.receiver.entered| then n.(right := REnded(Failed), logRight := asked)
               else if x.receiver.entered[k] == x.sender.pin.value.pin then
                 n.(left := SendFileList(x.sender, x.json), right := RAwaitString([], PinReply(k + 1)),
                 logLeft := n.logLeft + [Connected], logRight := asked)
               else if k + 1 >= x.sender.pin.value.maxTries as nat then
                 n.(left := Ended(Failed), right := REnded(Failed),
                 logLeft := n.logLeft + [GaveUp], logRight := asked + [GaveUp])
               else n.(left := AwaitPin(k + 1), right := REnterPin(k + 1), logRight := asked)
  {
    hide Session.Reached, Session.Valid, Feed.Step, OpenFile, Listed, SenderReceive, ReceiverReceive, ReceiverString;
    if k >= |x.receiver.entered| {
      after := x.ReceiverRuns(n);
    } else {
      var heard := SenderHears(x, n, k);
      after := x.SenderRuns(heard);
      if x.receiver.entered[k] != x.sender.pin.value.pin {
        after := SenderAnswers(x, after, k + 1 >= x.sender.pin.value.maxTries as nat, k + 1, PinReply(k + 1));
      }
    }
  }

  lemma {:induction false} SenderChallenge(x: Session, n: Peers, k: nat) returns (after: Peers)
    requires x.Valid() && x.Reached(n) && x.sender.pin.Some?
    requires k < x.sender.pin.value.maxTries as nat
    requires n.left == AwaitPin(k) && n.right == REnterPin(k) && n.toLeft == n.toRight == []
    ensures x.Reached(after)
    ensures Challenge(x.sender.pin.value, x.receiver.entered, k).rounds >= k
    ensures after == match Challenge(x.sender.pin.value, x.receiver.entered, k)
                     case Passed(r) =>
                       n.(left := SendFileList(x.sender, x.json), right := RAwaitString([], PinReply(r)),
                       logLeft := n.logLeft + [Connected], logRight := n.logRight + Asked(r - k))
                     case Exhausted(r) =>
                       n.(left := Ended(Failed), right := REnded(Failed),
                       logLeft := n.logLeft + [GaveUp], logRight := n.logRight + Asked(r - k) + [GaveUp])
                     case RanOut(r) =>
                       n.(left := AwaitPin(r), right := REnded(Failed), logRight := n.logRight + Asked(r - k + 1))
    decreases x.sender.pin.value.maxTries as nat - k
  {
    hide *;
    ChallengeStep(x.sender.pin.value, x.receiver.entered, k);
    ChallengeStep(x.sender.pin.value, x.receiver.entered, k + 1);
    after := SenderRound(x, n, k);
    AskedMore(n.logRight, 0);
    if after.right.REnterPin? {
      var next := after;
      after := SenderChallenge(x, next, k + 1);
      var c := Challenge(x.sender.pin.value, x.receiver.entered, k + 1);
      AskedMore(n.logRight, c.rounds - k - 1 + if c.RanOut? then 1 else 0);
    }
  }

  // ----- Who gets as far as the file list -----------------------------------

  /** The sender reads an answer to a PIN it has sent, so an empty PIN, accepted unasked, breaks the dialogue. */
  ghost predicate ReceiverPinPasses(x: Session) {
    x.receiver.pin.Some? ==> x.receiver.pin.value.pin != "" && Presented(x.receiver.pin.value, x.sender.entered)
  }

  /** Here the verifier announces the challenge, so an empty PIN just means no challenge. */
  ghost predicate SenderPinPasses(x: Session) {
    x.sender.pin.Some? ==> x.sender.pin.value.pin == "" || Presented(x.sender.pin.value, x.receiver.entered)
  }

  ghost predicate Admitted(x: Session) {
    ReceiverTrusts(x) && SenderTrusts(x) && ReceiverPinPasses(x) && SenderPinPasses(x)
  }

  /** No word yet of the files or of their tokens. */
  ghost predicate Early(log: seq<Event>) {
    forall e :: e in log ==> !e.Published? && !e.Selected?
  }

  /** One task has failed, the other has ended or waits for ever, and neither has heard of the files. */
  ghost predicate DeadEnd(x: Session, n: Peers) {
    && (n.left == Ended(Failed) || n.right == REnded(Failed))
    && x.Pair().Stuck(n)
    && Early(n.logLeft) && Early(n.logRight)
  }

  lemma OnlyAsked(k: nat)
    ensures forall e :: e in Asked(k) ==> e == AskedForPin
  {
  }

  function SenderLogBeforeFiles(x: Session): seq<Event> {
    [Agreed(Nonce(x))]
    + (if x.receiver.pin.Some? then Asked(Challenge(x.receiver.pin.value, x.sender.entered, 0).rounds) else [])
    + (if x.sender.pin.Some? then [AskedForPin] else [])
    + [Connected]
  }

  function ReceiverLogBeforeFiles(x: Session): seq<Event> {
    [Agreed(Nonce(x))]
    + (if x.receiver.pin.Some? then [AskedForPin] else [])
    + (if x.sender.pin.Some? && x.sender.pin.value.pin != "" then
         Asked(Challenge(x.sender.pin.value, x.receiver.entered, 0).rounds)
       else [])
  }

  /** The check of an empty PIN succeeds without an entry, and says so. */
  lemma EmptyPinAccepted(x: Session, n: Peers) returns (after: Peers)
    requires x.Reached(n) && x.receiver.pin.Some? && x.receiver.pin.value.pin == ""
    requires n.right == RStartPinCheck
    ensures x.Reached(after)
    ensures after == n.(right := RAwaitString([], FirstStatus), logRight := n.logRight + [AskedForPin],
                     toLeft := n.toLeft + SendJson(x.json.pinReceiving.write(PinOk(()))))
  {
    hide Session.Reached, Feed.Step, OpenFile, Listed;
    var n1 := x.ReceiverRuns(n);
    var n2 := x.ReceiverRuns(n1);
    after := x.ReceiverRuns(n2);
  }

  /** The check of another PIN waits for an entry, or gives up at once if none is allowed. */
  lemma PinAwaited(x: Session, n: Peers) returns (after: Peers)
    requires x.Reached(n) && x.receiver.pin.Some? && x.receiver.pin.value.pin != ""
    requires n.right == RStartPinCheck
    ensures x.Reached(after)
    ensures after == if x.receiver.pin.value.maxTries == 0 then
                       n.(right := REnded(Failed), logRight := n.logRight + [AskedForPin] + [GaveUp],
                       toLeft := n.toLeft + SendJson(x.json.pinReceiving.write(TooManyAttempts)))
                     else n.(right := RAwaitPin(0), logRight := n.logRight + [AskedForPin])
  {
    hide Session.Reached, Feed.Step, OpenFile, Listed;
    var n1 := x.ReceiverRuns(n);
    after := x.ReceiverRuns(n1);
  }

  lemma DeadByFailure(x: Session, n: Peers)
    requires n.left.Ended? || (SenderMode(n.left) == Waiting && n.toLeft == [])
    requires n.right == REnded(Failed) && Early(n.logLeft) && Early(n.logRight)
    ensures DeadEnd(x, n)
  {
  }

  lemma DeadByWaiting(x: Session, n: Peers)
    requires n.left == Ended(Failed) && (n.right.REnded? || ReceiverMode(n.right) == Waiting) && n.toRight == []
    requires Early(n.logLeft) && Early(n.logRight)
    ensures DeadEnd(x, n)
  {
  }

  /** A sender whose receiver has ended still sends the whole of a string. */
  lemma SenderSays(x: Session, n: Peers, bytes: Bytes, next: Sender) returns (after: Peers)
    requires x.Reached(n) && n.left == SendString(bytes, next)
    ensures x.Reached(after) && after == n.(left := next, toRight := after.toRight)
  {
    hide Session.Reached, Feed.Step, OpenFile, Listed;
    after := x.SenderDrains(n);
    after := x.SenderRuns(after);
  }

  /** It asks for its PIN, or gives up at once if no entry is allowed. */
  lemma SenderAsksAlone(x: Session, n: Peers) returns (after: Peers)
    requires x.Reached(n) && x.sender.pin.Some? && x.sender.pin.value.pin != "" && n.left == StartPinCheck
    ensures x.Reached(after)
    ensures
      var asked := n.logLeft + [AskedForPin];
      after == if x.sender.pin.value.maxTries == 0 then
                 n.(left := Ended(Failed), toRight := after.toRight, logLeft := asked + [GaveUp])
               else n.(left := AwaitPin(0), toRight := after.toRight, logLeft := asked)
  {
    hide Session.Reached, Feed.Step, OpenFile, Listed;
    after := x.SenderRuns(n);
    after := x.SenderRuns(after);
    if x.sender.pin.value.maxTries == 0 {
      after := SenderSays(x, after, x.json.pinSending.write(TooManyAttempts), GiveUp);
      after := x.SenderRuns(after);
    } else {
      after := SenderSays(x, after, x.json.pinSending.write(PinRequired), AwaitPin(0));
    }
  }

  /** A sender left alone before its PIN check gets no further than its next question. */
  lemma SenderLeftAlone(x: Session, n: Peers) returns (after: Peers)
    requires x.Reached(n) && n.left == StartPinCheck && n.toLeft == [] && n.right == REnded(Failed)
    requires Early(n.logLeft) && Early(n.logRight)
    ensures x.Reached(after) && DeadEnd(x, after)
  {
    hide Session.Reached, DeadEnd, Feed.Step, OpenFile, Listed, SendString;
    if x.sender.pin.Some? && x.sender.pin.value.pin != "" {
      after := SenderAsksAlone(x, n);
    } else {
      if x.sender.pin.Some? {
        after := SenderSkips(x, n);
      } else {
        after := x.SenderRuns(n);
      }
      after := SenderSays(x, after, x.json.pinSending.write(PinOk(x.sender.files)), AwaitFileTokens([]));
    }
    DeadByFailure(x, after);
  }

  /** An empty PIN at the receiver: whatever the sender's user does, one of the tasks fails. */
  lemma EmptyReceiverPin(x: Session, n: Peers) returns (after: Peers)
    requires x.Valid() && x.Reached(n) && x.receiver.pin.Some? && x.receiver.pin.value.pin == ""
    requires n.left == EnterPin(0) && n.right == RStartPinCheck && n.toLeft == n.toRight == []
    requires Early(n.logLeft) && Early(n.logRight)
    ensures x.Reached(after) && DeadEnd(x, after)
  {
    hide *;
    after := EmptyPinAccepted(x, n);
    after := SenderEnters(x, after, 0);
    EarlyWhenAsked(n.logLeft, 1);
    AskedMore(n.logLeft, 0);
    EarlyWhenAsked(n.logRight, 1);
    AskedMore(n.logRight, 0);
    if after.left.Ended? {
      WaitsForString(after);
      DeadByWaiting(x, after);
    } else {
      after := ReceiverMisreads(x, after);
      after := SenderIsAccepted(x, after);
      after := SenderLeftAlone(x, after);
    }
  }

  lemma WaitsForString(n: Peers)
    requires n.right.RAwaitString?
    ensures ReceiverMode(n.right) == Waiting
  {
  }

  lemma SenderEnters(x: Session, n: Peers, k: nat) returns (after: Peers)
    requires x.Reached(n) && n.left == EnterPin(k)
    ensures x.Reached(after)
    ensures
      var asked := n.logLeft + [AskedForPin];
      after == if k < |x.sender.entered| then
                 n.(left := AwaitPinReply(k + 1), logLeft := asked,
                 toRight := n.toRight + [Text(x.json.pin.write(x.sender.entered[k]))])
               else n.(left := Ended(Failed), logLeft := asked)
  {
    hide Session.Reached;
    after := x.SenderRuns(n);
  }

  /** A single string message is the end of an empty string in chunks. */
  lemma ReceiverMisreads(x: Session, n: Peers) returns (after: Peers)
    requires x.Valid() && x.Reached(n) && n.right.RAwaitString? && n.right.buffer == []
    requires |n.toRight| == 1 && n.toRight[0].Text?
    ensures x.Reached(after) && after == n.(right := REnded(Failed), toRight := [])
  {
    hide Session.Reached, OpenFile;
    after := x.ReceiverReceives(n, n.toRight[0], []);
  }

  lemma SenderIsAccepted(x: Session, n: Peers) returns (after: Peers)
    requires x.Valid() && x.Reached(n) && n.left.AwaitPinReply?
    requires n.toLeft == SendJson(x.json.pinReceiving.write(PinOk(())))
    ensures x.Reached(after) && after == n.(left := StartPinCheck, toLeft := [])
  {
    hide Session.Reached;
    Reads(x.json.pinReceiving, PinOk(()));
    after := x.SenderReceives(n, Text(x.json.pinReceiving.write(PinOk(()))), []);
  }

  /** No entry allowed at the receiver: the sender asks its user once, and hears that it was too much. */
  lemma NoEntryAllowed(x: Session, n: Peers) returns (after: Peers)
    requires x.Valid() && x.Reached(n) && n.left == EnterPin(0) && n.right == REnded(Failed)
    requires n.toLeft == SendJson(x.json.pinReceiving.write(TooManyAttempts)) && n.toRight == []
    requires Early(n.logLeft) && Early(n.logRight)
    ensures x.Reached(after) && DeadEnd(x, after)
  {
    hide Session.Reached, DeadEnd;
    after := x.SenderRuns(n);
    if after.left.AwaitPinReply? {
      Reads(x.json.pinReceiving, TooManyAttempts);
      after := x.SenderReceives(after, Text(x.json.pinReceiving.write(TooManyAttempts)), []);
    }
    DeadByFailure(x, after);
  }

  lemma ReceiverPinPhase(x: Session, n: Peers) returns (after: Peers)
    requires x.Valid() && x.Reached(n) && x.receiver.pin.Some?
    requires n.left == EnterPin(0) && n.right == RStartPinCheck && n.toLeft == n.toRight == []
    requires Early(n.logLeft) && Early(n.logRight)
    ensures x.Reached(after)
    ensures ReceiverPinPasses(x) ==>
              after == Net(StartPinCheck, RAwaitString([], FirstStatus), [], [],
                           n.logLeft + Asked(Challenge(x.receiver.pin.value, x.sender.entered, 0).rounds),
                           n.logRight + [AskedForPin])
    ensures !ReceiverPinPasses(x) ==> DeadEnd(x, after)
  {
    hide Session.Reached, DeadEnd, Asked;
    var config := x.receiver.pin.value;
    ChallengeMeaning(config, x.sender.entered, 0);
    if config.pin == "" {
      after := EmptyReceiverPin(x, n);
      return;
    }
    after := PinAwaited(x, n);
    if config.maxTries == 0 {
      after := NoEntryAllowed(x, after);
    } else {
      EarlyWhenAsked(n.logLeft, Challenge(config, x.sender.entered, 0).rounds);
      EarlyWhenAsked(n.logLeft, Challenge(config, x.sender.entered, 0).rounds + 1);
      after := ReceiverChallenge(x, after, 0);
      if !ReceiverPinPasses(x) {
        PinFails(x, after);
      }
    }
  }

  lemma PinFails(x: Session, n: Peers)
    requires n.left == Ended(Failed) || n.right == REnded(Failed)
    requires n.toLeft == n.toRight == []
    requires n.left.Ended? || n.left.AwaitPin?
    requires n.right.REnded? || n.right.RAwaitPin?
    requires Early(n.logLeft) && Early(n.logRight)
    ensures DeadEnd(x, n)
  {
  }

  /** The sender's challenge up to its first notice. */
  lemma SenderNotifies(x: Session, n: Peers) returns (after: Peers)
    requires x.Valid() && x.Reached(n) && x.sender.pin.Some? && x.sender.pin.value.pin != ""
    requires n.left == StartPinCheck && n.right == RAwaitString([], FirstStatus) && n.toLeft == n.toRight == []
    ensures x.Reached(after)
    ensures
      var asked := n.logLeft + [AskedForPin];
      after == if x.sender.pin.value.maxTries == 0 then
                 n.(left := Ended(Failed), right := REnded(Failed), logLeft := asked + [GaveUp])
               else n.(left := AwaitPin(0), right := REnterPin(0), logLeft := asked)
  {
    hide Session.Reached, Session.Valid, Feed.Step, OpenFile, Listed, SenderReceive, ReceiverReceive, ReceiverString;
    var n1 := x.SenderRuns(n);
    after := x.SenderRuns(n1);
    after := SenderAnswers(x, after, x.sender.pin.value.maxTries == 0, 0, FirstStatus);
  }

  lemma EarlyWhenAsked(log: seq<Event>, k: nat)
    requires Early(log)
    ensures Early(log + Asked(k)) && Early(log + Asked(k) + [GaveUp])
  {
    OnlyAsked(k);
  }

  /** An empty PIN of the sender asks nothing of the receiver. */
  lemma SenderSkips(x: Session, n: Peers) returns (after: Peers)
    requires x.Reached(n) && x.sender.pin.Some? && x.sender.pin.value.pin == "" && n.left == StartPinCheck
    ensures x.Reached(after)
    ensures after == n.(left := SendFileList(x.sender, x.json), logLeft := n.logLeft + [AskedForPin] + [Connected])
  {
    hide Session.Reached, Feed.Step, OpenFile, Listed;
    var n1 := x.SenderRuns(n);
    after := x.SenderRuns(n1);
  }

  lemma SenderPinPhase(x: Session, n: Peers) returns (after: Peers)
    requires x.Valid() && x.Reached(n) && x.sender.pin.Some?
    requires n.left == StartPinCheck && n.right == RAwaitString([], FirstStatus) && n.toLeft == n.toRight == []
    requires Early(n.logLeft) && Early(n.logRight)
    ensures x.Reached(after)
    ensures SenderPinPasses(x) ==>
              && after.left == SendFileList(x.sender, x.json)
              && after.right.RAwaitString? && after.right.buffer == [] && after.toLeft == after.toRight == []
              && after.logLeft == n.logLeft + [AskedForPin] + [Connected]
              && after.logRight == n.logRight + if x.sender.pin.value.pin == "" then []
                                                else Asked(Challenge(x.sender.pin.value, x.receiver.entered, 0).rounds)
    ensures !SenderPinPasses(x) ==> DeadEnd(x, after)
  {
    hide Session.Reached, DeadEnd, SendFileList, Asked;
    var config := x.sender.pin.value;
    ChallengeMeaning(config, x.receiver.entered, 0);
    if config.pin == "" {
      after := SenderSkips(x, n);
      return;
    }
    after := SenderNotifies(x, n);
    if config.maxTries > 0 {
      after := SenderChallenge(x, after, 0);
      EarlyWhenAsked(n.logRight, Challenge(config, x.receiver.entered, 0).rounds);
      EarlyWhenAsked(n.logRight, Challenge(config, x.receiver.entered, 0).rounds + 1);
    }
    if !SenderPinPasses(x) {
      PinFails(x, after);
    }
  }

  /** A sender that distrusts the receiver stops; the receiver gets no further than its next question. */
  lemma ReceiverLeftAlone(x: Session, n: Peers) returns (after: Peers)
    requires x.Valid() && x.Reached(n) && n.left == Ended(Failed) && n.toLeft == n.toRight == []
    requires n.right == if x.receiver.pin.Some? then RStartPinCheck else RAwaitString([], FirstStatus)
    requires Early(n.logLeft) && Early(n.logRight)
    ensures x.Reached(after) && DeadEnd(x, after)
  {
    hide Session.Reached, Feed.Step, OpenFile, Listed;
    hide DeadEnd;
    after := n;
    if x.receiver.pin.Some? {
      var n1 := x.ReceiverRuns(n);
      after := x.ReceiverRuns(n1);
      if after.right.RConfirmPin? {
        after := x.ReceiverRuns(after);
      }
    }
    if after.right.REnded? {
      DeadByFailure(x, after);
    } else {
      DeadByWaiting(x, after);
    }
  }

  /** Once both trust each other: the two PIN checks, and then the file list. */
  lemma PinsThenFiles(x: Session, start: Peers) returns (n: Peers)
    requires x.Valid() && x.Reached(start) && ReceiverTrusts(x) && SenderTrusts(x)
    requires start == Net(if x.receiver.pin.Some? then EnterPin(0) else StartPinCheck,
                          if x.receiver.pin.Some? then RStartPinCheck else RAwaitString([], FirstStatus),
                          [], [], [Agreed(Nonce(x))], [Agreed(Nonce(x))])
    ensures x.Reached(n)
    ensures Admitted(x) ==>
              n == Net(AwaitFileTokens([]), RChoose(x.sender.files), [], [],
                       SenderLogBeforeFiles(x), ReceiverLogBeforeFiles(x))
    ensures !Admitted(x) ==> DeadEnd(x, n)
  {
    hide DeadEnd, Session.Reached, Challenge, Asked, ReceiverTrusts, SenderTrusts, SendFileList;
    n := start;
    if x.receiver.pin.Some? {
      EarlyWhenAsked(n.logLeft, Challenge(x.receiver.pin.value, x.sender.entered, 0).rounds);
      n := ReceiverPinPhase(x, n);
      if !ReceiverPinPasses(x) {
        return;
      }
    }
    if x.sender.pin.Some? {
      n := SenderPinPhase(x, n);
      if !SenderPinPasses(x) {
        return;
      }
    } else {
      n := x.SenderRuns(n);
    }
    n := FileListArrives(x, n);
    assert n.logLeft == SenderLogBeforeFiles(x);
    assert n.logRight == ReceiverLogBeforeFiles(x);
  }

  /** The first half of the run: either a dead end, or both sides know the file list. */
  lemma UpToFiles(x: Session) returns (n: Peers)
    requires x.Valid()
    ensures x.Reached(n)
    ensures Admitted(x) ==>
              n == Net(AwaitFileTokens([]), RChoose(x.sender.files), [], [],
                       SenderLogBeforeFiles(x), ReceiverLogBeforeFiles(x))
    ensures !Admitted(x) ==> DeadEnd(x, n)
  {
    n := TokensExchanged(x);
    if !ReceiverTrusts(x) {
      return;
    }
    if !SenderTrusts(x) {
      n := ReceiverLeftAlone(x, n);
      return;
    }
    n := PinsThenFiles(x, n);
  }

  lemma FileListArrives(x: Session, n: Peers) returns (after: Peers)
    requires x.Valid() && x.Reached(n) && n.toLeft == n.toRight == []
    requires n.left == SendFileList(x.sender, x.json) && n.right.RAwaitString? && n.right.buffer == []
    ensures x.Reached(after)
    ensures after == n.(left := AwaitFileTokens([]), right := RChoose(x.sender.files))
  {
    after := x.StringToReceiver(n, x.json.pinSending.write(PinOk(x.sender.files)), AwaitFileTokens([]),
                                n.right.purpose);
  }
}
