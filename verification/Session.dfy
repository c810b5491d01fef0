/**
 One reference run of the transfer protocol, phase by phase, for every pair of
 applications. `Channel` makes it speak for every interleaving.
 */
module Session {
  import opened Prelude
  import opened Channel
  import opened Framing
  import opened Transfer

  // ----- What a PIN challenge must come to ----------------------------------

  datatype Outcome = Passed(rounds: nat) | Exhausted(rounds: nat) | RanOut(rounds: nat)

  /** The outcome once the first k entries were wrong. */
  function Challenge(config: PinConfig, entered: seq<string>, k: nat): Outcome
    decreases config.maxTries as nat - k
  {
    if k >= config.maxTries as nat then Exhausted(k)
    else if k >= |entered| then RanOut(k)
    else if entered[k] == config.pin then Passed(k + 1)
    else Challenge(config, entered, k + 1)
  }

  lemma ChallengeStep(config: PinConfig, entered: seq<string>, k: nat)
    ensures Challenge(config, entered, k)
         == if k >= config.maxTries as nat then Exhausted(k)
            else if k >= |entered| then RanOut(k)
            else if entered[k] == config.pin then Passed(k + 1)
            else Challenge(config, entered, k + 1)
  {
  }

  /** One of the first `maxTries` entries is the PIN. */
  ghost predicate Presented(config: PinConfig, entered: seq<string>) {
    exists i :: 0 <= i < |entered| && i < config.maxTries as nat && entered[i] == config.pin
  }

  lemma {:induction false} ChallengeMeaning(config: PinConfig, entered: seq<string>, k: nat)
    requires forall i :: 0 <= i < k && i < |entered| ==> entered[i] != config.pin
    requires k <= config.maxTries as nat && k <= |entered|
    ensures
      var c := Challenge(config, entered, k);
      && (c.Passed? <==> Presented(config, entered))
      && k <= c.rounds <= config.maxTries as nat
      && (c.RanOut? ==> c.rounds == |entered| < config.maxTries as nat)
      && (c.Exhausted? ==> c.rounds == config.maxTries as nat)
      && (c.Passed? ==> k < c.rounds <= |entered| && entered[c.rounds - 1] == config.pin)
    decreases config.maxTries as nat - k
  {
    if k < config.maxTries as nat && k < |entered| && entered[k] != config.pin {
      ChallengeMeaning(config, entered, k + 1);
    }
  }

  function Asked(n: nat): seq<Event> {
    if n == 0 then [] else [AskedForPin] + Asked(n - 1)
  }

  // ----- What the file phase must come to -----------------------------------

  /** The files the sender has a token for; the others are skipped. */
  function Known(tokens: map<string, string>, files: seq<Outgoing>): (known: seq<Outgoing>)
    ensures forall f :: f in known ==> f.id in tokens
  {
    if files == [] then []
    else (if files[0].id in tokens then [files[0]] else []) + Known(tokens, files[1..])
  }

  function UnknownLog(tokens: map<string, string>, files: seq<Outgoing>): seq<Event> {
    if files == [] then []
    else (if files[0].id in tokens then [] else [FileError(files[0].id, "Failed to get file token")])
         + UnknownLog(tokens, files[1..])
  }

  function FileMessages(json: Json, tokens: map<string, string>, file: Outgoing): seq<Msg>
    requires file.id in tokens
  {
    SendJson(json.header.write(Header(file.id, tokens[file.id]))) + Binaries(Chunks(Flatten(file.pieces), CHUNK_SIZE))
  }

  function AllMessages(json: Json, tokens: map<string, string>, known: seq<Outgoing>): seq<Msg>
    requires forall f :: f in known ==> f.id in tokens
  {
    if known == [] then []
    else FileMessages(json, tokens, known[0]) + AllMessages(json, tokens, known[1..])
  }

  function ChunkLog(open: Option<string>, cs: seq<Bytes>): seq<Event> {
    if cs == [] then []
    else [if open.Some? then Data(open.value, cs[0])
          else FileError("unknown", "Received binary data without a header")] + ChunkLog(open, cs[1..])
  }

  function CloseLog(open: Option<string>): seq<Event> {
    if open.Some? then [Closed(open.value)] else []
  }

  function OpenedBy(plan: Plan, file: Outgoing): Option<string> {
    if Listed(plan.files, file.id) then Some(file.id) else None
  }

  function OpenLog(plan: Plan, file: Outgoing): seq<Event> {
    if Listed(plan.files, file.id) then [Opened(file.id)]
    else [FileError(file.id, "Expected size to be available")]
  }

  function FileLog(plan: Plan, file: Outgoing): seq<Event> {
    OpenLog(plan, file) + ChunkLog(OpenedBy(plan, file), Chunks(Flatten(file.pieces), CHUNK_SIZE))
  }

  /** The receiver's log over the known files, when `open` is the file before them. */
  function FilesLog(plan: Plan, open: Option<string>, known: seq<Outgoing>): seq<Event>
    decreases known
  {
    if known == [] then CloseLog(open)
    else CloseLog(open) + FileLog(plan, known[0]) + FilesLog(plan, OpenedBy(plan, known[0]), known[1..])
  }

  function ReplyTo(env: ReceiverEnv, json: Json, open: Option<string>, done: nat): seq<Msg> {
    if open.Some? then SendJson(json.fileResponse.write(Reply(env, open.value, done))) else []
  }

  /** The replies over the known files, when `open` is the file before them. */
  function Replies(env: ReceiverEnv, json: Json, plan: Plan, open: Option<string>, done: nat,
                   known: seq<Outgoing>): seq<Msg>
    decreases known
  {
    ReplyTo(env, json, open, done)
    + if known == [] then []
      else Replies(env, json, plan, OpenedBy(plan, known[0]), if open.Some? then done + 1 else done, known[1..])
  }

  function LastOpen(plan: Plan, open: Option<string>, known: seq<Outgoing>): Option<string>
    decreases known
  {
    if known == [] then open else LastOpen(plan, OpenedBy(plan, known[0]), known[1..])
  }

  // ----- The reference run --------------------------------------------------

  datatype Session = Session(sender: SenderEnv, receiver: ReceiverEnv, json: Json, strict: bool) {

    function Pair(): System<Sender, Receiver, Event> {
      Protocol(sender, receiver, json, strict)
    }

    ghost predicate Reached(n: Peers) {
      Pair().Reaches(OPENING, n)
    }

    ghost predicate Valid() {
      json.Lawful() && |sender.nonce| == 32 && |receiver.nonce| == 32
    }

    lemma Opens()
      ensures Reached(OPENING)
    {
      Pair().Start(OPENING);
    }

    lemma SenderRuns(n: Peers) returns (after: Peers)
      requires Reached(n) && SenderMode(n.left) == Running
      ensures
        var move := SenderRun(sender, json, n.left);
        after == n.(left := move.next, toRight := n.toRight + move.send, logLeft := n.logLeft + move.log)
      ensures Reached(after)
    {
      Pair().Then(OPENING, n, Left);
      after := Pair().Next(n, Left);
    }

    lemma SenderReceives(n: Peers, m: Msg, rest: seq<Msg>) returns (after: Peers)
      requires Reached(n) && SenderMode(n.left) == Waiting && n.toLeft == [m] + rest && SenderExpects(n.left, m)
      ensures
        var move := SenderReceive(sender, json, n.left, m);
        after == n.(left := move.next, toLeft := rest, toRight := n.toRight + move.send,
                   logLeft := n.logLeft + move.log)
      ensures Reached(after)
    {
      Pair().Then(OPENING, n, Left);
      after := Pair().Next(n, Left);
    }

    lemma ReceiverRuns(n: Peers) returns (after: Peers)
      requires Reached(n) && ReceiverMode(n.right) == Running
      ensures
        var move := ReceiverRun(receiver, json, n.right);
        after == n.(right := move.next, toLeft := n.toLeft + move.send, logRight := n.logRight + move.log)
      ensures Reached(after)
    {
      Pair().Then(OPENING, n, Right);
      after := Pair().Next(n, Right);
    }

    lemma ReceiverReceives(n: Peers, m: Msg, rest: seq<Msg>) returns (after: Peers)
      requires Reached(n) && ReceiverMode(n.right) == Waiting && n.toRight == [m] + rest
      requires ReceiverExpects(n.right, m)
      ensures
        var move := ReceiverReceive(receiver, json, n.right, m);
        after == n.(right := move.next, toRight := rest, toLeft := n.toLeft + move.send,
                   logRight := n.logRight + move.log)
      ensures Reached(after)
    {
      Pair().Then(OPENING, n, Right);
      after := Pair().Next(n, Right);
    }

    // ----- Strings in chunks ------------------------------------------------

    lemma NoChunks()
      ensures Binaries(Chunks([], CHUNK_SIZE)) == []
    {
    }

    lemma AppendChunk(queue: seq<Msg>, c: Bytes, rest: Bytes)
      ensures
        var cs := Chunks(rest, CHUNK_SIZE);
        queue + [Binary(c)] + Binaries(cs) == queue + Binaries([c] + cs)
    {
      var cs := Chunks(rest, CHUNK_SIZE);
      assert ([c] + cs)[1..] == cs;
    }

    lemma SenderFeeds(n: Peers) returns (after: Peers)
      requires Reached(n) && n.left.Stream?
      ensures Reached(after)
      ensures after == match n.left.feed.Step()
                       case Emit(chunk, rest) =>
                         n.(left := Stream(rest, n.left.next), toRight := n.toRight + [Binary(chunk)])
                       case Absorb(rest) => n.(left := Stream(rest, n.left.next))
                       case Drained => n.(left := n.left.next)
    {
      hide Feed.Step;
      after := SenderRuns(n);
    }

    lemma {:induction false} SenderDrains(n: Peers) returns (after: Peers)
      requires Reached(n) && n.left.Stream?
      ensures Reached(after)
      ensures after == n.(left := n.left.next,
                       toRight := n.toRight + Binaries(Chunks(n.left.feed.Rest(), CHUNK_SIZE)))
      decreases |n.left.feed.Rest()|, |n.left.feed.input|
    {
      hide *;
      var feed := n.left.feed;
      feed.StepFacts();
      after := SenderFeeds(n);
      match feed.Step()
      case Drained =>
        NoChunks();
      case Absorb(rest) =>
        after := SenderDrains(after);
      case Emit(chunk, rest) =>
        after := SenderDrains(after);
        AppendChunk(n.toRight, chunk, rest.Rest());
    }

    lemma ReceiverFeeds(n: Peers) returns (after: Peers)
      requires Reached(n) && n.right.RStream?
      ensures Reached(after)
      ensures after == match n.right.feed.Step()
                       case Emit(chunk, rest) =>
                         n.(right := RStream(rest, n.right.next), toLeft := n.toLeft + [Binary(chunk)])
                       case Absorb(rest) => n.(right := RStream(rest, n.right.next))
                       case Drained => n.(right := n.right.next)
    {
      hide Feed.Step;
      after := ReceiverRuns(n);
    }

    lemma {:induction false} ReceiverDrains(n: Peers) returns (after: Peers)
      requires Reached(n) && n.right.RStream?
      ensures Reached(after)
      ensures after == n.(right := n.right.next,
                       toLeft := n.toLeft + Binaries(Chunks(n.right.feed.Rest(), CHUNK_SIZE)))
      decreases |n.right.feed.Rest()|, |n.right.feed.input|
    {
      hide *;
      var feed := n.right.feed;
      feed.StepFacts();
      after := ReceiverFeeds(n);
      match feed.Step()
      case Drained =>
        NoChunks();
      case Absorb(rest) =>
        after := ReceiverDrains(after);
      case Emit(chunk, rest) =>
        after := ReceiverDrains(after);
        AppendChunk(n.toLeft, chunk, rest.Rest());
    }

    lemma {:induction false} ReceiverCollects(n: Peers, cs: seq<Bytes>) returns (after: Peers)
      requires Reached(n) && n.right.RAwaitString? && n.toRight == Binaries(cs) + [DELIMITER]
      ensures Reached(after)
      ensures
        var move := ReceiverString(json, n.right.buffer + Flatten(cs), n.right.purpose);
        after == n.(right := move.next, toRight := [], logRight := n.logRight + move.log)
      decreases |cs|
    {
      if cs == [] {
        assert n.right.buffer + Flatten(cs) == n.right.buffer;
        after := ReceiverReceives(n, DELIMITER, []);
      } else {
        assert n.toRight == [Binary(cs[0])] + (Binaries(cs[1..]) + [DELIMITER]);
        var mid := ReceiverReceives(n, Binary(cs[0]), Binaries(cs[1..]) + [DELIMITER]);
        assert mid.toLeft == n.toLeft && mid.logRight == n.logRight;
        after := ReceiverCollects(mid, cs[1..]);
        assert n.right.buffer + Flatten(cs) == mid.right.buffer + Flatten(cs[1..]);
      }
    }

    lemma {:induction false} SenderCollects(n: Peers, cs: seq<Bytes>) returns (after: Peers)
      requires Reached(n) && n.left.AwaitFileTokens? && n.toLeft == Binaries(cs) + [DELIMITER]
      ensures Reached(after)
      ensures
        var move := SenderReceive(sender, json, AwaitFileTokens(n.left.buffer + Flatten(cs)), DELIMITER);
        after == n.(left := move.next, toLeft := [], logLeft := n.logLeft + move.log)
      decreases |cs|
    {
      if cs == [] {
        assert n.left.buffer + Flatten(cs) == n.left.buffer;
        after := SenderReceives(n, DELIMITER, []);
      } else {
        assert n.toLeft == [Binary(cs[0])] + (Binaries(cs[1..]) + [DELIMITER]);
        var mid := SenderReceives(n, Binary(cs[0]), Binaries(cs[1..]) + [DELIMITER]);
        assert mid.toRight == n.toRight && mid.logLeft == n.logLeft;
        after := SenderCollects(mid, cs[1..]);
        assert n.left.buffer + Flatten(cs) == mid.left.buffer + Flatten(cs[1..]);
      }
    }

    lemma OnePiece(bytes: Bytes)
      ensures Feed([], [bytes]).Rest() == bytes
    {
      assert Flatten([bytes]) == bytes + [] == bytes;
    }

    /** A string the sender sends in chunks arrives whole. */
    lemma StringToReceiver(n: Peers, bytes: Bytes, next: Sender, purpose: Purpose) returns (after: Peers)
      requires Reached(n) && n.left == SendString(bytes, next)
      requires n.right == RAwaitString([], purpose) && n.toRight == []
      ensures Reached(after)
      ensures
        var move := ReceiverString(json, bytes, purpose);
        after == n.(left := next, right := move.next, logRight := n.logRight + move.log)
    {
      OnePiece(bytes);
      var cs := Chunks(bytes, CHUNK_SIZE);
      ChunksAreCanonical(bytes, CHUNK_SIZE, cs);
      var drained := SenderDrains(n);
      var sent := SenderRuns(drained);
      assert sent.toRight == Binaries(cs) + [DELIMITER];
      after := ReceiverCollects(sent, cs);
      assert [] + Flatten(cs) == bytes;
    }

    lemma StringToSender(n: Peers, bytes: Bytes, next: Receiver) returns (after: Peers)
      requires Reached(n) && n.right == RSendString(bytes, next)
      requires n.left == AwaitFileTokens([]) && n.toLeft == []
      ensures Reached(after)
      ensures
        var move := SenderReceive(sender, json, AwaitFileTokens(bytes), DELIMITER);
        after == n.(left := move.next, right := next, logLeft := n.logLeft + move.log)
    {
      OnePiece(bytes);
      var cs := Chunks(bytes, CHUNK_SIZE);
      ChunksAreCanonical(bytes, CHUNK_SIZE, cs);
      var drained := ReceiverDrains(n);
      var sent := ReceiverRuns(drained);
      assert sent.toLeft == Binaries(cs) + [DELIMITER];
      after := SenderCollects(sent, cs);
      assert [] + Flatten(cs) == bytes;
    }
  }
}
