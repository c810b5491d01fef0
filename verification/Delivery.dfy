/** The second half of the reference run: selection, file stream, replies. */
module Delivery {
  import opened Prelude
  import opened Channel
  import opened Framing
  import opened Transfer
  import opened Session
  import opened Reference

  function SenderLogAfterSelection(x: Session): seq<Event> {
    SenderLogBeforeFiles(x) + [Selected(Tokens(x))]
  }

  function ReceiverLogAfterSelection(x: Session): seq<Event> {
    ReceiverLogBeforeFiles(x) + [Connected, Published(x.sender.files)]
  }

  /** The user's word on the offer, and what the receiver starts to send. */
  lemma ReceiverChooses(x: Session, n: Peers) returns (after: Peers)
    requires x.Reached(n) && n.right == RChoose(x.sender.files)
    ensures x.Reached(after)
    ensures
      var shown := n.logRight + [Connected, Published(x.sender.files)];
      after == match x.receiver.selection
               case Dropped => n.(right := REnded(Abandoned), logRight := shown)
               case Refused =>
                 n.(right := RSendString(x.json.fileList.write(ListDeclined), REnded(Declined)), logRight := shown)
               case Chosen(_) =>
                 n.(right := RSendString(x.json.fileList.write(ListOk(Tokens(x))), RAwaitFile(ThePlan(x), None, 0)),
                 logRight := shown)
  {
    hide Session.Reached, Feed.Step, OpenFile, Listed, FileTokens;
    after := x.ReceiverRuns(n);
  }

  lemma FileListRead(x: Session, response: FileListResponse)
    requires x.Valid()
    ensures x.json.fileList.read(x.json.fileList.write(response)) == Some(response)
  {
  }

  lemma SelectionMade(x: Session, n: Peers) returns (after: Peers)
    requires x.Valid() && x.Reached(n)
    requires n.left == AwaitFileTokens([]) && n.right == RChoose(x.sender.files) && n.toLeft == n.toRight == []
    ensures x.Reached(after)
    ensures
      var shown := n.logRight + [Connected, Published(x.sender.files)];
      after == match x.receiver.selection
               case Dropped => n.(right := REnded(Abandoned), logRight := shown)
               case Refused =>
                 n.(left := Ended(Declined), right := REnded(Declined),
                 logLeft := n.logLeft + [WasDeclined], logRight := shown)
               case Chosen(_) =>
                 n.(left := NextFile(Tokens(x), 0), right := RAwaitFile(ThePlan(x), None, 0),
                 logLeft := n.logLeft + [Selected(Tokens(x))], logRight := shown)
  {
    hide Session.Reached, Session.Valid, Feed.Step, OpenFile, Listed, FileTokens, ReceiverRun, ReceiverReceive;
    after := ReceiverChooses(x, n);
    match x.receiver.selection
    case Dropped =>
    case Refused =>
      FileListRead(x, ListDeclined);
      after := x.StringToSender(after, x.json.fileList.write(ListDeclined), REnded(Declined));
    case Chosen(_) =>
      FileListRead(x, ListOk(Tokens(x)));
      after := x.StringToSender(after, x.json.fileList.write(ListOk(Tokens(x))), RAwaitFile(ThePlan(x), None, 0));
  }

  // ----- The sender's stream ------------------------------------------------

  lemma SenderOpens(x: Session, n: Peers, tokens: map<string, string>, k: nat) returns (after: Peers)
    requires x.Reached(n) && n.left == NextFile(tokens, k) && k < |x.sender.outgoing|
    ensures x.Reached(after)
    ensures
      var file := x.sender.outgoing[k];
      after == if file.id in tokens then
                 n.(left := Stream(Feed([], file.pieces), NextFile(tokens, k + 1)),
                 toRight := n.toRight + SendJson(x.json.header.write(Header(file.id, tokens[file.id]))))
               else
                 n.(left := NextFile(tokens, k + 1),
                 logLeft := n.logLeft + [FileError(file.id, "Failed to get file token")])
  {
    after := x.SenderRuns(n);
  }

  lemma SenderFile(x: Session, n: Peers, tokens: map<string, string>, k: nat) returns (after: Peers)
    requires x.Reached(n) && n.left == NextFile(tokens, k) && k < |x.sender.outgoing|
    ensures x.Reached(after)
    ensures
      var file := x.sender.outgoing[k];
      after == if file.id in tokens then
                 n.(left := NextFile(tokens, k + 1), toRight := n.toRight + FileMessages(x.json, tokens, file))
               else
                 n.(left := NextFile(tokens, k + 1),
                 logLeft := n.logLeft + [FileError(file.id, "Failed to get file token")])
  {
    hide *;
    var file := x.sender.outgoing[k];
    after := SenderOpens(x, n, tokens, k);
    if file.id in tokens {
      after := x.SenderDrains(after);
      FileIsHeaderAndChunks(x.json, tokens, file, n.toRight);
    }
  }

  lemma FileIsHeaderAndChunks(json: Json, tokens: map<string, string>, file: Outgoing, queue: seq<Msg>)
    requires file.id in tokens
    ensures queue + SendJson(json.header.write(Header(file.id, tokens[file.id])))
            + Binaries(Chunks(Feed([], file.pieces).Rest(), CHUNK_SIZE))
         == queue + FileMessages(json, tokens, file)
  {
    assert Feed([], file.pieces).Rest() == Flatten(file.pieces);
  }

  lemma NextKnown(json: Json, tokens: map<string, string>, files: seq<Outgoing>)
    requires files != []
    ensures
      var (file, rest) := (files[0], files[1..]);
      && AllMessages(json, tokens, Known(tokens, files))
         == (if file.id in tokens then FileMessages(json, tokens, file) else [])
            + AllMessages(json, tokens, Known(tokens, rest))
      && UnknownLog(tokens, files)
         == (if file.id in tokens then [] else [FileError(file.id, "Failed to get file token")])
            + UnknownLog(tokens, rest)
  {
    hide FileMessages;
    var file, rest := files[0], Known(tokens, files[1..]);
    if file.id in tokens {
      assert ([file] + rest)[1..] == rest;
    } else {
      assert Known(tokens, files) == rest;
    }
  }

  lemma SenderHasNoMore(x: Session, n: Peers, tokens: map<string, string>, k: nat) returns (after: Peers)
    requires x.Reached(n) && n.left == NextFile(tokens, k) && k >= |x.sender.outgoing|
    ensures x.Reached(after) && after == n.(left := Finish)
    ensures n.toRight == n.toRight + AllMessages(x.json, tokens, Known(tokens, []))
    ensures n.logLeft == n.logLeft + UnknownLog(tokens, [])
  {
    after := x.SenderRuns(n);
  }

  lemma {:induction false} SenderStreams(x: Session, n: Peers, tokens: map<string, string>, k: nat)
    returns (after: Peers)
    requires x.Reached(n) && n.left == NextFile(tokens, k) && k <= |x.sender.outgoing|
    ensures x.Reached(after)
    ensures
      var rest := x.sender.outgoing[k..];
      after == n.(left := Finish,
               toRight := n.toRight + AllMessages(x.json, tokens, Known(tokens, rest)),
               logLeft := n.logLeft + UnknownLog(tokens, rest))
    decreases |x.sender.outgoing| - k
  {
    hide *;
    var rest := x.sender.outgoing[k..];
    if k == |x.sender.outgoing| {
      after := SenderHasNoMore(x, n, tokens, k);
      assert rest == [];
    } else {
      var mid := SenderFile(x, n, tokens, k);
      after := SenderStreams(x, mid, tokens, k + 1);
      assert rest[0] == x.sender.outgoing[k] && rest[1..] == x.sender.outgoing[k + 1..];
      NextKnown(x.json, tokens, rest);
      assert after.toRight == n.toRight + AllMessages(x.json, tokens, Known(tokens, rest));
      assert after.logLeft == n.logLeft + UnknownLog(tokens, rest);
    }
  }

  // ----- The receiver's loop over that stream --------------------------------

  lemma {:induction false} ReceiverTakesChunks(x: Session, n: Peers, cs: seq<Bytes>, rest: seq<Msg>)
    returns (after: Peers)
    requires x.Reached(n) && n.right.RAwaitFile? && n.toRight == Binaries(cs) + rest
    ensures x.Reached(after)
    ensures after == n.(toRight := rest, logRight := n.logRight + ChunkLog(n.right.open, cs))
    decreases |cs|
  {
    if cs == [] {
      after := n;
    } else {
      assert n.toRight == [Binary(cs[0])] + (Binaries(cs[1..]) + rest);
      var mid := x.ReceiverReceives(n, Binary(cs[0]), Binaries(cs[1..]) + rest);
      after := ReceiverTakesChunks(x, mid, cs[1..], rest);
    }
  }

  /** The string message that ends a file: the file is closed and answered, and the message is then read. */
  lemma ReceiverTakesText(x: Session, n: Peers, m: Msg, rest: seq<Msg>) returns (after: Peers)
    requires x.Reached(n) && n.right.RAwaitFile? && n.toRight == [m] + rest && m.Text?
    ensures x.Reached(after)
    ensures
      var r := n.right;
      var done := if r.open.Some? then r.done + 1 else r.done;
      var move := if r.open.Some? && IsDelimiter(m) then Move(REnded(Finished), [], [])
                  else OpenFile(x.json, r.plan, done, m);
      after == n.(right := move.next, toRight := rest,
               toLeft := n.toLeft + ReplyTo(x.receiver, x.json, r.open, r.done),
               logRight := n.logRight + CloseLog(r.open) + move.log)
  {
    after := x.ReceiverReceives(n, m, rest);
    if n.right.open.Some? {
      after := x.ReceiverRuns(after);
    }
  }

  lemma ReceiverTakesHeader(x: Session, n: Peers, file: Outgoing, rest: seq<Msg>) returns (after: Peers)
    requires x.Valid() && x.Reached(n) && n.right.RAwaitFile? && file.id in n.right.plan.tokens
    requires n.toRight == SendJson(x.json.header.write(Header(file.id, n.right.plan.tokens[file.id]))) + rest
    ensures x.Reached(after)
    ensures
      var r := n.right;
      after == n.(right := RAwaitFile(r.plan, OpenedBy(r.plan, file), if r.open.Some? then r.done + 1 else r.done),
               toRight := rest,
               toLeft := n.toLeft + ReplyTo(x.receiver, x.json, r.open, r.done),
               logRight := n.logRight + CloseLog(r.open) + OpenLog(r.plan, file))
  {
    var header := Header(file.id, n.right.plan.tokens[file.id]);
    assert x.json.header.read(x.json.header.write(header)) == Some(header) && |x.json.header.write(header)| > 1;
    after := ReceiverTakesText(x, n, Text(x.json.header.write(header)), rest);
  }

  lemma ReceiverTakesFile(x: Session, n: Peers, file: Outgoing, rest: seq<Msg>) returns (after: Peers)
    requires x.Valid() && x.Reached(n) && n.right.RAwaitFile? && file.id in n.right.plan.tokens
    requires n.toRight == FileMessages(x.json, n.right.plan.tokens, file) + rest
    ensures x.Reached(after)
    ensures
      var r := n.right;
      after == n.(right := RAwaitFile(r.plan, OpenedBy(r.plan, file), if r.open.Some? then r.done + 1 else r.done),
               toRight := rest,
               toLeft := n.toLeft + ReplyTo(x.receiver, x.json, r.open, r.done),
               logRight := n.logRight + CloseLog(r.open) + FileLog(r.plan, file))
  {
    var header := SendJson(x.json.header.write(Header(file.id, n.right.plan.tokens[file.id])));
    var cs := Chunks(Flatten(file.pieces), CHUNK_SIZE);
    FileUnfolds(x.json, n.right.plan, file, rest, n.logRight + CloseLog(n.right.open));
    hide *;
    var mid := ReceiverTakesHeader(x, n, file, Binaries(cs) + rest);
    after := ReceiverTakesChunks(x, mid, cs, rest);
  }

  lemma FileUnfolds(json: Json, plan: Plan, file: Outgoing, rest: seq<Msg>, log: seq<Event>)
    requires file.id in plan.tokens
    ensures
      var header := SendJson(json.header.write(Header(file.id, plan.tokens[file.id])));
      var cs := Chunks(Flatten(file.pieces), CHUNK_SIZE);
      && FileMessages(json, plan.tokens, file) + rest == header + (Binaries(cs) + rest)
      && log + FileLog(plan, file) == log + OpenLog(plan, file) + ChunkLog(OpenedBy(plan, file), cs)
  {
  }

  lemma NextFileLog(x: Session, plan: Plan, open: Option<string>, done: nat, known: seq<Outgoing>)
    requires known != []
    ensures
      var (file, rest) := (known[0], known[1..]);
      var (now, next) := (OpenedBy(plan, file), if open.Some? then done + 1 else done);
      && FilesLog(plan, open, known)
         == CloseLog(open) + FileLog(plan, file) + FilesLog(plan, now, rest)
      && Replies(x.receiver, x.json, plan, open, done, known)
         == ReplyTo(x.receiver, x.json, open, done) + Replies(x.receiver, x.json, plan, now, next, rest)
      && LastOpen(plan, open, known) == LastOpen(plan, now, rest)
  {
  }

  lemma NextMessages(x: Session, tokens: map<string, string>, known: seq<Outgoing>)
    requires known != [] && forall f :: f in known ==> f.id in tokens
    ensures AllMessages(x.json, tokens, known) + [DELIMITER]
         == FileMessages(x.json, tokens, known[0]) + (AllMessages(x.json, tokens, known[1..]) + [DELIMITER])
  {
  }

  lemma ReceiverTakesEnd(x: Session, n: Peers) returns (after: Peers)
    requires x.Valid() && x.Reached(n) && n.right.RAwaitFile?
    requires n.toRight == AllMessages(x.json, n.right.plan.tokens, []) + [DELIMITER]
    ensures x.Reached(after)
    ensures
      var r := n.right;
      after == n.(right := REnded(if LastOpen(r.plan, r.open, []).Some? then Finished else Failed),
               toRight := [],
               toLeft := n.toLeft + Replies(x.receiver, x.json, r.plan, r.open, r.done, []),
               logRight := n.logRight + FilesLog(r.plan, r.open, []))
  {
    assert ReplyTo(x.receiver, x.json, n.right.open, n.right.done) + []
           == Replies(x.receiver, x.json, n.right.plan, n.right.open, n.right.done, []);
    after := ReceiverTakesText(x, n, DELIMITER, []);
  }

  lemma {:induction false} ReceiverTakesAll(x: Session, n: Peers, known: seq<Outgoing>) returns (after: Peers)
    requires x.Valid() && x.Reached(n) && n.right.RAwaitFile?
    requires forall f :: f in known ==> f.id in n.right.plan.tokens
    requires n.toRight == AllMessages(x.json, n.right.plan.tokens, known) + [DELIMITER]
    ensures x.Reached(after)
    ensures
      var r := n.right;
      after == n.(right := REnded(if LastOpen(r.plan, r.open, known).Some? then Finished else Failed),
               toRight := [],
               toLeft := n.toLeft + Replies(x.receiver, x.json, r.plan, r.open, r.done, known),
               logRight := n.logRight + FilesLog(r.plan, r.open, known))
    decreases |known|
  {
    hide *;
    if known == [] {
      after := ReceiverTakesEnd(x, n);
    } else {
      var rest := AllMessages(x.json, n.right.plan.tokens, known[1..]) + [DELIMITER];
      NextMessages(x, n.right.plan.tokens, known);
      var mid := ReceiverTakesFile(x, n, known[0], rest);
      NextFileLog(x, n.right.plan, n.right.open, n.right.done, known);
      after := ReceiverTakesAll(x, mid, known[1..]);
    }
  }
}
