/** What an application hears of its files from the log of the receiving task. */
module Reading {
  import opened Prelude
  import opened Transfer

  // ----- Contents -----------------------------------------------------------

  /** What has been read of each opened file so far. */
  function Streams(log: seq<Event>): seq<(string, Bytes)> {
    if log == [] then [] else Hear(Streams(log[..|log| - 1]), log[|log| - 1])
  }

  function Hear(streams: seq<(string, Bytes)>, e: Event): seq<(string, Bytes)> {
    if e.Opened? then streams + [(e.id, [])]
    else if e.Data? then AppendToLast(streams, e.id, e.bytes)
    else streams
  }

  /** Bytes of any file but the last one opened are not heard. */
  function AppendToLast(streams: seq<(string, Bytes)>, id: string, bytes: Bytes): seq<(string, Bytes)> {
    if streams == [] || streams[|streams| - 1].0 != id then streams
    else
      var last := |streams| - 1;
      streams[last := (id, streams[last].1 + bytes)]
  }

  lemma StreamsPush(log: seq<Event>, e: Event)
    ensures Streams(log + [e]) == Hear(Streams(log), e)
  {
    assert (log + [e])[..|log|] == log;
  }

  lemma {:induction false} StreamsQuiet(log: seq<Event>, more: seq<Event>)
    requires forall e :: e in more ==> !e.Opened? && !e.Data?
    ensures Streams(log + more) == Streams(log)
    decreases |more|
  {
    if more == [] {
      assert log + more == log;
    } else {
      StreamsPush(log, more[0]);
      StreamsQuiet(log + [more[0]], more[1..]);
      assert log + [more[0]] + more[1..] == log + more;
    }
  }

  lemma HearData(before: seq<(string, Bytes)>, id: string, bytes: Bytes, c: Bytes)
    ensures AppendToLast(before + [(id, bytes)], id, c) == before + [(id, bytes + c)]
  {
  }

  /** All of the earlier files and a beginning of the last one. */
  ghost predicate InitialPart(part: seq<(string, Bytes)>, whole: seq<(string, Bytes)>) {
    && |part| <= |whole|
    && forall i :: 0 <= i < |part| ==>
                     && part[i].0 == whole[i].0
                     && (if i == |part| - 1 then part[i].1 <= whole[i].1 else part[i].1 == whole[i].1)
  }

  lemma {:induction false} StreamsGrow(log: seq<Event>, more: seq<Event>)
    ensures InitialPart(Streams(log), Streams(log + more))
    decreases |more|
  {
    if more == [] {
      assert log + more == log;
    } else {
      var init, e := more[..|more| - 1], more[|more| - 1];
      StreamsGrow(log, init);
      StreamsPush(log + init, e);
      assert log + init + [e] == log + more;
    }
  }

  // ----- Brackets -----------------------------------------------------------

  datatype Bracket = Open(id: string) | Shut | Astray

  /** A file is opened only while none is, and fed and closed only while it is the open one. */
  function Follow(b: Bracket, e: Event): Bracket {
    match e
    case Opened(id) => if b == Shut then Open(id) else Astray
    case Data(id, _) => if b == Open(id) then b else Astray
    case Closed(id) => if b == Open(id) then Shut else Astray
    case _ => b
  }

  function Brackets(log: seq<Event>): Bracket {
    if log == [] then Shut else Follow(Brackets(log[..|log| - 1]), log[|log| - 1])
  }

  lemma BracketsPush(log: seq<Event>, e: Event)
    ensures Brackets(log + [e]) == Follow(Brackets(log), e)
  {
    assert (log + [e])[..|log|] == log;
  }

  function FollowAll(b: Bracket, log: seq<Event>): Bracket
    decreases |log|
  {
    if log == [] then b else FollowAll(Follow(b, log[0]), log[1..])
  }

  lemma {:induction false} BracketsOn(log: seq<Event>, more: seq<Event>)
    ensures Brackets(log + more) == FollowAll(Brackets(log), more)
    decreases |more|
  {
    if more == [] {
      assert log + more == log;
    } else {
      BracketsPush(log, more[0]);
      BracketsOn(log + [more[0]], more[1..]);
      assert log + [more[0]] + more[1..] == log + more;
    }
  }

  lemma FollowShort(b: Bracket, log: seq<Event>)
    ensures |log| == 0 ==> FollowAll(b, log) == b
    ensures |log| == 1 ==> FollowAll(b, log) == Follow(b, log[0])
    ensures |log| == 2 ==> FollowAll(b, log) == Follow(Follow(b, log[0]), log[1])
    decreases |log|
  {
    if |log| == 2 {
      FollowShort(Follow(b, log[0]), log[1..]);
    }
  }

  predicate AboutAFile(e: Event) {
    e.Opened? || e.Data? || e.Closed?
  }

  /** The j-th event opens the file, and up to the i-th nothing but its data follows. */
  ghost predicate OpenedAt(log: seq<Event>, j: int, i: int, id: string) {
    && 0 <= j < i <= |log| && log[j] == Opened(id)
    && forall k :: j < k < i && AboutAFile(log[k]) ==> log[k].Data? && log[k].id == id
  }

  lemma {:induction false} OpenMeaning(log: seq<Event>, id: string)
    requires Brackets(log) == Open(id)
    ensures exists j :: OpenedAt(log, j, |log|, id)
  {
    var last := |log| - 1;
    var init, e := log[..last], log[last];
    if e.Opened? {
      assert OpenedAt(log, last, |log|, id);
    } else {
      OpenMeaning(init, id);
      var j :| OpenedAt(init, j, |init|, id);
      assert OpenedAt(log, j, |log|, id);
    }
  }

  /** In an unbroken log, bytes come after the opening of their own file, with nothing but its bytes between. */
  lemma {:induction false} DataIsInside(log: seq<Event>, i: nat)
    requires Brackets(log) != Astray && i < |log| && log[i].Data?
    ensures exists j :: OpenedAt(log, j, i, log[i].id)
  {
    var last := |log| - 1;
    var init := log[..last];
    if i == last {
      OpenMeaning(init, log[i].id);
      var j :| OpenedAt(init, j, |init|, log[i].id);
      assert OpenedAt(log, j, i, log[i].id);
    } else {
      DataIsInside(init, i);
      var j :| OpenedAt(init, j, i, init[i].id);
      assert OpenedAt(log, j, i, log[i].id);
    }
  }

  ghost predicate ClosedAt(log: seq<Event>, j: int, i: int, id: string) {
    i < |log| && OpenedAt(log, j, i, id) && log[i] == Closed(id)
  }

  /** Every file opened is closed before anything else is opened, or is the one still open. */
  lemma {:induction false} OpenedIsClosed(log: seq<Event>, j: nat)
    requires Brackets(log) != Astray && j < |log| && log[j].Opened?
    ensures (Brackets(log) == Open(log[j].id) && OpenedAt(log, j, |log|, log[j].id))
         || exists i :: ClosedAt(log, j, i, log[j].id)
  {
    var last := |log| - 1;
    var init := log[..last];
    if j < last {
      OpenedIsClosed(init, j);
      if i :| ClosedAt(init, j, i, log[j].id) {
        assert ClosedAt(log, j, i, log[j].id);
      } else if log[last].Closed? {
        assert ClosedAt(log, j, last, log[j].id);
      }
    }
  }
}
