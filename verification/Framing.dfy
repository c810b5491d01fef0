/**
 Framing on the data channel (core/src/webrtc/webrtc.rs): byte streams are cut
 into 16 KiB binary messages, and any string message ends the stream.
 */
module Framing {
  import opened Prelude
  import opened Channel

  const CHUNK_SIZE: nat := 16 * 1024

  /** The one-character string message that ends a stream. */
  const DELIMITER: Msg := Text([48])

  predicate IsDelimiter(m: Msg) {
    m.Text? && |m.data| <= 1
  }

  // ----- Canonical chunks ---------------------------------------------------

  function Chunks<T>(s: seq<T>, size: nat): seq<seq<T>>
    requires size > 0
  {
    if |s| < size then (if s == [] then [] else [s])
    else [s[..size]] + Chunks(s[size..], size)
  }

  ghost predicate IsChunking<T>(cs: seq<seq<T>>, s: seq<T>, size: nat) {
    && Flatten(cs) == s
    && (forall i :: 0 <= i < |cs| ==> 0 < |cs[i]| <= size)
    && (forall i :: 0 <= i < |cs| - 1 ==> |cs[i]| == size)
  }

  /** Full pieces followed by one non-empty rest: only one division of s is like that. */
  lemma {:induction false} ChunksAreCanonical<T>(s: seq<T>, size: nat, cs: seq<seq<T>>)
    requires size > 0
    ensures cs == Chunks(s, size) <==> IsChunking(cs, s, size)
    decreases |s|
  {
    if cs == [] {
    } else if |s| < size {
      if IsChunking(cs, s, size) && |cs| > 1 {
        assert false;
      }
      assert cs == [cs[0]] + cs[1..];
      if |cs| == 1 {
        assert Flatten(cs) == cs[0] + Flatten([]) == cs[0];
      }
    } else {
      var tail := s[size..];
      ChunksAreCanonical(tail, size, cs[1..]);
      assert s == s[..size] + tail;
      if cs == Chunks(s, size) {
        assert cs[1..] == Chunks(tail, size);
        assert forall i :: 1 <= i < |cs| ==> cs[i] == cs[1..][i - 1];
      }
      if IsChunking(cs, s, size) {
        assert |cs[0]| == size by {
          if |cs| == 1 { assert cs[1..] == []; }
        }
        assert cs[0] == s[..size];
        assert Flatten(cs[1..]) == tail;
        assert forall i :: 0 <= i < |cs[1..]| ==> cs[1..][i] == cs[i + 1];
        assert cs == [cs[0]] + cs[1..];
      }
    }
  }

  /** The number of chunks sent is the length divided by the chunk size, rounded up. */
  lemma {:induction false} ChunkCount<T>(s: seq<T>)
    ensures |Chunks(s, CHUNK_SIZE)| == (|s| + 16383) / 16384
    decreases |s|
  {
    if |s| >= CHUNK_SIZE {
      ChunkCount(s[CHUNK_SIZE..]);
    }
  }

  // ----- process_in_chunks --------------------------------------------------

  /** The sending half of a data channel on which only so many more sends succeed. */
  class DataChannel {
    var sent: seq<Msg>
    var capacity: nat

    constructor (capacity: nat)
      ensures sent == [] && this.capacity == capacity
    {
      sent := [];
      this.capacity := capacity;
    }

    /** An empty message would not reach the other peer. */
    method Send(m: Msg) returns (ok: bool)
      requires m.data != []
      modifies this
      ensures ok == (old(capacity) > 0)
      ensures sent == if ok then old(sent) + [m] else old(sent)
      ensures capacity == if ok then old(capacity) - 1 else 0
    {
      ok := capacity > 0;
      if ok {
        sent := sent + [m];
        capacity := capacity - 1;
      }
    }
  }

  function Binaries(cs: seq<Bytes>): (ms: seq<Msg>)
    ensures |ms| == |cs|
    ensures forall i :: 0 <= i < |cs| ==> ms[i] == Binary(cs[i])
  {
    if cs == [] then [] else [Binary(cs[0])] + Binaries(cs[1..])
  }

  /** The chunks from position done on are those of the bytes that are left. */
  ghost predicate Remaining(all: seq<Bytes>, done: nat, rest: Bytes) {
    done <= |all| && all[done..] == Chunks(rest, CHUNK_SIZE)
  }

  lemma EmitNext(all: seq<Bytes>, done: nat, chunk: Bytes, rest: Bytes)
    requires Remaining(all, done, chunk + rest)
    requires |chunk| == CHUNK_SIZE || (0 < |chunk| < CHUNK_SIZE && rest == [])
    ensures done < |all| && Remaining(all, done + 1, rest)
    ensures Binaries(all[..done + 1]) == Binaries(all[..done]) + [Binary(chunk)]
  {
    if |chunk| == CHUNK_SIZE {
      assert (chunk + rest)[..CHUNK_SIZE] == chunk && (chunk + rest)[CHUNK_SIZE..] == rest;
    } else {
      assert chunk + rest == chunk;
    }
    assert all[done] == all[done..][0] == chunk;
    assert all[done + 1..] == all[done..][1..];
  }

  lemma EmitFrom(input: seq<Bytes>)
    ensures Remaining(Chunks(Flatten(input), CHUNK_SIZE), 0, [] + Flatten(input[0..]))
    ensures Binaries(Chunks(Flatten(input), CHUNK_SIZE)[..0]) == []
  {
    assert input[0..] == input && [] + Flatten(input) == Flatten(input);
  }

  lemma AbsorbNext(buffer: Bytes, input: seq<Bytes>, next: nat)
    requires next < |input|
    ensures buffer + Flatten(input[next..]) == (buffer + input[next]) + Flatten(input[next + 1..])
  {
  }

  lemma EmitNoMore(all: seq<Bytes>, done: nat, buffer: Bytes, input: seq<Bytes>)
    requires Remaining(all, done, buffer + Flatten(input[|input|..]))
    ensures Remaining(all, done, buffer + [])
    ensures buffer == [] ==> done == |all|
  {
    assert input[|input|..] == [];
  }

  lemma LastChunk(all: seq<Bytes>, done: nat)
    requires Remaining(all, done, [])
    ensures done == |all|
  {
  }

  /**
   However the input is cut into pieces, exactly the canonical chunks of its
   concatenation are sent, in order, up to the first send that fails.
   */
  method ProcessInChunks(channel: DataChannel, input: seq<Bytes>) returns (ok: bool)
    modifies channel
    ensures
      var cs := Chunks(Flatten(input), CHUNK_SIZE);
      && ok == (|cs| <= old(channel.capacity))
      && channel.sent == old(channel.sent) + Binaries(cs[..Min(|cs|, old(channel.capacity))])
  {
    hide Chunks, Flatten, Binaries, Remaining;
    ghost var all := Chunks(Flatten(input), CHUNK_SIZE);
    var buffer: Bytes := [];
    var next := 0;
    ghost var done: nat := 0;
    EmitFrom(input);
    while next < |input|
      invariant 0 <= next <= |input| && |buffer| < CHUNK_SIZE
      invariant done <= |all| && done + channel.capacity == old(channel.capacity)
      invariant Remaining(all, done, buffer + Flatten(input[next..]))
      invariant channel.sent == old(channel.sent) + Binaries(all[..done])
    {
      AbsorbNext(buffer, input, next);
      buffer := buffer + input[next];
      next := next + 1;
      while |buffer| >= CHUNK_SIZE
        invariant done <= |all| && done + channel.capacity == old(channel.capacity)
        invariant Remaining(all, done, buffer + Flatten(input[next..]))
        invariant channel.sent == old(channel.sent) + Binaries(all[..done])
      {
        var chunk := buffer[..CHUNK_SIZE];
        ghost var rest := buffer[CHUNK_SIZE..] + Flatten(input[next..]);
        assert buffer + Flatten(input[next..]) == chunk + rest;
        EmitNext(all, done, chunk, rest);
        buffer := buffer[CHUNK_SIZE..];
        ok := channel.Send(Binary(chunk));
        if !ok {
          return;
        }
        done := done + 1;
      }
    }
    EmitNoMore(all, done, buffer, input);
    ok := true;
    if buffer != [] {
      EmitNext(all, done, buffer, []);
      LastChunk(all, done + 1);
      ok := channel.Send(Binary(buffer));
    }
  }

  /** A string goes through the same loop as a single piece. */
  method SendStringInChunks(channel: DataChannel, bytes: Bytes) returns (ok: bool)
    modifies channel
    ensures
      var cs := Chunks(bytes, CHUNK_SIZE);
      && ok == (|cs| <= old(channel.capacity))
      && channel.sent == old(channel.sent) + Binaries(cs[..Min(|cs|, old(channel.capacity))])
  {
    assert Flatten([bytes]) == bytes + [] == bytes;
    ok := ProcessInChunks(channel, [bytes]);
  }

  /** The end of a stream is the text "0". */
  method SendDelimiter(channel: DataChannel) returns (ok: bool)
    modifies channel
    ensures ok == (old(channel.capacity) > 0)
    ensures channel.sent == if ok then old(channel.sent) + [Text(['0' as u8])] else old(channel.sent)
    ensures channel.capacity == if ok then old(channel.capacity) - 1 else 0
  {
    ok := channel.Send(DELIMITER);
  }

  /** The same loop one step at a time, as the transfer programs run it. */
  datatype Feed = Feed(buffer: Bytes, input: seq<Bytes>) {

    function Rest(): Bytes {
      buffer + Flatten(input)
    }

    function Step(): FeedStep {
      if |buffer| >= CHUNK_SIZE then Emit(buffer[..CHUNK_SIZE], Feed(buffer[CHUNK_SIZE..], input))
      else if input != [] then Absorb(Feed(buffer + input[0], input[1..]))
      else if buffer != [] then Emit(buffer, Feed([], []))
      else Drained
    }

    /** Each step shortens what is left to send, or what is left to absorb. */
    lemma StepFacts()
      ensures Step().Absorb? ==> Step().next.Rest() == Rest() && |Step().next.input| < |input|
      ensures Step().Emit? ==>
                && Chunks(Rest(), CHUNK_SIZE) == [Step().chunk] + Chunks(Step().next.Rest(), CHUNK_SIZE)
                && Step().chunk + Step().next.Rest() == Rest()
                && |Step().next.Rest()| < |Rest()|
      ensures Step().Drained? ==> Rest() == []
    {
      if |buffer| >= CHUNK_SIZE {
        assert Rest()[..CHUNK_SIZE] == buffer[..CHUNK_SIZE];
        assert Rest()[CHUNK_SIZE..] == buffer[CHUNK_SIZE..] + Flatten(input);
      } else if input != [] {
        assert Rest() == (buffer + input[0]) + Flatten(input[1..]);
      } else if buffer != [] {
        assert Rest() == buffer;
      }
    }
  }

  datatype FeedStep = Emit(chunk: Bytes, next: Feed) | Absorb(next: Feed) | Drained

  // ----- receive_string_from_chunks -----------------------------------------

  /** The receiving half: messages that will arrive before the channel closes. */
  class Inbox {
    var queue: seq<Msg>

    constructor (queue: seq<Msg>)
      ensures this.queue == queue
    {
      this.queue := queue;
    }

    method Receive() returns (m: Option<Msg>)
      modifies this
      ensures m == if old(queue) == [] then None else Some(old(queue)[0])
      ensures queue == if old(queue) == [] then [] else old(queue)[1..]
    {
      if queue == [] {
        return None;
      }
      m := Some(queue[0]);
      queue := queue[1..];
    }
  }

  /** The bytes before the first string message, and the messages after it. */
  function TakeString(queue: seq<Msg>): (Bytes, seq<Msg>) {
    if queue == [] then ([], [])
    else if queue[0].Text? then ([], queue[1..])
    else
      var (bytes, rest) := TakeString(queue[1..]);
      (queue[0].data + bytes, rest)
  }

  method ReceiveStringFromChunks(inbox: Inbox) returns (bytes: Bytes)
    modifies inbox
    ensures (bytes, inbox.queue) == TakeString(old(inbox.queue))
  {
    bytes := [];
    var m := inbox.Receive();
    ghost var pending := old(inbox.queue);
    assert pending == [] || pending == [pending[0]] + pending[1..];
    while m.Some? && m.value.Binary?
      invariant pending == if m.Some? then [m.value] + inbox.queue else []
      invariant m.None? ==> inbox.queue == []
      invariant TakeString(old(inbox.queue)).0 == bytes + TakeString(pending).0
      invariant TakeString(old(inbox.queue)).1 == TakeString(pending).1
      decreases |pending|
    {
      bytes := bytes + m.value.data;
      pending := inbox.queue;
      assert pending == [] || pending == [pending[0]] + pending[1..];
      m := inbox.Receive();
    }
    assert TakeString(pending) == ([], inbox.queue);
    assert bytes + [] == bytes;
  }

  lemma {:induction false} TakeStringOfBinaries(cs: seq<Bytes>, end: Msg, rest: seq<Msg>)
    requires end.Text?
    ensures TakeString(Binaries(cs) + [end] + rest) == (Flatten(cs), rest)
  {
    var queue := Binaries(cs) + [end] + rest;
    if cs == [] {
      assert queue[1..] == rest;
    } else {
      assert queue[1..] == Binaries(cs[1..]) + [end] + rest;
      TakeStringOfBinaries(cs[1..], end, rest);
    }
  }

  /** Sending s in chunks with the delimiter and receiving it gives s back and touches nothing after it. */
  lemma StringRoundTrip(s: Bytes, rest: seq<Msg>)
    ensures TakeString(Binaries(Chunks(s, CHUNK_SIZE)) + [DELIMITER] + rest) == (s, rest)
  {
    ChunksAreCanonical(s, CHUNK_SIZE, Chunks(s, CHUNK_SIZE));
    TakeStringOfBinaries(Chunks(s, CHUNK_SIZE), DELIMITER, rest);
  }
}
