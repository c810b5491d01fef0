/** The receiving application's 1 MiB buffer (app/rust/src/util/bytes.rs). */
module Rebuffering {
  import opened Prelude
  import opened Framing

  const BUFFER_SIZE: nat := 1024 * 1024

  /** What is emitted when the buffer already holds some bytes and the input follows. */
  function Rebuffer(buffer: Bytes, input: seq<Bytes>): seq<Bytes>
    decreases |input|
  {
    if input == [] then (if buffer == [] then [] else [buffer])
    else
      var filled := buffer + input[0];
      if |filled| >= BUFFER_SIZE then [filled] + Rebuffer([], input[1..])
      else Rebuffer(filled, input[1..])
  }

  /** The loop; capacity is how many messages the consumer takes before it goes away. */
  method BufferReceiver(input: seq<Bytes>, capacity: nat) returns (output: seq<Bytes>)
    ensures output == Rebuffer([], input)[..Min(|Rebuffer([], input)|, capacity)]
  {
    ghost var all := Rebuffer([], input);
    var buffer: Bytes := [];
    output := [];
    for next := 0 to |input|
      invariant |output| <= capacity
      invariant all == output + Rebuffer(buffer, input[next..])
    {
      buffer := buffer + input[next];
      assert input[next..][1..] == input[next + 1..];
      if |buffer| >= BUFFER_SIZE {
        if |output| == capacity {
          assert output == all[..|output|];
          return;
        }
        output := output + [buffer];
        buffer := [];
      }
    }
    if buffer != [] && |output| < capacity {
      output := output + [buffer];
    }
    assert output == all[..|output|];
  }

  /** No byte is lost, added or reordered. */
  lemma {:induction false} Conserves(buffer: Bytes, input: seq<Bytes>)
    ensures Flatten(Rebuffer(buffer, input)) == buffer + Flatten(input)
    decreases |input|
  {
    if input == [] {
      assert buffer == [] || Flatten([buffer]) == buffer + Flatten([]);
    } else {
      var filled := buffer + input[0];
      Conserves(if |filled| >= BUFFER_SIZE then [] else filled, input[1..]);
      assert buffer + Flatten(input) == filled + Flatten(input[1..]);
      if |filled| >= BUFFER_SIZE {
        assert Rebuffer(buffer, input)[1..] == Rebuffer([], input[1..]);
      }
    }
  }

  /** No message is empty, and all but the last fill the buffer. */
  lemma {:induction false} EmitsFull(buffer: Bytes, input: seq<Bytes>)
    ensures forall i :: 0 <= i < |Rebuffer(buffer, input)| ==> Rebuffer(buffer, input)[i] != []
    ensures forall i :: 0 <= i < |Rebuffer(buffer, input)| - 1 ==> |Rebuffer(buffer, input)[i]| >= BUFFER_SIZE
    decreases |input|
  {
    if input != [] {
      var filled := buffer + input[0];
      EmitsFull(if |filled| >= BUFFER_SIZE then [] else filled, input[1..]);
      if |filled| >= BUFFER_SIZE {
        assert Rebuffer(buffer, input)[1..] == Rebuffer([], input[1..]);
      }
    }
  }

  /** 64 full chunks fill the buffer exactly, so chunking twice is chunking once. */
  lemma {:induction false} ComposesWithChunks(s: Bytes, buffer: Bytes, held: nat)
    requires |buffer| == held * CHUNK_SIZE && held < 64
    ensures Rebuffer(buffer, Chunks(s, CHUNK_SIZE)) == Chunks(buffer + s, BUFFER_SIZE)
    decreases |s|
  {
    if s == [] {
      assert buffer + s == buffer;
    } else if |s| < CHUNK_SIZE {
      assert Chunks(s, CHUNK_SIZE)[1..] == [];
    } else {
      var rest := s[CHUNK_SIZE..];
      var filled := buffer + s[..CHUNK_SIZE];
      assert Chunks(s, CHUNK_SIZE)[1..] == Chunks(rest, CHUNK_SIZE);
      assert buffer + s == filled + rest;
      if held + 1 == 64 {
        ComposesWithChunks(rest, [], 0);
        assert (buffer + s)[..BUFFER_SIZE] == filled && (buffer + s)[BUFFER_SIZE..] == rest == [] + rest;
      } else {
        ComposesWithChunks(rest, filled, held + 1);
      }
    }
  }

  /** A file fed through the sender's chunker arrives in messages of exactly 1 MiB, the last one shorter. */
  lemma FileArrivesInFullBuffers(s: Bytes)
    ensures IsChunking(Rebuffer([], Chunks(s, CHUNK_SIZE)), s, 1048576)
  {
    ComposesWithChunks(s, [], 0);
    assert [] + s == s;
    ChunksAreCanonical(s, BUFFER_SIZE, Chunks(s, BUFFER_SIZE));
  }
}
