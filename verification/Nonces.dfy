/**
 The paired nonce maps: one exchange (core/src/http/server/controller/v3.rs,
 core/src/http/client/v3.rs), then many at once.
 */
module Nonces {
  import opened Prelude
  import opened Lru
  import Base64

  const CAPACITY: nat := 200

  datatype Reply = Answered(nonce: string) | Refused(reason: string) | Panicked

  class NonceMaps {
    const received: LruCache<Bytes>
    const generated: LruCache<Bytes>

    ghost predicate Valid()
      reads received, generated
    {
      && received != generated && received.Valid() && generated.Valid()
      && received.capacity == CAPACITY && generated.capacity == CAPACITY
    }

    constructor ()
      ensures Valid() && fresh(received) && fresh(generated)
      ensures received.entries == [] && generated.entries == []
    {
      received := new LruCache(CAPACITY);
      generated := new LruCache(CAPACITY);
    }

    /** The server's half: a nonce that does not decode or has a wrong length changes nothing. */
    method Exchange(payload: string, remoteKey: string, newNonce: Bytes) returns (r: Reply)
      requires Valid()
      modifies received, generated
      ensures Valid()
      ensures var nonce := Base64.Decode(payload);
              if nonce == None then r == Refused("Invalid nonce format") && unchanged(received) && unchanged(generated)
              else if !(16 <= |nonce.value| <= 128) then
                r == Refused("Invalid nonce") && unchanged(received) && unchanged(generated)
              else
                && r == Answered(Base64.Encode(newNonce))
                && received.entries == AfterPut(old(received.entries), remoteKey, nonce.value, CAPACITY)
                && generated.entries == AfterPut(old(generated.entries), remoteKey, newNonce, CAPACITY)
    {
      var nonce := Base64.Decode(payload);
      if nonce == None {
        return Refused("Invalid nonce format");
      }
      if !(16 <= |nonce.value| <= 128) {
        return Refused("Invalid nonce");
      }
      received.Put(remoteKey, nonce.value);
      generated.Put(remoteKey, newNonce);
      r := Answered(Base64.Encode(newNonce));
    }

    /** The client's half, once a response is there: the two reads for the log are always found. */
    method Store(response: string, remoteKey: string, sent: Bytes) returns (r: Reply)
      requires Valid()
      modifies received, generated
      ensures Valid()
      ensures var nonce := Base64.Decode(response);
              if nonce == None then r == Refused("Invalid base64") && unchanged(received) && unchanged(generated)
              else
                && r == Answered(response)
                && received.entries == AfterPut(old(received.entries), remoteKey, nonce.value, CAPACITY)
                && generated.entries == AfterPut(old(generated.entries), remoteKey, sent, CAPACITY)
    {
      var nonce := Base64.Decode(response);
      if nonce == None {
        return Refused("Invalid base64");
      }
      received.Put(remoteKey, nonce.value);
      generated.Put(remoteKey, sent);
      ReadAfterPut(old(received.entries), remoteKey, nonce.value, CAPACITY);
      ReadAfterPut(old(generated.entries), remoteKey, sent, CAPACITY);
      var mine := received.Get(remoteKey);
      var theirs := generated.Get(remoteKey);
      if mine == None || theirs == None {
        return Panicked;
      }
      r := Answered(response);
    }
  }

  /** Reading what was just put finds it, and changes nothing: it is already the most recent. */
  lemma ReadAfterPut<V>(c: seq<Entry<V>>, key: string, value: V, capacity: nat)
    requires Distinct(c) && capacity > 0
    ensures var after := AfterPut(c, key, value, capacity);
            Lookup(after, key) == Some(value) && AfterGet(after, key) == after
  {
    var after := AfterPut(c, key, value, capacity);
    var all := [Entry(key, value)] + Without(c, key);
    WithoutDistinct(c, key);
    WithoutMembers(c, key);
    DistinctCons(Entry(key, value), Without(c, key));
    assert Distinct(after) by {
      assert forall i :: 0 <= i < |after| ==> after[i] == all[i];
    }
    WithoutAt(after, key, 0);
    assert after == [after[0]] + after[1..];
  }

  // ----- Exchanges running at once ------------------------------------------------------

  /** An exchange with its two nonces; only a client reads them back. */
  datatype Exchange = Exchange(key: string, received: Bytes, generated: Bytes, rereads: bool)

  /** Both locks are held to the end: the received one is taken first and given up last. */
  datatype Phase = Waiting | HasReceived | PutReceived | HasBoth | PutBoth | Finishing | LeftGenerated | Done

  datatype State = State(
    received: seq<Entry<Bytes>>, generated: seq<Entry<Bytes>>,
    receivedLock: Option<nat>, generatedLock: Option<nat>,
    phases: seq<Phase>, panicked: bool, log: seq<nat>)

  function Start(exchanges: seq<Exchange>): State {
    State([], [], None, None, seq(|exchanges|, _ => Waiting), false, [])
  }

  predicate Can(exchanges: seq<Exchange>, s: State, i: nat) {
    && i < |s.phases| == |exchanges|
    && (s.phases[i] == Waiting ==> s.receivedLock == None)
    && (s.phases[i] == PutReceived ==> s.generatedLock == None)
    && s.phases[i] != Done
  }

  function Step(exchanges: seq<Exchange>, s: State, i: nat): State
    requires Can(exchanges, s, i)
  {
    var e := exchanges[i];
    match s.phases[i]
    case Waiting => s.(receivedLock := Some(i), log := s.log + [i], phases := s.phases[i := HasReceived])
    case HasReceived =>
      s.(received := AfterPut(s.received, e.key, e.received, CAPACITY), phases := s.phases[i := PutReceived])
    case PutReceived => s.(generatedLock := Some(i), phases := s.phases[i := HasBoth])
    case HasBoth =>
      s.(generated := AfterPut(s.generated, e.key, e.generated, CAPACITY), phases := s.phases[i := PutBoth])
    case PutBoth =>
      if e.rereads then
        s.(panicked := s.panicked || Lookup(s.received, e.key) == None || Lookup(s.generated, e.key) == None,
           received := AfterGet(s.received, e.key), generated := AfterGet(s.generated, e.key),
           phases := s.phases[i := Finishing])
      else s.(phases := s.phases[i := Finishing])
    case Finishing => s.(generatedLock := None, phases := s.phases[i := LeftGenerated])
    case _ => s.(receivedLock := None, phases := s.phases[i := Done])
  }

  ghost predicate Legal(exchanges: seq<Exchange>, s: State, schedule: seq<nat>)
    decreases |schedule|
  {
    || schedule == []
    || (Can(exchanges, s, schedule[0]) && Legal(exchanges, Step(exchanges, s, schedule[0]), schedule[1..]))
  }

  ghost function After(exchanges: seq<Exchange>, s: State, schedule: seq<nat>): State
    requires Legal(exchanges, s, schedule)
    decreases |schedule|
  {
    if schedule == [] then s else After(exchanges, Step(exchanges, s, schedule[0]), schedule[1..])
  }

  // ----- The invariant --------------------------------------------------------------------

  ghost predicate InRange(exchanges: seq<Exchange>, log: seq<nat>) {
    forall n :: 0 <= n < |log| ==> log[n] < |exchanges|
  }

  /** The puts of the exchanges in the order of their turns, both values at once. */
  ghost function History(exchanges: seq<Exchange>, log: seq<nat>): (h: seq<Entry<(Bytes, Bytes)>>)
    requires InRange(exchanges, log)
    ensures |h| == |log|
    ensures forall n :: 0 <= n < |log| ==>
              var e := exchanges[log[n]]; h[n] == Entry(e.key, (e.received, e.generated))
  {
    seq(|log|, n requires 0 <= n < |log| =>
      var e := exchanges[log[n]]; Entry(e.key, (e.received, e.generated)))
  }

  /** The cache of pairs, of which the two maps are the two sides. */
  ghost function Pairs(exchanges: seq<Exchange>, log: seq<nat>): seq<Entry<(Bytes, Bytes)>>
    requires InRange(exchanges, log)
  {
    Replay(History(exchanges, log), CAPACITY)
  }

  function Theirs(v: (Bytes, Bytes)): Bytes { v.0 }

  function Mine(v: (Bytes, Bytes)): Bytes { v.1 }

  /** The turns whose put has happened: all, but perhaps the current one. */
  ghost function Counted(s: State, early: set<Phase>): seq<nat> {
    if s.receivedLock.Some? && s.receivedLock.value < |s.phases| && s.phases[s.receivedLock.value] in early
      && s.log != []
    then s.log[..|s.log| - 1] else s.log
  }

  const BEFORE_FIRST: set<Phase> := {HasReceived}
  const BEFORE_SECOND: set<Phase> := {HasReceived, PutReceived, HasBoth}

  ghost predicate Locked(s: State) {
    && (forall i :: 0 <= i < |s.phases| ==> (s.phases[i] !in {Waiting, Done} <==> s.receivedLock == Some(i)))
    && (forall i :: 0 <= i < |s.phases| ==>
                      (s.phases[i] in {HasBoth, PutBoth, Finishing} <==> s.generatedLock == Some(i)))
    && (s.receivedLock.Some? ==>
          s.receivedLock.value < |s.phases| && s.log != [] && s.log[|s.log| - 1] == s.receivedLock.value)
    && (s.generatedLock.Some? ==> s.receivedLock == s.generatedLock)
  }

  ghost predicate Inv(exchanges: seq<Exchange>, s: State) {
    && |s.phases| == |exchanges| && !s.panicked && InRange(exchanges, s.log) && Locked(s)
    && s.received == Part(Pairs(exchanges, Counted(s, BEFORE_FIRST)), Theirs)
    && s.generated == Part(Pairs(exchanges, Counted(s, BEFORE_SECOND)), Mine)
  }

  /** One more turn is one more put on both sides. */
  lemma OneMoreTurn(exchanges: seq<Exchange>, log: seq<nat>)
    requires InRange(exchanges, log) && log != []
    ensures
      var e := exchanges[log[|log| - 1]];
      var before := Pairs(exchanges, log[..|log| - 1]);
      && Part(Pairs(exchanges, log), Theirs) == AfterPut(Part(before, Theirs), e.key, e.received, CAPACITY)
      && Part(Pairs(exchanges, log), Mine) == AfterPut(Part(before, Mine), e.key, e.generated, CAPACITY)
  {
    var e := exchanges[log[|log| - 1]];
    var h := History(exchanges, log);
    var before := Pairs(exchanges, log[..|log| - 1]);
    assert h[..|h| - 1] == History(exchanges, log[..|log| - 1]);
    assert Pairs(exchanges, log) == AfterPut(before, e.key, (e.received, e.generated), CAPACITY);
    PartOfPut(before, Theirs, e.key, (e.received, e.generated), CAPACITY);
    PartOfPut(before, Mine, e.key, (e.received, e.generated), CAPACITY);
  }

  lemma SidesDistinct(exchanges: seq<Exchange>, log: seq<nat>)
    requires InRange(exchanges, log)
    ensures Distinct(Part(Pairs(exchanges, log), Theirs)) && Distinct(Part(Pairs(exchanges, log), Mine))
    ensures |Pairs(exchanges, log)| <= CAPACITY
  {
    var h := History(exchanges, log);
    ReplayIsRecent(h, CAPACITY);
    RecentDistinct(h);
    var c := Pairs(exchanges, log);
    assert forall i :: 0 <= i < |c| ==> c[i] == Recent(h)[i];
    assert Distinct(c);
  }

  lemma LocksStep(exchanges: seq<Exchange>, s: State, i: nat)
    requires Inv(exchanges, s) && Can(exchanges, s, i)
    ensures Locked(Step(exchanges, s, i)) && InRange(exchanges, Step(exchanges, s, i).log)
  {
    hide AfterPut, AfterGet, Lookup, Part, Pairs, History, Distinct;

  }

  /** Phases that touch neither cache. */
  lemma QuietStep(exchanges: seq<Exchange>, s: State, i: nat)
    requires Inv(exchanges, s) && Can(exchanges, s, i) && s.phases[i] !in {HasReceived, HasBoth, PutBoth}
    ensures Inv(exchanges, Step(exchanges, s, i))
  {
    hide AfterPut, AfterGet, Lookup, Part, Pairs, History, Distinct;
    LocksStep(exchanges, s, i);
    var t := Step(exchanges, s, i);
    assert s.phases[i] == Waiting ==> t.log[..|t.log| - 1] == s.log;
  }

  lemma PutStep(exchanges: seq<Exchange>, s: State, i: nat)
    requires Inv(exchanges, s) && Can(exchanges, s, i) && s.phases[i] in {HasReceived, HasBoth}
    ensures Inv(exchanges, Step(exchanges, s, i))
  {
    hide AfterPut, AfterGet, Lookup, Part, Pairs, History, Distinct;
    LocksStep(exchanges, s, i);
    OneMoreTurn(exchanges, s.log);
  }

  lemma RereadStep(exchanges: seq<Exchange>, s: State, i: nat)
    requires Inv(exchanges, s) && Can(exchanges, s, i) && s.phases[i] == PutBoth
    ensures Inv(exchanges, Step(exchanges, s, i))
  {
    hide AfterPut, AfterGet, Lookup, Part, Pairs, History, Distinct;
    LocksStep(exchanges, s, i);
    OneMoreTurn(exchanges, s.log);
    SidesDistinct(exchanges, s.log[..|s.log| - 1]);
    var e := exchanges[i];
    var before := Pairs(exchanges, s.log[..|s.log| - 1]);
    ReadAfterPut(Part(before, Theirs), e.key, e.received, CAPACITY);
    ReadAfterPut(Part(before, Mine), e.key, e.generated, CAPACITY);
  }

  lemma {:induction false} InvAlways(exchanges: seq<Exchange>, s: State, schedule: seq<nat>)
    requires Inv(exchanges, s) && Legal(exchanges, s, schedule)
    ensures Inv(exchanges, After(exchanges, s, schedule))
    decreases |schedule|
  {
    if schedule != [] {
      var i := schedule[0];
      if s.phases[i] in {HasReceived, HasBoth} {
        PutStep(exchanges, s, i);
      } else if s.phases[i] == PutBoth {
        RereadStep(exchanges, s, i);
      } else {
        QuietStep(exchanges, s, i);
      }
      hide Inv, Can, Step;
      InvAlways(exchanges, Step(exchanges, s, i), schedule[1..]);
    }
  }

  lemma InvStart(exchanges: seq<Exchange>)
    ensures Inv(exchanges, Start(exchanges))
  {
  }

  // ----- The theorems ------------------------------------------------------------------------

  /** In every run, neither of the two reads ever fails, however the exchanges interleave. */
  lemma ReadsNeverFail(exchanges: seq<Exchange>, schedule: seq<nat>)
    requires Legal(exchanges, Start(exchanges), schedule)
    ensures !After(exchanges, Start(exchanges), schedule).panicked
  {
    InvStart(exchanges);
    InvAlways(exchanges, Start(exchanges), schedule);
  }

  /** Position n of both maps: one key, and the two nonces of the last exchange with it. */
  ghost predicate SameExchange(exchanges: seq<Exchange>, s: State, n: nat) {
    && n < |s.received| && n < |s.generated|
    && s.received[n].key == s.generated[n].key
    && exists turn ::
        && 0 <= turn < |s.log| && s.log[turn] < |exchanges|
        && exchanges[s.log[turn]] == Exchange(s.received[n].key, s.received[n].value, s.generated[n].value,
                                              exchanges[s.log[turn]].rereads)
        && forall later :: turn < later < |s.log| ==>
             s.log[later] < |exchanges| && exchanges[s.log[later]].key != s.received[n].key
  }

  /**
   Whenever the received lock is free, the two maps hold the same keys in the same
   order, the most recent ones and at most 200, and both values under a key come
   from its last exchange.
   */
  lemma MapsStayInStep(exchanges: seq<Exchange>, schedule: seq<nat>)
    requires Legal(exchanges, Start(exchanges), schedule)
    requires After(exchanges, Start(exchanges), schedule).receivedLock == None
    ensures
      var s := After(exchanges, Start(exchanges), schedule);
      && |s.received| == |s.generated| <= 200
      && (forall n :: 0 <= n < |s.received| ==> SameExchange(exchanges, s, n))
      && InRange(exchanges, s.log)
      && s.received == Part(First(Recent(History(exchanges, s.log)), 200), Theirs)
  {
    InvStart(exchanges);
    InvAlways(exchanges, Start(exchanges), schedule);
    var s := After(exchanges, Start(exchanges), schedule);
    ReplayIsRecent(History(exchanges, s.log), CAPACITY);
    SidesDistinct(exchanges, s.log);
    forall n | 0 <= n < |s.received|
      ensures SameExchange(exchanges, s, n)
    {
      SameAt(exchanges, s, n);
    }
  }

  lemma SameAt(exchanges: seq<Exchange>, s: State, n: nat)
    requires InRange(exchanges, s.log)
    requires s.received == Part(Pairs(exchanges, s.log), Theirs) && s.generated == Part(Pairs(exchanges, s.log), Mine)
    requires n < |s.received|
    ensures SameExchange(exchanges, s, n)
  {
    var h := History(exchanges, s.log);
    ReplayIsRecent(h, CAPACITY);
    RecentMeaning(h);
    var e := Pairs(exchanges, s.log)[n];
    assert e == Recent(h)[n] && e in Recent(h);
    LastIndexIs(h, e.key);
    var turn := LastIndex(h, e.key);
    assert h[turn] == e;
    forall later | turn < later < |s.log|
      ensures s.log[later] < |exchanges| && exchanges[s.log[later]].key != e.key
    {
      assert h[later].key != e.key;
    }
  }

  /** The order of the two locks leaves some exchange able to go on until all are done. */
  lemma NeverStuck(exchanges: seq<Exchange>, schedule: seq<nat>)
    requires Legal(exchanges, Start(exchanges), schedule)
    ensures
      var s := After(exchanges, Start(exchanges), schedule);
      (forall i :: 0 <= i < |s.phases| ==> s.phases[i] == Done) || exists i :: Can(exchanges, s, i)
  {
    InvStart(exchanges);
    InvAlways(exchanges, Start(exchanges), schedule);
    var s := After(exchanges, Start(exchanges), schedule);
    if i :| 0 <= i < |exchanges| && s.phases[i] != Done {
      var next := if s.receivedLock.Some? then s.receivedLock.value else i;
      assert Can(exchanges, s, next);
    }
  }

  function Remaining(phase: Phase): nat {
    match phase
    case Waiting => 7
    case HasReceived => 6
    case PutReceived => 5
    case HasBoth => 4
    case PutBoth => 3
    case Finishing => 2
    case LeftGenerated => 1
    case Done => 0
  }

  function AllRemaining(phases: seq<Phase>): nat {
    if phases == [] then 0 else Remaining(phases[0]) + AllRemaining(phases[1..])
  }

  lemma {:induction false} RemainingUpdate(phases: seq<Phase>, i: nat, phase: Phase)
    requires i < |phases|
    ensures AllRemaining(phases[i := phase]) == AllRemaining(phases) - Remaining(phases[i]) + Remaining(phase)
  {
    if i == 0 {
      assert phases[0 := phase][1..] == phases[1..];
    } else {
      assert phases[i := phase][1..] == phases[1..][i - 1 := phase];
      RemainingUpdate(phases[1..], i - 1, phase);
    }
  }

  lemma {:induction false} StepsCount(exchanges: seq<Exchange>, s: State, schedule: seq<nat>)
    requires Legal(exchanges, s, schedule)
    ensures |schedule| + AllRemaining(After(exchanges, s, schedule).phases) == AllRemaining(s.phases)
    decreases |schedule|
  {
    if schedule != [] {
      var i := schedule[0];
      var t := Step(exchanges, s, i);
      RemainingUpdate(s.phases, i, t.phases[i]);
      assert t.phases == s.phases[i := t.phases[i]];
      assert Remaining(t.phases[i]) == Remaining(s.phases[i]) - 1;
      hide Can, Step, Remaining;
      StepsCount(exchanges, t, schedule[1..]);
    }
  }

  lemma {:induction false} AllWaiting(n: nat)
    ensures AllRemaining(seq(n, _ => Waiting)) == 7 * n
  {
    if n > 0 {
      assert seq(n, _ => Waiting)[1..] == seq(n - 1, _ => Waiting);
      AllWaiting(n - 1);
    }
  }

  /** No run has more than seven steps an exchange, so every run that cannot go on has served them all. */
  lemma RunsAreBounded(exchanges: seq<Exchange>, schedule: seq<nat>)
    requires Legal(exchanges, Start(exchanges), schedule)
    ensures |schedule| <= 7 * |exchanges|
  {
    StepsCount(exchanges, Start(exchanges), schedule);
    AllWaiting(|exchanges|);
    assert Start(exchanges).phases == seq(|exchanges|, _ => Waiting);
  }
}
