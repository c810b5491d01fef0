/** What is on the data channel: no message is empty, since an empty one would not arrive. */
module Wire {
  import opened Prelude
  import opened Channel
  import opened Framing
  import opened Transfer
  import opened Session

  ghost predicate Arriving(ms: seq<Msg>) {
    forall m :: m in ms ==> |m.data| > 0
  }

  lemma SenderSends(env: SenderEnv, json: Json, s: Sender)
    requires json.Lawful()
    ensures Arriving(SenderRun(env, json, s).send)
  {
    hide RoundTrips, Judge;
  }

  lemma ReceiverSends(env: ReceiverEnv, json: Json, r: Receiver)
    requires json.Lawful()
    ensures Arriving(ReceiverRun(env, json, r).send)
  {
    hide RoundTrips, Judge, OpenFile;
  }

  /** Only a step of its own makes a task send, not a message it takes. */
  lemma TakingSendsNothing(x: Session, s: Sender, r: Receiver, m: Msg)
    ensures SenderTakes(x.sender, x.json, x.strict, s, m).send == []
    ensures ReceiverTakes(x.receiver, x.json, x.strict, r, m).send == []
  {
    hide Listed;
  }

  lemma ArrivingStep(x: Session, n: Peers, side: Side)
    requires x.json.Lawful() && x.Pair().Enabled(n, side) && Arriving(n.toLeft) && Arriving(n.toRight)
    ensures Arriving(x.Pair().Next(n, side).toLeft) && Arriving(x.Pair().Next(n, side).toRight)
  {
    hide SenderRun, SenderTakes, ReceiverRun, ReceiverTakes, Json.Lawful;
    SenderSends(x.sender, x.json, n.left);
    ReceiverSends(x.receiver, x.json, n.right);
    if n.toLeft != [] {
      TakingSendsNothing(x, n.left, n.right, n.toLeft[0]);
    }
    if n.toRight != [] {
      TakingSendsNothing(x, n.left, n.right, n.toRight[0]);
    }
  }

  lemma {:induction false} ArrivingRun(x: Session, n: Peers, t: seq<Side>, m: Peers)
    requires x.json.Lawful() && x.Pair().Runs(n, t, m) && Arriving(n.toLeft) && Arriving(n.toRight)
    ensures Arriving(m.toLeft) && Arriving(m.toRight)
    decreases |t|
  {
    hide Arriving, System.Next, System.Enabled;
    if t != [] {
      ArrivingStep(x, n, t[0]);
      ArrivingRun(x, x.Pair().Next(n, t[0]), t[1..], m);
    }
  }

  /** In every reachable state of every session, no message on its way is empty. */
  lemma NothingEmpty(x: Session, m: Peers)
    requires x.Valid() && x.Reached(m)
    ensures forall e :: e in m.toLeft + m.toRight ==> |e.data| > 0
  {
    hide System.Runs;
    var t :| x.Pair().Runs(OPENING, t, m);
    ArrivingRun(x, OPENING, t, m);
  }
}
