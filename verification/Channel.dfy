/**
 Two sequential programs joined by two unbounded first-in-first-out queues, the
 shape of an ordered and reliable WebRTC data channel with a task at each end.
 Either program may take the next step whenever it can, so a run is any
 interleaving. The module proves that interleaving cannot matter.
 */
module Channel {
  import opened Prelude

  /** A data channel message: string and binary messages are distinct kinds. */
  datatype Msg = Text(data: Bytes) | Binary(data: Bytes)

  /** What a program does next: run on, wait for a message, or nothing any more. */
  datatype Mode = Running | Waiting | Halted

  /** One step: the next local state, messages sent, events shown to the application. */
  datatype Move<L, E> = Move(next: L, send: seq<Msg>, log: seq<E>)

  /** A deterministic sequential program. */
  datatype Program<!L, !E> = Program(
    mode: L -> Mode,
    run: L -> Move<L, E>,
    receive: (L, Msg) -> Move<L, E>)

  datatype Side = Left | Right

  /** Local states, messages in flight, and the event logs of both applications. */
  datatype Net<L, R, E> = Net(
    left: L, right: R,
    toRight: seq<Msg>, toLeft: seq<Msg>,
    logLeft: seq<E>, logRight: seq<E>)

  function Count(schedule: seq<Side>, side: Side): nat {
    if schedule == [] then 0 else (if schedule[0] == side then 1 else 0) + Count(schedule[1..], side)
  }

  lemma {:induction false} CountAppend(s: seq<Side>, t: seq<Side>, side: Side)
    ensures Count(s + t, side) == Count(s, side) + Count(t, side)
  {
    if s == [] {
      assert s + t == t;
    } else {
      assert (s + t)[1..] == s[1..] + t;
      CountAppend(s[1..], t, side);
    }
  }

  datatype System<!L, !R, !E> = System(left: Program<L, E>, right: Program<R, E>) {

    predicate Enabled(n: Net<L, R, E>, side: Side) {
      match side
      case Left =>
        var mode := left.mode(n.left);
        mode == Running || (mode == Waiting && n.toLeft != [])
      case Right =>
        var mode := right.mode(n.right);
        mode == Running || (mode == Waiting && n.toRight != [])
    }

    function Next(n: Net<L, R, E>, side: Side): Net<L, R, E>
      requires Enabled(n, side)
    {
      match side
      case Left =>
        var waiting := left.mode(n.left) == Waiting;
        var m := if waiting then left.receive(n.left, n.toLeft[0]) else left.run(n.left);
        n.(left := m.next,
        toLeft := if waiting then n.toLeft[1..] else n.toLeft,
        toRight := n.toRight + m.send,
        logLeft := n.logLeft + m.log)
      case Right =>
        var waiting := right.mode(n.right) == Waiting;
        var m := if waiting then right.receive(n.right, n.toRight[0]) else right.run(n.right);
        n.(right := m.next,
        toRight := if waiting then n.toRight[1..] else n.toRight,
        toLeft := n.toLeft + m.send,
        logRight := n.logRight + m.log)
    }

    predicate Stuck(n: Net<L, R, E>) {
      !Enabled(n, Left) && !Enabled(n, Right)
    }

    /** The schedule leads from a to b. */
    ghost predicate Runs(a: Net<L, R, E>, schedule: seq<Side>, b: Net<L, R, E>)
      decreases |schedule|
    {
      if schedule == [] then a == b
      else Enabled(a, schedule[0]) && Runs(Next(a, schedule[0]), schedule[1..], b)
    }

    ghost predicate Reaches(a: Net<L, R, E>, b: Net<L, R, E>) {
      exists schedule :: Runs(a, schedule, b)
    }

    lemma {:induction false} RunsAppend(a: Net<L, R, E>, s: seq<Side>, b: Net<L, R, E>, t: seq<Side>, c: Net<L, R, E>)
      requires Runs(a, s, b) && Runs(b, t, c)
      ensures Runs(a, s + t, c)
      decreases |s|
    {
      if s == [] {
        assert s + t == t;
      } else {
        assert (s + t)[0] == s[0] && (s + t)[1..] == s[1..] + t;
        RunsAppend(Next(a, s[0]), s[1..], b, t, c);
      }
    }

    lemma Start(a: Net<L, R, E>)
      ensures Reaches(a, a)
    {
      assert Runs(a, [], a);
    }

    lemma Then(a: Net<L, R, E>, b: Net<L, R, E>, side: Side)
      requires Reaches(a, b) && Enabled(b, side)
      ensures Reaches(a, Next(b, side))
    {
      var s :| Runs(a, s, b);
      assert Runs(Next(b, side), [side][1..], Next(b, side));
      RunsAppend(a, s, b, [side], Next(b, side));
    }

    /** Steps of the two sides commute: each only appends to the queue the other reads. */
    lemma Diamond(n: Net<L, R, E>)
      requires Enabled(n, Left) && Enabled(n, Right)
      ensures Enabled(Next(n, Left), Right) && Enabled(Next(n, Right), Left)
      ensures Next(Next(n, Left), Right) == Next(Next(n, Right), Left)
    {
      var l, r := Next(n, Left), Next(n, Right);
      var lr, rl := Next(l, Right), Next(r, Left);
      assert lr.toRight == rl.toRight;
      assert lr.toLeft == rl.toLeft;
    }

    /** One extra step at the start of a run can be moved past the whole run, unless the run takes it itself. */
    lemma {:induction false} Strip(a: Net<L, R, E>, side: Side, s: seq<Side>, b: Net<L, R, E>)
      returns (c: Net<L, R, E>, down: seq<Side>, across: seq<Side>)
      requires Enabled(a, side) && Runs(a, s, b)
      ensures Runs(Next(a, side), down, c) && Runs(b, across, c)
      ensures |down| + 1 == |s| + |across|
      ensures across == if Count(s, side) > 0 then [] else [side]
      ensures forall z :: Count(down, z) + (if z == side then 1 else 0) == Count(s, z) + Count(across, z)
      decreases |s|
    {
      if s == [] {
        c, down, across := Next(a, side), [], [side];
        assert Runs(c, [side][1..], c);
      } else if s[0] == side {
        c, down, across := b, s[1..], [];
      } else {
        Diamond(a);
        var d;
        c, d, across := Strip(Next(a, s[0]), side, s[1..], b);
        down := [s[0]] + d;
        assert down[1..] == d;
      }
    }

    /**
     Any two runs from the same state can be completed to a common state, in
     equally many steps, each side catching up with what the other run has more of it.
     */
    lemma {:induction false} Join(a: Net<L, R, E>, s: seq<Side>, b: Net<L, R, E>, t: seq<Side>, c: Net<L, R, E>)
      returns (d: Net<L, R, E>, u: seq<Side>, v: seq<Side>)
      requires Runs(a, s, b) && Runs(a, t, c)
      ensures Runs(b, u, d) && Runs(c, v, d)
      ensures |s| + |u| == |t| + |v|
      ensures forall z :: Count(s, z) + Count(u, z) == Count(t, z) + Count(v, z)
      ensures forall z :: Count(u, z) == 0 || Count(v, z) == 0
      decreases |s|
    {
      if s == [] {
        d, u, v := c, t, [];
      } else {
        var c', down, across := Strip(a, s[0], t, c);
        var v';
        d, u, v' := Join(Next(a, s[0]), s[1..], b, down, c');
        RunsAppend(c, across, c', v', d);
        v := across + v';
        forall z
          ensures Count(v, z) == Count(across, z) + Count(v', z)
        {
          CountAppend(across, v', z);
        }
      }
    }

    /** Logs only grow; a program that has halted keeps its state and its log. */
    lemma {:induction false} Persistence(a: Net<L, R, E>, s: seq<Side>, b: Net<L, R, E>)
      requires Runs(a, s, b)
      ensures a.logLeft <= b.logLeft && a.logRight <= b.logRight
      ensures left.mode(a.left) == Halted ==> b.left == a.left && b.logLeft == a.logLeft
      ensures right.mode(a.right) == Halted ==> b.right == a.right && b.logRight == a.logRight
      decreases |s|
    {
      if s != [] {
        Persistence(Next(a, s[0]), s[1..], b);
      }
    }

    /**
     If one run ends in a state where nothing can move, every run is a beginning
     of an equally long run to that same state: the system terminates and
     neither its outcome nor its logs depend on the interleaving.
     */
    lemma EveryRunEndsThere(a: Net<L, R, E>, s: seq<Side>, end: Net<L, R, E>, t: seq<Side>, m: Net<L, R, E>)
      returns (rest: seq<Side>)
      requires Runs(a, s, end) && Stuck(end) && Runs(a, t, m)
      ensures Runs(m, rest, end) && |t| + |rest| == |s|
      ensures m.logLeft <= end.logLeft && m.logRight <= end.logRight
      ensures left.mode(m.left) == Halted ==> m.left == end.left
      ensures right.mode(m.right) == Halted ==> m.right == end.right
      ensures Stuck(m) ==> m == end
    {
      var d, u, v := Join(a, s, end, t, m);
      assert u == [];
      rest := v;
      Persistence(m, v, end);
    }

    /** A verdict reached by one program in some run is its verdict in every run that lets it halt. */
    lemma VerdictsAgree(a: Net<L, R, E>, b: Net<L, R, E>, c: Net<L, R, E>)
      requires Reaches(a, b) && Reaches(a, c)
      ensures left.mode(b.left) == Halted ==> c.logLeft <= b.logLeft
      ensures right.mode(b.right) == Halted ==> c.logRight <= b.logRight
      ensures left.mode(b.left) == left.mode(c.left) == Halted ==> b.left == c.left
      ensures right.mode(b.right) == right.mode(c.right) == Halted ==> b.right == c.right
    {
      var s :| Runs(a, s, b);
      var t :| Runs(a, t, c);
      var d, u, v := Join(a, s, b, t, c);
      Persistence(b, u, d);
      Persistence(c, v, d);
    }

    lemma {:induction false} RightIdle(a: Net<L, R, E>, s: seq<Side>, b: Net<L, R, E>)
      requires Runs(a, s, b) && Count(s, Right) == 0
      ensures b.right == a.right
      decreases |s|
    {
      if s != [] {
        RightIdle(Next(a, s[0]), s[1..], b);
      }
    }

    lemma {:induction false} OnlyLeft(s: seq<Side>)
      requires Count(s, Right) == 0 && s != []
      ensures s[0] == Left
    {
    }

    /**
     Where the left side waits for the right, whose next step is its last: any run
     has come past that step or can still come to this state.
     */
    lemma RightGoesFirst(a: Net<L, R, E>, s: seq<Side>, n: Net<L, R, E>, t: seq<Side>, m: Net<L, R, E>)
      requires Runs(a, s, n) && Enabled(n, Right) && !Enabled(n, Left) && Runs(a, t, m)
      requires right.mode(Next(n, Right).right) == Halted
      ensures m.right == Next(n, Right).right || Reaches(m, n)
    {
      var d, u, v := Join(a, s, n, t, m);
      if Count(u, Right) == 0 {
        if u != [] {
          OnlyLeft(u);
        }
      } else {
        RightIdle(m, v, d);
        Persistence(Next(n, Right), u[1..], d);
      }
    }

    /** A side that takes no step keeps its log. */
    lemma {:induction false} LeftIdle(a: Net<L, R, E>, s: seq<Side>, b: Net<L, R, E>)
      requires Runs(a, s, b) && Count(s, Left) == 0
      ensures b.logLeft == a.logLeft
      decreases |s|
    {
      if s != [] {
        LeftIdle(Next(a, s[0]), s[1..], b);
      }
    }

    lemma {:induction false} OnlyRight(s: seq<Side>)
      requires Count(s, Left) == 0 && s != []
      ensures s[0] == Right
    {
    }

    /** Where the right side waits for the left, a run in which it shows more is one in which the left has gone on. */
    lemma LeftWentOn(a: Net<L, R, E>, s: seq<Side>, n: Net<L, R, E>, t: seq<Side>, m: Net<L, R, E>)
      requires Runs(a, s, n) && Enabled(n, Left) && !Enabled(n, Right) && Runs(a, t, m)
      ensures Next(n, Left).logLeft <= m.logLeft || m.logRight <= n.logRight
    {
      var d, u, v := Join(a, s, n, t, m);
      Persistence(m, v, d);
      if Count(u, Left) == 0 {
        if u != [] {
          OnlyRight(u);
        }
      } else {
        LeftIdle(m, v, d);
        Persistence(Next(n, Left), u[1..], d);
      }
    }
  }
}
