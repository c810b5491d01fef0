/** Building blocks of the binary bridge codec: how a value is put, how it is got back, and which values survive. */
module Formats {
  import opened Prelude
  import LittleEndian

  /** A result, or the panic that a failed unwrap is. */
  datatype Outcome<+T> = Panics | Value(value: T) {
    predicate IsFailure() {
      Panics?
    }

    function PropagateFailure<U>(): Outcome<U>
      requires IsFailure()
    {
      Panics
    }

    function Extract(): T
      requires !IsFailure()
    {
      value
    }
  }

  /** put appends to a cursor, get takes from the front and leaves the rest; fits holds of the values that survive. */
  datatype Format<!T> = Format(put: (Bytes, T) -> Bytes, get: Bytes -> Outcome<(T, Bytes)>, fits: T -> bool)

  ghost predicate Appends<T(!new)>(f: Format<T>) {
    forall acc, v :: f.put(acc, v) == acc + f.put([], v)
  }

  ghost predicate Returns<T(!new)>(f: Format<T>) {
    forall v, rest :: f.fits(v) ==> f.get(f.put([], v) + rest) == Value((v, rest))
  }

  ghost predicate OnlyFitting<T(!new)>(f: Format<T>) {
    forall b :: f.get(b).Value? ==> f.fits(f.get(b).value.0)
  }

  ghost predicate Lawful<T(!new)>(f: Format<T>) {
    Appends(f) && Returns(f) && OnlyFitting(f)
  }

  /** In a lawful format the fitting values, and no others, come back from any position of any stream. */
  lemma Exactly<T(!new)>(f: Format<T>, acc: Bytes, v: T, rest: Bytes)
    requires Lawful(f)
    ensures acc <= f.put(acc, v)
    ensures f.get((f.put(acc, v) + rest)[|acc|..]) == Value((v, rest)) <==> f.fits(v)
  {
    assert f.put(acc, v) == acc + f.put([], v);
    assert (f.put(acc, v) + rest)[|acc|..] == f.put([], v) + rest;
    var b := f.put([], v) + rest;
    if f.get(b) == Value((v, rest)) {
      assert f.fits(f.get(b).value.0);
    }
  }

  // ----- Fixed-width integers ----------------------------------------------------

  function GetUnsigned(b: Bytes, width: nat): Outcome<(nat, Bytes)> {
    if |b| < width then Panics else Value((LittleEndian.Read(b[..width]), b[width..]))
  }

  function Unsigned(width: nat): Format<nat> {
    Format((acc: Bytes, n: nat) => acc + LittleEndian.Write(n, width),
           (b: Bytes) => GetUnsigned(b, width),
           (n: nat) => n < LittleEndian.Capacity(width))
  }

  lemma UnsignedIsLawful(width: nat)
    ensures Lawful(Unsigned(width))
  {
    var f := Unsigned(width);
    forall n: nat, rest: Bytes | f.fits(n)
      ensures f.get(f.put([], n) + rest) == Value((n, rest))
    {
      var b := LittleEndian.Write(n, width);
      LittleEndian.ReadWrite(n, width);
      assert f.put([], n) == b;
      assert (b + rest)[..width] == b && (b + rest)[width..] == rest;
    }
    forall b: Bytes | f.get(b).Value?
      ensures f.fits(f.get(b).value.0)
    {
      LittleEndian.ReadBound(b[..width]);
    }
    assert Appends(f);
  }

  // ----- One byte ------------------------------------------------------------------

  function GetByte(b: Bytes): Outcome<(u8, Bytes)> {
    if b == [] then Panics else Value((b[0], b[1..]))
  }

  function Octet(): Format<u8> {
    Format((acc: Bytes, v: u8) => acc + [v], (b: Bytes) => GetByte(b), (v: u8) => true)
  }

  function GetBool(b: Bytes): Outcome<(bool, Bytes)> {
    if b == [] then Panics else Value((b[0] != 0, b[1..]))
  }

  /** Any nonzero byte reads as true. */
  function Flag(): Format<bool> {
    Format((acc: Bytes, v: bool) => acc + [if v then 1 else 0], (b: Bytes) => GetBool(b), (v: bool) => true)
  }

  lemma BytesAreLawful()
    ensures Lawful(Octet()) && Lawful(Flag())
  {
    assert forall v: u8, rest: Bytes :: ([v] + rest)[1..] == rest;
  }

  // ----- Combinators ---------------------------------------------------------------

  function GetPair<S, T>(f: Format<S>, g: Format<T>, b: Bytes): Outcome<((S, T), Bytes)> {
    var first :- f.get(b);
    var second :- g.get(first.1);
    Value(((first.0, second.0), second.1))
  }

  function Pair<S, T>(f: Format<S>, g: Format<T>): Format<(S, T)> {
    Format((acc: Bytes, v: (S, T)) => g.put(f.put(acc, v.0), v.1),
           (b: Bytes) => GetPair(f, g, b),
           (v: (S, T)) => f.fits(v.0) && g.fits(v.1))
  }

  lemma PairIsLawful<S(!new), T(!new)>(f: Format<S>, g: Format<T>)
    requires Lawful(f) && Lawful(g)
    ensures Lawful(Pair(f, g))
  {
    var p := Pair(f, g);
    forall acc: Bytes, v: (S, T)
      ensures p.put(acc, v) == acc + p.put([], v)
      ensures p.put([], v) == f.put([], v.0) + g.put([], v.1)
    {
      assert p.put(acc, v) == (acc + f.put([], v.0)) + g.put([], v.1);
    }
    forall v: (S, T), rest: Bytes | p.fits(v)
      ensures p.get(p.put([], v) + rest) == Value((v, rest))
    {
      var tail := g.put([], v.1) + rest;
      assert p.put([], v) + rest == f.put([], v.0) + tail;
      assert f.get(f.put([], v.0) + tail) == Value((v.0, tail));
    }
    forall b: Bytes | p.get(b).Value?
      ensures p.fits(p.get(b).value.0)
    {
      assert f.get(b).Value?;
      assert g.get(f.get(b).value.1).Value?;
    }
  }

  function GetOptional<T>(f: Format<T>, b: Bytes): Outcome<(Option<T>, Bytes)> {
    var present :- GetBool(b);
    if present.0 then
      var inner :- f.get(present.1);
      Value((Some(inner.0), inner.1))
    else
      Value((None, present.1))
  }

  function PutOptional<T>(f: Format<T>, acc: Bytes, v: Option<T>): Bytes {
    var flagged := Flag().put(acc, v.Some?);
    if v.Some? then f.put(flagged, v.value) else flagged
  }

  function Optional<T>(f: Format<T>): Format<Option<T>> {
    Format((acc: Bytes, v: Option<T>) => PutOptional(f, acc, v),
           (b: Bytes) => GetOptional(f, b),
           (v: Option<T>) => v.Some? ==> f.fits(v.value))
  }

  lemma OptionalIsLawful<T(!new)>(f: Format<T>)
    requires Lawful(f)
    ensures Lawful(Optional(f))
  {
    var o := Optional(f);
    forall acc: Bytes, v: Option<T>
      ensures o.put(acc, v) == acc + o.put([], v)
    {
      if v.Some? {
        assert o.put(acc, v) == (acc + [1]) + f.put([], v.value);
        assert o.put([], v) == [1] + f.put([], v.value);
      }
    }
    forall v: Option<T>, rest: Bytes | o.fits(v)
      ensures o.get(o.put([], v) + rest) == Value((v, rest))
    {
      var b := o.put([], v) + rest;
      if v.Some? {
        assert b == [1] + (f.put([], v.value) + rest);
        assert b[1..] == f.put([], v.value) + rest;
      } else {
        assert b == [0] + rest;
        assert b[1..] == rest;
      }
    }
    assert OnlyFitting(o);
  }

  /** The same bytes as another type: open is what is written, and close refuses the rest. */
  function Via<S, T>(f: Format<S>, open: T -> S, close: S -> Option<T>): Format<T> {
    Format((acc: Bytes, v: T) => f.put(acc, open(v)),
           (b: Bytes) => GetVia(f, close, b),
           (v: T) => f.fits(open(v)))
  }

  function GetVia<S, T>(f: Format<S>, close: S -> Option<T>, b: Bytes): Outcome<(T, Bytes)> {
    var inner :- f.get(b);
    if close(inner.0) == None then Panics else Value((close(inner.0).value, inner.1))
  }

  lemma ViaFits<S, T>(f: Format<S>, open: T -> S, close: S -> Option<T>, v: T)
    ensures Via(f, open, close).fits(v) == f.fits(open(v))
  {
  }

  lemma ViaPuts<S, T>(f: Format<S>, open: T -> S, close: S -> Option<T>, acc: Bytes, v: T)
    ensures Via(f, open, close).put(acc, v) == f.put(acc, open(v))
  {
  }

  lemma ViaGets<S, T>(f: Format<S>, open: T -> S, close: S -> Option<T>, b: Bytes)
    ensures Via(f, open, close).get(b) == GetVia(f, close, b)
  {
  }

  ghost predicate Undo<S(!new), T(!new)>(open: T -> S, close: S -> Option<T>) {
    forall s, t :: close(s) == Some(t) <==> s == open(t)
  }

  lemma ViaIsLawful<S(!new), T(!new)>(f: Format<S>, open: T -> S, close: S -> Option<T>)
    requires Lawful(f) && Undo(open, close)
    ensures Lawful(Via(f, open, close))
  {
    var g := Via(f, open, close);
    forall v: T, rest: Bytes | g.fits(v)
      ensures g.get(g.put([], v) + rest) == Value((v, rest))
    {
      assert f.get(f.put([], open(v)) + rest) == Value((open(v), rest));
      assert close(open(v)) == Some(v);
    }
    forall b: Bytes | g.get(b).Value?
      ensures g.fits(g.get(b).value.0)
    {
      var s := f.get(b).value.0;
      assert close(s) == Some(g.get(b).value.0);
    }
    assert Appends(g);
  }

  // ----- Sequences with a 32-bit length ----------------------------------------------

  const HALF: int := 0x8000_0000
  const WHOLE: int := 0x1_0000_0000

  type i32 = n: int | -0x8000_0000 <= n < 0x8000_0000

  function Signed(): Format<i32> {
    Via(Unsigned(4), (n: i32) => OfSigned(n), (n: nat) => ToSigned(n))
  }

  function OfSigned(n: i32): nat {
    if n >= 0 then n else n + WHOLE
  }

  function ToSigned(n: nat): Option<i32> {
    if n < HALF then Some(n) else if n < WHOLE then Some(n - WHOLE) else None
  }

  lemma SignedIsLawful()
    ensures Lawful(Signed())
    ensures forall n: i32 :: Signed().fits(n)
  {
    UnsignedIsLawful(4);
    ViaIsLawful(Unsigned(4), (n: i32) => OfSigned(n), (n: nat) => ToSigned(n));
    assert LittleEndian.Capacity(4) == WHOLE;
  }

  /** The cast of a length to a 32-bit integer. */
  function Truncated(n: nat): i32 {
    if n % WHOLE < HALF then n % WHOLE else n % WHOLE - WHOLE
  }

  function PutAll<T>(f: Format<T>, acc: Bytes, items: seq<T>): Bytes
    decreases |items|
  {
    if items == [] then acc else PutAll(f, f.put(acc, items[0]), items[1..])
  }

  /** A negative count reads nothing. */
  function GetMany<T>(f: Format<T>, count: int, got: seq<T>, b: Bytes): Outcome<(seq<T>, Bytes)>
    decreases count
  {
    if count <= 0 then Value((got, b))
    else
      var next :- f.get(b);
      GetMany(f, count - 1, got + [next.0], next.1)
  }

  function GetList<T>(f: Format<T>, b: Bytes): Outcome<(seq<T>, Bytes)> {
    var length :- Signed().get(b);
    GetMany(f, length.0, [], length.1)
  }

  function List<T>(f: Format<T>): Format<seq<T>> {
    Format((acc: Bytes, items: seq<T>) => PutAll(f, Signed().put(acc, Truncated(|items|)), items),
           (b: Bytes) => GetList(f, b),
           (items: seq<T>) => |items| < HALF && forall i :: 0 <= i < |items| ==> f.fits(items[i]))
  }

  lemma {:induction false} PutAllAppends<T(!new)>(f: Format<T>, acc: Bytes, items: seq<T>)
    requires Appends(f)
    ensures PutAll(f, acc, items) == acc + PutAll(f, [], items)
    decreases |items|
  {
    if items != [] {
      var first := f.put([], items[0]);
      PutAllAppends(f, acc + first, items[1..]);
      PutAllAppends(f, first, items[1..]);
      assert f.put(acc, items[0]) == acc + first;
    }
  }

  lemma {:induction false} GetManyReturns<T(!new)>(f: Format<T>, got: seq<T>, items: seq<T>, rest: Bytes)
    requires Appends(f) && Returns(f)
    requires forall i :: 0 <= i < |items| ==> f.fits(items[i])
    ensures GetMany(f, |items|, got, PutAll(f, [], items) + rest) == Value((got + items, rest))
    decreases |items|
  {
    if items == [] {
      assert got + items == got;
      assert PutAll(f, [], items) + rest == rest;
    } else {
      var first, tail := f.put([], items[0]), PutAll(f, [], items[1..]) + rest;
      PutAllAppends(f, first, items[1..]);
      assert PutAll(f, [], items) + rest == first + tail;
      GetManyReturns(f, got + [items[0]], items[1..], rest);
      assert got + [items[0]] + items[1..] == got + items;
    }
  }

  lemma {:induction false} GetManyFits<T(!new)>(f: Format<T>, count: int, got: seq<T>, b: Bytes)
    requires OnlyFitting(f) && GetMany(f, count, got, b).Value?
    requires forall i :: 0 <= i < |got| ==> f.fits(got[i])
    ensures var items := GetMany(f, count, got, b).value.0;
            |items| == |got| + (if count <= 0 then 0 else count) && forall i :: 0 <= i < |items| ==> f.fits(items[i])
    decreases count
  {
    if count > 0 {
      var next := f.get(b).value;
      GetManyFits(f, count - 1, got + [next.0], next.1);
    }
  }

  lemma ListIsLawful<T(!new)>(f: Format<T>)
    requires Lawful(f)
    ensures Lawful(List(f))
  {
    ListAppends(f);
    ListReturns(f);
    ListFits(f);
  }

  lemma Regroup(a: Bytes, b: Bytes, c: Bytes)
    ensures (a + b) + c == a + (b + c)
    ensures [] + (a + b) == a + b
  {
  }

  lemma HeaderAppends(acc: Bytes, length: i32)
    ensures Signed().put(acc, length) == acc + Signed().put([], length)
  {
    SignedIsLawful();
  }

  lemma HeaderReturns(length: i32, rest: Bytes)
    ensures Signed().get(Signed().put([], length) + rest) == Value((length, rest))
  {
    SignedIsLawful();
  }

  lemma ListUnfolds<T>(f: Format<T>, acc: Bytes, items: seq<T>, b: Bytes)
    ensures List(f).put(acc, items) == PutAll(f, Signed().put(acc, Truncated(|items|)), items)
    ensures List(f).get(b) == GetList(f, b)
  {
  }

  /** A list is its length and then its items. */
  lemma ListBytes<T(!new)>(f: Format<T>, acc: Bytes, items: seq<T>)
    requires Appends(f)
    ensures List(f).put(acc, items) == acc + (Signed().put([], Truncated(|items|)) + PutAll(f, [], items))
  {
    hide *;
    var length := Signed().put([], Truncated(|items|));
    ListUnfolds(f, acc, items, []);
    HeaderAppends(acc, Truncated(|items|));
    PutAllAppends(f, acc + length, items);
    Regroup(acc, length, PutAll(f, [], items));
  }

  lemma ListAppends<T(!new)>(f: Format<T>)
    requires Appends(f)
    ensures Appends(List(f))
  {
    hide List, Signed, Truncated, PutAll;
    forall acc: Bytes, items: seq<T>
      ensures List(f).put(acc, items) == acc + List(f).put([], items)
    {
      ListBytes(f, acc, items);
      ListBytes(f, [], items);
    }
  }

  lemma GetListStep<T>(f: Format<T>, b: Bytes, length: i32, tail: Bytes)
    requires Signed().get(b) == Value((length, tail))
    ensures GetList(f, b) == GetMany(f, length, [], tail)
  {
  }

  lemma ListReturnsOne<T(!new)>(f: Format<T>, items: seq<T>, rest: Bytes)
    requires Appends(f) && Returns(f)
    requires |items| < HALF && forall i :: 0 <= i < |items| ==> f.fits(items[i])
    ensures List(f).get(List(f).put([], items) + rest) == Value((items, rest))
  {
    assert Truncated(|items|) == |items|;
    hide *;
    var length, tail := Signed().put([], |items|), PutAll(f, [], items) + rest;
    ListBytes(f, [], items);
    Regroup(length, PutAll(f, [], items), rest);
    ListUnfolds(f, [], items, length + tail);
    HeaderReturns(|items|, tail);
    GetListStep(f, length + tail, |items|, tail);
    GetManyReturns(f, [], items, rest);
    assert [] + items == items;
  }

  lemma ListReturns<T(!new)>(f: Format<T>)
    requires Appends(f) && Returns(f)
    ensures Returns(List(f))
  {
    hide Signed, Truncated, PutAll, GetList;
    forall items: seq<T>, rest: Bytes | List(f).fits(items)
      ensures List(f).get(List(f).put([], items) + rest) == Value((items, rest))
    {
      ListReturnsOne(f, items, rest);
    }
  }

  lemma ListFits<T(!new)>(f: Format<T>)
    requires OnlyFitting(f)
    ensures OnlyFitting(List(f))
  {
    var l := List(f);
    forall b: Bytes | l.get(b).Value?
      ensures l.fits(l.get(b).value.0)
    {
      var length := Signed().get(b).value;
      GetManyFits(f, length.0, [], length.1);
    }
  }
}
