/** Names of the rooms (server/src/util/ip.rs). */
module IpGroup {
  import opened Prelude
  import opened Texts

  newtype u16 = x: int | 0 <= x < 0x1_0000

  datatype IpAddr =
    | V4(octets: seq<u8>)
    | V6(segments: seq<u16>)
  {
    predicate Valid() {
      match this
      case V4(octets) => |octets| == 4
      case V6(segments) => |segments| == 8
    }
  }

  function Octets(o: seq<u8>): seq<string>
    requires |o| == 4
  {
    [Digits(o[0] as nat, 10), Digits(o[1] as nat, 10), Digits(o[2] as nat, 10), Digits(o[3] as nat, 10)]
  }

  function Segments(s: seq<u16>): seq<string>
    requires |s| >= 4
  {
    [Digits(s[0] as nat, 16), Digits(s[1] as nat, 16), Digits(s[2] as nat, 16), Digits(s[3] as nat, 16)]
  }

  function GetIpGroup(ip: IpAddr): string
    requires ip.Valid()
  {
    match ip
    case V4(octets) => Join(Octets(octets), '.')
    case V6(segments) => Join(Segments(segments), ':')
  }

  /** What a group is meant to be: one IPv4 address, or one IPv6 /64. */
  predicate SameNetwork(a: IpAddr, b: IpAddr)
    requires a.Valid() && b.Valid()
  {
    match (a, b)
    case (V4(x), V4(y)) => x == y
    case (V6(x), V6(y)) => x[..4] == y[..4]
    case _ => false
  }

  lemma OctetsExact(x: seq<u8>, y: seq<u8>)
    requires |x| == |y| == 4
    ensures Free(Octets(x), '.')
    ensures Octets(x) == Octets(y) <==> x == y
  {
    forall i | 0 <= i < 4
      ensures '.' !in Octets(x)[i] && (Octets(x)[i] == Octets(y)[i] ==> x[i] == y[i])
    {
      NumberOfDigits(x[i] as nat, 10);
      DigitsInjective(x[i] as nat, y[i] as nat, 10);
    }
  }

  lemma SegmentsExact(x: seq<u16>, y: seq<u16>)
    requires |x| >= 4 && |y| >= 4
    ensures Free(Segments(x), ':') && Free(Segments(x), '.')
    ensures Segments(x) == Segments(y) <==> x[..4] == y[..4]
  {
    forall i | 0 <= i < 4
      ensures '.' !in Segments(x)[i] && ':' !in Segments(x)[i] && (Segments(x)[i] == Segments(y)[i] ==> x[i] == y[i])
    {
      NumberOfDigits(x[i] as nat, 16);
      DigitsInjective(x[i] as nat, y[i] as nat, 16);
    }
    if Segments(x) == Segments(y) {
      forall i | 0 <= i < 4
        ensures x[..4][i] == y[..4][i]
      {
        assert Segments(x)[i] == Segments(y)[i];
      }
    }
    if x[..4] == y[..4] {
      assert forall i :: 0 <= i < 4 ==> x[i] == x[..4][i] && y[i] == y[..4][i];
    }
  }

  /** No part has a dot, so neither has the join by colons. */
  lemma {:induction false} NoDots(parts: seq<string>)
    requires |parts| > 0 && Free(parts, '.')
    ensures '.' !in Join(parts, ':')
  {
    if |parts| > 1 {
      NoDots(parts[1..]);
    }
  }

  /** Two addresses share a room exactly if they are in the same network. */
  lemma GroupsAreExact(a: IpAddr, b: IpAddr)
    requires a.Valid() && b.Valid()
    ensures GetIpGroup(a) == GetIpGroup(b) <==> SameNetwork(a, b)
  {
    match (a, b)
    case (V4(x), V4(y)) =>
      OctetsExact(x, y);
      OctetsExact(y, x);
      SplitOfJoin(Octets(x), '.');
      SplitOfJoin(Octets(y), '.');
    case (V6(x), V6(y)) =>
      SegmentsExact(x, y);
      SegmentsExact(y, x);
      SplitOfJoin(Segments(x), ':');
      SplitOfJoin(Segments(y), ':');
    case (V4(x), V6(y)) =>
      NotMixed(x, y);
    case (V6(x), V4(y)) =>
      NotMixed(y, x);
  }

  lemma NotMixed(x: seq<u8>, y: seq<u16>)
    requires |x| == 4 && |y| == 8
    ensures Join(Octets(x), '.') != Join(Segments(y), ':')
  {
    SegmentsExact(y, y);
    NoDots(Segments(y));
    assert '.' in Join(Octets(x), '.');
  }

  /** The name of an address: its numbers in order, in the usual base and with the usual separator. */
  lemma GroupShows(ip: IpAddr, i: nat)
    requires ip.Valid() && i < 4
    ensures ip.V4? ==>
              var parts := Split(GetIpGroup(ip), '.');
              && |parts| == 4 && Number(parts[i], 10) == ip.octets[i] as int
              && parts[i] == Digits(ip.octets[i] as nat, 10)
    ensures ip.V6? ==>
              var parts := Split(GetIpGroup(ip), ':');
              && |parts| == 4 && Number(parts[i], 16) == ip.segments[i] as int
              && parts[i] == Digits(ip.segments[i] as nat, 16)
  {
    match ip
    case V4(o) =>
      OctetsExact(o, o);
      SplitOfJoin(Octets(o), '.');
      NumberOfDigits(o[i] as nat, 10);
    case V6(s) =>
      SegmentsExact(s, s);
      SplitOfJoin(Segments(s), ':');
      NumberOfDigits(s[i] as nat, 16);
  }
}
