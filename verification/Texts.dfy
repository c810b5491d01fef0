/** Splitting at a separator, joining with one, and printing numbers. */
module Texts {

  /** Rust's `str::split`: there is always at least one part. */
  function Split(s: string, sep: char): (parts: seq<string>)
    ensures |parts| > 0
  {
    if s == "" then [""]
    else
      var rest := Split(s[1..], sep);
      if s[0] == sep then [""] + rest else [[s[0]] + rest[0]] + rest[1..]
  }

  function Join(parts: seq<string>, sep: char): string
    requires |parts| > 0
  {
    if |parts| == 1 then parts[0] else parts[0] + [sep] + Join(parts[1..], sep)
  }

  ghost predicate Free(parts: seq<string>, sep: char) {
    forall i :: 0 <= i < |parts| ==> sep !in parts[i]
  }

  lemma {:induction false} SplitFirst(part: string, s: string, sep: char)
    requires sep !in part
    ensures Split(part + [sep] + s, sep) == [part] + Split(s, sep)
    ensures Split(part, sep) == [part]
  {
    if part == "" {
      assert (part + [sep] + s)[1..] == s;
    } else {
      SplitFirst(part[1..], s, sep);
      assert (part + [sep] + s)[1..] == part[1..] + [sep] + s;
      assert part == [part[0]] + part[1..];
    }
  }

  lemma {:induction false} SplitCount(s: string, sep: char)
    ensures |Split(s, sep)| == multiset(s)[sep] + 1
  {
    if s != "" {
      SplitCount(s[1..], sep);
      assert s == [s[0]] + s[1..];
      assert multiset(s) == multiset{s[0]} + multiset(s[1..]);
    }
  }

  lemma {:induction false} JoinOfSplit(s: string, sep: char)
    ensures Join(Split(s, sep), sep) == s && Free(Split(s, sep), sep)
  {
    if s != "" {
      JoinOfSplit(s[1..], sep);
      var rest := Split(s[1..], sep);
      assert s == [s[0]] + s[1..];
      if s[0] == sep {
        assert ([""] + rest)[1..] == rest;
      } else if |rest| > 1 {
        assert ([[s[0]] + rest[0]] + rest[1..])[1..] == rest[1..];
        assert [s[0]] + rest[0] + [sep] + Join(rest[1..], sep) == [s[0]] + Join(rest, sep);
      }
    }
  }

  lemma {:induction false} SplitOfJoin(parts: seq<string>, sep: char)
    requires |parts| > 0 && Free(parts, sep)
    ensures Split(Join(parts, sep), sep) == parts
  {
    if |parts| == 1 {
      SplitFirst(parts[0], "", sep);
    } else {
      SplitOfJoin(parts[1..], sep);
      SplitFirst(parts[0], Join(parts[1..], sep), sep);
    }
  }

  /** Parts without the separator are recovered exactly, and only from their own join. */
  lemma SplitExactly(parts: seq<string>, s: string, sep: char)
    requires |parts| > 0 && Free(parts, sep)
    ensures Split(s, sep) == parts <==> s == Join(parts, sep)
  {
    SplitOfJoin(parts, sep);
    JoinOfSplit(s, sep);
  }

  // ----- Numbers --------------------------------------------------------------

  function Digit(n: nat): char
    requires n < 16
  {
    if n < 10 then ('0' as int + n) as char else ('a' as int + n - 10) as char
  }

  function DigitValue(c: char): int {
    if c < 'a' then c as int - '0' as int else c as int - 'a' as int + 10
  }

  /** Rust's `{}` and `{:x}` for unsigned integers: no leading zeros. */
  function Digits(n: nat, base: nat): string
    requires base == 10 || base == 16
  {
    if n < base then [Digit(n)] else Digits(n / base, base) + [Digit(n % base)]
  }

  function Number(s: string, base: nat): int {
    if s == "" then 0 else Number(s[..|s| - 1], base) * base + DigitValue(s[|s| - 1])
  }

  lemma DigitIsUsual(d: nat)
    requires d < 16
    ensures Digit(d) == "0123456789abcdef"[d] && DigitValue("0123456789abcdef"[d]) == d
  {
    var all := "0123456789abcdef";
    assert forall i :: 0 <= i < 16 ==> all[i] == Digit(i);
  }

  /** Digits of the base, as many as are needed. */
  lemma {:induction false} DigitsAreUsual(n: nat, base: nat)
    requires base == 10 || base == 16
    ensures forall c :: c in Digits(n, base) ==> exists d: nat :: d < base && c == Digit(d)
    ensures n > 0 ==> Digits(n, base)[0] != '0'
  {
    assert Digit(n % base) == Digit(n % base);
    if n >= base {
      DigitsAreUsual(n / base, base);
    }
  }

  lemma {:induction false} NumberOfDigits(n: nat, base: nat)
    requires base == 10 || base == 16
    ensures Number(Digits(n, base), base) == n
    ensures forall c :: c in Digits(n, base) ==> c != '.' && c != ':'
  {
    var last := Digit(n % base);
    if n < base {
      assert [last][..0] == "";
    } else {
      NumberOfDigits(n / base, base);
      assert (Digits(n / base, base) + [last])[..|Digits(n / base, base)|] == Digits(n / base, base);
    }
  }

  /** Different numbers print differently. */
  lemma DigitsInjective(m: nat, n: nat, base: nat)
    requires base == 10 || base == 16
    ensures Digits(m, base) == Digits(n, base) ==> m == n
  {
    NumberOfDigits(m, base);
    NumberOfDigits(n, base);
  }
}
