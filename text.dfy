/** Rust's standard behaviour on strings that the model relies on: the `Ord`
    of `String` (lexicographic, character by character) and the `{}`
    formatting of integers in decimal. */
module Text {
  import opened Wrappers

  /** `a <= b` in the lexicographic order of `str`: a prefix comes first, and
      otherwise the first differing character decides. */
  predicate LessEq(a: string, b: string): (r: bool)
    ensures a <= b ==> r
    ensures r && a != [] ==> b != [] && a[0] <= b[0]
  {
    a == [] || (b != [] && (a[0] < b[0] || (a[0] == b[0] && LessEq(a[1..], b[1..]))))
  }

  /** `a < b` in the lexicographic order of `str`: exactly when `b <= a`
      fails, as for any total order. */
  predicate Less(a: string, b: string): (r: bool)
    ensures r <==> !LessEq(b, a)
  {
    LessEqTotal(a, b);
    if LessEq(a, b) && LessEq(b, a) then LessEqAntisymmetric(a, b); false
    else LessEq(a, b) && a != b
  }

  lemma {:induction false} LessEqReflexive(a: string)
    ensures LessEq(a, a)
  {
    if a != [] {
      LessEqReflexive(a[1..]);
    }
  }

  lemma {:induction false} LessEqAntisymmetric(a: string, b: string)
    requires LessEq(a, b) && LessEq(b, a)
    ensures a == b
  {
    if a != [] && b != [] {
      LessEqAntisymmetric(a[1..], b[1..]);
      assert a == [a[0]] + a[1..] && b == [b[0]] + b[1..];
    }
  }

  lemma {:induction false} LessEqTransitive(a: string, b: string, c: string)
    requires LessEq(a, b) && LessEq(b, c)
    ensures LessEq(a, c)
  {
    if a != [] && b != [] && c != [] && a[0] == b[0] && b[0] == c[0] {
      LessEqTransitive(a[1..], b[1..], c[1..]);
    }
  }

  lemma {:induction false} LessEqTotal(a: string, b: string)
    ensures LessEq(a, b) || LessEq(b, a)
  {
    if a != [] && b != [] && a[0] == b[0] {
      LessEqTotal(a[1..], b[1..]);
    }
  }

  /** Sorted ascending, stated pairwise. */
  ghost predicate Sorted(s: seq<string>)
  {
    forall i, j :: 0 <= i < j < |s| ==> LessEq(s[i], s[j])
  }

  /** Strictly ascending, stated pairwise. */
  ghost predicate StrictlySorted(s: seq<string>)
  {
    forall i, j :: 0 <= i < j < |s| ==> Less(s[i], s[j])
  }

  /** Every element occurs at most once. */
  ghost predicate NoRepeats(s: seq<string>)
  {
    forall x :: multiset(s)[x] <= 1
  }

  lemma RepeatedElementCountsTwice(s: seq<string>, i: nat, j: nat)
    requires i < j < |s| && s[i] == s[j]
    ensures multiset(s)[s[i]] >= 2
  {
    assert s == s[..j] + s[j..];
    assert s[i] in s[..j];
    assert s[j] in s[j..];
    assert multiset(s) == multiset(s[..j]) + multiset(s[j..]);
  }

  /** A sorted sequence without repetitions is strictly sorted. */
  lemma SortedNoRepeatsIsStrict(s: seq<string>)
    requires Sorted(s) && NoRepeats(s)
    ensures StrictlySorted(s)
  {
    forall i, j | 0 <= i < j < |s|
      ensures Less(s[i], s[j])
    {
      if s[i] == s[j] {
        RepeatedElementCountsTwice(s, i, j);
      } else if LessEq(s[j], s[i]) {
        LessEqAntisymmetric(s[i], s[j]);
      }
    }
  }

  /** The first element of a sorted sequence is one of its least elements. */
  lemma SortedHeadIsLeast(a: seq<string>, x: string)
    requires Sorted(a) && x in multiset(a)
    ensures LessEq(a[0], x)
  {
    var i :| 0 <= i < |a| && a[i] == x;
    if i == 0 {
      LessEqReflexive(x);
    }
  }

  lemma TailMultiset(a: seq<string>)
    requires a != []
    ensures multiset(a[1..]) == multiset(a) - multiset{a[0]}
  {
    assert a == [a[0]] + a[1..];
  }

  lemma SortedTail(a: seq<string>)
    requires a != [] && Sorted(a)
    ensures Sorted(a[1..])
  {
  }

  lemma ConsTail(a: seq<string>)
    requires a != []
    ensures a == [a[0]] + a[1..]
  {
  }

  /** A sorted arrangement of a multiset is unique: two sorted sequences with
      the same elements are equal. */
  lemma {:induction false} SortedUnique(a: seq<string>, b: seq<string>)
    requires Sorted(a) && Sorted(b) && multiset(a) == multiset(b)
    ensures a == b
  {
    assert |a| == |multiset(a)| == |multiset(b)| == |b|;
    if a != [] {
      SortedHeadIsLeast(a, b[0]);
      SortedHeadIsLeast(b, a[0]);
      LessEqAntisymmetric(a[0], b[0]);
      TailMultiset(a);
      TailMultiset(b);
      SortedTail(a);
      SortedTail(b);
      SortedUnique(a[1..], b[1..]);
      ConsTail(a);
      ConsTail(b);
    }
  }

  /** Where each of four concatenated strings sits in the result. */
  lemma ConcatParts(a: string, b: string, c: string, d: string)
    ensures var s := a + b + c + d;
      && s[..|a|] == a
      && s[|a|..|a| + |b|] == b
      && s[|a| + |b|..|a| + |b| + |c|] == c
      && s[|a| + |b| + |c|..] == d
  {
    var s := a + b + c + d;
    assert s == a + (b + (c + d));
    assert s[|a|..] == b + (c + d);
    assert s[|a| + |b|..] == c + d;
  }

  function DigitChar(d: nat): (c: char)
    requires d < 10
    ensures '0' <= c <= '9'
  {
    "0123456789"[d]
  }

  function DigitValue(c: char): (d: nat)
    requires '0' <= c <= '9'
    ensures d < 10
  {
    (c - '0') as nat
  }

  predicate IsDigits(s: string)
  {
    forall i :: 0 <= i < |s| ==> '0' <= s[i] <= '9'
  }

  /** `{}` of an unsigned integer: decimal digits, no leading zero. */
  function NatToString(n: nat): (s: string)
    ensures s != [] && IsDigits(s)
    ensures s[0] == '0' ==> n == 0
  {
    if n < 10 then [DigitChar(n)] else NatToString(n / 10) + [DigitChar(n % 10)]
  }

  /** `{}` of a signed integer: a minus sign before the digits of a negative one. */
  function IntToString(i: int): (s: string)
    ensures s != []
    ensures i < 0 <==> s[0] == '-'
  {
    if i < 0 then ['-'] + NatToString(-i) else NatToString(i)
  }

  /** The value of a string of decimal digits. */
  function DigitsValue(s: string): nat
    requires IsDigits(s)
  {
    if s == [] then 0 else DigitsValue(s[..|s| - 1]) * 10 + DigitValue(s[|s| - 1])
  }

  /** Reading a formatted unsigned integer back. */
  function ParseNat(s: string): Option<nat>
  {
    if s != [] && IsDigits(s) then Some(DigitsValue(s)) else None
  }

  /** Reading a formatted signed integer back. */
  function ParseInt(s: string): Option<int>
  {
    if s != [] && s[0] == '-' then
      match ParseNat(s[1..])
      case Some(n) => Some(-(n as int))
      case None => None
    else
      match ParseNat(s)
      case Some(n) => Some(n)
      case None => None
  }

  lemma {:induction false} NatToStringRoundTrip(n: nat)
    ensures DigitsValue(NatToString(n)) == n
  {
    var s := NatToString(n);
    if n >= 10 {
      NatToStringRoundTrip(n / 10);
      assert s[..|s| - 1] == NatToString(n / 10);
    }
  }

  /** A minus sign before digits reads back as the negated value. */
  lemma ParseMinusDigits(digits: string, n: nat)
    requires digits != [] && IsDigits(digits) && DigitsValue(digits) == n
    ensures ParseInt(['-'] + digits) == Some(-(n as int))
  {
    assert (['-'] + digits)[1..] == digits;
  }

  lemma {:induction false} NegativeToStringRoundTrip(n: nat)
    requires n > 0
    ensures ParseInt(['-'] + NatToString(n)) == Some(-(n as int))
  {
    NatToStringRoundTrip(n);
    ParseMinusDigits(NatToString(n), n);
  }

  lemma NonNegativeToStringRoundTrip(n: nat)
    ensures ParseInt(NatToString(n)) == Some(n)
  {
    NatToStringRoundTrip(n);
    assert NatToString(n)[0] != '-';
  }

  lemma IntToStringOfNegative(i: int)
    requires i < 0
    ensures IntToString(i) == ['-'] + NatToString(-i)
  {
  }

  /** Decimal formatting of integers loses nothing. */
  lemma {:induction false} IntToStringRoundTrip(i: int)
    ensures ParseInt(IntToString(i)) == Some(i)
  {
    if i < 0 {
      var n: nat := -i;
      NegativeToStringRoundTrip(n);
      IntToStringOfNegative(i);
    } else {
      NonNegativeToStringRoundTrip(i);
    }
  }
}
