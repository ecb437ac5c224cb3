/** Python strings as sequences of Unicode scalar values: code-point order, sorting and decimal numerals. */
module Text {

  // ---------------------------------------------------------------- order

  /** The order of Python strings: lexicographic by code point. */
  predicate Leq(a: string, b: string) {
    a == [] || (b != [] && (a[0] < b[0] || (a[0] == b[0] && Leq(a[1..], b[1..]))))
  }

  predicate Less(a: string, b: string) {
    a != b && Leq(a, b)
  }

  lemma {:induction false} LeqTotal(a: string, b: string)
    ensures Leq(a, b) || Leq(b, a)
  {
    if a != [] && b != [] {
      LeqTotal(a[1..], b[1..]);
    }
  }

  lemma {:induction false} LeqAntisymmetric(a: string, b: string)
    requires Leq(a, b) && Leq(b, a)
    ensures a == b
  {
    if a != [] && b != [] {
      LeqAntisymmetric(a[1..], b[1..]);
      assert a == [a[0]] + a[1..] && b == [b[0]] + b[1..];
    }
  }

  lemma {:induction false} LeqTransitive(a: string, b: string, c: string)
    requires Leq(a, b) && Leq(b, c)
    ensures Leq(a, c)
  {
    if a != [] && b != [] && c != [] && a[0] == b[0] == c[0] {
      LeqTransitive(a[1..], b[1..], c[1..]);
    }
  }

  predicate StrictlySorted(ks: seq<string>) {
    forall i, j :: 0 <= i < j < |ks| ==> Less(ks[i], ks[j])
  }

  lemma {:induction false} LeastExists(s: set<string>)
    requires s != {}
    ensures exists k :: k in s && forall j :: j in s ==> Leq(k, j)
  {
    var x :| x in s;
    assert forall j :: j in s ==> j == x || j in s - {x};
    if s - {x} == {} {
      LeastOfMore(x, x, s);
    } else {
      LeastExists(s - {x});
      var y :| y in s - {x} && forall j :: j in s - {x} ==> Leq(y, j);
      LeastOfMore(x, y, s);
    }
  }

  lemma LeastOfMore(x: string, y: string, s: set<string>)
    requires x in s && y in s && forall j :: j in s ==> j == x || Leq(y, j)
    ensures exists k :: k in s && forall j :: j in s ==> Leq(k, j)
  {
    LeqTotal(x, x);
    LeqTotal(x, y);
    var least := if Leq(x, y) then x else y;
    forall j | j in s
      ensures Leq(least, j)
    {
      if j != x && least == x {
        LeqTransitive(x, y, j);
      }
    }
  }

  lemma LeastUnique(s: set<string>)
    ensures forall a, b | a in s && b in s && Leq(a, b) && Leq(b, a) :: a == b
  {
    forall a, b | a in s && b in s && Leq(a, b) && Leq(b, a)
      ensures a == b
    {
      LeqAntisymmetric(a, b);
    }
  }

  function Least(s: set<string>): (k: string)
    requires s != {}
    ensures k in s && forall j :: j in s ==> Leq(k, j)
  {
    LeastExists(s);
    LeastUnique(s);
    var k :| k in s && forall j :: j in s ==> Leq(k, j);
    k
  }

  /** The members of a set in code-point order, as Python sorts a set or the keys of a dict. */
  function Sorted(s: set<string>): (ks: seq<string>)
    ensures forall k :: k in ks <==> k in s
    ensures StrictlySorted(ks)
    decreases s
  {
    if s == {} then [] else
      var k := Least(s);
      [k] + Sorted(s - {k})
  }

  lemma {:induction false} SortedSize(s: set<string>)
    ensures |Sorted(s)| == |s|
    decreases s
  {
    if s != {} {
      SortedSize(s - {Least(s)});
    }
  }

  lemma HeadIn<T>(s: seq<T>)
    requires s != []
    ensures s[0] in s
  {
  }

  lemma SameLeast(a: seq<string>, b: seq<string>)
    requires StrictlySorted(a) && StrictlySorted(b) && a != [] && b != []
    requires a[0] in b && b[0] in a
    ensures a[0] == b[0]
  {
    assert a[0] == b[0] || (Leq(a[0], b[0]) && Leq(b[0], a[0]));
    if Leq(a[0], b[0]) && Leq(b[0], a[0]) {
      LeqAntisymmetric(a[0], b[0]);
    }
  }

  /** A strictly sorted listing of a set is the only one. */
  lemma {:induction false} SortedUnique(a: seq<string>, b: seq<string>)
    requires StrictlySorted(a) && StrictlySorted(b)
    requires forall k :: k in a <==> k in b
    ensures a == b
  {
    if a == [] {
      if b != [] {
        HeadIn(b);
      }
    } else {
      HeadIn(a);
      HeadIn(b);
      SameLeast(a, b);
      forall k
        ensures k in a[1..] <==> k in b[1..]
      {
        assert k in a <==> k == a[0] || k in a[1..];
        assert k in b <==> k == b[0] || k in b[1..];
      }
      SortedUnique(a[1..], b[1..]);
      assert a == [a[0]] + a[1..] && b == [b[0]] + b[1..];
    }
  }

  // ---------------------------------------------------------------- decimal numerals

  predicate IsDigit(c: char) {
    '0' <= c <= '9'
  }

  predicate AllDigits(s: string) {
    forall i :: 0 <= i < |s| ==> IsDigit(s[i])
  }

  function Digit(n: nat): (c: char)
    requires n < 10
    ensures IsDigit(c) && DigitValue(c) == n
  {
    '0' + (n as char)
  }

  function DigitValue(c: char): nat
    requires IsDigit(c)
  {
    (c as int) - ('0' as int)
  }

  /** The decimal numeral of a natural number. */
  function Digits(n: nat): (s: string)
    ensures s != [] && AllDigits(s)
    ensures s[0] == '0' ==> n == 0
    ensures n == 0 ==> s == "0"
  {
    if n < 10 then [Digit(n)] else Digits(n / 10) + [Digit(n % 10)]
  }

  /** The number a string of ASCII digits stands for. */
  function NatValue(s: string): nat
    requires AllDigits(s)
  {
    if s == [] then 0 else 10 * NatValue(s[..|s| - 1]) + DigitValue(s[|s| - 1])
  }

  lemma {:induction false} DigitsValue(n: nat)
    ensures NatValue(Digits(n)) == n
  {
    if n < 10 {
      assert Digits(n)[..0] == [];
    } else {
      DigitsValue(n / 10);
      assert Digits(n)[..|Digits(n)| - 1] == Digits(n / 10);
    }
  }

  lemma DigitsInjective(a: nat, b: nat)
    requires Digits(a) == Digits(b)
    ensures a == b
  {
    DigitsValue(a);
    DigitsValue(b);
  }

  /** The decimal numeral of any integer. */
  function Decimal(n: int): (s: string)
    ensures s != []
  {
    if n < 0 then "-" + Digits(-n) else Digits(n)
  }

  // ---------------------------------------------------------------- searching

  /** The position of the first c, or |s| when there is none. */
  function IndexOf(s: string, c: char): (i: nat)
    ensures i <= |s| && c !in s[..i]
    ensures i < |s| ==> s[i] == c
  {
    if s == [] || s[0] == c then 0 else
      var i := 1 + IndexOf(s[1..], c);
      assert s[..i] == [s[0]] + s[1..][..i - 1];
      i
  }

  lemma {:induction false} IndexOfFirst(a: string, c: char, b: string)
    requires c !in a
    ensures IndexOf(a + [c] + b, c) == |a|
  {
    if a == [] {
      assert (a + [c] + b)[0] == c;
    } else {
      assert a[0] in a;
      assert (a + [c] + b)[0] == a[0];
      assert (a + [c] + b)[1..] == a[1..] + [c] + b;
      IndexOfFirst(a[1..], c, b);
    }
  }
}
