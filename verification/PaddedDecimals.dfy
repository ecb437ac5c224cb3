/** Zero-padded decimal ids: their text order is the order of the numbers. */
module PaddedDecimals {
  import opened Text

  function Power10(n: nat): (p: nat)
    ensures p >= 1
  {
    if n == 0 then 1 else 10 * Power10(n - 1)
  }

  /** The last `width` decimal digits of n. */
  function Padded(n: nat, width: nat): (s: string)
    ensures |s| == width
  {
    if width == 0 then [] else Padded(n / 10, width - 1) + [Digit(n % 10)]
  }

  function Zeros(n: nat): (s: string)
    ensures |s| == n
  {
    seq(n, _ => '0')
  }

  lemma {:induction false} PaddedZero(width: nat)
    ensures Padded(0, width) == Zeros(width)
  {
    if width > 0 {
      PaddedZero(width - 1);
    }
  }

  /** Zero-padded decimal formatting of a number that fits the width. */
  lemma {:induction false} PaddedIsZeroFill(n: nat, width: nat)
    requires n < Power10(width) && width > 0
    ensures |Digits(n)| <= width && Padded(n, width) == Zeros(width - |Digits(n)|) + Digits(n)
  {
    if n < 10 {
      PaddedZero(width - 1);
      assert n / 10 == 0 && n % 10 == n;
    } else {
      assert width > 1;
      PaddedIsZeroFill(n / 10, width - 1);
    }
  }

  lemma {:induction false} LeqSnoc(a: string, b: string, x: char, y: char)
    requires |a| == |b|
    ensures Leq(a + [x], b + [y]) <==> Less(a, b) || (a == b && x <= y)
  {
    if a == [] {
      var one, other: string := [x], [y];
      assert a + [x] == one && b + [y] == other && one[1..] == [] && other[1..] == [];
    } else {
      LeqSnoc(a[1..], b[1..], x, y);
      assert (a + [x])[1..] == a[1..] + [x] && (b + [y])[1..] == b[1..] + [y];
      assert a == [a[0]] + a[1..] && b == [b[0]] + b[1..];
    }
  }

  /** Padded text compares exactly as the numbers do. */
  lemma {:induction false} PaddedOrder(a: nat, b: nat, width: nat)
    requires a < Power10(width) && b < Power10(width)
    ensures Leq(Padded(a, width), Padded(b, width)) <==> a <= b
    ensures Padded(a, width) == Padded(b, width) <==> a == b
  {
    if width > 0 {
      var p, q := a / 10, b / 10;
      PaddedOrder(p, q, width - 1);
      LeqSnoc(Padded(p, width - 1), Padded(q, width - 1), Digit(a % 10), Digit(b % 10));
      if Padded(a, width) == Padded(b, width) {
        assert Padded(a, width)[..width - 1] == Padded(p, width - 1);
        assert Padded(b, width)[..width - 1] == Padded(q, width - 1);
        assert Padded(a, width)[width - 1] == Digit(a % 10) && Padded(b, width)[width - 1] == Digit(b % 10);
        assert DigitValue(Digit(a % 10)) == DigitValue(Digit(b % 10));
      }
    }
  }

  const WIDTH := 12
  const ID_BOUND := 1_000_000_000_000

  lemma Bound()
    ensures Power10(WIDTH) == ID_BOUND
  {
    assert Power10(4) == 10000;
    assert Power10(8) == 100000000;
    assert Power10(12) == 1000000000000;
  }

  /** Row ids: twelve decimal places, padded with zeros. */
  function Id(index: nat): string {
    Padded(index, WIDTH)
  }

  lemma IdOrder(a: nat, b: nat)
    requires a < ID_BOUND && b < ID_BOUND
    ensures Leq(Id(a), Id(b)) <==> a <= b
    ensures Less(Id(a), Id(b)) <==> a < b
    ensures Id(a) == Id(b) <==> a == b
  {
    Bound();
    PaddedOrder(a, b, WIDTH);
  }

  /** The ids from lo up to hi. */
  function IdRange(lo: nat, hi: nat): set<string>
    requires lo <= hi
    decreases hi - lo
  {
    set i: nat | lo <= i < hi :: Id(i)
  }

  lemma {:induction false} IdRangeSize(lo: nat, hi: nat)
    requires lo <= hi <= ID_BOUND
    ensures |IdRange(lo, hi)| == hi - lo
    decreases hi - lo
  {
    if lo == hi {
      assert IdRange(lo, hi) == {};
    } else {
      IdRangeSize(lo, hi - 1);
      assert IdRange(lo, hi) == IdRange(lo, hi - 1) + {Id(hi - 1)};
      if Id(hi - 1) in IdRange(lo, hi - 1) {
        var i: nat :| lo <= i < hi - 1 && Id(i) == Id(hi - 1);
        IdOrder(i, hi - 1);
        assert false;
      }
    }
  }
}
