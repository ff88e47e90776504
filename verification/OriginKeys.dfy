/** Record ids written in decimal, and the sort key that keeps them in numeric order (app/deduplication/merge.py). */
module OriginKeys {
  import opened Text

  const WIDTH := 20

  function Digit(d: nat): char
    requires d < 10
  {
    (d + 48) as char
  }

  /** str(n) for a record id. */
  function Decimal(n: nat): (s: string)
    ensures |s| > 0 && forall i :: 0 <= i < |s| ==> IsDigit(s[i])
  {
    if n < 10 then [Digit(n)] else Decimal(n / 10) + [Digit(n % 10)]
  }

  function ZFill(s: string, width: nat): string
    decreases width - |s|
  {
    if |s| >= width then s else ZFill(['0'] + s, width)
  }

  datatype OriginKey = OriginKey(kind: int, text: string)

  function KeyOfOrigin(origin: string): OriginKey {
    if origin != "" && (forall i :: 0 <= i < |origin| ==> IsDigit(origin[i]))
    then OriginKey(0, ZFill(origin, WIDTH))
    else OriginKey(1, origin)
  }

  predicate OriginLess(a: OriginKey, b: OriginKey) {
    a.kind < b.kind || (a.kind == b.kind && StrLess(a.text, b.text))
  }

  lemma OriginLessIsStrictOrder(a: OriginKey, b: OriginKey, c: OriginKey)
    ensures !(OriginLess(a, b) && OriginLess(b, a))
    ensures a == b || OriginLess(a, b) || OriginLess(b, a)
    ensures OriginLess(a, b) && OriginLess(b, c) ==> OriginLess(a, c)
  {
    StrLessAsymmetric(a.text, b.text);
    StrLessTotal(a.text, b.text);
    if StrLess(a.text, b.text) && StrLess(b.text, c.text) {
      StrLessTransitive(a.text, b.text, c.text);
    }
  }

  function Pow10(k: nat): nat {
    if k == 0 then 1 else 10 * Pow10(k - 1)
  }

  /** The `width` lowest decimal digits of n, most significant first. */
  function Fixed(n: nat, width: nat): (s: string)
    ensures |s| == width
  {
    if width == 0 then "" else Fixed(n / 10, width - 1) + [Digit(n % 10)]
  }

  lemma {:induction false} FixedIsPaddedDecimal(n: nat, width: nat)
    requires n < Pow10(width) && width > 0
    ensures |Decimal(n)| <= width
    ensures Fixed(n, width) == Zeros(width - |Decimal(n)|) + Decimal(n)
  {
    if n < 10 {
      FixedZero(width - 1);
      assert n / 10 == 0;
    } else {
      assert Pow10(width) == 10 * Pow10(width - 1);
      FixedIsPaddedDecimal(n / 10, width - 1);
    }
  }

  function Zeros(k: nat): (s: string)
    ensures |s| == k
  {
    if k == 0 then "" else Zeros(k - 1) + ['0']
  }

  lemma {:induction false} FixedZero(width: nat)
    ensures Fixed(0, width) == Zeros(width)
  {
    if width > 0 {
      FixedZero(width - 1);
    }
  }

  lemma {:induction false} ZFillPadsLeft(s: string, width: nat)
    requires |s| <= width
    ensures ZFill(s, width) == Zeros(width - |s|) + s
    decreases width - |s|
  {
    if |s| < width {
      ZFillPadsLeft(['0'] + s, width);
      assert Zeros(width - |s| - 1) + (['0'] + s) == Zeros(width - |s| - 1) + ['0'] + s;
    }
  }

  /** Comparing equally long strings looks at the last character only to break a tie. */
  lemma {:induction false} StrLessSnoc(a: string, b: string, x: char, y: char)
    requires |a| == |b|
    ensures StrLess(a + [x], b + [y]) <==> StrLess(a, b) || (a == b && x < y)
  {
    if |a| == 0 {
      assert (a + [x])[1..] == [] && (b + [y])[1..] == [];
      assert a + [x] == [x] && b + [y] == [y];
    } else {
      assert (a + [x])[1..] == a[1..] + [x] && (b + [y])[1..] == b[1..] + [y];
      assert a == [a[0]] + a[1..] && b == [b[0]] + b[1..];
      StrLessSnoc(a[1..], b[1..], x, y);
    }
  }

  lemma {:induction false} FixedOrder(a: nat, b: nat, width: nat)
    requires a < Pow10(width) && b < Pow10(width)
    ensures StrLess(Fixed(a, width), Fixed(b, width)) <==> a < b
    ensures Fixed(a, width) == Fixed(b, width) <==> a == b
  {
    if width > 0 {
      FixedOrder(a / 10, b / 10, width - 1);
      StrLessSnoc(Fixed(a / 10, width - 1), Fixed(b / 10, width - 1), Digit(a % 10), Digit(b % 10));
      var x, y := Fixed(a, width), Fixed(b, width);
      assert x[..width - 1] == Fixed(a / 10, width - 1) && y[..width - 1] == Fixed(b / 10, width - 1);
      assert x[width - 1] == Digit(a % 10) && y[width - 1] == Digit(b % 10);
    }
  }

  /** Below 10^20 the sort key is injective and orders ids as numbers: "11" never sorts before "3". */
  lemma OriginOrderIsNumeric(a: nat, b: nat)
    requires a < Pow10(20) && b < Pow10(20)
    ensures OriginLess(KeyOfOrigin(Decimal(a)), KeyOfOrigin(Decimal(b))) <==> a < b
    ensures KeyOfOrigin(Decimal(a)) == KeyOfOrigin(Decimal(b)) <==> a == b
  {
    hide Decimal, Fixed, ZFill, Zeros, StrLess, Pow10;
    FixedIsPaddedDecimal(a, WIDTH);
    FixedIsPaddedDecimal(b, WIDTH);
    ZFillPadsLeft(Decimal(a), WIDTH);
    ZFillPadsLeft(Decimal(b), WIDTH);
    FixedOrder(a, b, WIDTH);
  }

  lemma DecimalTimesTen(m: nat)
    requires m >= 1
    ensures Decimal(10 * m) == Decimal(m) + ['0']
  {
  }

  lemma {:induction false} DecimalOfPower(k: nat)
    ensures Decimal(Pow10(k)) == ['1'] + Zeros(k)
    ensures Decimal(2 * Pow10(k)) == ['2'] + Zeros(k)
  {
    if k == 0 {
      assert Decimal(1) == ['1'] && Decimal(2) == ['2'];
    }
    if k > 0 {
      Pow10Positive(k - 1);
      DecimalOfPower(k - 1);
      DecimalTimesTen(Pow10(k - 1));
      DecimalTimesTen(2 * Pow10(k - 1));
      assert ['1'] + (Zeros(k - 1) + ['0']) == ['1'] + Zeros(k - 1) + ['0'];
      assert ['2'] + (Zeros(k - 1) + ['0']) == ['2'] + Zeros(k - 1) + ['0'];
      assert 2 * Pow10(k) == 10 * (2 * Pow10(k - 1));
    }
  }

  /** 10^20 is the exact limit: with it in range, 2 * 10^19 sorts after 10^20. */
  lemma OriginOrderLimit(limit: nat)
    ensures (forall a: nat, b: nat :: a < limit && b < limit ==>
      (OriginLess(KeyOfOrigin(Decimal(a)), KeyOfOrigin(Decimal(b))) <==> a < b))
      <==> limit <= Pow10(20)
  {
    if limit <= Pow10(WIDTH) {
      forall a: nat, b: nat | a < limit && b < limit
        ensures OriginLess(KeyOfOrigin(Decimal(a)), KeyOfOrigin(Decimal(b))) <==> a < b
      {
        OriginOrderIsNumeric(a, b);
      }
    } else {
      var a, b := LongIdSortsFirst(WIDTH);
      assert a < limit && b < limit;
    }
  }

  lemma {:induction false} LongIdSortsFirst(width: nat) returns (a: nat, b: nat)
    requires width == WIDTH
    ensures a < b == Pow10(width)
    ensures !OriginLess(KeyOfOrigin(Decimal(a)), KeyOfOrigin(Decimal(b)))
  {
    a, b := 2 * Pow10(width - 1), Pow10(width);
    DecimalOfPower(width - 1);
    DecimalOfPower(width);
    Pow10Positive(width - 1);
    LongTextSortsFirst(Decimal(a), Decimal(b));
  }

  lemma LongTextSortsFirst(x: string, y: string)
    requires |x| == WIDTH && |y| == WIDTH + 1 && x[0] == '2' && y[0] == '1'
    requires (forall i :: 0 <= i < |x| ==> IsDigit(x[i])) && (forall i :: 0 <= i < |y| ==> IsDigit(y[i]))
    ensures !OriginLess(KeyOfOrigin(x), KeyOfOrigin(y))
  {
    assert ZFill(x, WIDTH) == x && ZFill(y, WIDTH) == y;
  }

  lemma {:induction false} Pow10Positive(k: nat)
    ensures Pow10(k) >= 1
  {
    if k > 0 {
      Pow10Positive(k - 1);
    }
  }

  lemma {:induction false} DecimalInjective(a: nat, b: nat)
    requires Decimal(a) == Decimal(b)
    ensures a == b
  {
    if a >= 10 && b >= 10 {
      var x, y := Decimal(a), Decimal(b);
      assert x[..|x| - 1] == Decimal(a / 10) && y[..|y| - 1] == Decimal(b / 10);
      assert x[|x| - 1] == Digit(a % 10) && y[|y| - 1] == Digit(b % 10);
      DecimalInjective(a / 10, b / 10);
    } else {
      assert |Decimal(a)| == 1 || |Decimal(b)| == 1;
    }
  }

  lemma TensAreBig()
    ensures Pow10(WIDTH) >= 10
  {
    Pow10Positive(WIDTH - 1);
    assert Pow10(WIDTH) == 10 * Pow10(WIDTH - 1);
  }
}
