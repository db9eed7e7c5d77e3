/**
 * Decimals as they print, in plain and in exponent form, and the order of their texts: exactly when it is the order
 * of the numbers.
 */
module DecimalText {

  type Digit = d: nat | d < 10

  /** A text is its digits; whole amounts are written without leading zeros. */
  predicate Canonical(text: seq<Digit>)
  {
    text == [0] || (text != [] && text[0] != 0)
  }

  function Value(text: seq<Digit>): nat
  {
    if text == [] then 0 else Value(text[..|text| - 1]) * 10 + text[|text| - 1]
  }

  /** The order of texts: by the first digit that differs, and a proper prefix comes first. */
  predicate TextLess(a: seq<int>, b: seq<int>)
  {
    if b == [] then false
    else if a == [] then true
    else if a[0] != b[0] then a[0] < b[0]
    else TextLess(a[1..], b[1..])
  }

  function Pow10(n: nat): (p: nat)
    ensures p >= 1
  {
    if n == 0 then 1 else Pow10(n - 1) * 10
  }

  // ---- Texts of equal length ----

  lemma {:induction false} LessByLast(a: seq<Digit>, b: seq<Digit>, x: Digit, y: Digit)
    requires |a| == |b|
    ensures TextLess(a + [x], b + [y]) <==> TextLess(a, b) || (a == b && x < y)
  {
    if a != [] {
      assert (a + [x])[1..] == a[1..] + [x] && (b + [y])[1..] == b[1..] + [y];
      LessByLast(a[1..], b[1..], x, y);
      assert a == [a[0]] + a[1..] && b == [b[0]] + b[1..];
    } else {
      assert a + [x] == [x] && b + [y] == [y];
      assert [x][1..] == [] && [y][1..] == [];
    }
  }

  /** On texts of the same length the order of texts is the order of numbers, and equal numbers have equal texts. */
  lemma {:induction false} SameLength(a: seq<Digit>, b: seq<Digit>)
    requires |a| == |b|
    ensures TextLess(a, b) <==> Value(a) < Value(b)
    ensures a == b <==> Value(a) == Value(b)
  {
    if a != [] {
      var n := |a| - 1;
      SameLength(a[..n], b[..n]);
      LessByLast(a[..n], b[..n], a[n], b[n]);
      assert a == a[..n] + [a[n]] && b == b[..n] + [b[n]];
    }
  }

  // ---- Texts of different lengths ----

  /** A longer text is decided by its beginning: less than it, or a prefix of it. */
  lemma {:induction false} LessThanLonger(a: seq<Digit>, b: seq<Digit>)
    requires |a| < |b|
    ensures TextLess(a, b) <==> !TextLess(b[..|a|], a)
    ensures TextLess(b, a) <==> TextLess(b[..|a|], a)
  {
    if a != [] {
      assert b[..|a|][1..] == b[1..][..|a| - 1];
      LessThanLonger(a[1..], b[1..]);
    }
  }

  /** The digits after the first `n` only fill up to the next multiple of their power of ten. */
  lemma {:induction false} ValueOfPrefix(text: seq<Digit>, n: nat)
    requires n <= |text|
    ensures Value(text[..n]) * Pow10(|text| - n) <= Value(text) < (Value(text[..n]) + 1) * Pow10(|text| - n)
  {
    if n == |text| {
      assert text[..n] == text;
    } else {
      var last := |text| - 1;
      assert text[..last][..n] == text[..n];
      ValueOfPrefix(text[..last], n);
      Shifted(Value(text[..n]), Pow10(last - n), Value(text[..last]), text[last]);
    }
  }

  lemma {:induction false} Shifted(v: nat, p: nat, w: nat, d: Digit)
    requires v * p <= w < (v + 1) * p
    ensures v * (p * 10) <= w * 10 + d < (v + 1) * (p * 10)
  {
    assert v * (p * 10) == v * p * 10 && (v + 1) * (p * 10) == (v + 1) * p * 10;
  }

  /** Comparing a number with a block of `p` values is comparing it with the block's index. */
  lemma {:induction false} Block(v: nat, p: nat, w: nat, x: nat)
    requires v * p <= w < (v + 1) * p
    ensures x * p <= w <==> x <= v
  {
    if x <= v {
      assert x * p <= v * p by { Times(x, v, p); }
    } else {
      assert (v + 1) * p <= x * p by { Times(v + 1, x, p); }
    }
  }

  lemma {:induction false} Times(x: nat, y: nat, p: nat)
    requires x <= y
    ensures x * p <= y * p
  {
    assert y * p == x * p + (y - x) * p;
  }

  /**
   * What the guard does: it compares the numbers as if the shorter text were filled up with zeros on the right, and
   * a filled-up text that is then equal counts as less.
   */
  lemma {:induction false} TextOrder(a: seq<Digit>, b: seq<Digit>)
    ensures |a| <= |b| ==>
      (TextLess(a, b) <==> if |a| == |b| then Value(a) < Value(b) else Value(a) * Pow10(|b| - |a|) <= Value(b))
    ensures |a| > |b| ==> (TextLess(a, b) <==> Value(a) < Value(b) * Pow10(|a| - |b|))
  {
    if |a| == |b| {
      SameLength(a, b);
    } else if |a| < |b| {
      LessThanLonger(a, b);
      SameLength(b[..|a|], a);
      ValueOfPrefix(b, |a|);
      Block(Value(b[..|a|]), Pow10(|b| - |a|), Value(b), Value(a));
    } else {
      LessThanLonger(b, a);
      SameLength(a[..|b|], b);
      ValueOfPrefix(a, |b|);
      Block(Value(a[..|b|]), Pow10(|a| - |b|), Value(a), Value(b));
    }
  }

  /** More digits, greater number. */
  lemma {:induction false} LongerIsGreater(a: seq<Digit>, b: seq<Digit>)
    requires Canonical(a) && Canonical(b) && |a| < |b|
    ensures Value(a) < Value(b)
  {
    ValueOfPrefix(a, 0);
    ValueOfPrefix(b, 1);
    assert b[..1] == [b[0]] && a[..0] == [];
    assert Value([b[0]]) == b[0] by { assert [b[0]][..0] == []; }
    PowersGrow(|a|, |b| - 1);
    Times(1, b[0], Pow10(|b| - 1));
  }

  lemma {:induction false} PowersGrow(m: nat, n: nat)
    requires m <= n
    ensures Pow10(m) <= Pow10(n)
  {
    if m < n {
      PowersGrow(m, n - 1);
    }
  }

  // ---- Decimals ----

  /** The point sorts below every digit. */
  const POINT: int := -1

  /** The exponent mark sorts above every digit, its signs below the point. */
  const MARK: int := 10
  const MINUS: int := -2
  const PLUS: int := -3

  /** Numbers below 1e-6 and from 1e21 on print with an exponent, all others without. */
  datatype Decimal =
    | Plain(whole: seq<Digit>, fraction: seq<Digit>)
    | Scientific(lead: Digit, rest: seq<Digit>, tiny: bool, exponent: seq<Digit>)
  {
    /** As decimals print: no leading zeros, no trailing zeros behind the point, each form in its range. */
    predicate Printed()
    {
      match this
      case Plain(whole, fraction) =>
        && Canonical(whole) && |whole| <= 21 && NoTrailingZero(fraction)
        && (whole == [0] && fraction != [] ==> exists i :: 0 <= i < 6 && i < |fraction| && fraction[i] != 0)
      case Scientific(lead, rest, tiny, exponent) =>
        && lead != 0 && NoTrailingZero(rest)
        && Canonical(exponent) && Value(exponent) >= if tiny then 7 else 21
    }

    function AsText(): seq<int>
    {
      match this
      case Plain(whole, fraction) => whole + Tail(fraction)
      case Scientific(lead, rest, tiny, exponent) => [lead] + Tail(rest) + Power(tiny, exponent)
    }

    function AsReal(): real
    {
      match this
      case Plain(whole, fraction) => Value(whole) as real + Part(fraction)
      case Scientific(lead, rest, tiny, exponent) =>
        if tiny then Down(Mantissa(lead, rest), Value(exponent)) else Up(Mantissa(lead, rest), Value(exponent))
    }
  }

  predicate NoTrailingZero(digits: seq<Digit>)
  {
    digits == [] || digits[|digits| - 1] != 0
  }

  function Power(tiny: bool, exponent: seq<Digit>): seq<int>
  {
    [MARK] + [if tiny then MINUS else PLUS] + exponent
  }

  function Mantissa(lead: Digit, rest: seq<Digit>): real
  {
    lead as real + Part(rest)
  }

  function Tail(fraction: seq<Digit>): seq<int>
  {
    if fraction == [] then [] else [POINT] + fraction
  }

  /** What the digits behind the point are worth. */
  function Part(fraction: seq<Digit>): real
  {
    if fraction == [] then 0.0 else (fraction[0] as real + Part(fraction[1..])) / 10.0
  }

  /** `m` times ten to the power of `n`. */
  function Up(m: real, n: nat): real
  {
    if n == 0 then m else Up(m, n - 1) * 10.0
  }

  /** `m` divided by ten to the power of `n`. */
  function Down(m: real, n: nat): real
  {
    if n == 0 then m else Down(m, n - 1) / 10.0
  }

  lemma {:induction false} EqualHeads(a: seq<Digit>, b: seq<Digit>, x: seq<int>, y: seq<int>)
    requires |a| == |b|
    ensures TextLess(a + x, b + y) <==> TextLess(a, b) || (a == b && TextLess(x, y))
  {
    if a == [] {
      assert a + x == x && b + y == y;
    } else {
      assert (a + x)[1..] == a[1..] + x && (b + y)[1..] == b[1..] + y;
      EqualHeads(a[1..], b[1..], x, y);
      assert a == [a[0]] + a[1..] && b == [b[0]] + b[1..];
    }
  }

  /** A number that ends, or reaches its point, comes before one that goes on. */
  lemma {:induction false} EndsFirst(x: seq<Digit>, b: seq<Digit>, y: seq<int>)
    requires b != []
    ensures TextLess(Tail(x), b + y) && !TextLess(b + y, Tail(x))
  {
    assert (b + y)[0] == b[0];
    if x != [] {
      assert Tail(x)[0] == POINT;
    }
  }

  /** Where the digits before the point differ in number, what is behind it plays no role. */
  lemma {:induction false} UnequalHeads(a: seq<Digit>, b: seq<Digit>, x: seq<Digit>, y: seq<Digit>)
    requires |a| != |b|
    ensures TextLess(a + Tail(x), b + Tail(y)) <==> TextLess(a, b)
  {
    if a == [] {
      assert a + Tail(x) == Tail(x);
      EndsFirst(x, b, Tail(y));
    } else if b == [] {
      assert b + Tail(y) == Tail(y);
      EndsFirst(y, a, Tail(x));
    } else {
      UnequalHeads(a[1..], b[1..], x, y);
      SameFirst(a, b, Tail(x), Tail(y));
    }
  }

  lemma {:induction false} SameFirst(a: seq<int>, b: seq<int>, x: seq<int>, y: seq<int>)
    requires a != [] && b != []
    ensures TextLess(a + x, b + y) <==> if a[0] != b[0] then a[0] < b[0] else TextLess(a[1..] + x, b[1..] + y)
  {
    assert (a + x)[1..] == a[1..] + x && (b + y)[1..] == b[1..] + y;
  }

  lemma {:induction false} TailsAsFractions(x: seq<Digit>, y: seq<Digit>)
    ensures TextLess(Tail(x), Tail(y)) <==> TextLess(x, y)
  {
    if x != [] && y != [] {
      assert Tail(x)[1..] == x && Tail(y)[1..] == y;
    }
  }

  lemma {:induction false} BelowPower(text: seq<Digit>)
    ensures Value(text) < Pow10(|text|)
  {
    if text != [] {
      BelowPower(text[..|text| - 1]);
    }
  }

  lemma {:induction false} PartIsSmall(x: seq<Digit>)
    ensures 0.0 <= Part(x) < 1.0
  {
    if x != [] {
      PartIsSmall(x[1..]);
    }
  }

  lemma {:induction false} PartIsPositive(x: seq<Digit>)
    requires x != [] && NoTrailingZero(x)
    ensures Part(x) > 0.0
  {
    PartIsSmall(x[1..]);
    if |x| > 1 {
      PartIsPositive(x[1..]);
    }
  }

  /** Behind the point, without trailing zeros, the order of texts is the order of numbers. */
  lemma {:induction false} FractionOrder(x: seq<Digit>, y: seq<Digit>)
    requires NoTrailingZero(x) && NoTrailingZero(y)
    ensures TextLess(x, y) <==> Part(x) < Part(y)
  {
    PartIsSmall(x);
    PartIsSmall(y);
    if y != [] && x == [] {
      PartIsPositive(y);
    } else if y != [] {
      PartIsSmall(x[1..]);
      PartIsSmall(y[1..]);
      FractionOrder(x[1..], y[1..]);
    }
  }

  /** When a shorter number, filled up with zeros on the right, is not above a longer one. */
  predicate FilledUpNotAbove(shorter: seq<Digit>, longer: seq<Digit>)
    requires |shorter| <= |longer|
  {
    Value(shorter) * Pow10(|longer| - |shorter|) <= Value(longer)
  }

  /** When the order of two plain texts is that of the numbers; this looks at the digits before the point only. */
  predicate PlainAgree(balance: Decimal, amount: Decimal)
    requires balance.Plain? && amount.Plain?
  {
    || |balance.whole| == |amount.whole|
    || (|balance.whole| < |amount.whole| && FilledUpNotAbove(balance.whole, amount.whole))
    || (|amount.whole| < |balance.whole| && FilledUpNotAbove(amount.whole, balance.whole))
  }

  lemma {:induction false} SameWholeLength(a: Decimal, b: Decimal)
    requires a.Plain? && b.Plain? && a.Printed() && b.Printed() && |a.whole| == |b.whole|
    ensures TextLess(a.AsText(), b.AsText()) <==> a.AsReal() < b.AsReal()
    ensures a.AsReal() == b.AsReal() ==> a == b
  {
    EqualHeads(a.whole, b.whole, Tail(a.fraction), Tail(b.fraction));
    TailsAsFractions(a.fraction, b.fraction);
    FractionOrder(a.fraction, b.fraction);
    FractionOrder(b.fraction, a.fraction);
    SameLength(a.whole, b.whole);
    PartIsSmall(a.fraction);
    PartIsSmall(b.fraction);
    Trichotomy(a.fraction, b.fraction);
  }

  /** Of two texts one comes first, unless they are the same. */
  lemma {:induction false} Trichotomy(x: seq<int>, y: seq<int>)
    ensures TextLess(x, y) || TextLess(y, x) || x == y
    ensures !(TextLess(x, y) && TextLess(y, x))
    ensures !TextLess(x, x)
  {
    if x != [] && y != [] {
      Trichotomy(x[1..], y[1..]);
      assert x == [x[0]] + x[1..] && y == [y[0]] + y[1..];
    } else if x != [] {
      Trichotomy(x[1..], []);
    }
  }

  lemma {:induction false} MoreDigitsAreMore(a: Decimal, b: Decimal)
    requires a.Plain? && b.Plain? && a.Printed() && b.Printed() && |a.whole| < |b.whole|
    ensures a.AsReal() < b.AsReal()
  {
    LongerIsGreater(a.whole, b.whole);
    PartIsSmall(a.fraction);
    PartIsSmall(b.fraction);
  }

  lemma {:induction false} PlainOrder(a: Decimal, b: Decimal)
    requires a.Plain? && b.Plain? && a.Printed() && b.Printed()
    ensures (TextLess(a.AsText(), b.AsText()) <==> a.AsReal() < b.AsReal()) <==> PlainAgree(a, b)
    ensures a.AsReal() == b.AsReal() ==> a == b
  {
    if |a.whole| == |b.whole| {
      SameWholeLength(a, b);
    } else {
      UnequalHeads(a.whole, b.whole, a.fraction, b.fraction);
      TextOrder(a.whole, b.whole);
      if |a.whole| < |b.whole| {
        MoreDigitsAreMore(a, b);
      } else {
        MoreDigitsAreMore(b, a);
      }
    }
  }

  // ---- The exponent form: texts ----

  /** When digits with the last one raised by one, the shorter filled up with zeros, are not above others. */
  predicate RaisedNotAbove(x: seq<Digit>, y: seq<Digit>)
  {
    if |x| <= |y| then (Value(x) + 1) * Pow10(|y| - |x|) <= Value(y)
    else Value(x) + 1 <= Value(y) * Pow10(|x| - |y|)
  }

  lemma {:induction false} MarkedPrefix(x: seq<Digit>, y: seq<Digit>, s: seq<int>)
    ensures TextLess(x + [MARK] + s, y) <==> if |x| <= |y| then TextLess(x, y[..|x|]) else TextLess(x, y)
  {
    if x == [] {
      assert x + [MARK] + s == [MARK] + s;
    } else if y != [] {
      MarkedPrefix(x[1..], y[1..], s);
      assert (x + [MARK] + s)[1..] == x[1..] + [MARK] + s;
      if |x| <= |y| {
        assert y[..|x|][1..] == y[1..][..|x| - 1];
      }
    }
  }

  /** Digits that an exponent follows come before others exactly when even raised they are not above them. */
  lemma {:induction false} MarkedOrder(x: seq<Digit>, y: seq<Digit>, s: seq<int>)
    ensures TextLess(x + [MARK] + s, y) <==> RaisedNotAbove(x, y)
  {
    MarkedPrefix(x, y, s);
    if |x| <= |y| {
      SameLength(x, y[..|x|]);
      ValueOfPrefix(y, |x|);
      Block(Value(y[..|x|]), Pow10(|y| - |x|), Value(y), Value(x) + 1);
    } else {
      TextOrder(x, y);
    }
  }

  lemma {:induction false} MarkedBoth(x: seq<Digit>, y: seq<Digit>, s: seq<int>, t: seq<int>)
    ensures |x| < |y| ==> (TextLess(x + [MARK] + s, y + [MARK] + t) <==> TextLess(x + [MARK] + s, y))
    ensures |x| == |y| ==> (TextLess(x + [MARK] + s, y + [MARK] + t) <==> TextLess(x, y) || (x == y && TextLess(s, t)))
  {
    if x == [] {
      assert x + [MARK] + s == [MARK] + s;
      if y == [] {
        assert y + [MARK] + t == [MARK] + t;
        assert ([MARK] + s)[1..] == s && ([MARK] + t)[1..] == t;
      } else {
        assert (y + [MARK] + t)[0] == y[0];
      }
    } else if y != [] {
      MarkedBoth(x[1..], y[1..], s, t);
      assert (x + [MARK] + s)[1..] == x[1..] + [MARK] + s;
      assert (y + [MARK] + t)[1..] == y[1..] + [MARK] + t;
      assert x == [x[0]] + x[1..] && y == [y[0]] + y[1..];
    }
  }

  /** What may follow the digits of a mantissa: nothing, or an exponent. */
  predicate Ending(u: seq<int>)
  {
    u == [] || u[0] == MARK
  }

  lemma {:induction false} OneHead(l: Digit, x: seq<int>, w: Digit, y: seq<int>)
    ensures TextLess([l] + x, [w] + y) <==> l < w || (l == w && TextLess(x, y))
  {
    assert ([l] + x)[1..] == x && ([w] + y)[1..] == y;
  }

  lemma {:induction false} OneHeadOfThree(l: Digit, x: seq<int>, u: seq<int>, w: Digit, y: seq<int>, v: seq<int>)
    ensures TextLess([l] + x + u, [w] + y + v) <==> l < w || (l == w && TextLess(x + u, y + v))
  {
    assert [l] + x + u == [l] + (x + u) && [w] + y + v == [w] + (y + v);
    OneHead(l, x + u, w, y + v);
  }

  /** Where one digit stands before the point on both sides, the points can be left out. */
  lemma {:induction false} WithoutPoints(l: Digit, r: seq<Digit>, u: seq<int>, w: Digit, f: seq<Digit>, v: seq<int>)
    requires Ending(u) && Ending(v)
    ensures TextLess([l] + Tail(r) + u, [w] + Tail(f) + v) <==> TextLess([l] + r + u, [w] + f + v)
  {
    PointsAfter(r, u, f, v);
    OneHeadOfThree(l, Tail(r), u, w, Tail(f), v);
    OneHeadOfThree(l, r, u, w, f, v);
  }

  lemma {:induction false} PointsAfter(r: seq<Digit>, u: seq<int>, f: seq<Digit>, v: seq<int>)
    requires Ending(u) && Ending(v)
    ensures TextLess(Tail(r) + u, Tail(f) + v) <==> TextLess(r + u, f + v)
  {
    if r == [] {
      assert Tail(r) + u == u && r + u == u;
      if f == [] {
        assert Tail(f) + v == v && f + v == v;
      } else {
        assert (Tail(f) + v)[0] == POINT && (f + v)[0] == f[0];
      }
    } else if f == [] {
      assert Tail(f) + v == v && f + v == v;
      assert (Tail(r) + u)[0] == POINT && (r + u)[0] == r[0];
    } else {
      assert (Tail(r) + u)[1..] == r + u && (Tail(f) + v)[1..] == f + v;
    }
  }

  /** When the text of a number with an exponent comes before that of one without, by their digits. */
  predicate ScientificFirst(a: Decimal, b: Decimal)
    requires a.Scientific? && b.Plain? && b.whole != []
  {
    if |b.whole| == 1 then RaisedNotAbove([a.lead] + a.rest, b.whole + b.fraction)
    else if a.rest == [] then RaisedNotAbove([a.lead], b.whole)
    else FilledUpNotAbove([a.lead], b.whole)
  }

  lemma {:induction false} ScientificPlainText(a: Decimal, b: Decimal)
    requires a.Scientific? && b.Plain? && b.Printed()
    ensures TextLess(a.AsText(), b.AsText()) <==> ScientificFirst(a, b)
    ensures TextLess(b.AsText(), a.AsText()) <==> !ScientificFirst(a, b)
  {
    var s := [if a.tiny then MINUS else PLUS] + a.exponent;
    assert Power(a.tiny, a.exponent) == [MARK] + s;
    if |b.whole| == 1 {
      assert b.whole == [b.whole[0]];
      WithoutPoints(a.lead, a.rest, [MARK] + s, b.whole[0], b.fraction, []);
      assert b.AsText() == [b.whole[0]] + Tail(b.fraction) + [];
      assert [a.lead] + a.rest + ([MARK] + s) == ([a.lead] + a.rest) + [MARK] + s;
      assert [b.whole[0]] + b.fraction + [] == b.whole + b.fraction;
      MarkedOrder([a.lead] + a.rest, b.whole + b.fraction, s);
    } else {
      LongWhole(a.lead, a.rest, s, b.whole, Tail(b.fraction));
    }
    DifferentTexts(a, b);
    Trichotomy(a.AsText(), b.AsText());
  }

  lemma {:induction false} LongWhole(l: Digit, r: seq<Digit>, s: seq<int>, whole: seq<Digit>, t: seq<int>)
    requires |whole| > 1
    ensures TextLess([l] + Tail(r) + ([MARK] + s), whole + t) <==>
              if r == [] then RaisedNotAbove([l], whole) else FilledUpNotAbove([l], whole)
  {
    var text := [l] + Tail(r) + ([MARK] + s);
    assert text[0] == l && (whole + t)[0] == whole[0];
    assert text[1..][0] == (if r == [] then MARK else POINT) && (whole + t)[1..][0] == whole[1];
    assert TextLess(text, whole + t) <==> if l != whole[0] then l < whole[0] else r != [];
    assert whole[..1] == [whole[0]] && [l][..0] == [] && [whole[0]][..0] == [];
    assert Value([l]) == l && Value(whole[..1]) == whole[0];
    ValueOfPrefix(whole, 1);
    Block(Value(whole[..1]), Pow10(|whole| - 1), Value(whole), l);
    Block(Value(whole[..1]), Pow10(|whole| - 1), Value(whole), l + 1);
  }

  lemma {:induction false} DifferentTexts(a: Decimal, b: Decimal)
    requires a.Scientific? && b.Plain?
    ensures a.AsText() != b.AsText()
  {
    assert MARK in Power(a.tiny, a.exponent);
    assert MARK in a.AsText();
    assert MARK !in b.AsText();
  }

  /** When the first of two numbers with exponents comes first, by the digits of the mantissas. */
  predicate MantissaFirst(a: Decimal, b: Decimal)
    requires a.Scientific? && b.Scientific?
  {
    var x, y := [a.lead] + a.rest, [b.lead] + b.rest;
    if |x| < |y| then RaisedNotAbove(x, y)
    else if |x| > |y| then !RaisedNotAbove(y, x)
    else Value(x) < Value(y)
         || (x == y && if a.tiny != b.tiny then b.tiny else TextLess(a.exponent, b.exponent))
  }

  lemma {:induction false} MarkedTexts(x: seq<Digit>, y: seq<Digit>, s: seq<int>, t: seq<int>)
    ensures TextLess(x + [MARK] + s, y + [MARK] + t) <==>
              if |x| < |y| then RaisedNotAbove(x, y)
              else if |x| > |y| then !RaisedNotAbove(y, x)
              else Value(x) < Value(y) || (x == y && TextLess(s, t))
  {
    if |x| < |y| {
      MarkedBoth(x, y, s, t);
      MarkedOrder(x, y, s);
    } else if |x| > |y| {
      MarkedBoth(y, x, t, s);
      MarkedOrder(y, x, t);
      Trichotomy(x + [MARK] + s, y + [MARK] + t);
      assert (x + [MARK] + s)[|y|] == x[|y|] && (y + [MARK] + t)[|y|] == MARK;
    } else {
      MarkedBoth(x, y, s, t);
      SameLength(x, y);
    }
  }

  lemma {:induction false} SignedOrder(u: int, x: seq<int>, v: int, y: seq<int>)
    ensures TextLess([u] + x, [v] + y) <==> u < v || (u == v && TextLess(x, y))
  {
    assert ([u] + x)[1..] == x && ([v] + y)[1..] == y;
  }

  lemma {:induction false} ScientificText(a: Decimal, b: Decimal)
    requires a.Scientific? && b.Scientific?
    ensures TextLess(a.AsText(), b.AsText()) <==> MantissaFirst(a, b)
  {
    var x, y := [a.lead] + a.rest, [b.lead] + b.rest;
    var s, t := [if a.tiny then MINUS else PLUS] + a.exponent, [if b.tiny then MINUS else PLUS] + b.exponent;
    assert Power(a.tiny, a.exponent) == [MARK] + s && Power(b.tiny, b.exponent) == [MARK] + t;
    WithoutPoints(a.lead, a.rest, [MARK] + s, b.lead, b.rest, [MARK] + t);
    assert x + ([MARK] + s) == x + [MARK] + s && y + ([MARK] + t) == y + [MARK] + t;
    MarkedTexts(x, y, s, t);
    SignedOrder(if a.tiny then MINUS else PLUS, a.exponent, if b.tiny then MINUS else PLUS, b.exponent);
  }

  // ---- The exponent form: numbers ----

  lemma {:induction false} MantissaRange(lead: Digit, rest: seq<Digit>)
    requires lead != 0
    ensures 1.0 <= Mantissa(lead, rest) < 10.0
  {
    PartIsSmall(rest);
  }

  lemma {:induction false} UpKeepsOrder(m: real, n: real, i: nat)
    ensures Up(m, i) < Up(n, i) <==> m < n
  {
    if i > 0 {
      UpKeepsOrder(m, n, i - 1);
    }
  }

  lemma {:induction false} DownKeepsOrder(m: real, n: real, i: nat)
    ensures Down(m, i) < Down(n, i) <==> m < n
  {
    if i > 0 {
      DownKeepsOrder(m, n, i - 1);
    }
  }

  /** A further power of ten outweighs any two mantissas. */
  lemma {:induction false} UpOutweighs(m: real, n: real, i: nat, j: nat)
    requires 1.0 <= m < 10.0 && 1.0 <= n && i < j
    ensures Up(m, i) < Up(n, j)
    decreases j
  {
    if i > 0 {
      UpOutweighs(m, n, i - 1, j - 1);
    } else {
      AtLeast(n, j);
    }
  }

  lemma {:induction false} AtLeast(n: real, j: nat)
    requires n >= 1.0
    ensures Up(n, j) >= 1.0 && (j > 0 ==> Up(n, j) >= 10.0)
  {
    if j > 0 {
      AtLeast(n, j - 1);
    }
  }

  lemma {:induction false} DownOutweighs(m: real, n: real, i: nat, j: nat)
    requires 1.0 <= m && 0.0 <= n < 10.0 && i < j
    ensures Down(n, j) < Down(m, i)
    decreases j
  {
    if i > 0 {
      DownOutweighs(m, n, i - 1, j - 1);
    } else {
      AtMost(n, j);
    }
  }

  lemma {:induction false} AtMost(n: real, j: nat)
    requires 0.0 <= n < 10.0
    ensures 0.0 <= Down(n, j) < 10.0 && (j > 0 ==> Down(n, j) < 1.0) && (n > 0.0 ==> Down(n, j) > 0.0)
  {
    if j > 0 {
      AtMost(n, j - 1);
    }
  }

  /** Of two numbers on the same side, the exponents decide, and then the mantissas. */
  predicate SameSideBelow(a: Decimal, b: Decimal)
    requires a.Scientific? && b.Scientific?
  {
    if Value(a.exponent) != Value(b.exponent) then
      (if a.tiny then Value(a.exponent) > Value(b.exponent) else Value(a.exponent) < Value(b.exponent))
    else Mantissa(a.lead, a.rest) < Mantissa(b.lead, b.rest)
  }

  lemma {:induction false} SameSideOrder(a: Decimal, b: Decimal)
    requires a.Scientific? && b.Scientific? && a.tiny == b.tiny && a.lead != 0 && b.lead != 0
    ensures a.AsReal() < b.AsReal() <==> SameSideBelow(a, b)
    ensures b.AsReal() < a.AsReal() <==> SameSideBelow(b, a)
  {
    MantissaRange(a.lead, a.rest);
    MantissaRange(b.lead, b.rest);
    if a.tiny {
      TinyOrder(Mantissa(a.lead, a.rest), Mantissa(b.lead, b.rest), Value(a.exponent), Value(b.exponent));
    } else {
      HugeOrder(Mantissa(a.lead, a.rest), Mantissa(b.lead, b.rest), Value(a.exponent), Value(b.exponent));
    }
  }

  lemma {:induction false} TinyOrder(m: real, n: real, i: nat, j: nat)
    requires 1.0 <= m < 10.0 && 1.0 <= n < 10.0
    ensures Down(m, i) < Down(n, j) <==> i > j || (i == j && m < n)
    ensures Down(n, j) < Down(m, i) <==> j > i || (i == j && n < m)
  {
    if i < j {
      DownOutweighs(m, n, i, j);
    } else if j < i {
      DownOutweighs(n, m, j, i);
    } else {
      DownKeepsOrder(m, n, i);
      DownKeepsOrder(n, m, i);
    }
  }

  lemma {:induction false} HugeOrder(m: real, n: real, i: nat, j: nat)
    requires 1.0 <= m < 10.0 && 1.0 <= n < 10.0
    ensures Up(m, i) < Up(n, j) <==> i < j || (i == j && m < n)
    ensures Up(n, j) < Up(m, i) <==> j < i || (i == j && n < m)
  {
    if i < j {
      UpOutweighs(m, n, i, j);
    } else if j < i {
      UpOutweighs(n, m, j, i);
    } else {
      UpKeepsOrder(m, n, i);
      UpKeepsOrder(n, m, i);
    }
  }

  const SMALLEST: real := 0.000001
  const LARGEST: real := 1_000_000_000_000_000_000_000.0

  lemma {:induction false} Bounds()
    ensures Down(1.0, 6) == SMALLEST && Up(1.0, 21) == LARGEST && Pow10(21) as real == LARGEST
  {
    assert Down(1.0, 3) == 0.001;
    assert Up(1.0, 7) == 10_000_000.0 && Up(1.0, 14) == 100_000_000_000_000.0;
    assert Pow10(7) == 10_000_000 && Pow10(14) == 100_000_000_000_000;
  }

  lemma {:induction false} ScientificRange(a: Decimal)
    requires a.Scientific? && a.Printed()
    ensures a.tiny ==> 0.0 < a.AsReal() < SMALLEST
    ensures !a.tiny ==> a.AsReal() >= LARGEST
  {
    var m, n := Mantissa(a.lead, a.rest), Value(a.exponent);
    MantissaRange(a.lead, a.rest);
    Bounds();
    if a.tiny {
      DownOutweighs(1.0, m, 6, n);
      AtMost(m, n);
    } else if n > 21 {
      UpOutweighs(1.0, m, 21, n);
    } else {
      UpKeepsOrder(m, 1.0, 21);
    }
  }

  predicate IsZero(a: Decimal)
  {
    a == Plain([0], [])
  }

  lemma {:induction false} SomeDigit(text: seq<Digit>, i: nat)
    requires i < |text| && text[i] != 0
    ensures Value(text) >= 1
  {
    var last := |text| - 1;
    if i < last {
      SomeDigit(text[..last], i);
    }
  }

  /** A fraction with a digit among its first six is at least 1e-6. */
  lemma {:induction false} FractionRange(fraction: seq<Digit>, i: nat)
    requires i < |fraction| && fraction[i] != 0
    ensures Part(fraction) >= Down(1.0, i + 1)
  {
    PartIsSmall(fraction[1..]);
    if i > 0 {
      FractionRange(fraction[1..], i - 1);
    }
  }

  lemma {:induction false} PlainRange(a: Decimal)
    requires a.Plain? && a.Printed()
    ensures a.AsReal() < LARGEST
    ensures IsZero(a) ==> a.AsReal() == 0.0
    ensures !IsZero(a) ==> a.AsReal() >= SMALLEST
  {
    PartIsSmall(a.fraction);
    BelowPower(a.whole);
    PowersGrow(|a.whole|, 21);
    Bounds();
    assert [0][..0] == [];
    if a.whole != [0] {
      SomeDigit(a.whole, 0);
    } else if a.fraction != [] {
      var i :| 0 <= i < 6 && i < |a.fraction| && a.fraction[i] != 0;
      FractionRange(a.fraction, i);
      if i < 5 {
        DownOutweighs(1.0, 1.0, i + 1, 6);
      }
    }
  }

  // ---- When texts and numbers agree ----

  /** When the order of two texts is that of the numbers. */
  predicate Agree(a: Decimal, b: Decimal)
    requires a.Printed() && b.Printed()
  {
    if a.Plain? && b.Plain? then PlainAgree(a, b)
    else if a.Plain? then IsZero(a) || (b.tiny <==> ScientificFirst(b, a))
    else if b.Plain? then IsZero(b) || (a.tiny <==> ScientificFirst(a, b))
    else MantissaFirst(a, b) <==> if a.tiny != b.tiny then a.tiny else SameSideBelow(a, b)
  }

  lemma {:induction false} ZeroComesFirst(a: Decimal, zero: Decimal)
    requires a.Scientific? && a.Printed() && IsZero(zero)
    ensures !ScientificFirst(a, zero)
  {
    assert [0][..0] == [];
    assert zero.whole + zero.fraction == [0];
    assert Value([0]) == 0;
  }

  /**
   * The guard says "below" exactly for the balances numerically below the amount if and only if `Agree`. For two
   * plain numbers: equally many digits before the point, or the one with fewer, filled up with zeros, not above the
   * other there. For a number with an exponent the digits of its mantissa take part as they stand.
   */
  lemma {:induction false} GuardIsNumeric(balance: Decimal, amount: Decimal)
    requires balance.Printed() && amount.Printed()
    ensures (TextLess(balance.AsText(), amount.AsText()) <==> balance.AsReal() < amount.AsReal())
            <==> Agree(balance, amount)
  {
    if balance.Plain? && amount.Plain? {
      PlainOrder(balance, amount);
    } else if balance.Plain? {
      MixedOrder(amount, balance);
    } else if amount.Plain? {
      MixedOrder(balance, amount);
    } else {
      ScientificText(balance, amount);
      ScientificRange(balance);
      ScientificRange(amount);
      if balance.tiny == amount.tiny {
        SameSideOrder(balance, amount);
      } else {
        assert SMALLEST <= LARGEST;
      }
    }
  }

  lemma {:induction false} MixedOrder(a: Decimal, b: Decimal)
    requires a.Scientific? && b.Plain? && a.Printed() && b.Printed()
    ensures (TextLess(a.AsText(), b.AsText()) <==> a.AsReal() < b.AsReal()) <==> Agree(a, b)
    ensures (TextLess(b.AsText(), a.AsText()) <==> b.AsReal() < a.AsReal()) <==> Agree(b, a)
    ensures a.AsReal() != b.AsReal()
  {
    ScientificPlainText(a, b);
    ScientificRange(a);
    PlainRange(b);
    if IsZero(b) {
      ZeroComesFirst(a, b);
      assert LARGEST > 0.0;
    }
  }

  /** A value prints in one way. */
  lemma {:induction false} ValuePrintsOnce(a: Decimal, b: Decimal)
    requires a.Printed() && b.Printed() && a.AsReal() == b.AsReal()
    ensures a == b
  {
    if a.Plain? && b.Plain? {
      PlainOrder(a, b);
    } else if a.Plain? {
      MixedOrder(b, a);
    } else if b.Plain? {
      MixedOrder(a, b);
    } else {
      ScientificRange(a);
      ScientificRange(b);
      assert SMALLEST <= LARGEST;
      SameSideOrder(a, b);
      SameExponent(a.exponent, b.exponent);
      SameMantissa(a, b);
    }
  }

  lemma {:induction false} SameExponent(x: seq<Digit>, y: seq<Digit>)
    requires Canonical(x) && Canonical(y) && Value(x) == Value(y)
    ensures x == y
  {
    if |x| < |y| {
      LongerIsGreater(x, y);
    } else if |y| < |x| {
      LongerIsGreater(y, x);
    } else {
      SameLength(x, y);
    }
  }

  lemma {:induction false} SameMantissa(a: Decimal, b: Decimal)
    requires a.Scientific? && b.Scientific? && a.Printed() && b.Printed()
    requires Mantissa(a.lead, a.rest) == Mantissa(b.lead, b.rest)
    ensures a.lead == b.lead && a.rest == b.rest
  {
    PartIsSmall(a.rest);
    PartIsSmall(b.rest);
    FractionOrder(a.rest, b.rest);
    FractionOrder(b.rest, a.rest);
    Trichotomy(a.rest, b.rest);
  }

  /** A balance of 9 passes for 10, a balance of 10 is refused 9, and a balance of 5e-7 passes for 10. */
  lemma {:induction false} WrongAnswers()
    ensures var nine, ten, dust := Plain([9], []), Plain([1, 0], []), Scientific(5, [], true, [7]);
      && nine.Printed() && ten.Printed() && dust.Printed()
      && nine.AsReal() == 9.0 && ten.AsReal() == 10.0 && dust.AsReal() == 0.0000005
      && !TextLess(nine.AsText(), ten.AsText())
      && TextLess(ten.AsText(), nine.AsText())
      && !TextLess(dust.AsText(), ten.AsText())
  {
    assert [9][..0] == [] && [1, 0][..1] == [1] && [1][..0] == [] && [7][..0] == [];
    assert Value([9]) == 9 && Value([1]) == 1 && Value([1, 0]) == 10 && Value([7]) == 7;
    assert Plain([9], []).AsText() == [9] && Plain([1, 0], []).AsText() == [1, 0];
    assert Scientific(5, [], true, [7]).AsText() == [5, MARK, MINUS, 7];
    assert Pow10(7) == 10_000_000;
  }
}
