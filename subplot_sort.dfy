/**
 * `subplotSort`: the comparator that orders subplot ids such as `scene2`
 * before `scene10` by reading their digits as numbers.
 */
module SubplotSort {
  import opened JsValue

  function Min(x: int, y: int): int
  {
    if x <= y then x else y
  }

  /** `s.charCodeAt(i) || 0`: the code of the character, 0 past the end.
      Characters are code points here, where `charCodeAt` reads UTF-16 code
      units. */
  function CodeAt(s: string, i: nat): int
  {
    if i < |s| then s[i] as int else 0
  }

  /** The character codes `'0'` to `'9'`. */
  predicate IsNumCode(c: int)
  {
    48 <= c <= 57
  }

  /** The comparison loop from index `i` on, with the digit accumulators
      `numA` and `numB`. At an index where either side is not a digit, the
      numbers read so far decide, then the character codes. */
  function CompareFrom(a: string, b: string, i: nat, numA: int, numB: int): int
    decreases Min(|a|, |b|) + 1 - i
  {
    if i >= Min(|a|, |b|) + 1 then numB - numA
    else
      var cA, cB := CodeAt(a, i), CodeAt(b, i);
      var nA := if IsNumCode(cA) then 10 * numA + cA - 48 else numA;
      var nB := if IsNumCode(cB) then 10 * numB + cB - 48 else numB;
      if (!IsNumCode(cA) || !IsNumCode(cB)) && nA != nB then nA - nB
      else if (!IsNumCode(cA) || !IsNumCode(cB)) && cA != cB then cA - cB
      else CompareFrom(a, b, i + 1, nA, nB)
  }

  function Compare(a: string, b: string): int
  {
    CompareFrom(a, b, 0, 0, 0)
  }

  /** `Lib.subplotSort(a, b)`. */
  method SubplotSort(a: string, b: string) returns (r: int)
    ensures r == Compare(a, b)
  {
    var l := Min(|a|, |b|) + 1;
    var numA, numB := 0, 0;
    var i := 0;
    while i < l
      invariant 0 <= i <= l
      invariant CompareFrom(a, b, i, numA, numB) == Compare(a, b)
    {
      var charA := CodeAt(a, i);
      var charB := CodeAt(b, i);
      var isNumA := 48 <= charA <= 57;
      var isNumB := 48 <= charB <= 57;
      if isNumA {
        numA := 10 * numA + charA - 48;
      }
      if isNumB {
        numB := 10 * numB + charB - 48;
      }
      if !isNumA || !isNumB {
        if numA != numB {
          return numA - numB;
        }
        if charA != charB {
          return charA - charB;
        }
      }
      i := i + 1;
    }
    return numB - numA;
  }

  /** Swapping the arguments negates the result. */
  lemma {:induction false} CompareFromAntisymmetric(a: string, b: string, i: nat, x: int, y: int)
    ensures CompareFrom(a, b, i, x, y) == -CompareFrom(b, a, i, y, x)
    decreases Min(|a|, |b|) + 1 - i
  {
    if i < Min(|a|, |b|) + 1 {
      var cA, cB := CodeAt(a, i), CodeAt(b, i);
      var nA := if IsNumCode(cA) then 10 * x + cA - 48 else x;
      var nB := if IsNumCode(cB) then 10 * y + cB - 48 else y;
      CompareFromAntisymmetric(a, b, i + 1, nA, nB);
    }
  }

  lemma Antisymmetric(a: string, b: string)
    ensures Compare(a, b) == -Compare(b, a)
  {
    CompareFromAntisymmetric(a, b, 0, 0, 0);
  }

  lemma {:induction false} CompareFromSame(a: string, i: nat, x: int)
    ensures CompareFrom(a, a, i, x, x) == 0
    decreases |a| + 1 - i
  {
    if i < |a| + 1 {
      var c := CodeAt(a, i);
      CompareFromSame(a, i + 1, if IsNumCode(c) then 10 * x + c - 48 else x);
    }
  }

  /** Appending one more digit to each of two different numbers keeps them
      different. */
  lemma DigitsKeepApart(x: int, y: int, dx: int, dy: int)
    requires x != y && 0 <= dx <= 9 && 0 <= dy <= 9
    ensures 10 * x + dx != 10 * y + dy
  {
  }

  /** Once the numbers read so far differ, the comparison cannot end in 0. */
  lemma {:induction false} ApartNonZero(a: string, b: string, i: nat, x: int, y: int)
    requires i < Min(|a|, |b|) + 1 && x != y
    ensures CompareFrom(a, b, i, x, y) != 0
    decreases Min(|a|, |b|) + 1 - i
  {
    var cA, cB := CodeAt(a, i), CodeAt(b, i);
    if IsNumCode(cA) && IsNumCode(cB) {
      DigitsKeepApart(x, y, cA - 48, cB - 48);
      ApartNonZero(a, b, i + 1, 10 * x + cA - 48, 10 * y + cB - 48);
    }
  }

  predicate NoNul(s: string)
  {
    forall i :: 0 <= i < |s| ==> s[i] as int != 0
  }

  lemma {:induction false} ZeroMeansEqualFrom(a: string, b: string, i: nat, x: int)
    requires NoNul(a) && NoNul(b)
    requires i <= Min(|a|, |b|) && a[..i] == b[..i]
    ensures CompareFrom(a, b, i, x, x) == 0 ==> a == b
    decreases Min(|a|, |b|) + 1 - i
  {
    var cA, cB := CodeAt(a, i), CodeAt(b, i);
    if cA == cB {
      if cA == 0 {
        assert i == |a| && i == |b|;
        assert a == a[..i] && b == b[..i];
      } else {
        assert i < |a| && i < |b| && a[i] == b[i];
        assert a[..i + 1] == a[..i] + [a[i]] && b[..i + 1] == b[..i] + [b[i]];
        ZeroMeansEqualFrom(a, b, i + 1, if IsNumCode(cA) then 10 * x + cA - 48 else x);
      }
    } else if IsNumCode(cA) && IsNumCode(cB) {
      ApartNonZero(a, b, i + 1, 10 * x + cA - 48, 10 * x + cB - 48);
    }
  }

  /** For ids without NUL characters the comparator returns 0 exactly for
      equal strings. */
  lemma ZeroIffEqual(a: string, b: string)
    requires NoNul(a) && NoNul(b)
    ensures Compare(a, b) == 0 <==> a == b
  {
    ZeroMeansEqualFrom(a, b, 0, 0);
    CompareFromSame(a, 0, 0);
  }

  function Sign(x: int): int
  {
    if x < 0 then -1 else if x > 0 then 1 else 0
  }

  function Pow10(n: nat): (r: nat)
    ensures r >= 1
  {
    if n == 0 then 1 else 10 * Pow10(n - 1)
  }

  predicate AllDigits(d: string)
  {
    forall i :: 0 <= i < |d| ==> IsDigit(d[i])
  }

  /** A number as `String` writes it: digits without a leading zero. */
  predicate Numeral(d: string)
  {
    d != [] && AllDigits(d) && (|d| == 1 || d[0] != '0')
  }

  lemma {:induction false} DigitsBelow(d: string)
    requires AllDigits(d)
    ensures DigitsValue(d) < Pow10(|d|)
    decreases |d|
  {
    if d != [] {
      DigitsBelow(d[..|d| - 1]);
    }
  }

  lemma {:induction false} DigitsAtLeast(d: string)
    requires AllDigits(d) && d != [] && d[0] != '0'
    ensures DigitsValue(d) >= Pow10(|d| - 1)
    decreases |d|
  {
    if |d| > 1 {
      var init := d[..|d| - 1];
      assert init[0] == d[0];
      DigitsAtLeast(init);
    }
  }

  lemma Pow10Mono(m: nat, n: nat)
    requires m <= n
    ensures Pow10(m) <= Pow10(n)
    decreases n
  {
    if m < n {
      Pow10Mono(m, n - 1);
    }
  }

  /** Over a shared prefix without digits nothing is decided and nothing
      is read into the numbers. */
  lemma {:induction false} PrefixSkipped(p: string, u: string, v: string, i: nat)
    requires forall j :: 0 <= j < |p| ==> !IsDigit(p[j])
    requires i <= |p|
    ensures CompareFrom(p + u, p + v, i, 0, 0) == CompareFrom(p + u, p + v, |p|, 0, 0)
    decreases |p| - i
  {
    if i < |p| {
      assert (p + u)[i] == p[i] && (p + v)[i] == p[i];
      PrefixSkipped(p, u, v, i + 1);
    }
  }

  /** One index where both sides show a digit. */
  lemma DigitStep(a: string, b: string, i: nat, x: int, y: int)
    requires i < |a| && i < |b| && IsDigit(a[i]) && IsDigit(b[i])
    ensures Resume(a, b, i, x, y) ==
              Resume(a, b, i + 1, 10 * x + DigitValue(a[i]), 10 * y + DigitValue(b[i]))
  {
  }

  /** `CompareFrom` under a name that unfolds it only once. */
  function Resume(a: string, b: string, i: nat, x: int, y: int): int
  {
    CompareFrom(a, b, i, x, y)
  }

  lemma PrefixValue(d: string, k: nat)
    requires AllDigits(d) && 0 < k <= |d|
    ensures DigitsValue(d[..k]) == 10 * DigitsValue(d[..k - 1]) + DigitValue(d[k - 1])
  {
    assert d[..k][..k - 1] == d[..k - 1];
  }

  /** While both sides show digits, the numbers read are the values of the
      digit prefixes. */
  lemma {:induction false} DigitsRead(a: string, b: string, base: nat, u: string, v: string, k: nat)
    requires base <= |a| && base <= |b| && a[base..] == u && b[base..] == v
    requires AllDigits(u) && AllDigits(v) && k <= |u| && k <= |v|
    ensures Resume(a, b, base, 0, 0) ==
              Resume(a, b, base + k, DigitsValue(u[..k]), DigitsValue(v[..k]))
    decreases k
  {
    if k > 0 {
      DigitsRead(a, b, base, u, v, k - 1);
      var j := base + k - 1;
      assert a[j] == u[k - 1] && b[j] == v[k - 1];
      DigitStep(a, b, j, DigitsValue(u[..k - 1]), DigitsValue(v[..k - 1]));
      PrefixValue(u, k);
      PrefixValue(v, k);
    } else {
      assert u[..0] == [] && v[..0] == [];
    }
  }

  /** Equal-length numerals after the prefix compare by value. */
  lemma SameLength(a: string, b: string, base: nat, u: string, v: string)
    requires base <= |a| && base <= |b| && a[base..] == u && b[base..] == v
    requires AllDigits(u) && AllDigits(v) && |u| == |v|
    ensures Sign(Resume(a, b, base, 0, 0)) == Sign(DigitsValue(u) - DigitsValue(v))
  {
    var k := |u|;
    DigitsRead(a, b, base, u, v, k);
    assert u[..k] == u && v[..k] == v;
    BothEnded(a, b, base + k, DigitsValue(u[..k]), DigitsValue(v[..k]));
  }

  /** Where both ids end together, the numbers read decide. */
  lemma BothEnded(a: string, b: string, i: nat, x: int, y: int)
    requires i == |a| == |b|
    ensures Sign(Resume(a, b, i, x, y)) == Sign(x - y)
  {
    assert CompareFrom(a, b, i, x, y) == (if x != y then x - y else CompareFrom(a, b, i + 1, x, y));
  }

  /** A shorter numeral after the prefix comes first. */
  lemma ShorterFirst(a: string, b: string, base: nat, u: string, v: string)
    requires base <= |a| && base <= |b| && a[base..] == u && b[base..] == v
    requires Numeral(u) && Numeral(v) && |u| < |v|
    ensures Resume(a, b, base, 0, 0) < 0
    ensures DigitsValue(u) < DigitsValue(v)
  {
    var k := |u|;
    DigitsRead(a, b, base, u, v, k);
    assert u[..k] == u;
    ShorterValue(u, v);
    assert |a| == base + k && b[base + k] == v[k];
    ShorterStep(a, b, base + k, DigitsValue(u), DigitsValue(v[..k]));
  }

  /** A numeral with fewer digits is below the first `|u| + 1` digits of
      the longer one, and so below the longer one. */
  lemma ShorterValue(u: string, v: string)
    requires Numeral(u) && Numeral(v) && |u| < |v|
    ensures DigitsValue(u) < 10 * DigitsValue(v[..|u|]) + DigitValue(v[|u|])
    ensures DigitsValue(u) < DigitsValue(v)
  {
    ShorterPrefix(u, v);
    ShorterWhole(u, v);
  }

  lemma ShorterWhole(u: string, v: string)
    requires Numeral(u) && Numeral(v) && |u| < |v|
    ensures DigitsValue(u) < DigitsValue(v)
  {
    DigitsBelow(u);
    DigitsAtLeast(v);
    Pow10Mono(|u|, |v| - 1);
  }

  lemma ShorterPrefix(u: string, v: string)
    requires Numeral(u) && Numeral(v) && |u| < |v|
    ensures DigitsValue(u) < 10 * DigitsValue(v[..|u|]) + DigitValue(v[|u|])
  {
    var k := |u|;
    DigitsBelow(u);
    LongPrefixAtLeast(v, k + 1);
    PrefixValue(v, k + 1);
  }

  lemma LongPrefixAtLeast(v: string, n: nat)
    requires Numeral(v) && 2 <= n <= |v|
    ensures DigitsValue(v[..n]) >= Pow10(n - 1)
  {
    var w := v[..n];
    assert w[0] == v[0];
    DigitsAtLeast(w);
  }

  /** The shorter side has ended while the longer shows a digit. */
  lemma ShorterStep(a: string, b: string, i: nat, x: int, y: int)
    requires i == |a| && i < |b| && IsDigit(b[i])
    requires x < 10 * y + DigitValue(b[i])
    ensures CompareFrom(a, b, i, x, y) == x - (10 * y + DigitValue(b[i]))
  {
  }

  /** Ids made of a shared prefix without digits and a number order by the
      number: `scene2` before `scene10`. */
  lemma NumberedIdsOrder(p: string, u: string, v: string)
    requires forall j :: 0 <= j < |p| ==> !IsDigit(p[j])
    requires Numeral(u) && Numeral(v)
    ensures Sign(Compare(p + u, p + v)) == Sign(DigitsValue(u) - DigitsValue(v))
  {
    var a, b := p + u, p + v;
    PrefixSkipped(p, u, v, 0);
    assert a[|p|..] == u && b[|p|..] == v;
    if |u| == |v| {
      SameLength(a, b, |p|, u, v);
    } else if |u| < |v| {
      ShorterFirst(a, b, |p|, u, v);
    } else {
      ShorterFirst(b, a, |p|, v, u);
      PrefixSkipped(p, v, u, 0);
      Antisymmetric(a, b);
    }
  }

  /** `subplotSort('scene2', 'scene10')` is negative. */
  lemma SceneExample(a: string, b: string)
    requires a == "scene2" && b == "scene10"
    ensures Compare(a, b) < 0
  {
    var p := "scene";
    assert a == p + "2" && b == p + "10";
    assert Numeral("10") && "10"[..1] == "1";
    assert DigitsValue("10") == 10;
    NumberedIdsOrder(p, "2", "10");
  }
}
