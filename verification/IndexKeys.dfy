/** The keys an object lists first: array indices, in numeric order. */
module IndexKeys {
  import opened Json
  import opened JsText
  import opened KeyOrder
  import opened TextLaws

  function Pow10(n: nat): (p: nat)
    ensures p > 0
  {
    if n == 0 then 1 else 10 * Pow10(n - 1)
  }

  function DigitOf(c: char): nat
    requires IsDigit(c)
  {
    (c - '0') as nat
  }

  lemma Times10(d: int, p: int)
    ensures 10 * (d * p) == d * (10 * p)
  {
  }

  /** The leading digit counts most. */
  lemma {:induction false} LeadingDigit(t: string)
    requires t != "" && AllDigits(t)
    ensures t[0] in t && DigitsValue(t) == DigitOf(t[0]) * Pow10(|t| - 1) + DigitsValue(t[1..])
    ensures DigitsValue(t[1..]) < Pow10(|t| - 1)
  {
    var n := |t| - 1;
    if n == 0 {
      assert t[..0] == "" && t[1..] == "";
    } else {
      var init := t[..n];
      assert forall c | c in init :: c in t;
      assert t[n] in t;
      LeadingDigit(init);
      Times10(DigitOf(t[0]), Pow10(n - 1));
      assert t[1..][..n - 1] == init[1..] && t[1..][n - 1] == t[n];
      assert DigitsValue(t[1..]) == 10 * DigitsValue(init[1..]) + DigitOf(t[n]);
    }
  }

  lemma ProductsApart(a: nat, b: nat, p: nat)
    requires a < b
    ensures a * p + p <= b * p
  {
    assert (a + 1) * p <= b * p;
  }

  /** Digit texts of one length are ordered by their value. */
  lemma {:induction false} SameLength(a: string, b: string)
    requires |a| == |b| && AllDigits(a) && AllDigits(b)
    ensures TextLess(a, b) <==> DigitsValue(a) < DigitsValue(b)
  {
    if a != "" {
      LeadingDigit(a);
      LeadingDigit(b);
      var p := Pow10(|a| - 1);
      if a[0] == b[0] {
        assert forall c | c in a[1..] :: c in a;
        assert forall c | c in b[1..] :: c in b;
        SameLength(a[1..], b[1..]);
      } else if a[0] < b[0] {
        ProductsApart(DigitOf(a[0]), DigitOf(b[0]), p);
      } else {
        ProductsApart(DigitOf(b[0]), DigitOf(a[0]), p);
      }
    }
  }

  lemma {:induction false} Pow10Grows(m: nat, n: nat)
    requires m <= n
    ensures Pow10(m) <= Pow10(n)
  {
    if m < n { Pow10Grows(m, n - 1); }
  }

  /** A digit text without a leading zero has a value of its length. */
  lemma ValueOfLength(t: string)
    requires t != "" && AllDigits(t)
    ensures DigitsValue(t) < Pow10(|t|)
    ensures t[0] != '0' ==> Pow10(|t| - 1) <= DigitsValue(t)
  {
    LeadingDigit(t);
    assert DigitOf(t[0]) <= 9;
    ProductsApart(DigitOf(t[0]), 10, Pow10(|t| - 1));
    if t[0] != '0' {
      ProductsApart(0, DigitOf(t[0]), Pow10(|t| - 1));
    }
  }

  lemma ShorterIsLess(a: string, b: string)
    requires a != "" && |a| < |b| && AllDigits(a) && AllDigits(b) && b[0] != '0'
    ensures DigitsValue(a) < DigitsValue(b)
  {
    ValueOfLength(a);
    ValueOfLength(b);
    Pow10Grows(|a|, |b| - 1);
  }

  lemma Snoc(t: string, c: char)
    requires IsDigit(c)
    ensures DigitsValue(t + [c]) == 10 * DigitsValue(t) + DigitOf(c)
  {
    assert (t + [c])[..|t|] == t;
  }

  /** The value of `t` and four digits more. */
  lemma FourMore(t: string, a: char, b: char, c: char, d: char)
    requires IsDigit(a) && IsDigit(b) && IsDigit(c) && IsDigit(d)
    ensures DigitsValue(t + [a, b, c, d]) ==
            10000 * DigitsValue(t) + 1000 * DigitOf(a) + 100 * DigitOf(b) + 10 * DigitOf(c) + DigitOf(d)
  {
    Snoc(t, a);
    Snoc(t + [a], b);
    Snoc(t + [a] + [b], c);
    Snoc(t + [a] + [b] + [c], d);
    assert t + [a, b, c, d] == t + [a] + [b] + [c] + [d];
  }

  lemma LargestIndex()
    ensures DigitsValue("4294967294") == 4294967294
  {
    var t := "42";
    Snoc("", '4');
    Snoc("4", '2');
    assert t == "4" + ['2'] && "4" == "" + ['4'];
    FourMore(t, '9', '4', '9', '6');
    FourMore(t + ['9', '4', '9', '6'], '7', '2', '9', '4');
    assert "4294967294" == t + ['9', '4', '9', '6'] + ['7', '2', '9', '4'];
  }

  lemma NinePlaces(t: string)
    requires t != "" && AllDigits(t) && |t| <= 9
    ensures DigitsValue(t) < 1000000000
  {
    ValueOfLength(t);
    Pow10Grows(|t|, 9);
    assert Pow10(9) == 10 * Pow10(8) && Pow10(8) == 10 * Pow10(7) && Pow10(7) == 10 * Pow10(6) && Pow10(6) == 10 * Pow10(5);
    assert Pow10(5) == 10 * Pow10(4) && Pow10(4) == 10 * Pow10(3) && Pow10(3) == 10 * Pow10(2) && Pow10(2) == 100;
  }

  lemma ElevenPlaces(t: string)
    requires |t| >= 11 && AllDigits(t) && t[0] != '0'
    ensures DigitsValue(t) >= 10000000000
  {
    ValueOfLength(t);
    Pow10Grows(10, |t| - 1);
    assert Pow10(10) == 10 * Pow10(9) && Pow10(9) == 10 * Pow10(8) && Pow10(8) == 10 * Pow10(7) && Pow10(7) == 10 * Pow10(6);
    assert Pow10(6) == 10 * Pow10(5) && Pow10(5) == 10 * Pow10(4) && Pow10(4) == 10 * Pow10(3) && Pow10(3) == 10 * Pow10(2);
  }

  lemma LargestIsDigits()
    ensures AllDigits("4294967294")
  {
  }

  lemma AnIndexIs(k: string)
    requires IsIndex(k)
    ensures k == Digits(DigitsValue(k)) && DigitsValue(k) < 4294967295 && k != "" && AllDigits(k) && (k[0] == '0' ==> k == "0")
  {
    DigitsForward(k);
    if |k| == 10 {
      LargestIndex();
      LargestIsDigits();
      SameLength("4294967294", k);
    } else {
      NinePlaces(k);
    }
  }

  lemma IndicesAre(n: nat)
    requires n < 4294967295
    ensures IsIndex(Digits(n))
  {
    var k := Digits(n);
    DigitsBack(n);
    if k != "0" {
      if |k| >= 11 { ElevenPlaces(k); }
      if |k| == 10 {
        LargestIndex();
        LargestIsDigits();
        SameLength("4294967294", k);
      }
    }
  }

  /** An index key is the decimal print of a number below 2^32 - 1, ECMA-262's array index. */
  lemma IsIndexExactly(k: string)
    ensures IsIndex(k) <==> exists n: nat :: n < 4294967295 && k == Digits(n)
  {
    if IsIndex(k) {
      AnIndexIs(k);
    }
    if exists n: nat :: n < 4294967295 && k == Digits(n) {
      var n: nat :| n < 4294967295 && k == Digits(n);
      IndicesAre(n);
    }
  }

  /** Index keys are compared by number. */
  lemma IndexLessExactly(a: string, b: string)
    requires IsIndex(a) && IsIndex(b)
    ensures IndexLess(a, b) <==> DigitsValue(a) < DigitsValue(b)
  {
    AnIndexIs(a);
    AnIndexIs(b);
    if |a| == |b| {
      SameLength(a, b);
    } else if |a| < |b| {
      ShorterIsLess(a, b);
    } else {
      ShorterIsLess(b, a);
    }
  }

  // ----- the order in which an object lists its keys -----

  ghost predicate AllIndices(keys: seq<string>) {
    forall k | k in keys :: IsIndex(k)
  }

  ghost predicate ByNumber(keys: seq<string>) {
    forall i, j :: 0 <= i < j < |keys| ==> DigitsValue(keys[i]) <= DigitsValue(keys[j])
  }

  lemma LeastFirst(k: string, keys: seq<string>)
    requires ByNumber(keys) && forall x | x in keys :: DigitsValue(k) <= DigitsValue(x)
    ensures ByNumber([k] + keys)
  {
    forall j | 0 <= j < |keys| ensures DigitsValue(k) <= DigitsValue(keys[j]) {
      assert keys[j] in keys;
    }
  }

  lemma FirstLeast(keys: seq<string>)
    requires keys != [] && ByNumber(keys)
    ensures ByNumber(keys[1..]) && forall x | x in keys :: DigitsValue(keys[0]) <= DigitsValue(x)
  {
  }

  lemma {:induction false} InsertByNumber(k: string, keys: seq<string>)
    requires IsIndex(k) && AllIndices(keys) && ByNumber(keys)
    ensures ByNumber(InsertKey((a, b) => IndexLess(a, b), k, keys))
    ensures AllIndices(InsertKey((a, b) => IndexLess(a, b), k, keys))
  {
    var less := (a, b) => IndexLess(a, b);
    InsertMembers(less, k, keys);
    if keys != [] {
      assert keys[0] in keys && forall x | x in keys[1..] :: x in keys;
      IndexLessExactly(keys[0], k);
      FirstLeast(keys);
      if less(keys[0], k) {
        InsertByNumber(k, keys[1..]);
        InsertMembers(less, k, keys[1..]);
        LeastFirst(keys[0], InsertKey(less, k, keys[1..]));
      } else {
        LeastFirst(k, keys);
      }
    }
  }

  lemma {:induction false} SortsByNumber(keys: seq<string>)
    requires AllIndices(keys)
    ensures ByNumber(SortKeys((a, b) => IndexLess(a, b), keys)) && AllIndices(SortKeys((a, b) => IndexLess(a, b), keys))
  {
    if keys != [] {
      assert keys[0] in keys && forall x | x in keys[1..] :: x in keys;
      SortsByNumber(keys[1..]);
      InsertByNumber(keys[0], SortKeys((a, b) => IndexLess(a, b), keys[1..]));
    }
  }

  lemma {:induction false} OthersStay(keys: seq<string>)
    requires forall k | k in keys :: !IsIndex(k)
    ensures Select(keys, false) == keys
  {
    if keys != [] {
      assert keys[0] in keys && forall x | x in keys[1..] :: x in keys;
      OthersStay(keys[1..]);
      assert [keys[0]] + keys[1..] == keys;
    }
  }

  /** The keys that are no index, in the order they have in `keys`. */
  function Others(keys: seq<string>): seq<string> {
    if keys == [] then [] else (if IsIndex(keys[0]) then [] else [keys[0]]) + Others(keys[1..])
  }

  lemma {:induction false} OthersAre(keys: seq<string>)
    ensures Select(keys, false) == Others(keys)
  {
    if keys != [] { OthersAre(keys[1..]); }
  }

  /** Index keys come first, in numeric order, and are the index keys of `keys`; the others follow as they were. */
  lemma ListingExactly(keys: seq<string>) returns (n: nat)
    ensures n <= |ListingOrder(keys)| && ListingOrder(keys)[n..] == Others(keys)
    ensures AllIndices(ListingOrder(keys)[..n]) && ByNumber(ListingOrder(keys)[..n])
    ensures forall k :: k in ListingOrder(keys)[..n] <==> k in keys && IsIndex(k)
  {
    var less := (a, b) => IndexLess(a, b);
    var first := SortKeys(less, Select(keys, true));
    SelectMembers(keys, true);
    SortMembers(less, Select(keys, true));
    SortsByNumber(Select(keys, true));
    OthersAre(keys);
    n := |first|;
    assert ListingOrder(keys) == first + Select(keys, false);
    assert ListingOrder(keys)[..n] == first && ListingOrder(keys)[n..] == Select(keys, false);
  }
}
