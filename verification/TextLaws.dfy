/** What the texts and orders of JavaScript mean: trimming, UTF-16 order, decimal digits, array indices. */
module TextLaws {
  import opened Json
  import opened JsText
  import opened ReplyText

  // ----- truthiness, blanks, case -----

  /** What counts as false: nothing, `null`, `false`, zero and the empty text. */
  lemma TruthyExactly(o: Option<Json>)
    ensures !Truthy(o) <==> o in {None, Some(Null), Some(Bool(false)), Some(Num(Int(0))), Some(Str(""))}
  {
  }

  ghost predicate AllBlank(s: string) {
    forall c | c in s :: IsBlank(c)
  }

  lemma {:induction false} TrimStartSplits(s: string) returns (l: string)
    ensures s == l + TrimStart(s) && AllBlank(l)
  {
    if s != "" && IsBlank(s[0]) {
      l := TrimStartSplits(s[1..]);
      l := [s[0]] + l;
      assert s == [s[0]] + s[1..];
    } else {
      l := "";
      assert "" + s == s;
    }
  }

  lemma {:induction false} TrimEndSplits(s: string) returns (r: string)
    ensures s == TrimEnd(s) + r && AllBlank(r)
  {
    if s != "" && IsBlank(s[|s| - 1]) {
      var n := |s| - 1;
      r := TrimEndSplits(s[..n]);
      assert s == s[..n] + [s[n]] == TrimEnd(s) + (r + [s[n]]);
      r := r + [s[n]];
    } else {
      r := "";
      assert s + "" == s;
    }
  }

  lemma {:induction false} TrimEndStart(s: string)
    ensures TrimEnd(s) != "" ==> s != "" && TrimEnd(s)[0] == s[0]
    decreases |s|
  {
    if s != "" && IsBlank(s[|s| - 1]) { TrimEndStart(s[..|s| - 1]); }
  }

  /** Trimming drops blanks at both ends and nothing else. */
  lemma TrimExactly(s: string)
    ensures exists l, r :: s == l + Trim(s) + r && AllBlank(l) && AllBlank(r)
    ensures Trim(s) != "" ==> !IsBlank(Trim(s)[0]) && !IsBlank(Trim(s)[|Trim(s)| - 1])
  {
    var l := TrimStartSplits(s);
    var r := TrimEndSplits(TrimStart(s));
    assert s == l + Trim(s) + r;
    TrimStartKeepsInk(s);
    TrimEndKeepsInk(TrimStart(s));
    TrimEndStart(TrimStart(s));
  }

  /** Lower case changes the letters A to Z and nothing else. */
  lemma {:induction false} LowerExactly(s: string)
    ensures |Lower(s)| == |s|
    ensures forall i | 0 <= i < |s| :: Lower(s)[i] == if 'A' <= s[i] <= 'Z' then (s[i] as int + 32) as char else s[i]
  {
    if s != "" { LowerExactly(s[1..]); }
  }

  // ----- UTF-16 order -----

  /** The UTF-16 code units of a character. */
  function Units(c: char): seq<int> {
    var n := c as int;
    if n <= 0xFFFF then [n] else [0xD800 + (n - 0x10000) / 0x400, 0xDC00 + (n - 0x10000) % 0x400]
  }

  function Utf16(s: string): seq<int> {
    if s == "" then [] else Units(s[0]) + Utf16(s[1..])
  }

  /** Lists of numbers in dictionary order: a proper beginning comes first. */
  predicate Before(a: seq<int>, b: seq<int>) {
    if b == [] then false
    else if a == [] then true
    else a[0] < b[0] || (a[0] == b[0] && Before(a[1..], b[1..]))
  }

  lemma BeforeCons(k: int, a: seq<int>, b: seq<int>)
    ensures Before([k] + a, [k] + b) <==> Before(a, b)
  {
    assert ([k] + a)[1..] == a && ([k] + b)[1..] == b;
  }

  lemma BeforeSameUnits(c: char, a: seq<int>, b: seq<int>)
    ensures Before(Units(c) + a, Units(c) + b) <==> Before(a, b)
  {
    var u := Units(c);
    if |u| == 1 {
      BeforeCons(u[0], a, b);
    } else {
      assert u + a == [u[0]] + ([u[1]] + a) && u + b == [u[0]] + ([u[1]] + b);
      BeforeCons(u[0], [u[1]] + a, [u[1]] + b);
      BeforeCons(u[1], a, b);
    }
  }

  lemma BeforeOtherUnits(c: char, d: char, a: seq<int>, b: seq<int>)
    requires c != d
    ensures Before(Units(c) + a, Units(d) + b) <==> CodeUnitRank(c) < CodeUnitRank(d)
  {
    var u, v := Units(c), Units(d);
    if u[0] == v[0] {
      assert |u| == 2 && |v| == 2 && u[1] != v[1];
      assert u + a == [u[0]] + ([u[1]] + a) && v + b == [u[0]] + ([v[1]] + b);
      BeforeCons(u[0], [u[1]] + a, [v[1]] + b);
    }
  }

  /** Texts are ordered by their UTF-16 code units, as `Array.prototype.sort` orders them. */
  lemma {:induction false} TextLessExactly(a: string, b: string)
    ensures TextLess(a, b) <==> Before(Utf16(a), Utf16(b))
  {
    if a != "" && b != "" {
      if a[0] == b[0] {
        TextLessExactly(a[1..], b[1..]);
        BeforeSameUnits(a[0], Utf16(a[1..]), Utf16(b[1..]));
      } else {
        BeforeOtherUnits(a[0], b[0], Utf16(a[1..]), Utf16(b[1..]));
      }
    }
  }

  /** A proper beginning of a text comes before it. */
  lemma {:induction false} BeginningsFirst(a: string, more: string)
    requires more != ""
    ensures TextLess(a, a + more) && !TextLess(a + more, a)
  {
    if a == "" {
      assert a + more == more;
    } else {
      assert (a + more)[1..] == a[1..] + more;
      BeginningsFirst(a[1..], more);
    }
  }

  // ----- decimal digits -----

  ghost predicate AllDigits(t: string) {
    forall c | c in t :: IsDigit(c)
  }

  /** Printing a number and reading its digits gives it back; there is no leading zero. */
  lemma {:induction false} DigitsBack(n: nat)
    ensures DigitsValue(Digits(n)) == n
    ensures Digits(n) != "" && (Digits(n)[0] == '0' ==> Digits(n) == "0")
    ensures AllDigits(Digits(n))
  {
    if n >= 10 {
      DigitsBack(n / 10);
      assert Digits(n) == Digits(n / 10) + [DigitChar(n % 10)];
      assert Digits(n)[..|Digits(n)| - 1] == Digits(n / 10);
      assert Digits(n / 10) != "0";
    } else {
      assert DigitsValue([DigitChar(n)]) == 10 * DigitsValue("") + n by {
        assert [DigitChar(n)][..0] == "";
      }
    }
  }

  lemma OneDigitMore(v: nat, c: char)
    requires v > 0 && IsDigit(c)
    ensures Digits(10 * v + (c - '0') as nat) == Digits(v) + [c]
  {
    var d := (c - '0') as nat;
    assert (10 * v + d) / 10 == v && (10 * v + d) % 10 == d;
  }

  /** A digit text without a leading zero is the print of its value. */
  lemma {:induction false} DigitsForward(t: string)
    requires t != "" && AllDigits(t) && (t[0] == '0' ==> t == "0")
    ensures Digits(DigitsValue(t)) == t
  {
    var n := |t| - 1;
    assert t[n] in t && forall c | c in t[..n] :: c in t;
    if n > 0 {
      DigitsForward(t[..n]);
      PositiveDigits(t[..n]);
      OneDigitMore(DigitsValue(t[..n]), t[n]);
      assert t == t[..n] + [t[n]];
    } else {
      assert t[..0] == "";
    }
  }

  lemma {:induction false} PositiveDigits(t: string)
    requires t != "" && AllDigits(t) && t[0] != '0'
    ensures DigitsValue(t) > 0
  {
    var n := |t| - 1;
    assert t[0] in t && t[n] in t && forall c | c in t[..n] :: c in t;
    if n > 0 { PositiveDigits(t[..n]); } else { assert t[..0] == ""; }
  }

  /** Whole numbers print in decimal, with a sign when they are negative. */
  lemma IntTextBack(i: int)
    ensures SignedValue(IntText(i)) == i
  {
    DigitsBack(if i < 0 then -i else i);
    if i < 0 {
      assert IntText(i)[1..] == Digits(-i);
    } else {
      assert Digits(i)[0] in Digits(i);
    }
  }

  /** `Math.trunc`: towards zero, by less than one. */
  lemma TruncatedExactly(n: JsNumber)
    ensures var v, t := RealOf(n), Truncated(n) as real;
            if v >= 0.0 then t <= v < t + 1.0 else t - 1.0 < v <= t
  {
  }
}
