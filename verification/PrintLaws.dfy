/**
 `JSON.stringify` and reading back: a reader that knows only the grammar of RFC 8259
 gets every printed value back, so printing loses nothing and no text is the print of two values.
 */
module PrintLaws {
  import opened Json
  import opened JsText
  import opened TextLaws

  // ----- a reader of compact JSON -----

  /** What reading yields: a value and the text after it. */
  datatype Got<+T> = Got(value: T, rest: string) | Fail

  predicate IsHex(c: char) {
    IsDigit(c) || 'a' <= c <= 'f' || 'A' <= c <= 'F'
  }

  function HexValue(c: char): nat
    requires IsHex(c)
  {
    if IsDigit(c) then (c - '0') as nat else if c >= 'a' then (c - 'a') as nat + 10 else (c - 'A') as nat + 10
  }

  function HexPair(c: char, d: char): (n: nat)
    requires IsHex(c) && IsHex(d)
    ensures n < 256
  {
    16 * HexValue(c) + HexValue(d)
  }

  /** The character of four hexadecimal digits; one half of a surrogate pair is none. */
  function ReadHex(s: string): (r: Got<char>)
    ensures r.Got? ==> |r.rest| < |s|
  {
    if |s| < 4 || !(IsHex(s[0]) && IsHex(s[1]) && IsHex(s[2]) && IsHex(s[3])) then Fail
    else
      var v := 256 * HexPair(s[0], s[1]) + HexPair(s[2], s[3]);
      if 0xD800 <= v < 0xE000 then Fail else Got(v as char, s[4..])
  }

  /** What follows a backslash, section 7 of RFC 8259. */
  function ReadEscape(s: string): (r: Got<char>)
    ensures r.Got? ==> |r.rest| < |s|
  {
    if s == "" then Fail
    else
      match s[0]
      case 'u' => ReadHex(s[1..])
      case '"' => Got('"', s[1..])
      case '\\' => Got('\\', s[1..])
      case '/' => Got('/', s[1..])
      case 'b' => Got('\U{0008}', s[1..])
      case 'f' => Got('\U{000C}', s[1..])
      case 'n' => Got('\U{000A}', s[1..])
      case 'r' => Got('\U{000D}', s[1..])
      case 't' => Got('\U{0009}', s[1..])
      case _ => Fail
  }

  function ReadChar(s: string): (r: Got<char>)
    ensures r.Got? ==> |r.rest| < |s|
  {
    if s == "" || s[0] < '\U{0020}' then Fail
    else if s[0] == '\\' then ReadEscape(s[1..])
    else Got(s[0], s[1..])
  }

  /** A string up to its closing quote. */
  function ReadText(s: string): (r: Got<string>)
    ensures r.Got? ==> |r.rest| < |s|
    decreases |s|
  {
    if s != "" && s[0] == '"' then Got("", s[1..])
    else
      var c := ReadChar(s);
      if c.Fail? then Fail
      else
        var more := ReadText(c.rest);
        if more.Fail? then Fail else Got([c.value] + more.value, more.rest)
  }

  /** How many characters at the start of `s` can belong to a number. */
  function Span(s: string): (n: nat)
    ensures n <= |s|
    ensures s != "" && NumberChar(s[0]) ==> n > 0
  {
    if s != "" && NumberChar(s[0]) then 1 + Span(s[1..]) else 0
  }

  /** A number with a point or an exponent is known by its text, any other by its value. */
  function ReadNumber(s: string): Got<Json> {
    var text := s[..Span(s)];
    Got(Num(if '.' in text || 'e' in text then Dec(text) else Int(SignedValue(text))), s[Span(s)..])
  }

  function ReadWord(s: string): (r: Got<Json>)
    ensures r.Got? ==> |r.rest| < |s|
  {
    if "null" <= s then Got(Null, s[4..])
    else if "true" <= s then Got(Bool(true), s[4..])
    else if "false" <= s then Got(Bool(false), s[5..])
    else Fail
  }

  function ReadValue(s: string): (r: Got<Json>)
    ensures r.Got? ==> |r.rest| < |s|
    decreases |s|, 0
  {
    if s == "" then Fail
    else if s[0] == '"' then
      var t := ReadText(s[1..]);
      if t.Fail? then Fail else Got(Str(t.value), t.rest)
    else if s[0] == '[' then
      if "[]" <= s then Got(Arr([]), s[2..])
      else
        var t := ReadItems(s[1..]);
        if t.Fail? then Fail else Got(Arr(t.value), t.rest)
    else if s[0] == '{' then
      if "{}" <= s then Got(EMPTY, s[2..]) else ReadMembers(EMPTY, s[1..])
    else if IsDigit(s[0]) || s[0] == '-' then ReadNumber(s)
    else ReadWord(s)
  }

  /** One value or more, separated by commas, and the closing bracket. */
  function ReadItems(s: string): (r: Got<seq<Json>>)
    ensures r.Got? ==> |r.rest| < |s|
    decreases |s|, 1
  {
    var first := ReadValue(s);
    if first.Fail? || first.rest == "" then Fail
    else if first.rest[0] == ']' then Got([first.value], first.rest[1..])
    else if first.rest[0] != ',' then Fail
    else
      var more := ReadItems(first.rest[1..]);
      if more.Fail? then Fail else Got([first.value] + more.value, more.rest)
  }

  /** One member or more, put into `o`, and the closing brace. */
  function ReadMembers(o: Json, s: string): (r: Got<Json>)
    requires o.Obj?
    ensures r.Got? ==> |r.rest| < |s| && r.value.Obj?
    decreases |s|, 1
  {
    if s == "" || s[0] != '"' then Fail
    else
      var k := ReadText(s[1..]);
      if k.Fail? || k.rest == "" || k.rest[0] != ':' then Fail
      else
        var v := ReadValue(k.rest[1..]);
        if v.Fail? || v.rest == "" then Fail
        else
          var longer := Assign(o, k.value, v.value);
          if v.rest[0] == '}' then Got(longer, v.rest[1..])
          else if v.rest[0] == ',' then ReadMembers(longer, v.rest[1..])
          else Fail
  }

  // ----- printed texts read back -----

  /** What can follow a value: the end of the text, or a character that could not continue a number. */
  predicate Ends(rest: string) {
    rest == "" || !NumberChar(rest[0])
  }

  lemma EscapeBack(c: char, rest: string)
    ensures ReadChar(EscapeChar(c) + rest) == Got(c, rest)
    ensures EscapeChar(c) != "" && EscapeChar(c)[0] != '"'
  {
    var e := EscapeChar(c);
    assert (e + rest)[|e|..] == rest;
    if |e| == 2 {
      assert (e + rest)[1..][1..] == rest;
    } else if |e| == 6 {
      assert (e + rest)[1..][1..] == (e + rest)[2..];
      assert (e + rest)[2..] == e[2..] + rest && e[2..] == ['0', '0', e[4], e[5]];
      assert (e + rest)[2..][4..] == rest;
      assert HexValue(e[4]) == c as int / 16 && HexValue(e[5]) == c as int % 16;
    }
  }

  lemma {:induction false} TextBack(s: string, rest: string)
    ensures ReadText(QuoteTail(s) + rest) == Got(s, rest)
  {
    if s == "" {
      assert (QuoteTail(s) + rest)[1..] == rest;
    } else {
      var e, more := EscapeChar(s[0]), QuoteTail(s[1..]);
      assert (e + more) + rest == e + (more + rest);
      EscapeBack(s[0], more + rest);
      assert (e + (more + rest))[0] == e[0];
      TextBack(s[1..], rest);
      assert s == [s[0]] + s[1..];
    }
  }

  lemma QuoteBack(s: string, rest: string)
    ensures Quote(s) + rest != "" && (Quote(s) + rest)[0] == '"' && ReadText((Quote(s) + rest)[1..]) == Got(s, rest)
  {
    assert (Quote(s) + rest)[1..] == QuoteTail(s) + rest;
    TextBack(s, rest);
  }

  lemma {:induction false} SpanIs(text: string, rest: string)
    requires (forall c | c in text :: NumberChar(c)) && Ends(rest)
    ensures Span(text + rest) == |text|
  {
    if text == "" {
      assert text + rest == rest;
    } else {
      assert (text + rest)[1..] == text[1..] + rest && text[0] in text;
      SpanIs(text[1..], rest);
    }
  }

  lemma NumberChars(n: Number)
    requires Parsed(Num(n))
    ensures NumberText(n) != "" && forall c | c in NumberText(n) :: NumberChar(c)
    ensures IsDigit(NumberText(n)[0]) || NumberText(n)[0] == '-'
    ensures n.Int? <==> '.' !in NumberText(n) && 'e' !in NumberText(n)
  {
    match n
    case Dec(text) =>
    case Int(i) => DigitsBack(if i < 0 then -i else i);
  }

  lemma NumberBack(n: Number, rest: string)
    requires Parsed(Num(n)) && Ends(rest)
    ensures ReadNumber(NumberText(n) + rest) == Got(Num(n), rest)
  {
    var text := NumberText(n);
    NumberChars(n);
    SpanIs(text, rest);
    assert (text + rest)[..|text|] == text && (text + rest)[|text|..] == rest;
    if n.Int? { IntTextBack(n.value); }
  }

  /** The first character tells which kind of value follows. */
  lemma FirstChar(j: Json)
    requires Parsed(j)
    ensures Print(j) != ""
    ensures j.Num? <==> IsDigit(Print(j)[0]) || Print(j)[0] == '-'
    ensures Print(j)[0] != ']' && Print(j)[0] != '}'
  {
    if j.Num? {
      NumberChars(j.n);
    }
  }

  /** Taking the first character off `open + head + tail` followed by `rest`. */
  lemma Peel(open: string, head: string, tail: string, rest: string)
    requires |open| == 1
    ensures ((open + head + tail) + rest)[0] == open[0]
    ensures ((open + head + tail) + rest)[1..] == head + (tail + rest)
  {
  }

  /** Reading a printed value gives it back, and what follows it stays. */
  lemma {:induction false} ReadsBack(j: Json, rest: string)
    requires Parsed(j) && Ends(rest)
    ensures ReadValue(Print(j) + rest) == Got(j, rest)
    decreases j, 3, 0
  {
    if j.Null? || j.Bool? {
      WordBack(j, rest);
    } else if j.Num? {
      NumberChars(j.n);
      NumberBack(j.n, rest);
    } else if j.Str? {
      QuoteBack(j.s, rest);
    } else if j.Arr? {
      ArrBack(j, rest);
    } else {
      ObjBack(j, rest);
    }
  }

  lemma WordBack(j: Json, rest: string)
    requires j.Null? || j.Bool?
    ensures ReadValue(Print(j) + rest) == Got(j, rest)
  {
    assert (Print(j) + rest)[|Print(j)|..] == rest;
    assert (Print(j) + rest)[0] == Print(j)[0];
  }

  lemma {:induction false} ArrBack(j: Json, rest: string)
    requires Parsed(j) && j.Arr?
    ensures ReadValue(Print(j) + rest) == Got(j, rest)
    decreases j, 2, 0
  {
    var s := Print(j) + rest;
    if j.items == [] {
      assert s[2..] == rest;
    } else {
      assert j.items[0] in j.items;
      FirstChar(j.items[0]);
      Peel("[", Print(j.items[0]), ItemsTail(j.items[1..]), rest);
      assert s[1] == s[1..][0] == Print(j.items[0])[0];
      ItemsBack(j.items, rest);
    }
  }

  lemma {:induction false} ObjBack(j: Json, rest: string)
    requires Parsed(j) && j.Obj?
    ensures ReadValue(Print(j) + rest) == Got(j, rest)
    decreases j, 2, 0
  {
    if j.keys == [] {
      assert (Print(j) + rest)[2..] == rest && j.fields.Keys == {};
    } else {
      MembersBack(j, EMPTY, 0, rest);
      FilledIs(j, EMPTY, 0);
      OpenObject(j, rest);
      ReadsObject("{" + (Pair(j, j.keys[0]) + Following(j, 0, rest)), Pair(j, j.keys[0]) + Following(j, 0, rest));
    }
  }

  lemma OpenObject(j: Json, rest: string)
    requires Parsed(j) && j.Obj? && j.keys != []
    ensures j.keys[0] in j.keys && Print(j) + rest == "{" + (Pair(j, j.keys[0]) + Following(j, 0, rest))
    ensures (Pair(j, j.keys[0]) + Following(j, 0, rest))[0] == '"'
  {
    assert j.keys[0] in j.keys;
    var p, t := Pair(j, j.keys[0]), PairsTail(j, j.keys[1..]);
    assert ("{" + p + t) + rest == "{" + (p + (t + rest));
    assert p[0] == '"';
  }

  lemma ReadsObject(s: string, members: string)
    requires s == "{" + members && members != "" && members[0] == '"'
    ensures ReadValue(s) == ReadMembers(EMPTY, members)
  {
    assert s[1..] == members && s[1] == members[0];
  }

  lemma TailEnds(xs: seq<Json>, rest: string)
    requires forall v | v in xs :: Parsed(v)
    ensures Ends(ItemsTail(xs) + rest)
    ensures (ItemsTail(xs) + rest)[0] == if xs == [] then ']' else ','
  {
    if xs != [] {
      Peel(",", Print(xs[0]), ItemsTail(xs[1..]), rest);
    }
  }

  lemma {:induction false} ItemsBack(xs: seq<Json>, rest: string)
    requires (forall v | v in xs :: Parsed(v)) && xs != []
    ensures ReadItems(Print(xs[0]) + (ItemsTail(xs[1..]) + rest)) == Got(xs, rest)
    decreases xs, 1
  {
    var tail := ItemsTail(xs[1..]) + rest;
    TailEnds(xs[1..], rest);
    ReadsBack(xs[0], tail);
    assert xs == [xs[0]] + xs[1..];
    if |xs| == 1 {
      assert xs == [xs[0]] && tail[1..] == rest;
    } else {
      Peel(",", Print(xs[1]), ItemsTail(xs[2..]), rest);
      assert xs[1..][1..] == xs[2..];
      ItemsBack(xs[1..], rest);
    }
  }

  /** `b` with the members of `o` from place `i` on put into it. */
  ghost function Filled(o: Json, b: Json, i: nat): (r: Json)
    requires o.Obj? && Parsed(o) && b.Obj? && i <= |o.keys|
    ensures r.Obj?
    decreases |o.keys| - i
  {
    if i == |o.keys| then b
    else
      assert o.keys[i] in o.keys;
      Filled(o, Assign(b, o.keys[i], o.fields[o.keys[i]]), i + 1)
  }

  /** `b` holds the first `i` members of `o`. */
  ghost predicate Begins(o: Json, b: Json, i: nat)
    requires o.Obj? && b.Obj? && i <= |o.keys|
  {
    b.keys == o.keys[..i] && (forall k :: k in b.fields <==> k in b.keys) && forall k | k in b.fields :: At(b, k) == At(o, k)
  }

  lemma OneMoreBegins(o: Json, b: Json, i: nat)
    requires o.Obj? && Parsed(o) && b.Obj? && i < |o.keys| && Begins(o, b, i)
    ensures o.keys[i] in o.keys && Begins(o, Assign(b, o.keys[i], o.fields[o.keys[i]]), i + 1)
  {
    assert o.keys[i] in o.keys;
    assert o.keys[..i + 1] == o.keys[..i] + [o.keys[i]] && o.keys[i] !in o.keys[..i];
  }

  lemma {:induction false} FilledIs(o: Json, b: Json, i: nat)
    requires o.Obj? && Parsed(o) && b.Obj? && i <= |o.keys| && Begins(o, b, i)
    ensures Filled(o, b, i) == o
    decreases |o.keys| - i
  {
    if i < |o.keys| {
      OneMoreBegins(o, b, i);
      FilledIs(o, Assign(b, o.keys[i], o.fields[o.keys[i]]), i + 1);
    } else {
      assert o.keys[..i] == o.keys;
      assert b.fields == o.fields;
    }
  }

  /** What follows the member at place `i`. */
  ghost function Following(o: Json, i: nat, rest: string): string
    requires o.Obj? && Parsed(o) && i < |o.keys|
  {
    PairsTail(o, o.keys[i + 1..]) + rest
  }

  lemma AfterLast(o: Json, i: nat, rest: string)
    requires o.Obj? && Parsed(o) && i + 1 == |o.keys|
    ensures Following(o, i, rest) == "}" + rest
  {
  }

  lemma AfterOther(o: Json, i: nat, rest: string)
    requires o.Obj? && Parsed(o) && i + 1 < |o.keys|
    ensures o.keys[i + 1] in o.fields && Following(o, i, rest) == "," + (Pair(o, o.keys[i + 1]) + Following(o, i + 1, rest))
  {
    assert o.keys[i + 1] in o.keys && o.keys[i + 1..][1..] == o.keys[i + 2..];
    var p, t := Pair(o, o.keys[i + 1]), PairsTail(o, o.keys[i + 2..]);
    assert ("," + p + t) + rest == "," + (p + (t + rest));
  }

  lemma SplitPair(o: Json, k: string, rest: string)
    requires o.Obj? && Parsed(o) && k in o.fields
    ensures Pair(o, k) + rest == Quote(k) + (":" + (Print(o.fields[k]) + rest))
  {
    var q, v := Quote(k), Print(o.fields[k]);
    assert (q + ":" + v) + rest == q + (":" + (v + rest));
  }

  /** A member is read off and put into the object. */
  lemma OneMember(b: Json, k: string, text: string, v: Json, tail: string)
    requires b.Obj? && tail != "" && ReadValue(text) == Got(v, tail)
    ensures ReadMembers(b, Quote(k) + (":" + text)) ==
            if tail[0] == '}' then Got(Assign(b, k, v), tail[1..])
            else if tail[0] == ',' then ReadMembers(Assign(b, k, v), tail[1..])
            else Fail
  {
    QuoteBack(k, ":" + text);
    assert (":" + text)[1..] == text;
  }

  /** The members from place `i` on are put into what was read before them. */
  lemma {:induction false} MembersBack(o: Json, b: Json, i: nat, rest: string)
    requires o.Obj? && Parsed(o) && b.Obj? && i < |o.keys|
    ensures o.keys[i] in o.keys && ReadMembers(b, Pair(o, o.keys[i]) + Following(o, i, rest)) == Got(Filled(o, b, i), rest)
    decreases o, 1, |o.keys| - i
  {
    if i + 1 == |o.keys| {
      LastMember(o, b, i, rest);
    } else {
      NextMember(o, b, i, rest);
      MembersBack(o, Assign(b, o.keys[i], o.fields[o.keys[i]]), i + 1, rest);
    }
  }

  lemma {:induction false} LastMember(o: Json, b: Json, i: nat, rest: string)
    requires o.Obj? && Parsed(o) && b.Obj? && i + 1 == |o.keys|
    ensures var k := o.keys[i];
            k in o.keys && ReadMembers(b, Pair(o, k) + Following(o, i, rest)) == Got(Assign(b, k, o.fields[k]), rest)
    decreases o, 0, 1
  {
    assert o.keys[i] in o.keys;
    AfterLast(o, i, rest);
    MemberBack(o, b, o.keys[i], "}" + rest);
    assert ("}" + rest)[1..] == rest;
  }

  lemma {:induction false} NextMember(o: Json, b: Json, i: nat, rest: string)
    requires o.Obj? && Parsed(o) && b.Obj? && i + 1 < |o.keys|
    ensures var k, l := o.keys[i], o.keys[i + 1];
            k in o.keys && l in o.keys &&
            ReadMembers(b, Pair(o, k) + Following(o, i, rest)) ==
            ReadMembers(Assign(b, k, o.fields[k]), Pair(o, l) + Following(o, i + 1, rest))
    decreases o, 0, 1
  {
    assert o.keys[i] in o.keys && o.keys[i + 1] in o.keys;
    var next := Pair(o, o.keys[i + 1]) + Following(o, i + 1, rest);
    AfterOther(o, i, rest);
    MemberBack(o, b, o.keys[i], "," + next);
    assert ("," + next)[1..] == next;
  }

  lemma {:induction false} MemberBack(o: Json, b: Json, k: string, tail: string)
    requires o.Obj? && Parsed(o) && b.Obj? && k in o.fields && tail != "" && Ends(tail)
    ensures ReadMembers(b, Pair(o, k) + tail) ==
            if tail[0] == '}' then Got(Assign(b, k, o.fields[k]), tail[1..])
            else if tail[0] == ',' then ReadMembers(Assign(b, k, o.fields[k]), tail[1..])
            else Fail
    decreases o, 0, 0
  {
    SplitPair(o, k, tail);
    ReadsBack(o.fields[k], tail);
    OneMember(b, k, Print(o.fields[k]) + tail, o.fields[k], tail);
  }

  // ----- printing loses nothing -----

  /** Two values whose texts agree up to what may follow a value are the same value. */
  lemma PrintUnique(a: Json, b: Json, r1: string, r2: string)
    requires Parsed(a) && Parsed(b) && Ends(r1) && Ends(r2)
    requires Print(a) + r1 == Print(b) + r2
    ensures a == b && r1 == r2
  {
    ReadsBack(a, r1);
    ReadsBack(b, r2);
  }

  /** `JSON.parse` gives back what `JSON.stringify` printed. */
  lemma ParseBack(j: Json)
    requires Parsed(j)
    ensures ReadValue(Print(j)) == Got(j, "")
  {
    assert Print(j) + "" == Print(j);
    ReadsBack(j, "");
  }

  /** `JSON.stringify` is injective on parsed values. */
  lemma PrintInjective(a: Json, b: Json)
    requires Parsed(a) && Parsed(b) && Print(a) == Print(b)
    ensures a == b
  {
    ParseBack(a);
    ParseBack(b);
  }
}
