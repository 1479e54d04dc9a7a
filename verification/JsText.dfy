/** The texts JavaScript makes of values: `JSON.stringify`, `String(...)` and the default string order. */
module JsText {
  import opened Json

  // ----- numbers -----

  function Digits(n: nat): string {
    if n < 10 then [DigitChar(n)] else Digits(n / 10) + [DigitChar(n % 10)]
  }

  function DigitChar(d: nat): char
    requires d < 10
  {
    '0' + d as char
  }

  function IntText(i: int): string {
    if i < 0 then "-" + Digits(-i) else Digits(i)
  }

  function NumberText(n: Number): string {
    match n
    case Int(i) => IntText(i)
    case Dec(text) => text
  }

  // ----- the results of `Number(...)` -----

  type Decimal = t: string | DecimalText(t) witness "0.5"

  /** What `Number(...)` yields; a number that is not a plain integer is known by what it prints. */
  datatype JsNumber = NotFinite | Whole(whole: int) | Fraction(text: Decimal)

  /** The number as `JSON.stringify` prints it: without a value it is `null`. */
  function NumberJson(n: JsNumber): Json {
    match n
    case NotFinite => Null
    case Whole(i) => Num(Int(i))
    case Fraction(text) => Num(Dec(text))
  }

  /** `${n}` for a finite number. */
  function TemplateText(n: JsNumber): string {
    match n
    case NotFinite => "NaN"
    case Whole(i) => IntText(i)
    case Fraction(text) => text
  }

  function RealOf(n: JsNumber): real {
    match n
    case NotFinite => 0.0
    case Whole(i) => i as real
    case Fraction(text) => DecimalValue(text)
  }

  /** `Math.trunc`. */
  function Truncated(n: JsNumber): int {
    var v := RealOf(n);
    if v >= 0.0 then v.Floor else -((-v).Floor)
  }

  /** The value of a decimal text such as `-1.25e-7`. */
  function DecimalValue(text: string): real {
    if text != "" && text[0] == '-' then -Unsigned(text[1..]) else Unsigned(text)
  }

  function Unsigned(text: string): real {
    var m := Mantissa(text);
    Scaled(DigitsValue(BeforePoint(m) + AfterPoint(m)), Exponent(text) - |AfterPoint(m)|)
  }

  function Mantissa(text: string): string {
    text[..PositionOf(text, 'e')]
  }

  function Exponent(text: string): int {
    var e := PositionOf(text, 'e');
    if e < |text| then SignedValue(text[e + 1..]) else 0
  }

  function BeforePoint(m: string): string {
    m[..PositionOf(m, '.')]
  }

  function AfterPoint(m: string): string {
    var dot := PositionOf(m, '.');
    if dot < |m| then m[dot + 1..] else ""
  }

  function PositionOf(text: string, c: char): (i: nat)
    ensures i <= |text|
    ensures i < |text| ==> text[i] == c
  {
    if text == "" || text[0] == c then 0 else 1 + PositionOf(text[1..], c)
  }

  function DigitsValue(text: string): nat {
    if text == "" then 0
    else
      var n := |text| - 1;
      10 * DigitsValue(text[..n]) + if IsDigit(text[n]) then (text[n] - '0') as nat else 0
  }

  function SignedValue(text: string): int {
    if text != "" && text[0] == '-' then -(DigitsValue(text[1..]) as int) else DigitsValue(text)
  }

  /** `n` times ten to the power `e`. */
  function Scaled(n: int, e: int): real
    decreases if e < 0 then -e else e
  {
    if e == 0 then n as real else if e > 0 then 10.0 * Scaled(n, e - 1) else Scaled(n, e + 1) / 10.0
  }

  // ----- strings -----

  function HexChar(d: nat): char
    requires d < 16
  {
    if d < 10 then '0' + d as char else 'a' + (d - 10) as char
  }

  /** One character as `JSON.stringify` prints it, section 7 of RFC 8259. */
  function EscapeChar(c: char): string {
    if c == '"' then "\\\""
    else if c == '\\' then "\\\\"
    else if c == '\U{0008}' then "\\b"
    else if c == '\U{000C}' then "\\f"
    else if c == '\n' then "\\n"
    else if c == '\r' then "\\r"
    else if c == '\t' then "\\t"
    else if c < ' ' then "\\u00" + [HexChar(c as int / 16), HexChar(c as int % 16)]
    else [c]
  }

  /** The characters of `s`, escaped, and the closing quote. */
  function QuoteTail(s: string): string {
    if s == "" then "\"" else EscapeChar(s[0]) + QuoteTail(s[1..])
  }

  function Quote(s: string): string {
    "\"" + QuoteTail(s)
  }

  // ----- JSON.stringify -----

  function Print(j: Json): string
    requires Parsed(j)
    decreases j, 1
  {
    match j
    case Null => "null"
    case Bool(b) => if b then "true" else "false"
    case Num(n) => NumberText(n)
    case Str(s) => Quote(s)
    case Arr(items) => if items == [] then "[]" else "[" + Print(items[0]) + ItemsTail(items[1..])
    case Obj(keys, fields) => if keys == [] then "{}" else "{" + Pair(j, keys[0]) + PairsTail(j, keys[1..])
  }

  function ItemsTail(items: seq<Json>): string
    requires forall v | v in items :: Parsed(v)
    decreases items, 0
  {
    if items == [] then "]" else "," + Print(items[0]) + ItemsTail(items[1..])
  }

  function Pair(o: Json, k: string): string
    requires o.Obj? && Parsed(o) && k in o.fields
    decreases o, 0, 0
  {
    Quote(k) + ":" + Print(o.fields[k])
  }

  function PairsTail(o: Json, keys: seq<string>): string
    requires o.Obj? && Parsed(o) && forall k | k in keys :: k in o.fields
    decreases o, 0, |keys| + 1
  {
    if keys == [] then "}" else "," + Pair(o, keys[0]) + PairsTail(o, keys[1..])
  }

  // ----- String(...) -----

  function ToText(j: Json): string
    decreases j, 1
  {
    match j
    case Null => "null"
    case Bool(b) => if b then "true" else "false"
    case Num(n) => NumberText(n)
    case Str(s) => s
    case Arr(items) => JoinText(items)
    case Obj(_, _) => "[object Object]"
  }

  /** `items.join(',')`, where null entries print as nothing. */
  function JoinText(items: seq<Json>): string
    decreases items, 0
  {
    if items == [] then ""
    else
      var first := if items[0] == Null then "" else ToText(items[0]);
      if |items| == 1 then first else first + "," + JoinText(items[1..])
  }

  // ----- the order of `Array.prototype.sort` on strings -----

  /** Characters in the order of their UTF-16 code units: those beyond U+FFFF start with a surrogate. */
  function CodeUnitRank(c: char): int {
    if c < '\U{D7FF}' || c == '\U{D7FF}' then c as int
    else if c as int >= 0x10000 then c as int - 0x10000 + 0xD800
    else c as int + 0x200000
  }

  predicate TextLess(a: string, b: string) {
    if b == "" then false
    else if a == "" then true
    else if a[0] == b[0] then TextLess(a[1..], b[1..])
    else CodeUnitRank(a[0]) < CodeUnitRank(b[0])
  }

  function InsertKey(less: (string, string) -> bool, k: string, sorted: seq<string>): seq<string> {
    if sorted == [] || !less(sorted[0], k) then [k] + sorted
    else [sorted[0]] + InsertKey(less, k, sorted[1..])
  }

  function SortKeys(less: (string, string) -> bool, keys: seq<string>): seq<string> {
    if keys == [] then [] else InsertKey(less, keys[0], SortKeys(less, keys[1..]))
  }

  /** `keys.sort()`. */
  function Sorted(keys: seq<string>): seq<string> {
    SortKeys((a, b) => TextLess(a, b), keys)
  }

  /** Keys such as "0" and "42", which every object lists first and by number. */
  predicate IsIndex(k: string) {
    k == "0" ||
    (k != "" && k[0] != '0' && (forall c | c in k :: IsDigit(c)) &&
     (|k| < 10 || (|k| == 10 && !TextLess("4294967294", k))))
  }

  /** Numeric order on index keys: they have no leading zeros. */
  predicate IndexLess(a: string, b: string) {
    |a| < |b| || (|a| == |b| && TextLess(a, b))
  }

  function Select(keys: seq<string>, index: bool): seq<string> {
    if keys == [] then []
    else (if IsIndex(keys[0]) == index then [keys[0]] else []) + Select(keys[1..], index)
  }

  /** The order in which an object lists keys that were added in the order `keys`. */
  function ListingOrder(keys: seq<string>): seq<string> {
    SortKeys((a, b) => IndexLess(a, b), Select(keys, true)) + Select(keys, false)
  }
}
