/**
 JSON values as the JavaScript code holds them after `JSON.parse`.

 An object keeps its keys in enumeration order beside the map from key to
 value, because `JSON.stringify` prints in that order. Numbers are either
 integers or a decimal text, so that a number is known by what it prints.
 */
module Json {

  datatype Option<+T> = None | Some(value: T)

  datatype Number = Int(value: int) | Dec(text: string)

  datatype Json =
    | Null
    | Bool(b: bool)
    | Num(n: Number)
    | Str(s: string)
    | Arr(items: seq<Json>)
    | Obj(keys: seq<string>, fields: map<string, Json>)

  const EMPTY := Obj([], map[])

  /** `j?.k` for a plain value: absent unless `j` is an object with own key `k`. */
  function At(j: Json, k: string): Option<Json> {
    if j.Obj? && k in j.fields then Some(j.fields[k]) else None
  }

  function Child(o: Option<Json>, k: string): Option<Json> {
    if o.Some? then At(o.value, k) else None
  }

  /** `j[k] = v`: an existing key keeps its place, a new one goes last. */
  function Assign(j: Json, k: string, v: Json): (r: Json)
    requires j.Obj?
  {
    Obj(if k in j.fields then j.keys else j.keys + [k], j.fields[k := v])
  }

  /** `delete j[k]`. */
  function Delete(j: Json, k: string): Json
    requires j.Obj?
  {
    Obj(Without(j.keys, k), j.fields - {k})
  }

  /** JavaScript truthiness of a possibly missing value. */
  predicate Truthy(o: Option<Json>) {
    match o
    case None => false
    case Some(Null) => false
    case Some(Bool(b)) => b
    case Some(Num(n)) => n != Int(0)
    case Some(Str(s)) => s != ""
    case Some(_) => true
  }

  predicate IsObj(o: Option<Json>) {
    o.Some? && o.value.Obj?
  }

  /** The object held by `o`, or a fresh `{}` when it holds anything else. */
  function ObjOrEmpty(o: Option<Json>): (r: Json)
    ensures r.Obj?
  {
    if IsObj(o) then o.value else EMPTY
  }

  /** The characters `String.prototype.trim` removes: WhiteSpace and LineTerminator of ECMA-262. */
  predicate IsBlank(c: char) {
    '\t' <= c <= '\r' || c == ' ' || c == '\U{00A0}' || c == '\U{1680}' ||
    '\U{2000}' <= c <= '\U{200A}' || c == '\U{2028}' || c == '\U{2029}' ||
    c == '\U{202F}' || c == '\U{205F}' || c == '\U{3000}' || c == '\U{FEFF}'
  }

  function TrimStart(s: string): string {
    if s != "" && IsBlank(s[0]) then TrimStart(s[1..]) else s
  }

  function TrimEnd(s: string): string {
    if s != "" && IsBlank(s[|s| - 1]) then TrimEnd(s[..|s| - 1]) else s
  }

  function Trim(s: string): string {
    TrimEnd(TrimStart(s))
  }

  /** A string with something left after trimming. */
  predicate NonBlank(o: Option<Json>) {
    o.Some? && o.value.Str? && Trim(o.value.s) != ""
  }

  /** The keys of `more` that `keys` lacks, in the order of `more`. */
  function Fresh(keys: seq<string>, more: seq<string>): seq<string> {
    if more == [] then []
    else if more[0] in keys then Fresh(keys, more[1..])
    else [more[0]] + Fresh(keys, more[1..])
  }

  function AppendNew(keys: seq<string>, more: seq<string>): seq<string> {
    keys + Fresh(keys, more)
  }

  function Without(keys: seq<string>, k: string): seq<string> {
    if keys == [] then []
    else if keys[0] == k then Without(keys[1..], k)
    else [keys[0]] + Without(keys[1..], k)
  }

  ghost predicate Distinct<T>(items: seq<T>) {
    forall i, j :: 0 <= i < j < |items| ==> items[i] != items[j]
  }

  predicate IsDigit(c: char) {
    '0' <= c <= '9'
  }

  predicate NumberChar(c: char) {
    IsDigit(c) || c == '-' || c == '+' || c == '.' || c == 'e'
  }

  /** How a number that is not printed as a plain integer looks: `0.5`, `-1.25e-7`, `1e+21`. */
  predicate DecimalText(t: string) {
    t != "" && (IsDigit(t[0]) || t[0] == '-') && (forall c | c in t :: NumberChar(c)) && ('.' in t || 'e' in t)
  }

  /** What `JSON.parse` guarantees: each key of an object is listed exactly once, and numbers print as numbers. */
  ghost predicate Parsed(j: Json) {
    match j
    case Num(Dec(text)) => DecimalText(text)
    case Arr(items) => forall v | v in items :: Parsed(v)
    case Obj(keys, fields) =>
      Distinct(keys) && (forall k :: k in keys <==> k in fields) &&
      forall k | k in fields :: Parsed(fields[k])
    case _ => true
  }

  ghost predicate AllParsed(js: seq<Json>) {
    forall j | j in js :: Parsed(j)
  }

  /** `a ?? b`. */
  function Coalesce(a: Option<Json>, b: Option<Json>): Option<Json> {
    if a.Some? && a.value != Null then a else b
  }
}

module KeyLists {
  import opened Json

  lemma {:induction false} FreshMembers(keys: seq<string>, more: seq<string>)
    ensures forall k :: k in Fresh(keys, more) <==> k in more && k !in keys
  {
    if more != [] {
      FreshMembers(keys, more[1..]);
    }
  }

  lemma {:induction false} NothingFresh(keys: seq<string>, more: seq<string>)
    requires forall k | k in more :: k in keys
    ensures Fresh(keys, more) == []
    ensures AppendNew(keys, more) == keys
  {
    if more != [] {
      NothingFresh(keys, more[1..]);
    }
  }

  lemma {:induction false} AllFresh(more: seq<string>)
    ensures Fresh([], more) == more
    ensures AppendNew([], more) == more
  {
    if more != [] {
      AllFresh(more[1..]);
    }
  }

  /** Appending a list a second time adds nothing. */
  lemma AppendTwice(keys: seq<string>, more: seq<string>)
    ensures AppendNew(AppendNew(keys, more), more) == AppendNew(keys, more)
  {
    FreshMembers(keys, more);
    NothingFresh(AppendNew(keys, more), more);
  }

  lemma {:induction false} WithoutMembers(keys: seq<string>, k: string)
    ensures forall x :: x in Without(keys, k) <==> x in keys && x != k
  {
    if keys != [] {
      WithoutMembers(keys[1..], k);
    }
  }
}
