/**
 Reading assistant text out of gateway frames: `gatewayResponseText.js` and the
 decision part of `gatewayAssistantDispatch.js`.
 */
module ReplyText {
  import opened Json
  import opened JsText

  // ----- blank and lower-case texts -----

  ghost predicate HasInk(s: string) {
    exists c :: c in s && !IsBlank(c)
  }

  lemma {:induction false} TrimStartKeepsInk(s: string)
    ensures HasInk(TrimStart(s)) <==> HasInk(s)
    ensures TrimStart(s) == "" || !IsBlank(TrimStart(s)[0])
  {
    if s != "" && IsBlank(s[0]) {
      TrimStartKeepsInk(s[1..]);
      assert forall c | c in s && !IsBlank(c) :: c in s[1..];
      assert forall c | c in s[1..] :: c in s;
    }
  }

  lemma {:induction false} TrimEndKeepsInk(s: string)
    ensures HasInk(TrimEnd(s)) <==> HasInk(s)
    ensures TrimEnd(s) == "" || !IsBlank(TrimEnd(s)[|TrimEnd(s)| - 1])
  {
    if s != "" && IsBlank(s[|s| - 1]) {
      var rest := s[..|s| - 1];
      TrimEndKeepsInk(rest);
      assert forall c | c in s && !IsBlank(c) :: c in rest;
      assert forall c | c in rest :: c in s;
    }
  }

  /** Trimming leaves something exactly when there is a character that is not blank, and keeps it. */
  lemma TrimInk(s: string)
    ensures Trim(s) != "" <==> HasInk(s)
    ensures HasInk(Trim(s)) <==> HasInk(s)
  {
    TrimStartKeepsInk(s);
    TrimEndKeepsInk(TrimStart(s));
    var t := Trim(s);
    assert t != "" ==> t[|t| - 1] in t;
  }

  function Lower(s: string): string {
    if s == "" then "" else [if 'A' <= s[0] <= 'Z' then s[0] + ' ' else s[0]] + Lower(s[1..])
  }

  /** `String(o ?? '').toLowerCase()`. */
  function LowerText(o: Option<Json>): string {
    if o.Some? && o.value != Null then Lower(ToText(o.value)) else ""
  }

  predicate Present(o: Option<Json>) {
    o.Some? && o.value != Null
  }

  // ----- text extraction -----

  function TrimmedText(o: Option<Json>): (t: Option<string>)
    ensures t.Some? ==> HasInk(t.value)
  {
    if NonBlank(o) then
      TrimInk(o.value.s);
      Some(Trim(o.value.s))
    else None
  }

  function Parts(blocks: seq<Json>): string {
    if blocks == [] then ""
    else (if NonBlank(At(blocks[0], "text")) then Trim(blocks[0].fields["text"].s) else "") + Parts(blocks[1..])
  }

  lemma {:induction false} PartsInk(blocks: seq<Json>)
    ensures HasInk(Parts(blocks)) <==> exists b :: b in blocks && NonBlank(At(b, "text"))
    ensures Parts(blocks) != "" <==> HasInk(Parts(blocks))
  {
    if blocks != [] {
      PartsInk(blocks[1..]);
      var rest := Parts(blocks[1..]);
      if NonBlank(At(blocks[0], "text")) {
        var first := Trim(blocks[0].fields["text"].s);
        TrimInk(blocks[0].fields["text"].s);
        var c :| c in first && !IsBlank(c);
        assert c in first + rest;
        assert blocks[0] in blocks;
      } else {
        assert "" + rest == rest;
        assert forall b | b in blocks && NonBlank(At(b, "text")) :: b in blocks[1..];
      }
    }
  }

  function TextFromContent(content: Json): (t: Option<string>)
    ensures t.Some? ==> HasInk(t.value)
  {
    if NonBlank(Some(content)) then TrimmedText(Some(content))
    else if !content.Arr? then None
    else
      PartsInk(content.items);
      if Parts(content.items) == "" then None else Some(Parts(content.items))
  }

  /** The loop that collects the text blocks. */
  method TextFromMessageContent(content: Json) returns (t: Option<string>)
    ensures t == TextFromContent(content)
  {
    if NonBlank(Some(content)) { return Some(Trim(content.s)); }
    if !content.Arr? { return None; }
    var joined := "";
    var count := 0;
    for i := 0 to |content.items|
      invariant joined + Parts(content.items[i..]) == Parts(content.items)
      invariant count > 0 <==> joined != ""
    {
      var block := content.items[i];
      assert content.items[i..][0] == block && content.items[i..][1..] == content.items[i + 1..];
      if NonBlank(At(block, "text")) {
        joined := joined + Trim(block.fields["text"].s);
        count := count + 1;
      }
    }
    assert content.items[|content.items|..] == [] && joined + "" == joined;
    if count == 0 { return None; }
    return Some(joined);
  }

  function ContentText(o: Option<Json>): (t: Option<string>)
    ensures t.Some? ==> HasInk(t.value)
  {
    if o.Some? then TextFromContent(o.value) else None
  }

  function TextFromData(data: Json): (t: Option<string>)
    ensures t.Some? ==> HasInk(t.value)
    decreases data
  {
    if !data.Obj? then None
    else if NonBlank(At(data, "text")) then TrimmedText(At(data, "text"))
    else if NonBlank(At(data, "delta")) then
      TrimInk(data.fields["delta"].s);
      Some(data.fields["delta"].s)
    else
      var fromMessage := if Present(At(data, "message")) then TextFromObject(data.fields["message"]) else None;
      if fromMessage.Some? then fromMessage else ContentText(At(data, "content"))
  }

  function TextFromObject(obj: Json): (t: Option<string>)
    ensures t.Some? ==> HasInk(t.value)
    decreases obj
  {
    if NonBlank(Some(obj)) then TrimmedText(Some(obj))
    else if !obj.Obj? then None
    else if NonBlank(At(obj, "text")) then TrimmedText(At(obj, "text"))
    else
      var fromData := if Present(At(obj, "data")) then TextFromData(obj.fields["data"]) else None;
      if fromData.Some? then fromData
      else
        var fromMessage := TextFromMessage(At(obj, "message"));
        if fromMessage.Some? then fromMessage else ContentText(At(obj, "content"))
  }

  /** A message directly inside a payload is not searched any deeper than its text and content. */
  function TextFromMessage(m: Option<Json>): (t: Option<string>)
    ensures t.Some? ==> HasInk(t.value)
  {
    if NonBlank(m) then TrimmedText(m)
    else if !IsObj(m) then None
    else if NonBlank(At(m.value, "text")) then TrimmedText(At(m.value, "text"))
    else ContentText(At(m.value, "content"))
  }

  predicate IsObject(o: Option<Json>) {
    o.Some? && (o.value.Obj? || o.value.Arr?)
  }

  /** The frame only says that the turn was accepted. */
  predicate AcceptedAck(msg: Json) {
    if !msg.Obj? then false
    else if !IsObject(At(msg, "payload")) then
      Truthy(At(msg, "status")) && Lower(ToText(msg.fields["status"])) == "accepted"
    else
      var p := msg.fields["payload"];
      LowerText(Coalesce(At(p, "status"), At(p, "state"))) == "accepted" && TextFromObject(p).None?
  }

  function ErrorValue(msg: Json): Option<Json> {
    var e := At(msg, "error");
    if IsObject(e) then (if Truthy(At(e.value, "message")) then At(e.value, "message") else At(e.value, "code")) else e
  }

  function ErrorText(msg: Json): (t: string)
    ensures HasInk(t)
  {
    var t := if Present(ErrorValue(msg)) then "[error] " + ToText(ErrorValue(msg).value) else "[error]";
    assert t[0] == '[' && t[0] in t;
    t
  }

  function AssistantText(msg: Json): (t: Option<string>)
    ensures t.Some? ==> HasInk(t.value)
  {
    if !msg.Obj? then None
    else if At(msg, "type") == Some(Str("res")) && At(msg, "ok") == Some(Bool(false)) then Some(ErrorText(msg))
    else if AcceptedAck(msg) then None
    else
      var fromPayload := if "payload" in msg.fields then TextFromObject(msg.fields["payload"]) else None;
      if fromPayload.Some? then fromPayload else TrimmedText(At(msg, "text"))
  }

  // ----- the delivery decision -----

  function RunId(msg: Json): (id: Option<string>)
    ensures id.Some? ==> HasInk(id.value)
  {
    if !msg.Obj? then None
    else
      var p := if "payload" in msg.fields then msg.fields["payload"] else Null;
      var d := if p.Obj? && "data" in p.fields then p.fields["data"] else Null;
      if NonBlank(At(msg, "runId")) then TrimmedText(At(msg, "runId"))
      else if NonBlank(At(msg, "idempotencyKey")) then TrimmedText(At(msg, "idempotencyKey"))
      else if NonBlank(At(p, "runId")) then TrimmedText(At(p, "runId"))
      else if NonBlank(At(p, "idempotencyKey")) then TrimmedText(At(p, "idempotencyKey"))
      else if NonBlank(At(d, "runId")) then TrimmedText(At(d, "runId"))
      else if NonBlank(At(d, "idempotencyKey")) then TrimmedText(At(d, "idempotencyKey"))
      else if At(msg, "type") == Some(Str("res")) then TrimmedText(At(msg, "id"))
      else None
  }

  predicate IsEvent(msg: Json, name: string) {
    At(msg, "type") == Some(Str("event")) && At(msg, "event") == Some(Str(name))
  }

  predicate ChatFinal(msg: Json) {
    IsEvent(msg, "chat") &&
    var p := At(msg, "payload");
    var state := if IsObject(p) then At(p.value, "state") else None;
    LowerText(Coalesce(state, At(msg, "state"))) == "final"
  }

  predicate AgentEnd(msg: Json) {
    IsEvent(msg, "agent") && IsObject(At(msg, "payload")) &&
    var p := msg.fields["payload"];
    var d := if IsObject(At(p, "data")) then p.fields["data"] else EMPTY;
    var phase := LowerText(Coalesce(At(p, "phase"), Coalesce(At(p, "lifecycle"),
                                    Coalesce(At(d, "phase"), At(d, "lifecycle")))));
    phase == "end" || phase == "done" || phase == "complete" ||
    (LowerText(Coalesce(At(p, "stream"), At(d, "stream"))) == "lifecycle" && At(d, "status") == Some(Str("end")))
  }

  datatype Cause =
    | Invalid | ConnectChallenge | ChatFinalCause | AgentEndCause | AgentStream | OtherEvent | AckCause | ResCause | Ignored

  /** The program's `deliver` flag is set exactly where there is a text. */
  datatype Decision = Decision(text: Option<string>, runId: Option<string>, cause: Cause)

  /** The text of an event is read as if its payload had come in an ok response. */
  function AsResponse(msg: Json): Json
    requires msg.Obj?
  {
    var head := map["type" := Str("res"), "ok" := Bool(true)];
    if "payload" in msg.fields
    then Obj(["type", "ok", "payload"], head["payload" := msg.fields["payload"]])
    else Obj(["type", "ok"], head)
  }

  function Evaluate(msg: Json): (d: Decision)
    ensures d.text.Some? ==> HasInk(d.text.value)
    ensures d.runId.Some? ==> HasInk(d.runId.value)
  {
    if !msg.Obj? then Decision(None, None, if msg.Arr? then Ignored else Invalid)
    else if At(msg, "type") == Some(Str("event")) then
      if IsEvent(msg, "connect.challenge") then Decision(None, None, ConnectChallenge)
      else if ChatFinal(msg) then Decision(AssistantText(AsResponse(msg)), RunId(msg), ChatFinalCause)
      else if IsEvent(msg, "agent") then
        if AgentEnd(msg) then Decision(AssistantText(AsResponse(msg)), RunId(msg), AgentEndCause)
        else Decision(None, RunId(msg), AgentStream)
      else Decision(None, RunId(msg), OtherEvent)
    else if At(msg, "type") == Some(Str("res")) then
      if AcceptedAck(msg) then Decision(None, RunId(msg), AckCause)
      else Decision(AssistantText(msg), RunId(msg), ResCause)
    else Decision(None, None, Ignored)
  }
}
