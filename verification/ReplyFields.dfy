/** Which frames deliver a reply, which field of a frame it comes from, and under which key it is known. */
module ReplyFields {
  import opened Json
  import opened JsText
  import opened ReplyText
  import opened ReplyDeduper

  // ----- the first field that holds text -----

  /** The first of some values that is a text with something in it, trimmed. */
  function FirstText(values: seq<Option<Json>>): Option<string> {
    if values == [] then None
    else if values[0].Some? && values[0].value.Str? && Trim(values[0].value.s) != "" then Some(Trim(values[0].value.s))
    else FirstText(values[1..])
  }

  lemma FirstOfMore(v: Option<Json>, more: seq<Option<Json>>)
    ensures FirstText([v] + more) == if NonBlank(v) then Some(Trim(v.value.s)) else FirstText(more)
  {
    assert ([v] + more)[1..] == more;
  }

  lemma FirstOfOne(v: Option<Json>)
    ensures FirstText([v]) == if NonBlank(v) then Some(Trim(v.value.s)) else None
  {
    assert [v] == [v] + [];
    FirstOfMore(v, []);
  }

  /** A run id is looked for in the frame, in its payload, and in the data of that; last, a response has its request's id. */
  lemma RunIdExactly(msg: Json)
    requires msg.Obj?
    ensures var p := At(msg, "payload");
            var d := if IsObj(p) then At(p.value, "data") else None;
            var inPayload := if IsObj(p) then [At(p.value, "runId"), At(p.value, "idempotencyKey")] else [];
            var inData := if IsObj(d) then [At(d.value, "runId"), At(d.value, "idempotencyKey")] else [];
            var last := if At(msg, "type") == Some(Str("res")) then [At(msg, "id")] else [];
            RunId(msg) == FirstText([At(msg, "runId"), At(msg, "idempotencyKey")] + (inPayload + (inData + last)))
  {
    var p := At(msg, "payload");
    var d := if IsObj(p) then At(p.value, "data") else None;
    var inPayload := if IsObj(p) then [At(p.value, "runId"), At(p.value, "idempotencyKey")] else [];
    var inData := if IsObj(d) then [At(d.value, "runId"), At(d.value, "idempotencyKey")] else [];
    var last := if At(msg, "type") == Some(Str("res")) then [At(msg, "id")] else [];
    if last != [] { FirstOfOne(At(msg, "id")); }
    FirstOfPair(At(msg, "runId"), At(msg, "idempotencyKey"), inPayload + (inData + last));
    if IsObj(p) { FirstOfPair(At(p.value, "runId"), At(p.value, "idempotencyKey"), inData + last); }
    if IsObj(d) { FirstOfPair(At(d.value, "runId"), At(d.value, "idempotencyKey"), last); }
    assert [] + (inData + last) == inData + last && [] + last == last;
  }

  lemma FirstOfPair(a: Option<Json>, b: Option<Json>, more: seq<Option<Json>>)
    ensures FirstText([a, b] + more) ==
            if NonBlank(a) then Some(Trim(a.value.s)) else if NonBlank(b) then Some(Trim(b.value.s)) else FirstText(more)
  {
    assert [a, b] + more == [a] + ([b] + more);
    FirstOfMore(a, [b] + more);
    FirstOfMore(b, more);
  }

  // ----- content, messages and payloads -----

  lemma {:induction false} PartsJoin(a: seq<Json>, b: seq<Json>)
    ensures Parts(a + b) == Parts(a) + Parts(b)
  {
    if a == [] {
      assert a + b == b;
    } else {
      assert (a + b)[0] == a[0] && (a + b)[1..] == a[1..] + b;
      PartsJoin(a[1..], b);
      var first := if NonBlank(At(a[0], "text")) then Trim(a[0].fields["text"].s) else "";
      assert Parts(a) == first + Parts(a[1..]) && Parts(a + b) == first + Parts(a[1..] + b);
      Reassociate(first, Parts(a[1..]), Parts(b));
    }
  }

  lemma Reassociate(a: string, b: string, c: string)
    ensures (a + b) + c == a + (b + c)
  {
  }

  lemma PartsOne(block: Json)
    ensures Parts([block]) == if FirstText([At(block, "text")]).Some? then FirstText([At(block, "text")]).value else ""
  {
    FirstOfOne(At(block, "text"));
    assert [block][1..] == [];
  }

  /** Content is a text, or a list of blocks whose texts are joined. */
  lemma ContentExactly(content: Json)
    ensures content.Str? ==> TextFromContent(content) == FirstText([Some(content)])
    ensures content.Arr? ==> TextFromContent(content) == if Parts(content.items) == "" then None else Some(Parts(content.items))
    ensures !content.Str? && !content.Arr? ==> TextFromContent(content) == None
  {
    FirstOfOne(Some(content));
  }

  function OrElseText(first: Option<string>, second: Option<string>): Option<string> {
    if first.Some? then first else second
  }

  function ContentOf(o: Option<Json>): Option<string> {
    if o.Some? then TextFromContent(o.value) else None
  }

  /** A payload's `text` goes first, then its `data`, then its `message`, then its `content`. */
  lemma PayloadExactly(p: Json)
    requires p.Obj?
    ensures TextFromObject(p) ==
            OrElseText(FirstText([At(p, "text")]),
            OrElseText(if IsObj(At(p, "data")) then TextFromData(p.fields["data"]) else None,
            OrElseText(if IsObj(At(p, "message"))
                       then OrElseText(FirstText([At(p.fields["message"], "text")]), ContentOf(At(p.fields["message"], "content")))
                       else FirstText([At(p, "message")]),
            ContentOf(At(p, "content")))))
  {
    FirstOfOne(At(p, "text"));
    FirstOfOne(At(p, "message"));
    if IsObj(At(p, "message")) { FirstOfOne(At(p.fields["message"], "text")); }
  }

  /** In `data` its `text` goes first, then a `delta` as it is, then a message read like a payload, then the content. */
  lemma DataExactly(d: Json)
    requires d.Obj?
    ensures TextFromData(d) ==
            OrElseText(FirstText([At(d, "text")]),
            OrElseText(if NonBlank(At(d, "delta")) then Some(d.fields["delta"].s) else None,
            OrElseText(if IsObj(At(d, "message")) then TextFromObject(d.fields["message"]) else FirstText([At(d, "message")]),
            ContentOf(At(d, "content")))))
  {
    FirstOfOne(At(d, "text"));
    FirstOfOne(At(d, "message"));
  }

  // ----- final frames -----

  /** The first value that is there and not null. */
  function FirstPresent(values: seq<Option<Json>>): Option<Json> {
    if values == [] then None
    else if values[0].Some? && !values[0].value.Null? then values[0]
    else FirstPresent(values[1..])
  }

  /** The first value present reads as `word`, whatever its case. */
  predicate Reads(values: seq<Option<Json>>, word: string) {
    FirstPresent(values).Some? && Lower(ToText(FirstPresent(values).value)) == word
  }

  lemma FirstPresentOf(v: Option<Json>, more: seq<Option<Json>>)
    ensures FirstPresent([v] + more) == if v.Some? && v.value != Null then v else FirstPresent(more)
  {
    assert ([v] + more)[1..] == more;
  }

  lemma ReadsOne(a: Option<Json>, word: string)
    requires word != ""
    ensures Reads([a], word) <==> LowerText(a) == word
  {
    assert [a] == [a] + [];
    FirstPresentOf(a, []);
  }

  lemma ReadsMore(a: Option<Json>, b: Option<Json>, more: seq<Option<Json>>, word: string)
    requires word != "" && (Reads(more, word) <==> LowerText(b) == word)
    ensures Reads([a] + more, word) <==> LowerText(Coalesce(a, b)) == word
  {
    FirstPresentOf(a, more);
  }

  lemma ReadsTwo(a: Option<Json>, b: Option<Json>, word: string)
    requires word != ""
    ensures Reads([a, b], word) <==> LowerText(Coalesce(a, b)) == word
  {
    ReadsOne(b, word);
    ReadsMore(a, b, [b], word);
    assert [a, b] == [a] + [b];
  }

  lemma ReadsFour(a: Option<Json>, b: Option<Json>, c: Option<Json>, d: Option<Json>, word: string)
    requires word != ""
    ensures Reads([a, b, c, d], word) <==> LowerText(Coalesce(a, Coalesce(b, Coalesce(c, d)))) == word
  {
    ReadsTwo(c, d, word);
    ReadsMore(b, Coalesce(c, d), [c, d], word);
    ReadsMore(a, Coalesce(b, Coalesce(c, d)), [b] + [c, d], word);
    assert [a, b, c, d] == [a] + ([b] + [c, d]);
  }

  /** A chat event that says its state is final, in its payload or else itself. */
  predicate FinalChat(msg: Json) {
    At(msg, "type") == Some(Str("event")) && At(msg, "event") == Some(Str("chat")) &&
    Reads([Child(At(msg, "payload"), "state"), At(msg, "state")], "final")
  }

  /** Where an agent event says its phase: the payload, or else the data in it. */
  function Phases(msg: Json): seq<Option<Json>> {
    var p := At(msg, "payload");
    var d := Child(p, "data");
    [Child(p, "phase"), Child(p, "lifecycle"), Child(d, "phase"), Child(d, "lifecycle")]
  }

  /** An agent event that says its phase is over, or its lifecycle ended. */
  predicate FinalAgent(msg: Json) {
    At(msg, "type") == Some(Str("event")) && At(msg, "event") == Some(Str("agent")) &&
    var p := At(msg, "payload");
    var d := Child(p, "data");
    Reads(Phases(msg), "end") || Reads(Phases(msg), "done") || Reads(Phases(msg), "complete") ||
    (Reads([Child(p, "stream"), Child(d, "stream")], "lifecycle") && Child(d, "status") == Some(Str("end")))
  }

  lemma FinalChatExactly(msg: Json)
    ensures FinalChat(msg) <==> ChatFinal(msg)
  {
    var p := At(msg, "payload");
    ReadsTwo(Child(p, "state"), At(msg, "state"), "final");
  }

  lemma PhaseReads(msg: Json, word: string)
    requires word != ""
    ensures var p := At(msg, "payload");
            var d := Child(p, "data");
            Reads(Phases(msg), word) <==>
            LowerText(Coalesce(Child(p, "phase"), Coalesce(Child(p, "lifecycle"),
                               Coalesce(Child(d, "phase"), Child(d, "lifecycle"))))) == word
  {
    var p := At(msg, "payload");
    var d := Child(p, "data");
    ReadsFour(Child(p, "phase"), Child(p, "lifecycle"), Child(d, "phase"), Child(d, "lifecycle"), word);
  }

  lemma FinalAgentExactly(msg: Json)
    ensures FinalAgent(msg) <==> AgentEnd(msg)
  {
    var p := At(msg, "payload");
    var d := Child(p, "data");
    PhaseReads(msg, "end");
    PhaseReads(msg, "done");
    PhaseReads(msg, "complete");
    ReadsTwo(Child(p, "stream"), Child(d, "stream"), "lifecycle");
  }

  predicate IsResponse(msg: Json) {
    At(msg, "type") == Some(Str("res"))
  }

  predicate Failed(msg: Json) {
    At(msg, "ok") == Some(Bool(false))
  }

  /** A response that only says the turn was accepted: itself without a payload object, or in a payload without text. */
  predicate Acknowledges(msg: Json) {
    var p := At(msg, "payload");
    if p.Some? && (p.value.Obj? || p.value.Arr?)
    then Reads([Child(p, "status"), Child(p, "state")], "accepted") && TextFromObject(p.value).None?
    else Truthy(At(msg, "status")) && Reads([At(msg, "status")], "accepted")
  }

  lemma AcknowledgesExactly(msg: Json)
    requires msg.Obj?
    ensures Acknowledges(msg) <==> AcceptedAck(msg)
  {
    var p := At(msg, "payload");
    ReadsTwo(Child(p, "status"), Child(p, "state"), "accepted");
    ReadsOne(At(msg, "status"), "accepted");
  }

  /** The key of a reply: its run, or without one its text. */
  function ReplyKey(run: Option<string>, text: string): string {
    if run.Some? then "run:" + run.value else "text:" + text
  }

  lemma {:induction false} TrimmedEnd(s: string)
    ensures TrimEnd(TrimEnd(s)) == TrimEnd(s)
  {
    TrimEndKeepsInk(s);
  }

  lemma {:induction false} EndKeepsStart(s: string)
    requires s == "" || !IsBlank(s[0])
    ensures TrimEnd(s) == "" || (TrimEnd(s)[0] == s[0] && s != "")
    decreases |s|
  {
    if s != "" && IsBlank(s[|s| - 1]) {
      EndKeepsStart(s[..|s| - 1]);
    }
  }

  lemma TrimTwice(s: string)
    ensures Trim(Trim(s)) == Trim(s)
  {
    TrimStartKeepsInk(s);
    EndKeepsStart(TrimStart(s));
    TrimmedEnd(TrimStart(s));
    assert TrimStart(Trim(s)) == Trim(s);
  }

  /** Two replies have one key exactly when they have one run, or have none and one trimmed text. */
  lemma KeysExactly(r: Option<string>, t: string, r': Option<string>, t': string)
    requires (r.Some? ==> Trim(r.value) != "") && (r'.Some? ==> Trim(r'.value) != "")
    ensures KeyOf(r, t) == KeyOf(r', t') <==> (r.Some? && r == r') || (r.None? && r'.None? && Trim(t) == Trim(t'))
  {
    var k, k' := KeyOf(r, t), KeyOf(r', t');
    assert k[0] == if r.Some? then 'r' else 't';
    assert k'[0] == if r'.Some? then 'r' else 't';
    if r.Some? && r'.Some? {
      assert k[4..] == r.value && k'[4..] == r'.value;
    } else if r.None? && r'.None? {
      assert k[5..] == Trim(t) && k'[5..] == Trim(t');
    }
  }

  lemma KeyIs(r: Option<string>, t: string)
    requires r.Some? ==> Trim(r.value) != ""
    ensures KeyOf(r, t) == ReplyKey(r, Trim(t))
  {
  }

  /** What is handed over when a frame says `t` under the run `run`. */
  function HandedOver(t: Option<string>, run: Option<string>, recent: seq<string>): Option<string> {
    if t.None? || ReplyKey(run, Trim(t.value)) in recent then None else t
  }

  lemma RunIsInk(msg: Json)
    ensures RunId(msg).Some? ==> Trim(RunId(msg).value) != ""
  {
    if RunId(msg).Some? { TrimInk(RunId(msg).value); }
  }

  lemma DeliveredIs(msg: Json, recent: seq<string>)
    requires Evaluate(msg).runId == RunId(msg)
    ensures Delivered(msg, recent) == HandedOver(Evaluate(msg).text, RunId(msg), recent)
  {
    RunIsInk(msg);
    if Evaluate(msg).text.Some? { KeyIs(RunId(msg), Evaluate(msg).text.value); }
  }

  /** An event delivers exactly what its payload says, if it is final and its key is not remembered; any other delivers nothing. */
  lemma EventDelivers(msg: Json, recent: seq<string>)
    requires msg.Obj? && At(msg, "type") == Some(Str("event"))
    ensures Delivered(msg, recent) ==
            if FinalChat(msg) || FinalAgent(msg) then HandedOver(PayloadSays(msg), RunId(msg), recent) else None
  {
    FinalChatExactly(msg);
    FinalAgentExactly(msg);
    if FinalChat(msg) || FinalAgent(msg) {
      PayloadAsResponse(msg);
      FinalDecision(msg);
      DeliveredIs(msg, recent);
    } else {
      NothingSaid(msg, recent);
    }
  }

  function PayloadSays(msg: Json): Option<string> {
    if At(msg, "payload").Some? then TextFromObject(At(msg, "payload").value) else None
  }

  lemma PayloadAsResponse(msg: Json)
    requires msg.Obj?
    ensures AssistantText(AsResponse(msg)) == PayloadSays(msg)
  {
    var r := AsResponse(msg);
    assert At(r, "payload") == At(msg, "payload") && At(r, "text").None? && At(r, "ok") == Some(Bool(true)) && At(r, "status").None?;
  }

  lemma FinalDecision(msg: Json)
    requires msg.Obj? && At(msg, "type") == Some(Str("event")) && (ChatFinal(msg) || AgentEnd(msg))
    ensures Evaluate(msg).text == AssistantText(AsResponse(msg)) && Evaluate(msg).runId == RunId(msg)
  {
  }

  lemma NothingSaid(msg: Json, recent: seq<string>)
    requires msg.Obj? && At(msg, "type") == Some(Str("event")) && !ChatFinal(msg) && !AgentEnd(msg)
    ensures Delivered(msg, recent) == None
  {
  }

  lemma OtherFramesAreSilent(msg: Json, recent: seq<string>)
    requires At(msg, "type") != Some(Str("event")) && !IsResponse(msg)
    ensures Delivered(msg, recent) == None
  {
  }

  /** A response delivers what its payload says, or else its own text; a bare acknowledgement delivers nothing. */
  lemma ResponseDelivers(msg: Json, recent: seq<string>)
    requires msg.Obj? && IsResponse(msg) && !Failed(msg)
    ensures Delivered(msg, recent) ==
            if Acknowledges(msg) then None
            else HandedOver(OrElseText(PayloadSays(msg), FirstText([At(msg, "text")])), RunId(msg), recent)
  {
    AcknowledgesExactly(msg);
    DeliveredIs(msg, recent);
    FirstOfOne(At(msg, "text"));
  }

  /** So a text in the payload of any final frame is delivered, trimmed, exactly when its key is not remembered. */
  lemma TextIsDelivered(msg: Json, recent: seq<string>, t: string)
    requires FinalChat(msg) || FinalAgent(msg) || (IsResponse(msg) && !Failed(msg))
    requires Child(At(msg, "payload"), "text") == Some(Str(t)) && Trim(t) != ""
    ensures Delivered(msg, recent) == if ReplyKey(RunId(msg), Trim(t)) in recent then None else Some(Trim(t))
  {
    var p := msg.fields["payload"];
    PayloadExactly(p);
    FirstOfOne(At(p, "text"));
    TrimTwice(t);
    if IsResponse(msg) { ResponseDelivers(msg, recent); } else { EventDelivers(msg, recent); }
  }

  /** What went wrong: the message of the error, or its code when that is falsy, or the error itself when it is no object. */
  function Trouble(msg: Json): Option<Json> {
    var e := At(msg, "error");
    if e.None? || !(e.value.Obj? || e.value.Arr?) then e
    else if Truthy(Child(e, "message")) then Child(e, "message")
    else Child(e, "code")
  }

  /** A failed response is delivered as an error text, which says what went wrong if it says anything. */
  lemma ErrorIsDelivered(msg: Json, recent: seq<string>)
    requires msg.Obj? && IsResponse(msg) && Failed(msg)
    ensures var why := FirstPresent([Trouble(msg)]);
            Delivered(msg, recent) ==
            if Acknowledges(msg) then None
            else HandedOver(Some(if why.Some? then "[error] " + ToText(why.value) else "[error]"), RunId(msg), recent)
  {
    AcknowledgesExactly(msg);
    DeliveredIs(msg, recent);
    assert [Trouble(msg)] == [Trouble(msg)] + [];
    FirstPresentOf(Trouble(msg), []);
  }
}
