/** What pressing "Analyze Email" does once the language model has answered:
    the reply is cut down to its JSON object, parsed, and either the
    reschedule draft is sent to the webhook or nothing happens. The model
    call, the JSON parser and the HTTP post are inputs. */
module Pipeline {
  import opened Options
  import opened Json
  import opened Extraction
  import opened Webhook

  /** The text `analyze_email` falls back to when the model call raises:
      `json.dumps({"action": "No Action"})`. */
  const NoActionReply: string := "{\"action\": \"No Action\"}"

  /** The outcome of the model call: its reply text, or an exception. */
  datatype Analysis = Replied(text: string) | CallFailed

  /** What `analyze_email` returns. */
  function ReplyText(a: Analysis): (r: string)
    ensures a.Replied? ==> r == a.text
    ensures a.CallFailed? ==> r == NoActionReply
  {
    match a
    case Replied(text) => text
    case CallFailed => NoActionReply
  }

  /** How one press of the button ends. */
  datatype Outcome =
    | NothingToAnalyze                 // the email box was empty
    | NotConfigured                    // no API key could be configured
    | Unparseable(raw: string)         // `json.loads` raised; the raw reply is shown
    | ProcessingFailed                 // any other exception, e.g. the JSON is not an object
    | NoActionNeeded
    | Dispatched(payload: map<string, Value>, delivery: Delivery)

  /** The reply asks for a reschedule: it is an object whose `action` is the
      string "Action", exactly. */
  predicate RequestsAction(v: Value)
  {
    v.Object? && Lookup(v.fields, "action") == Some(Str("Action"))
  }

  /** The reply handling of the button, from the model's text to the
      outcome. `parse` stands for `json.loads` (None when it raises),
      `edited` is the draft box's value when the post runs, `response` what the
      webhook post gave back. */
  function HandleReply(reply: string, parse: string -> Option<Value>, edited: string, response: Response): (o: Outcome)
    ensures var parsed := parse(ExtractJson(reply));
      && (o.Unparseable? <==> parsed.None?)
      && (o.Unparseable? ==> o.raw == reply)
      && (o.ProcessingFailed? <==> parsed.Some? && !parsed.value.Object?)
      && (o.Dispatched? <==> parsed.Some? && RequestsAction(parsed.value))
      && (o.NoActionNeeded? <==> parsed.Some? && parsed.value.Object? && !RequestsAction(parsed.value))
      && !o.NothingToAnalyze? && !o.NotConfigured?
    ensures o.Dispatched? ==> o.delivery == Deliver(response)
    ensures o.Dispatched? ==>
      var fields := parse(ExtractJson(reply)).value.fields;
      o.payload == BuildPayload(fields["body" := Str(edited)])
  {
    var jsonText := ExtractJson(reply);
    match parse(jsonText)
    case None => Unparseable(reply)
    case Some(data) =>
      if !data.Object? then ProcessingFailed
      else if RequestsAction(data) then
        var sent := data.fields["body" := Str(edited)];
        Dispatched(BuildPayload(sent), Deliver(response))
      else NoActionNeeded
  }

  /** The whole button press: an empty email box, and then a missing API key
      (`configured` is what `configure_genai` returned), each stop before the
      model is asked anything. */
  function Analyze(email: string, configured: bool, analysis: Analysis, parse: string -> Option<Value>,
                   edited: string, response: Response): (o: Outcome)
    ensures email == [] <==> o.NothingToAnalyze?
    ensures o.NotConfigured? <==> email != [] && !configured
    ensures email != [] && configured ==> o == HandleReply(ReplyText(analysis), parse, edited, response)
  {
    if email == [] then NothingToAnalyze
    else if !configured then NotConfigured
    else HandleReply(ReplyText(analysis), parse, edited, response)
  }

  /** The draft box first shows the reply's own `body`, and the post runs in
      that same step: left as shown, the payload is exactly the one built
      from the reply, its text under `message`. */
  lemma UneditedDraftSendsReply(reply: string, parse: string -> Option<Value>, response: Response,
                                fields: map<string, Value>, body: string)
    requires parse(ExtractJson(reply)) == Some(Object(fields))
    requires "action" in fields && fields["action"] == Str("Action")
    requires "body" in fields && fields["body"] == Str(body)
    ensures HandleReply(reply, parse, body, response) == Dispatched(BuildPayload(fields), Deliver(response))
    ensures HandleReply(reply, parse, body, response).payload["message"] == Str(body)
  {
    assert fields["body" := Str(body)] == fields;
  }

  /** A missing `action` key, or any value other than the string "Action"
      ("No Action", "action", a number, null), sends nothing. */
  lemma NoDispatchWithoutAction(reply: string, parse: string -> Option<Value>, edited: string, response: Response, fields: map<string, Value>)
    requires parse(ExtractJson(reply)) == Some(Object(fields))
    requires "action" !in fields || fields["action"] != Str("Action")
    ensures HandleReply(reply, parse, edited, response) == NoActionNeeded
  {
  }

  /** A reply that asks for action, carrying sender, subject and body, is
      posted with those values under `email`, `subject` and `message`, the
      body replaced by the draft box's value when the post runs. */
  lemma DispatchCarriesReply(reply: string, parse: string -> Option<Value>, edited: string, response: Response,
                             fields: map<string, Value>, sender: Value, subject: Value)
    requires parse(ExtractJson(reply)) == Some(Object(fields))
    requires "action" in fields && fields["action"] == Str("Action")
    requires "sender" in fields && fields["sender"] == sender
    requires "subject" in fields && fields["subject"] == subject
    ensures HandleReply(reply, parse, edited, response)
         == Dispatched(map["email" := sender, "subject" := subject, "message" := Str(edited)], Deliver(response))
  {
    var sent := fields["body" := Str(edited)];
    PayloadRoundTrip(sent, sender, subject, Str(edited));
  }

  /** The webhook's answer decides only how the attempt is reported: the
      payload is the same whatever comes back, and it counts as sent exactly
      when the status is 200. */
  lemma DeliveryDoesNotChangeDecision(reply: string, parse: string -> Option<Value>, edited: string, r1: Response, r2: Response)
    ensures var o1 := HandleReply(reply, parse, edited, r1);
      var o2 := HandleReply(reply, parse, edited, r2);
      && o1.Dispatched? == o2.Dispatched?
      && (o1.Dispatched? ==> o1.payload == o2.payload)
      && (o1.Dispatched? ==> (o1.delivery.Delivered? <==> r1.Response? && r1.status == 200))
  {
  }

  /** When the model call fails, the fallback text reaches the parser intact,
      and once parsed as `{"action": "No Action"}` nothing is sent. */
  lemma FailedCallSendsNothing(email: string, parse: string -> Option<Value>, edited: string, response: Response)
    requires email != []
    requires parse(NoActionReply) == Some(Object(map["action" := Str("No Action")]))
    ensures ExtractJson(NoActionReply) == NoActionReply
    ensures Analyze(email, true, CallFailed, parse, edited, response) == NoActionNeeded
  {
    assert NoActionReply[0] == '{' && NoActionReply[|NoActionReply| - 1] == '}';
    ExtractWholeObject(NoActionReply);
  }

  /** A reply that wraps the JSON object in prose is handled as the bare
      object would be. */
  lemma ProseIsIgnored(before: string, obj: string, after: string, parse: string -> Option<Value>, edited: string, response: Response)
    requires |obj| >= 2 && obj[0] == '{' && obj[|obj| - 1] == '}'
    requires '{' !in before && '}' !in after
    ensures HandleReply(before + obj + after, parse, edited, response).Dispatched?
        <==> HandleReply(obj, parse, edited, response).Dispatched?
    ensures HandleReply(before + obj + after, parse, edited, response).Dispatched? ==>
        HandleReply(before + obj + after, parse, edited, response).payload == HandleReply(obj, parse, edited, response).payload
  {
    ExtractFromProse(before, obj, after);
    ExtractWholeObject(obj);
  }
}
