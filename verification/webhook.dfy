/** `send_response_email`: the reply record is renamed into the webhook's
    wire shape and posted; only status 200 counts as sent. */
module Webhook {
  import opened Json

  const DefaultSubject: string := "Meeting Time Confirmation"

  /** The JSON body posted to the webhook: `sender` travels as `email`,
      `subject` as `subject` and `body` as `message`. A default fills in
      only for a key that is absent. */
  function BuildPayload(data: map<string, Value>): (p: map<string, Value>)
    ensures p.Keys == {"email", "subject", "message"}
    ensures "sender" in data ==> p["email"] == data["sender"]
    ensures "sender" !in data ==> p["email"] == Str("")
    ensures "subject" in data ==> p["subject"] == data["subject"]
    ensures "subject" !in data ==> p["subject"] == Str(DefaultSubject)
    ensures "body" in data ==> p["message"] == data["body"]
    ensures "body" !in data ==> p["message"] == Str("")
  {
    map[
      "email" := LookupOr(data, "sender", Str("")),
      "subject" := LookupOr(data, "subject", Str(DefaultSubject)),
      "message" := LookupOr(data, "body", Str(""))
    ]
  }

  /** A record carrying all three fields is posted without any change to
      their values. */
  lemma PayloadRoundTrip(data: map<string, Value>, sender: Value, subject: Value, body: Value)
    requires "sender" in data && data["sender"] == sender
    requires "subject" in data && data["subject"] == subject
    requires "body" in data && data["body"] == body
    ensures BuildPayload(data) == map["email" := sender, "subject" := subject, "message" := body]
  {
    var p := BuildPayload(data);
    var q := map["email" := sender, "subject" := subject, "message" := body];
    assert p.Keys == q.Keys;
  }

  /** Keys other than `sender`, `subject` and `body`, `action` among them,
      never reach the webhook. */
  lemma PayloadIgnoresOtherKeys(data: map<string, Value>, k: string, v: Value)
    requires k != "sender" && k != "subject" && k != "body"
    ensures BuildPayload(data[k := v]) == BuildPayload(data)
  {
    var p := BuildPayload(data[k := v]);
    var q := BuildPayload(data);
    assert p.Keys == q.Keys;
  }

  /** Replacing the body with the user's edit changes the message and
      nothing else: sender and subject are posted as the reply gave them. */
  lemma EditChangesOnlyMessage(data: map<string, Value>, edited: string)
    ensures var p := BuildPayload(data["body" := Str(edited)]);
      && p["message"] == Str(edited)
      && p["email"] == BuildPayload(data)["email"]
      && p["subject"] == BuildPayload(data)["subject"]
  {
  }

  /** What `requests.post` gave back: a response, or the exception it raised
      (refused connection, unknown host, dropped connection). The post sets
      no timeout, so a webhook that never answers blocks instead. */
  datatype Response = Response(status: int, text: string) | Raised(message: string)

  /** What the user is told about the attempt. */
  datatype Delivery = Delivered | Rejected(status: int, detail: string) | Errored(message: string)

  function Deliver(response: Response): (d: Delivery)
    ensures d.Delivered? <==> response.Response? && response.status == 200
    ensures d.Rejected? <==> response.Response? && response.status != 200
    ensures d.Rejected? ==> d.status == response.status && d.detail == response.text
    ensures d.Errored? <==> response.Raised?
    ensures d.Errored? ==> d.message == response.message
  {
    match response
    case Response(status, text) => if status == 200 then Delivered else Rejected(status, text)
    case Raised(message) => Errored(message)
  }
}
