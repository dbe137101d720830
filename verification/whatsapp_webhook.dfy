/**
 The inbound WhatsApp handler of app/api/whatsapp/webhook/route.ts, a
 minimal stub: it answers every Twilio message with one TwiML `<Message>`,
 holding either the trimmed language-model completion or a fixed default
 reply.

 The model call is an input (`Completion`). The source does not catch an
 error thrown by that call; the request then fails inside the framework
 (`Crashed`) instead of answering with status 200.
 */
module WhatsAppWebhook {
  import opened Common
  import opened Strings
  import opened XmlEscape

  /** The reply used when the guest wrote nothing or the model said nothing. */
  const DefaultReply := "I\U{2019}ll forward this to the host."

  const TwimlHead := "<?xml version=\"1.0\" encoding=\"UTF-8\"?>\n<Response>\n  <Message>"
  const TwimlTail := "</Message>\n</Response>"

  /** The fixed answer when the OpenAI key is not configured. */
  const MissingKeyTwiml :=
    "<?xml version=\"1.0\" encoding=\"UTF-8\"?><Response><Message>Server is missing OPENAI_API_KEY.</Message></Response>"

  /** The TwiML envelope around an escaped reply. */
  function Twiml(reply: string): string {
    TwimlHead + EscapeXml(reply) + TwimlTail
  }

  /** What the chat-completion call does: answer with the first choice's
      content (absent when there is none), or throw. */
  datatype Completion = Answered(content: Option<string>) | CallThrew

  /** The user turn sent to the model; the system turn is a fixed prompt. */
  datatype ModelRequest = ModelRequest(userContent: string)

  datatype HttpResponse = HttpResponse(status: int, contentType: string, body: string)

  datatype Outcome = Replied(response: HttpResponse) | Crashed

  datatype InboundResult = InboundResult(outcome: Outcome, modelRequest: Option<ModelRequest>)

  /** The reply text: the default for a blank message, otherwise the trimmed
      completion unless that is absent or empty. */
  function SelectReply(message: string, content: Option<string>): (reply: string)
    ensures reply != ""
    ensures IsBlank(message) ==> reply == DefaultReply
    ensures !IsBlank(message) && content.Some? && !IsBlank(content.value) ==> reply == Trim(content.value)
    ensures !IsBlank(message) && (content.None? || IsBlank(content.value)) ==> reply == DefaultReply
  {
    if Trim(message) == [] then DefaultReply
    else
      var trimmed := if content.Some? then Trim(content.value) else "";
      if trimmed != "" then trimmed else DefaultReply
  }

  /** `POST /api/whatsapp/webhook`. `body` is the form's `Body` field. */
  function HandleInbound(apiKey: Option<string>, body: Option<string>, completion: Completion): (r: InboundResult)
    // a missing key is answered with a fixed message, before the form is read
    ensures !Truthy(apiKey) ==> r == InboundResult(Replied(HttpResponse(200, "text/xml", MissingKeyTwiml)), None)
    // the model is asked exactly when the key is set and the message is not blank, with the raw message
    ensures r.modelRequest.Some? <==> Truthy(apiKey) && !IsBlank(OrElse(body, ""))
    ensures r.modelRequest.Some? ==> r.modelRequest.value.userContent == OrElse(body, "")
    // the only failure is a model call that throws
    ensures r.outcome == Crashed <==> r.modelRequest.Some? && completion.CallThrew?
    // every answer is 200 text/xml
    ensures r.outcome.Replied? ==> r.outcome.response.status == 200 && r.outcome.response.contentType == "text/xml"
    // with a key, the answer is the envelope around the selected reply
    ensures Truthy(apiKey) && r.outcome.Replied? ==>
      r.outcome.response.body ==
        Twiml(SelectReply(OrElse(body, ""), if completion.Answered? then completion.content else None))
  {
    if !Truthy(apiKey) then InboundResult(Replied(HttpResponse(200, "text/xml", MissingKeyTwiml)), None)
    else
      var message := OrElse(body, "");
      if Trim(message) == [] then
        InboundResult(Replied(HttpResponse(200, "text/xml", Twiml(DefaultReply))), None)
      else
        match completion
        case CallThrew => InboundResult(Crashed, Some(ModelRequest(message)))
        case Answered(content) =>
          InboundResult(Replied(HttpResponse(200, "text/xml", Twiml(SelectReply(message, content)))),
                        Some(ModelRequest(message)))
  }

  /** The text a TwiML reader finds in the envelope: the decoded content
      between the fixed head and tail. */
  function MessageText(twiml: string): Option<string> {
    if |twiml| >= |TwimlHead| + |TwimlTail| && StartsWith(twiml, TwimlHead) && EndsWith(twiml, TwimlTail)
    then Some(UnescapeXml(twiml[|TwimlHead|..|twiml| - |TwimlTail|]))
    else None
  }

  /** The envelope holds one message element whose content has no raw
      markup character and decodes to exactly the reply. */
  lemma TwimlCarriesReply(reply: string)
    ensures var t := Twiml(reply);
            var content := t[|TwimlHead|..|t| - |TwimlTail|];
            && t == TwimlHead + content + TwimlTail
            && (forall i :: 0 <= i < |content| ==> content[i] !in {'<', '>', '"', '\''})
            && MessageText(t) == Some(reply)
  {
    var t := Twiml(reply);
    var esc := EscapeXml(reply);
    assert t[|TwimlHead|..|t| - |TwimlTail|] == esc;
    assert t[..|TwimlHead|] == TwimlHead;
    assert t[|t| - |TwimlTail|..] == TwimlTail;
    EscapeXmlHasNoMarkup(reply);
    UnescapeEscape(reply);
  }

  /** A blank or absent message gets the default reply and no model call,
      whatever the model would have said. */
  lemma BlankMessageGetsDefault(apiKey: Option<string>, body: Option<string>, completion: Completion)
    requires Truthy(apiKey) && IsBlank(OrElse(body, ""))
    ensures HandleInbound(apiKey, body, completion) ==
            InboundResult(Replied(HttpResponse(200, "text/xml", Twiml(DefaultReply))), None)
  {
  }

  /** The guest reads back the trimmed completion, or the default reply
      when the completion is absent or blank. */
  lemma GuestReadsSelectedReply(apiKey: Option<string>, body: Option<string>, content: Option<string>)
    requires Truthy(apiKey)
    ensures var r := HandleInbound(apiKey, body, Answered(content));
            && r.outcome.Replied?
            && MessageText(r.outcome.response.body) == Some(SelectReply(OrElse(body, ""), content))
  {
    TwimlCarriesReply(SelectReply(OrElse(body, ""), content));
  }
}
