/** Sending the notification email through the transactional email provider. */
module Notify {
  import opened Wrappers

  /** The sender address of every notification. */
  const From: string := "onboarding@resend.dev"

  /** The request handed to the provider. */
  datatype EmailRequest = EmailRequest(from: string, to: seq<string>, subject: string, text: string)

  /** The provider's answer to one request. */
  type Provider = EmailRequest -> Result<()>

  /** What one send attempt does: the request passed to the provider, if
      any, and the result returned to the caller. */
  datatype SendOutcome = SendOutcome(request: Option<EmailRequest>, result: Result<()>)

  /** A notification as the monitor hands it to the sender: recipient,
      subject and plain-text body. */
  datatype Notice = Notice(to: string, subject: string, body: string)

  const MissingKey: string := "RESEND_API_KEY not set"

  /** One send with the given API key: with no key the provider is never
      contacted and the caller gets an error; otherwise one request goes to
      the provider, whose answer is returned unchanged. */
  function Send(apiKey: string, to: string, subject: string, body: string, provider: Provider): (r: SendOutcome)
    ensures r.request.None? <==> apiKey == ""
    ensures r.request.None? ==> r.result == Err(MissingKey)
    ensures r.request.Some? ==>
      && r.request.value == EmailRequest(From, [to], subject, body)
      && r.result == provider(r.request.value)
  {
    if apiKey == "" then
      SendOutcome(None, Err(MissingKey))
    else
      var request := EmailRequest(From, [to], subject, body);
      SendOutcome(Some(request), provider(request))
  }

  /** Without a key the outcome does not depend on the provider at all. */
  lemma MissingKeyIgnoresProvider(to: string, subject: string, body: string, p: Provider, q: Provider)
    ensures Send("", to, subject, body, p) == Send("", to, subject, body, q)
  {
  }

  /** The send of one notification. */
  function SendNotice(apiKey: string, n: Notice, provider: Provider): SendOutcome {
    Send(apiKey, n.to, n.subject, n.body, provider)
  }

  /** The outcomes of sending `notices`, one send each, in order. */
  function SendAll(apiKey: string, notices: seq<Notice>, provider: Provider): seq<SendOutcome> {
    if notices == [] then []
    else
      var n := |notices| - 1;
      SendAll(apiKey, notices[..n], provider) + [SendNotice(apiKey, notices[n], provider)]
  }

  /** The outcomes of sending one more notification. */
  lemma SendAllSnoc(apiKey: string, notices: seq<Notice>, n: Notice, provider: Provider)
    ensures SendAll(apiKey, notices + [n], provider) == SendAll(apiKey, notices, provider) + [SendNotice(apiKey, n, provider)]
  {
    assert (notices + [n])[..|notices|] == notices;
  }

  /** Sending two runs of notifications one after the other. */
  lemma {:induction false} SendAllAppend(apiKey: string, n1: seq<Notice>, n2: seq<Notice>, provider: Provider)
    ensures SendAll(apiKey, n1 + n2, provider) == SendAll(apiKey, n1, provider) + SendAll(apiKey, n2, provider)
  {
    if n2 == [] {
      assert n1 + n2 == n1;
    } else {
      var m := |n2| - 1;
      SendAllAppend(apiKey, n1, n2[..m], provider);
      assert n1 + n2 == (n1 + n2[..m]) + [n2[m]];
      SendAllSnoc(apiKey, n1 + n2[..m], n2[m], provider);
    }
  }

  /** One send per notification, the `k`-th for the `k`-th. */
  lemma {:induction false} SendAllEach(apiKey: string, notices: seq<Notice>, provider: Provider)
    ensures |SendAll(apiKey, notices, provider)| == |notices|
    ensures forall k :: 0 <= k < |notices| ==> SendAll(apiKey, notices, provider)[k] == SendNotice(apiKey, notices[k], provider)
  {
    if notices != [] {
      SendAllEach(apiKey, notices[..|notices| - 1], provider);
    }
  }

  /** Without a key none of the notifications reaches the provider, and
      each send reports the missing key. */
  lemma SendAllWithoutKey(notices: seq<Notice>, provider: Provider)
    ensures forall k :: 0 <= k < |SendAll("", notices, provider)| ==>
      SendAll("", notices, provider)[k] == SendOutcome(None, Err(MissingKey))
  {
    SendAllEach("", notices, provider);
  }

  /** With a key every notification becomes exactly one request to the
      provider, in order, from the fixed sender to its one recipient, and
      the provider's answer is its result. */
  lemma SendAllWithKey(apiKey: string, notices: seq<Notice>, provider: Provider)
    requires apiKey != ""
    ensures |SendAll(apiKey, notices, provider)| == |notices|
    ensures forall k :: 0 <= k < |notices| ==>
      var n, o := notices[k], SendAll(apiKey, notices, provider)[k];
      && o.request == Some(EmailRequest(From, [n.to], n.subject, n.body))
      && o.result == provider(EmailRequest(From, [n.to], n.subject, n.body))
  {
    SendAllEach(apiKey, notices, provider);
  }
}
