/** The WhatsApp notifier used after a coin posting (`sendWhatsAppNotification`):
    configuration check, phone clean-up and the boolean, never-throwing result.
    The message text and the HTTP transport are not modelled; the transport's
    answer is an input. */
module Notifier {
  import opened Basics

  predicate IsDigit(c: char)
  {
    '0' <= c <= '9'
  }

  /** `phone.replace(/\D/g, '')`: the digits of `phone`, in order. */
  function CleanPhone(phone: string): (r: string)
    ensures |r| <= |phone|
    ensures forall i :: 0 <= i < |r| ==> IsDigit(r[i])
    ensures (forall i :: 0 <= i < |phone| ==> IsDigit(phone[i])) ==> r == phone
    decreases |phone|
  {
    if |phone| == 0 then []
    else
      var n := |phone| - 1;
      CleanPhone(phone[..n]) + (if IsDigit(phone[n]) then [phone[n]] else [])
  }

  /** Cleaning distributes over concatenation: each character is kept or
      dropped on its own, so the result is exactly the input's digits in order. */
  lemma {:induction false} CleanPhoneConcat(a: string, b: string)
    ensures CleanPhone(a + b) == CleanPhone(a) + CleanPhone(b)
    decreases |b|
  {
    if |b| == 0 {
      assert a + b == a;
    } else {
      var n := |b| - 1;
      assert (a + b)[..|a + b| - 1] == a + b[..n];
      CleanPhoneConcat(a, b[..n]);
    }
  }

  /** Cleaning a single character keeps it iff it is a digit. */
  lemma CleanPhoneChar(c: char)
    ensures CleanPhone([c]) == (if IsDigit(c) then [c] else [])
  {
    assert [c][..0] == [];
  }

  lemma CleanPhoneIdempotent(phone: string)
    ensures CleanPhone(CleanPhone(phone)) == CleanPhone(phone)
  {
  }

  /** `BUILDERBOT_WEBHOOK_URL` and `BUILDERBOT_API_KEY` from the environment. */
  datatype Config = Config(webhookUrl: Option<string>, apiKey: Option<string>)

  /** What `fetch` does with the request: answers (with `response.ok`) or throws. */
  datatype Transport = Responds(ok: bool) | Throws

  /** The request body that leaves the process: the cleaned number and the coin total announced. */
  datatype Payload = Payload(url: string, apiKey: string, number: string, totalCoins: int)

  /** What one call did: the request sent (if any) and the boolean returned. */
  datatype Delivery = Delivery(sent: Option<Payload>, result: bool)

  predicate Configured(cfg: Config)
  {
    TruthyStr(cfg.webhookUrl) && TruthyStr(cfg.apiKey)
  }

  /** `sendWhatsAppNotification`: returns true only on an OK answer; a missing
      configuration, a non-OK answer and a thrown error all yield false. */
  function SendWhatsApp(cfg: Config, clientName: Option<string>, amount: int, totalCoins: int,
                        phone: string, transport: Transport): (r: Delivery)
    ensures !Configured(cfg) ==> r == Delivery(None, false)
    ensures Configured(cfg) ==> r.sent.Some? && r.sent.value.number == CleanPhone(phone)
    ensures r.sent.Some? ==> r.sent.value.url == cfg.webhookUrl.value && r.sent.value.apiKey == cfg.apiKey.value
    ensures r.sent.Some? ==> r.sent.value.totalCoins == totalCoins
    ensures r.result <==> Configured(cfg) && transport == Responds(true)
  {
    if !Configured(cfg) then Delivery(None, false)
    else
      var payload := Payload(cfg.webhookUrl.value, cfg.apiKey.value, CleanPhone(phone), totalCoins);
      match transport
      case Responds(ok) => Delivery(Some(payload), ok)
      case Throws => Delivery(Some(payload), false)
  }
}
