/**
 * The C2B validation edge function: Safaricom asks whether to accept a
 * paybill / till payment before it completes. The answer is a chain of
 * early returns; anything unexpected accepts, so that a fault on this side
 * never blocks a legitimate payment.
 */
module C2bValidation {

  import opened Seqs
  import opened Types
  import opened Text

  /** `BusinessShortCode` and `parseFloat(TransAmount || '0')` of the body. */
  datatype ValidationBody = ValidationBody(businessShortCode: Option<string>, transAmount: JsNumber)

  /** The `landlord_id` query parameter and the body (None: not JSON). */
  datatype ValidationRequest = ValidationRequest(landlordId: Option<string>, body: Option<ValidationBody>)

  datatype Verdict = Accept | Reject(resultCode: string, resultDesc: string)

  /** The landlord's integration, when exactly one ACTIVE row exists. */
  function ActiveSettings(settings: seq<MpesaSettings>, landlordId: Id): (r: Option<MpesaSettings>)
    ensures r.Some? ==> r.value in settings && r.value.landlordId == landlordId && r.value.status == "ACTIVE"
  {
    Single(Filter(settings, (s: MpesaSettings) => s.landlordId == landlordId && s.status == "ACTIVE"))
  }

  /** `code === configured`, where an absent code (undefined) never equals a null column. */
  predicate SameCode(code: Option<string>, configured: Option<string>)
  {
    code.Some? && configured.Some? && code.value == configured.value
  }

  /** The shortcode is the configured shortcode or the configured paybill / till number. */
  predicate ShortcodeMatches(body: ValidationBody, s: MpesaSettings)
  {
    SameCode(body.businessShortCode, s.shortcode) || SameCode(body.businessShortCode, s.paybillOrTill)
  }

  /** `amount <= 0`: false for `NaN`, so an unreadable amount is not rejected. */
  predicate AmountRejected(body: ValidationBody)
  {
    body.transAmount.Num? && body.transAmount.value <= 0
  }

  /** The decision chain: landlord, integration, shortcode, amount. */
  function Validate(settings: seq<MpesaSettings>, req: ValidationRequest): (v: Verdict)
    ensures v.Reject? ==> v.resultCode in {"C2B00012", "C2B00013", "C2B00014"}
  {
    if req.landlordId.None? || req.landlordId.value == "" then Accept
    else if req.body.None? then Accept
    else match ActiveSettings(settings, req.landlordId.value)
      case None => Reject("C2B00012", "Rejected: Integration not active")
      case Some(s) =>
        var body := req.body.value;
        if !ShortcodeMatches(body, s) then Reject("C2B00013", "Rejected: Invalid shortcode")
        else if AmountRejected(body) then Reject("C2B00014", "Rejected: Invalid amount")
        else Accept
  }

  /** A request without a landlord is accepted whatever it carries. */
  lemma NoLandlordAccepted(settings: seq<MpesaSettings>, req: ValidationRequest)
    requires req.landlordId.None? || req.landlordId.value == ""
    ensures Validate(settings, req) == Accept
  {
  }

  /** A missing or inactive integration rejects with C2B00012 before shortcode and amount are looked at. */
  lemma InactiveRejectedFirst(settings: seq<MpesaSettings>, req: ValidationRequest)
    requires req.landlordId.Some? && req.landlordId.value != "" && req.body.Some?
    requires forall i :: 0 <= i < |settings| ==> !(settings[i].landlordId == req.landlordId.value && settings[i].status == "ACTIVE")
    ensures Validate(settings, req).Reject? && Validate(settings, req).resultCode == "C2B00012"
  {
    FilterNone(settings, (s: MpesaSettings) => s.landlordId == req.landlordId.value && s.status == "ACTIVE");
  }

  /**
   * Exactly which requests are accepted: no landlord, an unreadable body,
   * or an active integration whose shortcode or paybill is the request's
   * and an amount that is not a number at most 0.
   */
  lemma AcceptIff(settings: seq<MpesaSettings>, req: ValidationRequest)
    ensures Validate(settings, req) == Accept <==>
      || req.landlordId.None? || req.landlordId.value == ""
      || req.body.None?
      || (&& ActiveSettings(settings, req.landlordId.value).Some?
          && ShortcodeMatches(req.body.value, ActiveSettings(settings, req.landlordId.value).value)
          && !AmountRejected(req.body.value))
  {
  }

  /** With a matching shortcode, C2B00014 answers exactly an amount that is not positive. */
  lemma AmountRejection(settings: seq<MpesaSettings>, req: ValidationRequest)
    requires req.landlordId.Some? && req.landlordId.value != "" && req.body.Some?
    requires ActiveSettings(settings, req.landlordId.value).Some?
    requires ShortcodeMatches(req.body.value, ActiveSettings(settings, req.landlordId.value).value)
    ensures Validate(settings, req).Reject? <==> AmountRejected(req.body.value)
    ensures req.body.value.transAmount.NaN? ==> Validate(settings, req) == Accept
    ensures Validate(settings, req).Reject? ==> Validate(settings, req).resultCode == "C2B00014"
  {
  }
}
