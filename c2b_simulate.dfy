/**
 * The C2B simulation edge function: a signed-in landlord asks Safaricom's
 * sandbox to send a test paybill payment to their own integration.
 *
 * The function checks the caller and the request, rewrites the phone
 * number into the international form, calls the sandbox and turns its
 * reply into a success or a failure. Authentication, decryption of the
 * stored credentials and the HTTP calls are outside the model: their
 * outcomes are inputs.
 */
module C2bSimulate {

  import opened Seqs
  import opened Types
  import opened Text
  import opened Phones

  /** The JSON body; `amount` is read as a number. */
  datatype SimulateBody = SimulateBody(
    landlordId: Option<string>,
    phoneNumber: Option<string>,
    amount: Option<int>,
    billRefNumber: Option<string>)

  /** The parts of the sandbox's reply that are looked at. */
  datatype SandboxReply = SandboxReply(
    responseCode: Option<string>,
    responseDescription: Option<string>,
    errorMessage: Option<string>)

  /** What came back from decrypting, the token request and the sandbox call: an answer, or an exception. */
  datatype CallOutcome = Answered(reply: SandboxReply) | Threw(message: string)

  datatype SimulateResult = SimulateResult(success: bool, message: string)

  /** The arguments of the sandbox call. */
  datatype SandboxCall = SandboxCall(shortcode: Option<string>, phone: string, amount: int, billRef: string)

  datatype HttpResponse = HttpResponse(status: int, message: string)

  predicate Given(s: Option<string>)
  {
    s.Some? && s.value != ""
  }

  /**
   * `simulateC2BPayment`'s verdict on the reply: success when the code is
   * "0" or the description mentions "Accept"; the message is the
   * description, else the error message (failures only), else a default.
   */
  function ClassifyReply(reply: SandboxReply): (r: SimulateResult)
    ensures r.success <==>
      reply.responseCode == Some("0") || (reply.responseDescription.Some? && Contains(reply.responseDescription.value, "Accept"))
    ensures Given(reply.responseDescription) ==> r.message == reply.responseDescription.value
    ensures !Given(reply.responseDescription) && r.success ==> r.message == "Simulation successful"
    ensures !Given(reply.responseDescription) && !r.success ==>
      r.message == if Given(reply.errorMessage) then reply.errorMessage.value else "Simulation failed"
  {
    var desc := reply.responseDescription;
    if reply.responseCode == Some("0") || (desc.Some? && Contains(desc.value, "Accept")) then
      SimulateResult(true, if Given(desc) then desc.value else "Simulation successful")
    else
      SimulateResult(false, if Given(desc) then desc.value
                            else if Given(reply.errorMessage) then reply.errorMessage.value
                            else "Simulation failed")
  }

  /**
   * `let formattedPhone = …`: the white space is dropped character by
   * character, then one of the two prefix rewrites is applied.
   */
  method FormatPhone(phone: string) returns (formatted: string)
    ensures formatted == InternationalForm(phone)
  {
    formatted := "";
    var i := 0;
    while i < |phone|
      invariant 0 <= i <= |phone|
      invariant formatted == RemoveSpaces(phone[..i])
    {
      assert phone[..i + 1] == phone[..i] + [phone[i]];
      RemoveSpacesSnoc(phone[..i], phone[i]);
      if !IsSpace(phone[i]) {
        formatted := formatted + [phone[i]];
      }
      i := i + 1;
    }
    assert phone[..|phone|] == phone;
    if StartsWith(formatted, "0") {
      formatted := "254" + formatted[1..];
    } else if StartsWith(formatted, "+") {
      formatted := formatted[1..];
    }
  }

  const MissingHeader := HttpResponse(401, "Missing authorization header")
  const NoUser := HttpResponse(401, "Unauthorized")

  /** The `catch` answer: the error's message, or a default when it has none. */
  function ThrownMessage(message: string): (m: string)
    ensures m != ""
    ensures message != "" ==> m == message
  {
    if message != "" then message else "Internal server error"
  }

  /** The checks before the sandbox is called, in order. */
  function CheckRequest(authHeader: Option<string>, user: Option<Id>, body: SimulateBody,
                        settings: seq<MpesaSettings>): (r: Option<HttpResponse>)
    ensures !Given(authHeader) ==> r == Some(HttpResponse(401, "Missing authorization header"))
    ensures Given(authHeader) && user.None? ==> r == Some(HttpResponse(401, "Unauthorized"))
    ensures r.Some? ==> 400 <= r.value.status < 500
    ensures r.None? ==>
      && Given(body.phoneNumber) && body.amount.Some? && body.amount.value > 0
      && body.landlordId == user
      && Single(Filter(settings, (s: MpesaSettings) => Some(s.landlordId) == body.landlordId)).Some?
  {
    if !Given(authHeader) then Some(MissingHeader)
    else if user.None? then Some(NoUser)
    else if !Given(body.phoneNumber) || body.amount.None? || body.amount.value <= 0 then
      Some(HttpResponse(400, "Phone number and amount are required"))
    else if body.landlordId != user then Some(HttpResponse(403, "Unauthorized: landlord_id mismatch"))
    else if Single(Filter(settings, (s: MpesaSettings) => Some(s.landlordId) == body.landlordId)).None? then
      Some(HttpResponse(400, "M-Pesa settings not found. Please configure your credentials first."))
    else None
  }

  /** A request without a phone number or a positive amount is refused with 400 whoever sends it. */
  lemma MissingFieldsBeforeLandlord(authHeader: Option<string>, user: Option<Id>, body: SimulateBody, settings: seq<MpesaSettings>)
    requires Given(authHeader) && user.Some?
    requires !Given(body.phoneNumber) || body.amount.None? || body.amount.value <= 0
    ensures CheckRequest(authHeader, user, body, settings) == Some(HttpResponse(400, "Phone number and amount are required"))
  {
  }

  /** A complete request for another landlord is refused with 403. */
  lemma OtherLandlordForbidden(authHeader: Option<string>, user: Option<Id>, body: SimulateBody, settings: seq<MpesaSettings>)
    requires Given(authHeader) && user.Some?
    requires Given(body.phoneNumber) && body.amount.Some? && body.amount.value > 0
    requires body.landlordId != user
    ensures CheckRequest(authHeader, user, body, settings).value.status == 403
  {
  }

  /** What the sandbox is asked: the configured shortcode, the rewritten phone, the amount, the reference or "". */
  function SandboxArguments(body: SimulateBody, s: MpesaSettings): (c: SandboxCall)
    requires body.phoneNumber.Some? && body.amount.Some?
    ensures c.phone == InternationalForm(body.phoneNumber.value)
    ensures c.billRef == if Given(body.billRefNumber) then body.billRefNumber.value else ""
    ensures c.shortcode == s.shortcode && c.amount == body.amount.value
  {
    SandboxCall(s.shortcode, InternationalForm(body.phoneNumber.value), body.amount.value,
                if Given(body.billRefNumber) then body.billRefNumber.value else "")
  }

  const SentMessage := "Payment simulation sent successfully. Check your payments list for the incoming transaction."

  /**
   * The whole function, with `call` the outcome of the work after the
   * checks: a refusal is answered as it stands, an exception with 500, the
   * sandbox's reply with 200 or 400.
   */
  function Simulate(authHeader: Option<string>, user: Option<Id>, body: SimulateBody,
                    settings: seq<MpesaSettings>, call: CallOutcome): (r: HttpResponse)
    ensures CheckRequest(authHeader, user, body, settings).Some? ==> r == CheckRequest(authHeader, user, body, settings).value
    ensures r.status == 200 <==>
      CheckRequest(authHeader, user, body, settings).None? && call.Answered? && ClassifyReply(call.reply).success
    ensures r.status == 500 <==> CheckRequest(authHeader, user, body, settings).None? && call.Threw?
    ensures r.status == 500 ==> r.message == if call.message != "" then call.message else "Internal server error"
    ensures r.status == 400 && CheckRequest(authHeader, user, body, settings).None? ==>
      call.Answered? && r.message == ClassifyReply(call.reply).message
  {
    match CheckRequest(authHeader, user, body, settings)
    case Some(refusal) => refusal
    case None =>
      match call
      case Threw(message) => HttpResponse(500, ThrownMessage(message))
      case Answered(answer) =>
        var result := ClassifyReply(answer);
        if result.success then HttpResponse(200, SentMessage)
        else HttpResponse(400, result.message)
  }

  /** The request body: JSON that `req.json()` reads, or text it throws on. */
  datatype RequestBody = Parsed(body: SimulateBody) | Unparsable(error: string)

  /**
   * The function on the raw body. An unreadable body throws inside the
   * `try` after the two authorisation checks, so it is answered with 500.
   */
  function SimulateRequest(authHeader: Option<string>, user: Option<Id>, request: RequestBody,
                           settings: seq<MpesaSettings>, call: CallOutcome): (r: HttpResponse)
    ensures request.Parsed? ==> r == Simulate(authHeader, user, request.body, settings, call)
    ensures request.Unparsable? ==>
      && (!Given(authHeader) ==> r == MissingHeader)
      && (Given(authHeader) && user.None? ==> r == NoUser)
      && (r.status == 500 <==> Given(authHeader) && user.Some?)
      && (r.status == 500 ==> r.message == ThrownMessage(request.error))
  {
    match request
    case Parsed(body) => Simulate(authHeader, user, body, settings, call)
    case Unparsable(error) =>
      if !Given(authHeader) then MissingHeader
      else if user.None? then NoUser
      else HttpResponse(500, ThrownMessage(error))
  }

  /** Whatever the body, the two authorisation checks answer first. */
  lemma AuthorisationFirst(authHeader: Option<string>, user: Option<Id>, request: RequestBody,
                           settings: seq<MpesaSettings>, call: CallOutcome)
    requires !Given(authHeader) || user.None?
    ensures SimulateRequest(authHeader, user, request, settings, call) ==
      if !Given(authHeader) then MissingHeader else NoUser
  {
  }
}
