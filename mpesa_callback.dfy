/**
 * The M-Pesa callback edge function: the confirmation that Safaricom
 * posts for an STK push or a C2B (paybill / till) payment.
 *
 * The handler checks the landlord and the landlord's active integration,
 * then records the payment: an STK payment as is, a C2B payment after a
 * duplicate check on its transaction id and an attempt to find the
 * tenancy, first by the account reference as a unit code and then by the
 * payer's phone number. Supabase's `.single()` is "exactly one row, else
 * nothing", so an ambiguous look-up matches nothing. The callback never
 * allocates: `is_matched` records that a tenancy was found.
 */
module MpesaCallback {

  import opened Seqs
  import opened Types
  import opened Text
  import opened Ledger
  import opened Phones

  /** A `CallbackMetadata` item's value. */
  datatype MetaValue = NumberValue(n: int) | TextValue(s: string)

  datatype MetaItem = MetaItem(name: string, value: Option<MetaValue>)

  datatype StkCallback = StkCallback(resultCode: int, items: seq<MetaItem>)

  /** The JSON body; `transAmount` is `parseFloat(TransAmount || '0')`. */
  datatype CallbackBody = CallbackBody(
    stk: Option<StkCallback>,
    transId: Option<string>,
    transAmount: JsNumber,
    msisdn: Option<string>,
    billRefNumber: Option<string>)

  /** The `landlord_id` query parameter and the body (None: not JSON). */
  datatype CallbackRequest = CallbackRequest(landlordId: Option<string>, body: Option<CallbackBody>)

  /** The tables the handler reads. */
  datatype Directory = Directory(
    settings: seq<MpesaSettings>,
    units: seq<Unit>,
    tenancies: seq<Tenancy>,
    tenants: seq<Tenant>)

  datatype Response = Response(status: int, resultCode: int, resultDesc: string)

  const Accepted := Response(200, 0, "Accepted")
  const MissingLandlord := Response(400, 1, "Missing landlord_id")
  const NotActive := Response(400, 1, "Integration not active")

  /** JavaScript truthiness of an optional string: present and not "". */
  predicate Given(s: Option<string>)
  {
    s.Some? && s.value != ""
  }

  /** The landlord's integration, when exactly one ACTIVE row exists. */
  function ActiveSettings(dir: Directory, landlordId: Id): (r: Option<MpesaSettings>)
    ensures r.Some? ==> r.value in dir.settings && r.value.landlordId == landlordId && r.value.status == "ACTIVE"
  {
    Single(Filter(dir.settings, (s: MpesaSettings) => s.landlordId == landlordId && s.status == "ACTIVE"))
  }

  /** The unit whose code equals the reference up to case, when exactly one does. */
  function UnitByCode(dir: Directory, landlordId: Id, reference: string): (r: Option<Unit>)
    ensures r.Some? ==> r.value in dir.units && r.value.landlordId == landlordId && EqualsIgnoreCase(r.value.unitCode, reference)
  {
    Single(Filter(dir.units, (u: Unit) => u.landlordId == landlordId && EqualsIgnoreCase(u.unitCode, reference)))
  }

  /** The live tenancy of a unit, when exactly one exists. */
  function LiveTenancyOfUnit(dir: Directory, landlordId: Id, unitId: Id): (r: Option<Tenancy>)
    ensures r.Some? ==> r.value in dir.tenancies && r.value.unitId == unitId && IsLive(r.value)
  {
    Single(Filter(dir.tenancies, (t: Tenancy) => t.landlordId == landlordId && t.unitId == unitId && IsLive(t)))
  }

  /** The live tenancy of a tenant, when exactly one exists. */
  function LiveTenancyOfTenant(dir: Directory, landlordId: Id, tenantId: Id): (r: Option<Tenancy>)
    ensures r.Some? ==> r.value in dir.tenancies && r.value.tenantId == tenantId && IsLive(r.value)
  {
    Single(Filter(dir.tenancies, (t: Tenancy) => t.landlordId == landlordId && t.tenantId == tenantId && IsLive(t)))
  }

  /** `phone_numbers @> [{number: phone}]`. */
  predicate HasPhone(t: Tenant, phone: string)
  {
    exists i :: 0 <= i < |t.phoneNumbers| && t.phoneNumbers[i].number == phone
  }

  /** The landlord's tenants listing the phone number. */
  function TenantsWithPhone(dir: Directory, landlordId: Id, phone: string): (r: seq<Tenant>)
    ensures forall i :: 0 <= i < |r| ==> r[i] in dir.tenants && HasPhone(r[i], phone)
  {
    Filter(dir.tenants, (t: Tenant) => t.landlordId == landlordId && HasPhone(t, phone))
  }

  /** The unit-code match alone. */
  function MatchByUnit(dir: Directory, landlordId: Id, reference: string): Option<Id>
  {
    match UnitByCode(dir, landlordId, reference)
    case None => None
    case Some(u) =>
      match LiveTenancyOfUnit(dir, landlordId, u.id)
      case None => None
      case Some(t) => Some(t.id)
  }

  /** The phone match alone: exactly one tenant with exactly one live tenancy. */
  function MatchByPhone(dir: Directory, landlordId: Id, phone: string): Option<Id>
  {
    var tenants := TenantsWithPhone(dir, landlordId, StripCountryCode(phone));
    if |tenants| == 1 then
      match LiveTenancyOfTenant(dir, landlordId, tenants[0].id)
      case None => None
      case Some(t) => Some(t.id)
    else None
  }

  /**
   * The tenancy a C2B payment is attached to: by unit code, then by phone;
   * neither is tried without a reference.
   */
  function MatchTenancy(dir: Directory, landlordId: Id, reference: Option<string>, phone: Option<string>): Option<Id>
  {
    if !Given(reference) then None
    else
      match MatchByUnit(dir, landlordId, reference.value)
      case Some(t) => Some(t)
      case None => if Given(phone) then MatchByPhone(dir, landlordId, phone.value) else None
  }

  /** The first metadata item with the name, as `Item.find(i => i.Name === name)?.Value`. */
  function Meta(items: seq<MetaItem>, name: string): Option<MetaValue>
  {
    match FindFirst(items, (i: MetaItem) => i.name == name)
    case None => None
    case Some(item) => item.value
  }

  /** JavaScript truthiness of a metadata value: a non-zero number or a non-empty text. */
  predicate Truthy(v: Option<MetaValue>)
  {
    match v
    case None => false
    case Some(NumberValue(n)) => n != 0
    case Some(TextValue(s)) => s != ""
  }

  /** `Math.round(Value)`: a number is itself, a text is read by `Number`, an absent value is `NaN`. */
  function MetaAmount(v: Option<MetaValue>): (r: JsNumber)
    ensures v.Some? && v.value.NumberValue? ==> r == Num(v.value.n)
    ensures v.Some? && v.value.TextValue? ==> r == ToNumber(v.value.s)
  {
    match v
    case None => NaN
    case Some(NumberValue(n)) => Num(n)
    case Some(TextValue(s)) => ToNumber(s)
  }

  /** `Value as string` / `Value?.toString()`. */
  function MetaText(v: Option<MetaValue>): Option<string>
  {
    match v
    case None => None
    case Some(NumberValue(n)) => Some(IntToString(n))
    case Some(TextValue(s)) => Some(s)
  }

  /** The duplicate check: a payment carries the transaction id, and it is the only one. */
  predicate KnownTransaction(payments: seq<Payment>, transId: string)
  {
    Single(Filter(payments, (p: Payment) => p.mpesaTransId == Some(transId))).Some?
  }

  /**
   * The row the STK branch inserts, if any: a successful push whose amount
   * and receipt are both truthy. A `NaN` amount is sent as `null`, which
   * the required `amount` column refuses, so nothing is stored.
   */
  function StkPayment(cb: StkCallback, landlordId: Id, newId: Id, now: int): Option<Payment>
  {
    var amount := Meta(cb.items, "Amount");
    var receipt := Meta(cb.items, "MpesaReceiptNumber");
    var phone := MetaText(Meta(cb.items, "PhoneNumber"));
    if cb.resultCode != 0 then None
    else if Truthy(amount) && Truthy(receipt) then
      match MetaAmount(amount)
      case NaN => None
      case Num(a) => Some(Payment(newId, landlordId, None, a, Mpesa, MetaText(receipt), phone, None, now, false, None))
    else None
  }

  /** The row the C2B branch inserts, if any. */
  function C2bPayment(payments: seq<Payment>, dir: Directory, body: CallbackBody, landlordId: Id, newId: Id, now: int): Option<Payment>
  {
    if !(body.transAmount.Num? && body.transAmount.value > 0 && Given(body.transId)) then None
    else if KnownTransaction(payments, body.transId.value) then None
    else
      var tenancyId := MatchTenancy(dir, landlordId, body.billRefNumber, body.msisdn);
      Some(Payment(newId, landlordId, tenancyId, body.transAmount.value, Mpesa, body.transId, body.msisdn,
                   body.billRefNumber, now, tenancyId.Some?, None))
  }

  /** The row the handler inserts, if any, given the payments already stored. */
  function CallbackPayment(payments: seq<Payment>, dir: Directory, req: CallbackRequest, newId: Id, now: int): Option<Payment>
  {
    if !Given(req.landlordId) || req.body.None? then None
    else if ActiveSettings(dir, req.landlordId.value).None? then None
    else
      var body := req.body.value;
      if body.stk.Some? then StkPayment(body.stk.value, req.landlordId.value, newId, now)
      else if Given(body.transId) then C2bPayment(payments, dir, body, req.landlordId.value, newId, now)
      else None
  }

  /** The answer the handler gives. */
  function CallbackResponse(dir: Directory, req: CallbackRequest): Response
  {
    if !Given(req.landlordId) then MissingLandlord
    else if req.body.None? then Accepted
    else if ActiveSettings(dir, req.landlordId.value).None? then NotActive
    else Accepted
  }

  /**
   * The handler: the guards, then the STK or the C2B branch, with the
   * matching cascade reassigning `tenancyId` and `isMatched`, and the
   * insert into the payments table (an insert error is only logged).
   */
  method Handle(store: Store, dir: Directory, req: CallbackRequest, newId: Id, now: int) returns (resp: Response)
    requires store.Valid()
    modifies store
    ensures store.Valid()
    ensures resp == CallbackResponse(dir, req)
    ensures var row := CallbackPayment(old(store.payments), dir, req, newId, now);
      store.payments == (if row.Some? && !HasPayment(old(store.payments), newId) then old(store.payments) + [row.value]
                         else old(store.payments))
    ensures store.charges == old(store.charges) && store.allocations == old(store.allocations)
  {
    if !Given(req.landlordId) {
      return MissingLandlord;
    }
    var landlordId := req.landlordId.value;
    if req.body.None? {
      // the body is not JSON: the exception handler still answers Accepted
      return Accepted;
    }
    var body := req.body.value;
    if ActiveSettings(dir, landlordId).None? {
      return NotActive;
    }
    if body.stk.Some? {
      var cb := body.stk.value;
      if cb.resultCode != 0 {
        return Accepted;
      }
      var amount := Meta(cb.items, "Amount");
      var receipt := Meta(cb.items, "MpesaReceiptNumber");
      var phone := MetaText(Meta(cb.items, "PhoneNumber"));
      if Truthy(amount) && Truthy(receipt) {
        var rounded := MetaAmount(amount);
        // a NaN amount reaches the database as null and the insert fails
        if rounded.Num? {
          var _ := store.InsertPayment(Payment(newId, landlordId, None, rounded.value, Mpesa, MetaText(receipt), phone,
                                               None, now, false, None));
        }
      }
    } else if Given(body.transId) {
      var amount := body.transAmount;
      var transId := body.transId.value;
      var reference := body.billRefNumber;
      var phone := body.msisdn;
      if amount.Num? && amount.value > 0 {
        if KnownTransaction(store.payments, transId) {
          return Accepted;
        }
        var tenancyId: Option<Id> := None;
        var isMatched := false;
        if Given(reference) {
          var unit := UnitByCode(dir, landlordId, reference.value);
          if unit.Some? {
            var tenancy := LiveTenancyOfUnit(dir, landlordId, unit.value.id);
            if tenancy.Some? {
              tenancyId := Some(tenancy.value.id);
              isMatched := true;
            }
          }
          if !isMatched && Given(phone) {
            var formattedPhone := StripCountryCode(phone.value);
            var tenants := TenantsWithPhone(dir, landlordId, formattedPhone);
            if |tenants| == 1 {
              var tenancy := LiveTenancyOfTenant(dir, landlordId, tenants[0].id);
              if tenancy.Some? {
                tenancyId := Some(tenancy.value.id);
                isMatched := true;
              }
            }
          }
        }
        assert tenancyId == MatchTenancy(dir, landlordId, reference, phone) && isMatched == tenancyId.Some?;
        var _ := store.InsertPayment(Payment(newId, landlordId, tenancyId, amount.value, Mpesa, body.transId, phone,
                                             reference, now, isMatched, None));
      }
    }
    return Accepted;
  }

  /** ResultCode 1 answers exactly a missing landlord and a missing active integration. */
  lemma ResultCodes(dir: Directory, req: CallbackRequest)
    ensures var r := CallbackResponse(dir, req);
      && (r.resultCode == 1 <==>
            !Given(req.landlordId) || (req.body.Some? && ActiveSettings(dir, req.landlordId.value).None?))
      && (r.resultCode != 1 ==> r == Accepted)
  {
  }

  /** A C2B notification whose transaction id is already recorded (once) inserts nothing. */
  lemma DuplicateIgnored(payments: seq<Payment>, dir: Directory, body: CallbackBody, landlordId: Id, newId: Id, now: int, i: int)
    requires body.transId.Some? && 0 <= i < |payments| && payments[i].mpesaTransId == body.transId
    requires forall j :: 0 <= j < |payments| && j != i ==> payments[j].mpesaTransId != body.transId
    ensures C2bPayment(payments, dir, body, landlordId, newId, now).None?
  {
    FilterSingleton(payments, (p: Payment) => p.mpesaTransId == Some(body.transId.value), i);
  }

  /**
   * The duplicate check relies on `.single()`: once two payments carry the
   * same transaction id (the STK branch inserts without a check), a third
   * notification with that id is recorded again.
   */
  lemma DuplicateMissedWhenAmbiguous(payments: seq<Payment>, dir: Directory, body: CallbackBody, landlordId: Id, newId: Id, now: int)
    requires Given(body.transId) && body.transAmount.Num? && body.transAmount.value > 0
    requires |Filter(payments, (p: Payment) => p.mpesaTransId == Some(body.transId.value))| >= 2
    ensures C2bPayment(payments, dir, body, landlordId, newId, now).Some?
  {
  }

  /** A C2B row is produced only for a positive amount and a transaction id, and carries both. */
  lemma C2bRowShape(payments: seq<Payment>, dir: Directory, body: CallbackBody, landlordId: Id, newId: Id, now: int)
    ensures var row := C2bPayment(payments, dir, body, landlordId, newId, now);
      row.Some? ==>
        && body.transAmount.Num? && body.transAmount.value > 0 && row.value.amount == body.transAmount.value
        && Given(body.transId) && row.value.mpesaTransId == body.transId
        && row.value.source == Mpesa && row.value.landlordId == landlordId
        && row.value.rawReference == body.billRefNumber && row.value.phoneNumber == body.msisdn
        && (row.value.isMatched <==> row.value.tenancyId.Some?)
        && row.value.tenancyId == MatchTenancy(dir, landlordId, body.billRefNumber, body.msisdn)
  {
  }

  /** Every inserted row, STK or C2B, is matched exactly when it names a tenancy. */
  lemma MatchedIffTenancy(payments: seq<Payment>, dir: Directory, req: CallbackRequest, newId: Id, now: int)
    ensures var row := CallbackPayment(payments, dir, req, newId, now);
      row.Some? ==> row.value.source == Mpesa && (row.value.isMatched <==> row.value.tenancyId.Some?)
  {
  }

  /** Without a reference neither the unit code nor the phone number is tried. */
  lemma NoReferenceNoMatch(dir: Directory, landlordId: Id, reference: Option<string>, phone: Option<string>)
    requires !Given(reference)
    ensures MatchTenancy(dir, landlordId, reference, phone).None?
  {
  }

  /**
   * A unique unit with the reference as its code and a unique live tenancy
   * on it decide the match, whatever the phone number says.
   */
  lemma UnitMatchWins(dir: Directory, landlordId: Id, reference: string, phone: Option<string>, ui: int, ti: int)
    requires reference != ""
    requires 0 <= ui < |dir.units|
    requires var u := dir.units[ui]; u.landlordId == landlordId && EqualsIgnoreCase(u.unitCode, reference)
    requires forall j :: 0 <= j < |dir.units| && j != ui ==>
      !(dir.units[j].landlordId == landlordId && EqualsIgnoreCase(dir.units[j].unitCode, reference))
    requires 0 <= ti < |dir.tenancies|
    requires var t := dir.tenancies[ti]; t.landlordId == landlordId && t.unitId == dir.units[ui].id && IsLive(t)
    requires forall j :: 0 <= j < |dir.tenancies| && j != ti ==>
      !(dir.tenancies[j].landlordId == landlordId && dir.tenancies[j].unitId == dir.units[ui].id && IsLive(dir.tenancies[j]))
    ensures MatchTenancy(dir, landlordId, Some(reference), phone) == Some(dir.tenancies[ti].id)
  {
    FilterSingleton(dir.units, (u: Unit) => u.landlordId == landlordId && EqualsIgnoreCase(u.unitCode, reference), ui);
    var unitId := dir.units[ui].id;
    FilterSingleton(dir.tenancies, (t: Tenancy) => t.landlordId == landlordId && t.unitId == unitId && IsLive(t), ti);
  }

  /**
   * When the unit code matches nothing, a given phone number decides: the
   * match is the phone match, and a found tenancy belongs to a tenant
   * listing the number with its country code turned into a leading 0.
   */
  lemma PhoneFallback(dir: Directory, landlordId: Id, reference: string, phone: string)
    requires reference != "" && phone != ""
    requires MatchByUnit(dir, landlordId, reference).None?
    ensures MatchTenancy(dir, landlordId, Some(reference), Some(phone)) == MatchByPhone(dir, landlordId, phone)
    ensures MatchByPhone(dir, landlordId, phone).Some? ==>
      exists t :: t in dir.tenants && HasPhone(t, StripCountryCode(phone))
  {
    var tenants := TenantsWithPhone(dir, landlordId, StripCountryCode(phone));
    if MatchByPhone(dir, landlordId, phone).Some? {
      assert tenants[0] in dir.tenants && HasPhone(tenants[0], StripCountryCode(phone));
    }
  }

  /**
   * A failed STK push records nothing. A successful one records a row
   * exactly when its amount and receipt are truthy and the amount is a
   * number; the row is unmatched, carries that amount and the receipt as
   * its transaction id, and no duplicate check is made.
   */
  lemma StkRows(cb: StkCallback, landlordId: Id, newId: Id, now: int)
    ensures cb.resultCode != 0 ==> StkPayment(cb, landlordId, newId, now).None?
    ensures var amount := Meta(cb.items, "Amount");
      var receipt := Meta(cb.items, "MpesaReceiptNumber");
      var row := StkPayment(cb, landlordId, newId, now);
      && (row.Some? <==> cb.resultCode == 0 && Truthy(amount) && Truthy(receipt) && MetaAmount(amount).Num?)
      && (row.Some? ==>
            && !row.value.isMatched && row.value.tenancyId.None? && row.value.source == Mpesa
            && row.value.amount == MetaAmount(amount).value
            && row.value.mpesaTransId == MetaText(receipt) && Given(row.value.mpesaTransId)
            && row.value.phoneNumber == MetaText(Meta(cb.items, "PhoneNumber")))
  {
    var receipt := Meta(cb.items, "MpesaReceiptNumber");
    if receipt.Some? && receipt.value.NumberValue? {
      assert |IntToString(receipt.value.n)| >= 1;
    }
  }

  /** An amount sent as the text "100" is stored as 100. */
  lemma StkTextAmount(landlordId: Id, newId: Id, now: int)
    ensures var cb := StkCallback(0, [MetaItem("Amount", Some(TextValue("100"))),
                                      MetaItem("MpesaReceiptNumber", Some(TextValue("QKX1")))]);
      var row := StkPayment(cb, landlordId, newId, now);
      row.Some? && row.value.amount == 100
  {
    var items := [MetaItem("Amount", Some(TextValue("100"))), MetaItem("MpesaReceiptNumber", Some(TextValue("QKX1")))];
    assert Meta(items, "Amount") == Some(TextValue("100"));
    assert items[1..] == [items[1]];
    assert Meta(items, "MpesaReceiptNumber") == Some(TextValue("QKX1"));
    assert |"PhoneNumber"| != |items[0].name| && |"PhoneNumber"| != |items[1].name|;
    assert Meta(items, "PhoneNumber") == None;
    TextHundred();
    assert Truthy(Meta(items, "Amount")) && Truthy(Meta(items, "MpesaReceiptNumber"));
    assert MetaAmount(Meta(items, "Amount")) == Num(100);
  }

  lemma TextHundred()
    ensures ToNumber("100") == Num(100)
  {
    assert IntToString(100) == "100" by {
      assert NatToString(100) == NatToString(10) + [DigitChar(0)];
      assert NatToString(10) == NatToString(1) + [DigitChar(0)];
    }
    ToNumberOfIntToString(100, "", "");
    assert "" + "100" + "" == "100";
  }

  /** A receipt number of 0 is falsy, so nothing is stored. */
  lemma StkZeroReceipt(landlordId: Id, newId: Id, now: int)
    ensures var cb := StkCallback(0, [MetaItem("Amount", Some(NumberValue(100))),
                                      MetaItem("MpesaReceiptNumber", Some(NumberValue(0)))]);
      StkPayment(cb, landlordId, newId, now).None?
  {
  }
}
