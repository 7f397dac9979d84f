/**
 * Row shapes of the Supabase tables the rent ledger reads and writes,
 * and the status and source enumerations of the schema.
 *
 * Identifiers are strings; dates (`due_date`, `paid_at`, `start_date`)
 * are instants in milliseconds on one time line, so that their order is
 * integer order (a date without a time is its midnight); a billing
 * period (`"YYYY-MM"`) is a month number, ordered the same way as the
 * zero-padded strings the database stores. Amounts are whole shillings.
 */
module Types {

  import opened Seqs

  type Id = string

  /** `rent_charges.status`. */
  datatype ChargeStatus = Unpaid | Partial | Paid

  /** `tenancies.status`. */
  datatype TenancyStatus = Active | Notice | Ended

  /** `units.status`. */
  datatype UnitStatus = Vacant | Occupied | Reserved

  /** `payments.source`. */
  datatype PaymentSource = Mpesa | Manual

  /** One bill: the rent of one tenancy for one period. */
  datatype RentCharge = RentCharge(
    id: Id,
    landlordId: Id,
    tenancyId: Id,
    period: int,
    dueDate: int,
    amount: int,
    balance: int,
    status: ChargeStatus)

  /** Money received, from M-Pesa or entered by hand. */
  datatype Payment = Payment(
    id: Id,
    landlordId: Id,
    tenancyId: Option<Id>,
    amount: int,
    source: PaymentSource,
    mpesaTransId: Option<string>,
    phoneNumber: Option<string>,
    rawReference: Option<string>,
    paidAt: int,
    isMatched: bool,
    notes: Option<string>)

  /** `payment_allocations`: part of one payment applied to one charge. */
  datatype Allocation = Allocation(
    landlordId: Id,
    paymentId: Id,
    chargeId: Id,
    amount: int)

  /** A tenant occupying a unit. */
  datatype Tenancy = Tenancy(
    id: Id,
    landlordId: Id,
    tenantId: Id,
    unitId: Id,
    status: TenancyStatus,
    startDate: int,
    endDate: Option<int>,
    monthlyRent: int,
    depositRequired: Option<int>,
    rentDueDay: Option<int>)

  datatype Unit = Unit(
    id: Id,
    landlordId: Id,
    propertyId: Id,
    unitCode: string,
    unitType: Option<string>,
    status: UnitStatus,
    monthlyRent: int,
    isDeleted: bool)

  datatype Property = Property(
    id: Id,
    landlordId: Id,
    name: string,
    location: Option<string>,
    notes: Option<string>,
    isDeleted: bool)

  /** An element of the `tenants.phone_numbers` JSON list. */
  datatype PhoneNumber = PhoneNumber(number: string, phoneLabel: Option<string>)

  datatype Tenant = Tenant(
    id: Id,
    landlordId: Id,
    fullName: string,
    idNumber: Option<string>,
    phoneNumbers: seq<PhoneNumber>,
    notes: Option<string>,
    isArchived: bool)

  /** `mpesa_settings`; the three credentials are stored encrypted. */
  datatype MpesaSettings = MpesaSettings(
    landlordId: Id,
    paybillOrTill: Option<string>,
    shortcode: Option<string>,
    status: string,
    consumerKeyEncrypted: Option<string>,
    consumerSecretEncrypted: Option<string>,
    passkeyEncrypted: Option<string>)

  datatype Landlord = Landlord(id: Id, defaultRentDueDay: Option<int>)

  /** A row returned by `generate_rent_charges_for_current_month`. */
  datatype GeneratedCharge = GeneratedCharge(
    tenancyId: Id,
    tenantName: string,
    amount: int,
    dueDate: int,
    created: bool)

  /** A tenancy that still occupies its unit. */
  predicate IsLive(t: Tenancy)
  {
    t.status == Active || t.status == Notice
  }

  /** `new Map(tenancies.map(t => [t.id, t])).get(id)`. */
  function TenancyById(tenancies: seq<Tenancy>, id: Id): (r: Option<Tenancy>)
    ensures r.Some? ==> r.value in tenancies && r.value.id == id
    ensures r.None? <==> forall i :: 0 <= i < |tenancies| ==> tenancies[i].id != id
  {
    FindLast(tenancies, (t: Tenancy) => t.id == id)
  }

  /** `new Map(units.map(u => [u.id, u])).get(id)`. */
  function UnitById(units: seq<Unit>, id: Id): (r: Option<Unit>)
    ensures r.Some? ==> r.value in units && r.value.id == id
    ensures r.None? <==> forall i :: 0 <= i < |units| ==> units[i].id != id
  {
    FindLast(units, (u: Unit) => u.id == id)
  }
}
