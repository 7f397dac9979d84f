# Rent ledger and M-Pesa payment handling of rentmkononi

rentmkononi is a rent dashboard for Kenyan landlords. It is built on Supabase
with a React front end. A landlord keeps properties, units, tenants and
tenancies, and a ledger of three tables:

- monthly rent charges, each with an amount, a remaining balance and a status (UNPAID, PARTIAL, PAID);
- payments, recorded by hand or arriving from Safaricom M-Pesa;
- allocations, each moving part of one payment onto one charge.

This project is a Dafny model of that ledger and of the logic around it.

- **The allocation step** of the unmatched-payments page is modelled as `Ledger.Store`.
  - The store is a class whose fields are the three tables.
  - `Allocate` writes the allocation row, the charge's new balance and status, and the payment's `is_matched` flag.
  - The store keeps the invariant `0 <= balance <= amount` and `balance + allocated == amount` for every charge.
- **The inbound M-Pesa pipeline** is modelled in three modules:
  - the C2B validation gate (`C2bValidation`);
  - the confirmation and STK callback handler (`MpesaCallback`), which inserts payments into the same store;
  - the sandbox simulator's input checks and phone formatting (`C2bSimulate`, `Phones`).
- **Each page's derived figures** are modelled as functions over sequences of rows. Where the page builds them in a `forEach` or `for` loop, they are methods with loop invariants, proved against a specification function. The figures are:
  - the tenant rent-status cascade;
  - outstanding and collected totals per tenant, tenancy, unit and property;
  - the rent-charge filters, summary figures and display status;
  - the unit summaries and occupancy;
  - the "unpaid months" label.
- **The form validators and small string helpers** of every page are modelled as functions: the tenancy, payment, property, unit, tenant, M-Pesa and due-day settings forms, `capitalize`, the period string, `maskValue` and the day suffix.

Modelling conventions:

- Identifiers are strings.
- Amounts are whole shillings (`int`).
- Dates and timestamps are integer instants. A charge's `period` is an integer ordered like the `YYYY-MM` string it stands for.
- The clock is always an input: "now", "today", the current period and the current month's first and last instant.
- A Supabase `.single()` query is `Seqs.Single`: exactly one matching row gives that row, and none or several give nothing.
- A JavaScript `Map` built with `forEach(set)` is `Seqs.FindLast`: the last row with the key wins.
- `parseInt` is `Text.ParseInt`, a strict parser giving `Option<int>`.
- `x.trim() || null` is `Text.NullIfEmpty(Text.Trim(x))`.

How the ledger behaves:

- The unmatched-payments page allocates a payment to one charge at a time. Nothing in the modelled code distributes a payment over several charges oldest first.
- Nothing in the modelled code reverses allocations when a manual payment is edited. `PaymentsPage.Save` only rewrites the payment row.
- The ledger does not keep what is allocated from a payment within the payment's amount. The unmatched-payments page checks the payment's remainder before it allocates (`UnmatchedPayments.PageCheck`), but `allocateMutation` checks only the charge's balance (`Ledger.AllocateBeyondPayment`). An edit on the payments page may lower a payment's amount below what is already allocated from it, and the ledger stays valid (`Ledger.EditCanOverAllocate`).
- The callback never creates allocations. Its `is_matched` means "a tenancy was found", not "fully allocated".
- The charge status after an allocation is PAID when the new balance is at most zero, PARTIAL when it is below the charge amount, and UNPAID otherwise (`Ledger.StatusOf`).

Modules, one file each:

| file | module | models |
|---|---|---|
| seqs.dfy | Seqs | Option, filter, count, sum, `.single()`, map lookups |
| text.dfy | Text | trim, case, split/join on spaces, integer printing and parsing |
| types.dfy | Types | the row types and enums of `src/types/database.ts` |
| aggregate.dfy | Aggregate | the `map[k] = (map[k] \|\| 0) + x` and "latest live tenancy per key" loops shared by the pages |
| ledger.dfy | Ledger | charges, payments and allocations as a store class; `allocateMutation` |
| unmatched_payments.dfy | UnmatchedPayments | the unmatched-payments page |
| mpesa_callback.dfy | MpesaCallback | `supabase/functions/mpesa-callback` |
| c2b_validation.dfy | C2bValidation | `supabase/functions/c2b-validation` |
| c2b_simulate.dfy | C2bSimulate | `supabase/functions/c2b-simulate` |
| phones.dfy | Phones | the two phone rewrites (`254…`→`0…` and `0…`→`254…`) |
| payments_page.dfy | PaymentsPage | the payments page |
| rent_charges_page.dfy | RentChargesPage | the rent-due page |
| tenants_page.dfy | TenantsPage | the tenants page |
| tenancies_page.dfy | TenanciesPage | the tenancies page |
| properties_page.dfy | PropertiesPage | the properties page |
| property_detail_page.dfy | PropertyDetailPage | the property detail page |
| mpesa_settings_page.dfy | MpesaSettingsPage | the M-Pesa settings page |
| account_settings_page.dfy | AccountSettingsPage | the default due-day setting |
| utils.dfy | Utils | `src/lib/utils.ts` helpers and the day suffix |

## Model

| member | source | states |
|---|---|---|
| Seqs.Single | supabase/functions/mpesa-callback/index.ts:131-135 | `.single()`: a row only when exactly one row matches, and then it is that row |
| Seqs.FindLast | src/pages/rent-charges/RentChargesPage.tsx:112-117 | a `Map` filled by `forEach(set)` answers with a row carrying the key after which no row carries it, so the last row wins; nothing exactly when no row carries the key |
| Types.TenancyById | src/pages/rent-charges/RentChargesPage.tsx:112-117 | the tenancy map lookup returns a tenancy of the list with that id |
| Types.UnitById | src/pages/rent-charges/RentChargesPage.tsx:124-129 | the unit map lookup returns a unit of the list with that id |
| Text.ParseInt | src/pages/settings/AccountSettingsPage.tsx:136 | an optional sign and then only digits parse; anything else gives nothing |
| Text.ParseIntSigned | src/pages/settings/AccountSettingsPage.tsx:136 | a sign followed by digits parses to the digits' value, negated for `-` |
| Text.ToNumber | supabase/functions/mpesa-callback/index.ts:97-108 | `Number(s)` of a text: 0 for a blank text, the integer when the trimmed text parses, else NaN |
| Text.ParseIntOfIntToString | src/pages/tenancies/TenanciesPage.tsx:357-359 | printing an integer and parsing it back gives the integer |
| Text.NullIfEmpty | src/pages/properties/PropertiesPage.tsx:232-233 | `x \|\| null`: nothing exactly for the empty string, else the string itself |
| Text.TrimIdempotent | src/pages/properties/PropertiesPage.tsx:296 | trimming a trimmed string changes nothing |
| Text.TrimEmptyIff | src/pages/properties/PropertiesPage.tsx:296-297 | a string trims to empty exactly when all its characters are white space |
| Aggregate.SumByKey | src/pages/tenancies/TenanciesPage.tsx:203-211 | the `map[k] = (map[k] \|\| 0) + x` loop: every key's entry is the keyed sum of its rows, and a key has an entry exactly when some row carries it |
| Aggregate.KeyedSumIsGroupSum | src/pages/properties/PropertiesPage.tsx:198-222 | the keyed sum of a key is the sum over the rows with that key |
| Aggregate.KeyedSumMonotone | src/pages/properties/PropertyDetailPage.tsx:246-250 | summing a smaller value per row gives a smaller keyed sum |
| Aggregate.KeyedSumAtMostSum | src/pages/tenancies/TenanciesPage.tsx:203-211 | with non-negative values, one key's sum is at most the sum over all rows |
| Aggregate.LatestLiveByKey | src/pages/tenants/TenantsPage.tsx:171-185 | the latest-live loop: a key has an entry exactly when some ACTIVE or NOTICE tenancy carries it; the entry is such a tenancy of the list; no such tenancy with that key starts later |
| Aggregate.GroupByKey | src/pages/tenants/TenantsPage.tsx:236-243 | the grouping loop: a key has an entry exactly when some row carries it, and the entry is exactly that key's rows in order |
| Ledger.StatusOf | src/pages/unmatched-payments/UnmatchedPaymentsPage.tsx:236-242 | PAID exactly when the balance is at most zero, PARTIAL exactly when it is between zero and the amount, UNPAID exactly otherwise |
| Ledger.AllocationNeverUnpaid | src/pages/unmatched-payments/UnmatchedPaymentsPage.tsx:236-242 | an allocation of `0 < a <= balance <= amount` never leaves the charge UNPAID, and leaves it PAID exactly when it clears the balance |
| Ledger.LookupCharge | src/pages/unmatched-payments/UnmatchedPaymentsPage.tsx:210-219 | the landlord-scoped `.single()` charge query: a charge of the list with that id and landlord |
| Ledger.LookupChargeFinds | src/pages/unmatched-payments/UnmatchedPaymentsPage.tsx:210-219 | with unique ids the query finds the landlord's charge with that id |
| Ledger.AllocateErrorMessage | src/pages/unmatched-payments/UnmatchedPaymentsPage.tsx:221-226 | the mutation's own messages exist exactly for the non-positive and the over-balance amount |
| Ledger.AllocateCheck | src/pages/unmatched-payments/UnmatchedPaymentsPage.tsx:206-234 | the allocation goes ahead exactly when the charge is found, `0 < amount <= balance`, and the payment exists; the failures come in that order |
| Ledger.Store.constructor | src/types/database.ts:384-396 | a ledger of freshly generated charges, with no payments and no allocations, is valid |
| Ledger.Store.Allocate | src/pages/unmatched-payments/UnmatchedPaymentsPage.tsx:206-255 | keeps the ledger invariant. On success: one allocation row appended, that charge's balance lowered by the amount with status `StatusOf`, the payment marked matched even with a remainder left. On failure: nothing written |
| Ledger.Store.InsertPayment | supabase/functions/mpesa-callback/index.ts:202-214 | keeps the ledger invariant; appends the row exactly when its id is new, and leaves charges and allocations alone |
| Ledger.Store.UpdatePayment | src/pages/payments/PaymentsPage.tsx:178-199 | keeps the ledger invariant; rewrites the edited columns of that payment, and leaves `is_matched`, charges and allocations alone |
| Ledger.AllocationConserves | src/pages/unmatched-payments/UnmatchedPaymentsPage.tsx:228-248 | balance plus the allocations to the charge is the same before and after the allocation |
| Ledger.AllocationLeavesOthers | src/pages/unmatched-payments/UnmatchedPaymentsPage.tsx:244-248 | what is allocated to any other charge does not change |
| Ledger.AllocateKeepsValid | src/pages/unmatched-payments/UnmatchedPaymentsPage.tsx:228-254 | a successful allocation keeps `0 <= balance <= amount`, `balance + allocated == amount`, unique ids and the foreign keys |
| Ledger.EditCanOverAllocate | src/pages/payments/PaymentsPage.tsx:186-197 | an edit may lower a payment's amount below what is allocated from it, and the ledger invariant still holds |
| Ledger.AllocateBeyondPayment | src/pages/unmatched-payments/UnmatchedPaymentsPage.tsx:206-234 | the mutation lets 300 be allocated from a payment of 100 against a charge owing 500 |
| Ledger.SameIdsKeepKeys | src/types/database.ts:115-123 | rewriting rows without changing their ids keeps the keys, and an allocation whose payment and charge exist keeps the foreign keys |
| Ledger.InsertKeepsValid | supabase/functions/mpesa-callback/index.ts:202-214 | appending a payment with a new id keeps the ledger invariant |
| Ledger.EditKeepsValid | src/pages/payments/PaymentsPage.tsx:186-197 | editing a payment keeps the ledger invariant |
| UnmatchedPayments.AllocationsByPayment | src/pages/unmatched-payments/UnmatchedPaymentsPage.tsx:154-161 | the per-payment loop: every payment's entry is exactly what is allocated from it, and it has an entry exactly when it has an allocation |
| UnmatchedPayments.UnmatchedList | src/pages/unmatched-payments/UnmatchedPaymentsPage.tsx:187-193 | the listed payments are exactly the payments with a positive remainder |
| UnmatchedPayments.UnmatchedIff | src/pages/unmatched-payments/UnmatchedPaymentsPage.tsx:154-193 | a payment is listed exactly when its amount minus its allocations is above zero |
| UnmatchedPayments.CurrentPaymentRemaining | src/pages/unmatched-payments/UnmatchedPaymentsPage.tsx:195-199 | zero without a selection, else the payment's amount minus what is already allocated from it |
| UnmatchedPayments.AvailableCharges | src/pages/unmatched-payments/UnmatchedPaymentsPage.tsx:201-204 | exactly the chosen tenancy's charges with a positive balance; none before a tenancy is chosen |
| UnmatchedPayments.OpenAllocateForm | src/pages/unmatched-payments/UnmatchedPaymentsPage.tsx:269-274 | the tenancy defaults to the payment's tenancy or empty; charge and amount start empty |
| UnmatchedPayments.ChangeTenancy | src/pages/unmatched-payments/UnmatchedPaymentsPage.tsx:376-382 | changing the tenancy clears the selected charge and keeps the amount |
| UnmatchedPayments.ChangeTenancyOffersOnlyItsCharges | src/pages/unmatched-payments/UnmatchedPaymentsPage.tsx:376-382 | after a tenancy change only that tenancy's open charges are offered (also lines 201-204) |
| UnmatchedPayments.CheckAllocation | src/pages/unmatched-payments/UnmatchedPaymentsPage.tsx:276-311 | passes exactly when tenancy and charge are chosen, the amount parses with `0 < amount <= remaining`, and the charge is among the loaded charges with at least that balance; tenancy is checked before charge |
| UnmatchedPayments.HandleAllocateSubmit | src/pages/unmatched-payments/UnmatchedPaymentsPage.tsx:276-320 | nothing happens without a selected payment; the page checks refuse with their error; then the mutation's checks refuse with theirs; otherwise `Allocated`, with exactly one allocation row added, the charge balance lowered with its new status and the payment marked matched; never over-allocates the payment; every refusal writes nothing |
| UnmatchedPayments.LandlordAllocationsSnoc | src/pages/unmatched-payments/UnmatchedPaymentsPage.tsx:140-161 | the landlord's allocations after a new row of that landlord are the old ones plus the row |
| MpesaCallback.ActiveSettings | supabase/functions/mpesa-callback/index.ts:68-81 | the settings found are that landlord's and ACTIVE |
| MpesaCallback.UnitByCode | supabase/functions/mpesa-callback/index.ts:151-156 | a found unit is the landlord's, and its code equals the reference up to case |
| MpesaCallback.LiveTenancyOfUnit | supabase/functions/mpesa-callback/index.ts:160-166 | a found tenancy is an ACTIVE or NOTICE tenancy of that unit |
| MpesaCallback.LiveTenancyOfTenant | supabase/functions/mpesa-callback/index.ts:185-191 | a found tenancy is an ACTIVE or NOTICE tenancy of that tenant |
| MpesaCallback.TenantsWithPhone | supabase/functions/mpesa-callback/index.ts:177-181 | every tenant returned lists that number |
| MpesaCallback.Handle | supabase/functions/mpesa-callback/index.ts:45-235 | keeps the ledger invariant; answers `CallbackResponse`; inserts exactly the row `CallbackPayment` builds, if any; leaves charges and allocations alone |
| MpesaCallback.ResultCodes | supabase/functions/mpesa-callback/index.ts:50-81 | ResultCode 1 exactly for a missing landlord id, or, for a readable body, missing or inactive settings; an unreadable body is always answered 0 "Accepted", as is every other case (also lines 224-234) |
| MpesaCallback.DuplicateIgnored | supabase/functions/mpesa-callback/index.ts:131-143 | a TransID already on exactly one payment creates nothing |
| MpesaCallback.DuplicateMissedWhenAmbiguous | supabase/functions/mpesa-callback/index.ts:131-143 | a TransID already on two or more payments is not caught by the `.single()` check, and the payment is created again |
| MpesaCallback.C2bRowShape | supabase/functions/mpesa-callback/index.ts:129-214 | a C2B row exists only for amount above zero and a TransID; it is an MPESA row with that amount, TransID, phone and reference; its tenancy is `MatchTenancy`; it is matched exactly when it has a tenancy |
| MpesaCallback.MatchedIffTenancy | supabase/functions/mpesa-callback/index.ts:146-214 | every row the callback inserts is MPESA, and is matched exactly when its tenancy is set |
| MpesaCallback.NoReferenceNoMatch | supabase/functions/mpesa-callback/index.ts:149 | without a reference no tenancy is matched, not even by phone |
| MpesaCallback.UnitMatchWins | supabase/functions/mpesa-callback/index.ts:149-172 | exactly one unit with the code and exactly one live tenancy on it give that tenancy, whatever the phone |
| MpesaCallback.PhoneFallback | supabase/functions/mpesa-callback/index.ts:174-197 | when the unit match fails, the phone match decides, and a phone match has a tenant listing the `0…` form of the number |
| MpesaCallback.StkRows | supabase/functions/mpesa-callback/index.ts:84-121 | a row is created exactly when the push succeeded, Amount and MpesaReceiptNumber are truthy and Amount reads as a number; the row is an unmatched MPESA row without a tenancy, with that amount, the receipt as transaction id and the phone |
| MpesaCallback.StkTextAmount | supabase/functions/mpesa-callback/index.ts:97-108 | an Amount sent as the text "100" is read as 100 and creates a row |
| MpesaCallback.StkZeroReceipt | supabase/functions/mpesa-callback/index.ts:98-101 | a receipt number 0 is falsy and creates no row |
| MpesaCallback.MetaAmount | supabase/functions/mpesa-callback/index.ts:97-108 | a numeric Amount is itself and a text Amount is read by `Number` |
| C2bValidation.ActiveSettings | supabase/functions/c2b-validation/index.ts:58-63 | the settings found are that landlord's and ACTIVE |
| C2bValidation.Validate | supabase/functions/c2b-validation/index.ts:31-123 | every rejection carries C2B00012, C2B00013 or C2B00014 |
| C2bValidation.NoLandlordAccepted | supabase/functions/c2b-validation/index.ts:36-46 | a missing landlord id is accepted without further checks |
| C2bValidation.InactiveRejectedFirst | supabase/functions/c2b-validation/index.ts:65-75 | missing or inactive settings give C2B00012, whatever the shortcode and amount |
| C2bValidation.AcceptIff | supabase/functions/c2b-validation/index.ts:36-123 | accepted exactly when there is no landlord id, the body cannot be read, or active settings exist, the shortcode matches one of the two configured codes and the amount is not a number at most zero |
| C2bValidation.AmountRejection | supabase/functions/c2b-validation/index.ts:90-100 | past the settings and shortcode checks, the request is rejected exactly for a number of at most zero, with C2B00014; a NaN amount is accepted |
| C2bSimulate.ClassifyReply | supabase/functions/c2b-simulate/index.ts:106-118 | success exactly when ResponseCode is "0" or the description contains "Accept"; the message is the description, else the error message, else the default |
| C2bSimulate.FormatPhone | supabase/functions/c2b-simulate/index.ts:199-205 | the rewriting loop computes `Phones.InternationalForm` |
| C2bSimulate.CheckRequest | supabase/functions/c2b-simulate/index.ts:128-188 | the 401 answers for a missing header or user; a request passes only with a phone, an amount above zero, the caller's own landlord id and exactly one settings row |
| C2bSimulate.MissingFieldsBeforeLandlord | supabase/functions/c2b-simulate/index.ts:157-163 | a missing phone or a non-positive amount gets 400 before the landlord check |
| C2bSimulate.OtherLandlordForbidden | supabase/functions/c2b-simulate/index.ts:165-171 | another landlord's id gets 403 |
| C2bSimulate.SandboxArguments | supabase/functions/c2b-simulate/index.ts:199-216 | the sandbox is called with the formatted phone, the bill reference or "", the configured shortcode and the amount |
| C2bSimulate.Simulate | supabase/functions/c2b-simulate/index.ts:121-243 | a refused request gets the refusal; 200 exactly for an accepted simulation; 400 with the reply's message for a rejected one; 500 exactly when the call throws |
| C2bSimulate.ThrownMessage | supabase/functions/c2b-simulate/index.ts:236-243 | the 500 message is the thrown message, or "Internal server error" when it is empty |
| C2bSimulate.SimulateRequest | supabase/functions/c2b-simulate/index.ts:121-243 | a readable body is handled by `Simulate`; an unreadable one gets the 401 answers first and otherwise 500 with the parse error's message |
| C2bSimulate.AuthorisationFirst | supabase/functions/c2b-simulate/index.ts:128-148 | a missing header or user gets its 401 whatever the body |
| Phones.StripCountryCode | supabase/functions/mpesa-callback/index.ts:176 | a leading "254" becomes "0"; any other number is unchanged |
| Phones.InternationalFormHasNoSpaces | supabase/functions/c2b-simulate/index.ts:200 | the formatted phone holds no white space |
| Phones.InternationalFormOtherwise | supabase/functions/c2b-simulate/index.ts:200-205 | a number starting with neither "0" nor "+" only loses its white space |
| Phones.PlusZeroKeepsZero | supabase/functions/c2b-simulate/index.ts:201-205 | only one rewrite applies, so "+0…" becomes "0…" |
| Phones.LocalNumberRoundTrip | supabase/functions/c2b-simulate/index.ts:200-205 | for a local `0…` number, the callback's rewrite undoes the simulator's |
| PaymentsPage.MethodName | src/pages/payments/PaymentsPage.tsx:167 | each method has its own name in `notes` |
| PaymentsPage.DecodeMethod | src/pages/payments/PaymentsPage.tsx:231-237 | the decoded method is the one named in `notes`, or cash |
| PaymentsPage.MethodRoundTrip | src/pages/payments/PaymentsPage.tsx:167-237 | writing a method into `notes` and decoding it gives the method back |
| PaymentsPage.UnknownNotesAreCash | src/pages/payments/PaymentsPage.tsx:231-237 | notes that name none of the four methods decode as cash |
| PaymentsPage.CreateForm | src/pages/payments/PaymentsPage.tsx:205-218 | a fresh manual cash form with every field empty |
| PaymentsPage.EditForm | src/pages/payments/PaymentsPage.tsx:220-244 | an M-Pesa payment cannot be opened; any other opens with its own fields and its decoded method (also lines 508-509) |
| PaymentsPage.PositiveAmount | src/pages/payments/PaymentsPage.tsx:153-184 | an amount is accepted exactly when it parses to an integer above zero |
| PaymentsPage.SaveErrorMessage | src/pages/payments/PaymentsPage.tsx:150-156 | the form's own refusals, the missing profile among them, have messages; a database failure has none of its own |
| PaymentsPage.NewRow | src/pages/payments/PaymentsPage.tsx:158-170 | the created row is MANUAL, not matched, without phone or TransID; its notes are the method; the reference is trimmed; an empty reference or tenancy is stored as null |
| PaymentsPage.EditOf | src/pages/payments/PaymentsPage.tsx:186-197 | the edit rewrites amount, date, source, reference, tenancy and notes, with the same trimming and nulls |
| PaymentsPage.Plan | src/pages/payments/PaymentsPage.tsx:150-199 | an empty amount is refused first; a create without a loaded landlord profile is refused next; then a non-positive or unparsable amount; an edit with an id updates that row; anything else creates a row for that landlord (also lines 246-266) |
| PaymentsPage.SavedAmountPositive | src/pages/payments/PaymentsPage.tsx:153-184 | every saved payment, created or edited, has an amount above zero |
| PaymentsPage.UnchangedEditIsIdentity | src/pages/payments/PaymentsPage.tsx:186-244 | saving an edit form unchanged rewrites a normal manual payment to itself |
| PaymentsPage.ModeLabel | src/pages/payments/PaymentsPage.tsx:491-499 | the label is "M-Pesa" exactly for an M-Pesa payment |
| PaymentsPage.CreatedRowLabel | src/pages/payments/PaymentsPage.tsx:491-499 | a payment recorded here is labelled `MethodLabel` of its method |
| PaymentsPage.MethodLabel | src/pages/payments/PaymentsPage.tsx:491-499 | "Manual (Cash)", "Manual (Bank transfer)" and "Manual (Cheque)" for the three named methods; plain "Manual" exactly for Other |
| PaymentsPage.ModeLabelOfMethod | src/pages/payments/PaymentsPage.tsx:491-499 | a manual payment whose notes name a method is labelled with that method |
| PaymentsPage.ModeLabelUnknownNotes | src/pages/payments/PaymentsPage.tsx:491-499 | a manual payment whose notes name no method is labelled plain "Manual" |
| PaymentsPage.UnknownNotesLabelAndForm | src/pages/payments/PaymentsPage.tsx:491-499 | a manual payment whose notes name no method shows as plain "Manual" while its edit form opens at Cash, whose label differs |
| PaymentsPage.Save | src/pages/payments/PaymentsPage.tsx:150-199 | keeps the ledger invariant; a refusal writes nothing; a creation appends the row unless its id is taken; an edit rewrites only that payment's columns; charges and allocations never change (also lines 246-266) |
| RentChargesPage.ChargeUnit | src/pages/rent-charges/RentChargesPage.tsx:146-147 | a charge's unit is found only through its tenancy, and is the unit of that tenancy |
| RentChargesPage.FilterCharges | src/pages/rent-charges/RentChargesPage.tsx:138-159 | the filtered list holds exactly the charges passing the status, property and tenant filters |
| RentChargesPage.NoFilterKeepsAll | src/pages/rent-charges/RentChargesPage.tsx:138-159 | with status ALL and no property or tenant, the list is the input, order included |
| RentChargesPage.FiltersCompose | src/pages/rent-charges/RentChargesPage.tsx:140-158 | filtering by status first and by property and tenant afterwards is filtering by all three at once |
| RentChargesPage.UnknownLinksDropped | src/pages/rent-charges/RentChargesPage.tsx:145-155 | with a property filter every kept charge has a known tenancy and unit; with a tenant filter a known tenancy |
| RentChargesPage.OutstandingKeys | src/pages/rent-charges/RentChargesPage.tsx:179-210 | the distinct keys collected never include the empty id |
| RentChargesPage.OutstandingKeysIff | src/pages/rent-charges/RentChargesPage.tsx:179-210 | a key is collected exactly when some charge with a balance has it and it is not empty |
| RentChargesPage.OutstandingKeysAtMost | src/pages/rent-charges/RentChargesPage.tsx:179-210 | there are at most as many distinct keys as charges with a balance |
| RentChargesPage.Stats | src/pages/rent-charges/RentChargesPage.tsx:162-229 | the unpaid, partial and paid cards count the charges with that status and add up to the number of charges; the overdue card counts the charges with a balance past their due date; collected plus outstanding is expected; outstanding and expected are the sums of balance and amount; the tenant, unit and property counts are the sizes of the key sets `OutstandingKeysIff` describes, and each is at most the number of charges with a balance |
| RentChargesPage.OverdueAtMostOutstanding | src/pages/rent-charges/RentChargesPage.tsx:173-176 | overdue charges are among the charges with a balance |
| RentChargesPage.StatusCountsPartition | src/pages/rent-charges/RentChargesPage.tsx:167-169 | the unpaid, partial and paid counts add up to the number of charges |
| RentChargesPage.CollectedIsAllocated | src/pages/rent-charges/RentChargesPage.tsx:213-216 | on a balanced ledger, "collected" is exactly what was allocated to the charges |
| RentChargesPage.PaidSoFar | src/pages/rent-charges/RentChargesPage.tsx:213-216 | on a balanced ledger, expected minus outstanding is the sum of the allocations to the charges |
| RentChargesPage.GeneratedCount | src/pages/rent-charges/RentChargesPage.tsx:251 | the count of returned rows, zero when none is returned |
| RentChargesPage.GenerateMessage | src/pages/rent-charges/RentChargesPage.tsx:252-257 | no rows gives the "already have entries" message, otherwise a "Generated" message |
| RentChargesPage.GenerateMessageCount | src/pages/rent-charges/RentChargesPage.tsx:253 | the count reads back from the "Generated" message |
| RentChargesPage.DisplayStatus | src/pages/rent-charges/RentChargesPage.tsx:433-474 | Paid exactly for PAID or no balance; Overdue exactly for a balance past due and not PAID, with the balance and the whole days since the due date (the floor of the elapsed time over a day); otherwise Partial or Due by the stored status, with the amounts shown |
| RentChargesPage.DisplayAgreesWithLedger | src/pages/rent-charges/RentChargesPage.tsx:433-474 | on a charge kept by the ledger invariant, Paid means a zero balance, Partial a part-paid one, Due an untouched one |
| TenantsPage.ActiveTenancyByTenant | src/pages/tenants/TenantsPage.tsx:171-185 | per tenant, an ACTIVE or NOTICE tenancy of that tenant with the latest start date; among equal start dates the first row seen is kept, since every earlier live row of the tenant starts strictly before the chosen one; an entry exactly for tenants with one |
| TenantsPage.TotalOutstandingByTenant | src/pages/tenants/TenantsPage.tsx:194-203 | per tenant, the sum of the balances of the tenant's outstanding charges, skipping unknown tenancies; every entry is above zero |
| TenantsPage.KeyedSumPositive | src/pages/tenants/TenantsPage.tsx:194-203 | a tenant with an outstanding charge owes more than zero |
| TenantsPage.InsertByPeriod | src/pages/tenants/TenantsPage.tsx:253 | insertion adds exactly one element and keeps the rest |
| TenantsPage.InsertKeepsSorted | src/pages/tenants/TenantsPage.tsx:253 | inserting into a period-sorted list keeps it sorted |
| TenantsPage.SortByPeriod | src/pages/tenants/TenantsPage.tsx:253 | the sort is a permutation ordered by period |
| TenantsPage.SortSortedIsIdentity | src/pages/tenants/TenantsPage.tsx:253 | an already sorted list is unchanged, so ties keep their order |
| TenantsPage.FilterKeepsSorted | src/pages/tenants/TenantsPage.tsx:267-279 | the overdue and future-paid lists of a sorted list stay sorted |
| TenantsPage.LastPaidPeriod | src/pages/tenants/TenantsPage.tsx:259-264 | nothing exactly when no charge is fully paid; otherwise the period of a fully paid charge |
| TenantsPage.LastPaidIsLatest | src/pages/tenants/TenantsPage.tsx:259-264 | on a sorted list it is the latest fully paid period |
| TenantsPage.PaidUpToPeriod | src/pages/tenants/TenantsPage.tsx:259-264 | the `paidUpToPeriod` loop computes `LastPaidPeriod` |
| TenantsPage.CurrentOverdueBranchDead | src/pages/tenants/TenantsPage.tsx:267-324 | with no overdue charge, the current charge with a balance is never past due, so the "current month overdue" branch is unreachable |
| TenantsPage.BehindIff | src/pages/tenants/TenantsPage.tsx:253-291 | "behind" exactly when some charge has a balance and is past due; months behind is their count, owed is their balances, and the first unpaid period is the earliest |
| TenantsPage.FuturePaidFacts | src/pages/tenants/TenantsPage.tsx:277-294 | there are future paid charges exactly when some fully paid charge lies past the current period, and the last of them is the latest |
| TenantsPage.AheadIff | src/pages/tenants/TenantsPage.tsx:277-301 | when not behind: "ahead" exactly when a fully paid charge lies past the current period; months ahead counts them and paid-up-to is the latest |
| TenantsPage.LaterBranches | src/pages/tenants/TenantsPage.tsx:303-335 | otherwise: paid-up for a fully paid current charge; due for a current charge with a balance; else paid-up to the last paid period, or no charges |
| TenantsPage.NoChargesWhenNothingPaidOrOwed | src/pages/tenants/TenantsPage.tsx:282-339 | "no charges" exactly when there are no charges or every earlier branch misses |
| TenantsPage.ComputeTenantStatus | src/pages/tenants/TenantsPage.tsx:246-339 | the status of a tenant's charges is the cascade on them sorted by period |
| TenantsPage.RentStatusByTenant | src/pages/tenants/TenantsPage.tsx:215-243 | an entry exactly for tenants with a charge, each the cascade on that tenant's charges sorted by period |
| TenantsPage.PhoneList | src/pages/tenants/TenantsPage.tsx:345-377 | primary then secondary, each present exactly when its input is non-empty, stored trimmed; at most two entries |
| TenantsPage.EditForm | src/pages/tenants/TenantsPage.tsx:415-431 | the form shows the first and second stored numbers, or empty |
| TenantsPage.PhoneListRoundTrip | src/pages/tenants/TenantsPage.tsx:345-431 | opening and saving a tenant with two trimmed numbers stores the same list |
| TenantsPage.SecondaryOnlyBecomesPrimary | src/pages/tenants/TenantsPage.tsx:345-431 | a tenant saved with only a secondary number comes back with it as primary |
| TenantsPage.SaveTenant | src/pages/tenants/TenantsPage.tsx:353-441 | refused exactly when the trimmed name is empty; otherwise the trimmed name, the ID number and notes trimmed or null, and the phone list |
| TenantsPage.SavedNameTrimmed | src/pages/tenants/TenantsPage.tsx:437-441 | a saved name is already trimmed |
| TenantsPage.Archive | src/pages/tenants/TenantsPage.tsx:395-402 | archiving sets `is_archived` and changes nothing else |
| TenanciesPage.CreateForm | src/pages/tenancies/TenanciesPage.tsx:329-345 | every field empty, status ACTIVE |
| TenanciesPage.OptionalText | src/pages/tenancies/TenanciesPage.tsx:358-359 | empty exactly for a missing number, else text that parses back to it |
| TenanciesPage.EditForm | src/pages/tenancies/TenanciesPage.tsx:347-365 | the tenancy's fields, the property of its unit or empty, and the rent, deposit and due day as text that parses back |
| TenanciesPage.ChangeProperty | src/pages/tenancies/TenanciesPage.tsx:448-454 | changing the property clears the unit and nothing else |
| TenanciesPage.UnitOptions | src/pages/tenancies/TenanciesPage.tsx:250-253 | exactly the chosen property's units; none before a property is chosen |
| TenanciesPage.ErrorMessage | src/pages/tenancies/TenanciesPage.tsx:257-307 | every refusal has a message (also lines 371-387) |
| TenanciesPage.Rent | src/pages/tenancies/TenanciesPage.tsx:259-299 | the rent is accepted exactly when it parses to an integer above zero |
| TenanciesPage.Deposit | src/pages/tenancies/TenanciesPage.tsx:260-302 | an empty deposit is 0; otherwise it is accepted exactly when it parses to at least zero |
| TenanciesPage.DueDay | src/pages/tenancies/TenanciesPage.tsx:268-307 | an empty due day is null; otherwise it is accepted exactly when it parses into 1..28 |
| TenanciesPage.CheckNumbers | src/pages/tenancies/TenanciesPage.tsx:259-307 | rent, then deposit, then due day: the first that fails is reported, and all pass exactly when none fails |
| TenanciesPage.FieldsOf | src/pages/tenancies/TenanciesPage.tsx:273-320 | the written row has rent above zero, deposit at least zero, due day null or in 1..28, and the form's tenant, unit, dates and status |
| TenanciesPage.Submit | src/pages/tenancies/TenanciesPage.tsx:255-327 | property, unit, tenant and start date are checked in that order and the first missing is reported; a write carries the checked fields; an edit with an id updates that tenancy (also lines 367-397) |
| TenanciesPage.CreateAndUpdateCheckAlike | src/pages/tenancies/TenanciesPage.tsx:259-307 | create and update refuse the same forms for the same reason and write the same fields |
| TenanciesPage.ChangePropertyNeedsUnit | src/pages/tenancies/TenanciesPage.tsx:371-454 | right after a property change the form is refused for want of a property or a unit |
| TenanciesPage.EditUnchangedWritesSameTenancy | src/pages/tenancies/TenanciesPage.tsx:291-365 | saving an unchanged edit form writes the tenancy's own fields back |
| TenanciesPage.MissingDepositSavedAsZero | src/pages/tenancies/TenanciesPage.tsx:296-358 | a tenancy without a deposit is saved back with a deposit of 0 |
| TenanciesPage.MonthPayments | src/pages/tenancies/TenanciesPage.tsx:203-205 | exactly the payments paid within the current month |
| TenanciesPage.PaidThisMonthByTenancy | src/pages/tenancies/TenanciesPage.tsx:203-211 | per tenancy, the sum of this month's payments to it, ignoring payments without a tenancy; an entry exactly for tenancies paid this month |
| TenanciesPage.PaidThisMonthAtMostTakings | src/pages/tenancies/TenanciesPage.tsx:203-211 | no tenancy is credited more than the month's takings |
| TenanciesPage.FinancialsByTenancy | src/pages/tenancies/TenanciesPage.tsx:220-246 | the loop gives an entry exactly for tenancies with a charge, each equal to `FinancialsOf` for that tenancy |
| TenanciesPage.FinancialsAbsent | src/pages/tenancies/TenanciesPage.tsx:227-229 | a tenancy without charges starts at zero, zero and no months |
| TenanciesPage.OutstandingSnoc | src/pages/tenancies/TenanciesPage.tsx:232 | one more charge adds itself to the tenancy's outstanding charges exactly when it has a balance and belongs to the tenancy |
| TenanciesPage.FinancialsTotal | src/pages/tenancies/TenanciesPage.tsx:232-233 | the total outstanding is the sum of the tenancy's positive balances |
| TenanciesPage.FinancialsMonths | src/pages/tenancies/TenanciesPage.tsx:236 | one unpaid month per positive-balance charge, in order, carrying its period |
| TenanciesPage.ThisMonthAtMostTotal | src/pages/tenancies/TenanciesPage.tsx:239-241 | this month's outstanding is between zero and the total outstanding |
| TenanciesPage.UnpaidMonthsLabel | src/pages/tenancies/TenanciesPage.tsx:682-689 | "all paid" for none; the months joined by ", " plus " unpaid" for one to three; "N months unpaid" for more |
| TenanciesPage.UnpaidLabelCount | src/pages/tenancies/TenanciesPage.tsx:688 | the count reads back from the "N months unpaid" label |
| PropertiesPage.LiveUnits | src/pages/properties/PropertiesPage.tsx:92-96 | exactly the units not deleted |
| PropertiesPage.UnitSummaries | src/pages/properties/PropertiesPage.tsx:100-114 | the counting loop gives an entry exactly for properties with a unit, each equal to `SummaryOf` |
| PropertiesPage.SummaryAbsent | src/pages/properties/PropertiesPage.tsx:104-106 | a property without units starts at zero counts |
| PropertiesPage.SummaryCounts | src/pages/properties/PropertiesPage.tsx:102-112 | total counts the property's units, each status count counts its units, and vacant + occupied + reserved is total |
| PropertiesPage.ReservedCountAsOccupied | src/pages/properties/PropertiesPage.tsx:504-506 | the occupied figure shown is occupied plus reserved |
| PropertiesPage.OccupancyPercent | src/pages/properties/PropertiesPage.tsx:507 | 0 without units; otherwise in 0..100, and the nearest whole percent, halves rounded up |
| PropertiesPage.OccupancyEnds | src/pages/properties/PropertiesPage.tsx:507 | all units occupied is 100, none is 0 |
| PropertiesPage.PropertyOfTenancy | src/pages/properties/PropertiesPage.tsx:185-205 | a tenancy's property is found only through its unit, and is that unit's non-empty property |
| PropertiesPage.CollectedByProperty | src/pages/properties/PropertiesPage.tsx:198-209 | per property, the sum of the month's payments whose tenancy and unit lead to it, skipping every broken link |
| PropertiesPage.OutstandingByProperty | src/pages/properties/PropertiesPage.tsx:212-222 | per property, the sum of the month's charge balances whose tenancy and unit lead to it, skipping every broken link |
| PropertiesPage.BrokenLinkCountsNowhere | src/pages/properties/PropertiesPage.tsx:201-205 | a payment without a tenancy, or with an unknown tenancy or unit, counts towards no property |
| PropertiesPage.EditForm | src/pages/properties/PropertiesPage.tsx:280-290 | the property's name, and its location and notes or empty |
| PropertiesPage.SaveProperty | src/pages/properties/PropertiesPage.tsx:226-317 | refused exactly when the trimmed name is empty; otherwise the trimmed name with location and notes trimmed or null |
| PropertiesPage.SavedFieldsNormal | src/pages/properties/PropertiesPage.tsx:229-251 | saved fields are trimmed, and an optional field is either absent or non-empty |
| PropertiesPage.EditUnchangedKeepsProperty | src/pages/properties/PropertiesPage.tsx:242-290 | saving an unchanged edit form writes back the property's own fields |
| PropertiesPage.SoftDelete | src/pages/properties/PropertiesPage.tsx:260-267 | removal sets `is_deleted` and changes nothing else |
| PropertyDetailPage.ActiveTenancyByUnit | src/pages/properties/PropertyDetailPage.tsx:203-217 | per unit, an ACTIVE or NOTICE tenancy of that unit with the latest start date; among equal start dates the first row seen is kept, since every earlier live row of the unit starts strictly before the chosen one; an entry exactly for units with one |
| PropertyDetailPage.PaidThisMonthByUnit | src/pages/properties/PropertyDetailPage.tsx:222-232 | per unit, the sum of the month's payments through its tenancies, skipping payments without a known tenancy; an entry exactly for such units |
| PropertyDetailPage.OutstandingByUnit | src/pages/properties/PropertyDetailPage.tsx:234-254 | per unit, the total and this month's outstanding balances through known tenancies; every unit with a this-month entry has a total |
| PropertyDetailPage.ThisMonthAtMostTotal | src/pages/properties/PropertyDetailPage.tsx:241-250 | this month's outstanding for a unit is at most its total outstanding |
| PropertyDetailPage.CreateForm | src/pages/properties/PropertyDetailPage.tsx:312-317 | empty code and type, status VACANT |
| PropertyDetailPage.EditForm | src/pages/properties/PropertyDetailPage.tsx:319-329 | the unit's code, status, and type or empty |
| PropertyDetailPage.UnitErrorMessage | src/pages/properties/PropertyDetailPage.tsx:260-339 | every refusal has a message |
| PropertyDetailPage.SubmitUnit | src/pages/properties/PropertyDetailPage.tsx:258-356 | refused exactly when the trimmed code is empty; an edit with an id updates code, type and status; a new unit has monthly rent 0, the trimmed code, its type or null, and is not deleted |
| PropertyDetailPage.ApplyUnitUpdate | src/pages/properties/PropertyDetailPage.tsx:282-289 | the update rewrites code, type and status and nothing else |
| PropertyDetailPage.PropertyUnits | src/pages/properties/PropertyDetailPage.tsx:87-92 | exactly the property's units not deleted |
| PropertyDetailPage.SoftDelete | src/pages/properties/PropertyDetailPage.tsx:298-305 | removal sets `is_deleted` and changes nothing else |
| PropertyDetailPage.SoftDeleteHidesUnit | src/pages/properties/PropertyDetailPage.tsx:298-305 | a removed unit keeps its row but leaves the property's unit list, and no unit is added to it (also lines 87-92) |
| MpesaSettingsPage.MaskValue | src/pages/settings/MpesaSettingsPage.tsx:22-26 | "" for a missing or empty value; "****" up to four characters; else "****" and the last four |
| MpesaSettingsPage.MaskShape | src/pages/settings/MpesaSettingsPage.tsx:22-26 | the mask has length 0, 4 or 8, starts with "****" when not empty, and shows at most the last four characters |
| MpesaSettingsPage.InitForm | src/pages/settings/MpesaSettingsPage.tsx:67-79 | paybill and shortcode are copied or empty; the three secrets are blank |
| MpesaSettingsPage.SaveErrorMessage | src/pages/settings/MpesaSettingsPage.tsx:91-159 | every refusal has a message |
| MpesaSettingsPage.HandleSave | src/pages/settings/MpesaSettingsPage.tsx:89-167 | paybill, shortcode, key, secret and passkey must be non-empty after trimming, in that order; a send carries the five trimmed values |
| MpesaSettingsPage.SentFieldsTrimmed | src/pages/settings/MpesaSettingsPage.tsx:96-102 | every value sent is non-empty and trimmed |
| MpesaSettingsPage.InitialFormNeverSends | src/pages/settings/MpesaSettingsPage.tsx:67-151 | a freshly opened form is refused, because its key is blank |
| MpesaSettingsPage.ToggledStatus | src/pages/settings/MpesaSettingsPage.tsx:171 | INACTIVE exactly for ACTIVE, otherwise ACTIVE |
| MpesaSettingsPage.Toggle | src/pages/settings/MpesaSettingsPage.tsx:169-177 | without settings nothing is written; otherwise the toggled status |
| MpesaSettingsPage.ToggleTwice | src/pages/settings/MpesaSettingsPage.tsx:171 | toggling twice restores ACTIVE or INACTIVE, and turns any other value into INACTIVE |
| AccountSettingsPage.InitialDueDay | src/pages/settings/AccountSettingsPage.tsx:23-27 | "5" without a stored day, else text that parses back to the stored day |
| AccountSettingsPage.HandleSave | src/pages/settings/AccountSettingsPage.tsx:114-148 | refused with the 1-28 message exactly when the field does not parse into 1..28; otherwise the parsed day is written unchanged |
| AccountSettingsPage.UntouchedFieldSavesFive | src/pages/settings/AccountSettingsPage.tsx:132-143 | saving the untouched field for a landlord without a day writes 5 (also lines 23-27) |
| AccountSettingsPage.StoredDayRoundTrip | src/pages/settings/AccountSettingsPage.tsx:132-143 | saving the untouched field writes the stored day back (also lines 23-27) |
| AccountSettingsPage.EveryValidDayAccepted | src/pages/settings/AccountSettingsPage.tsx:136-143 | every day in 1..28 typed in is written as it is |
| Utils.Capitalize | src/lib/utils.ts:69-75 | nothing for a missing or empty text |
| Utils.CapitalizeCharwise | src/lib/utils.ts:71-74 | capitalising upper-cases exactly the first character and each character after a space |
| Utils.CapitalizeShape | src/lib/utils.ts:71-74 | capitalising keeps the length and every space, and changes only a word's first character, to its upper case |
| Utils.CapitalizeIdempotent | src/lib/utils.ts:69-75 | capitalising twice is capitalising once |
| Utils.SplitCapitalizeJoin | src/lib/utils.ts:71-73 | split, capitalise each word and rejoin is the character-wise rule |
| Utils.TruncRem | src/pages/rent-charges/RentChargesPage.tsx:439-447 | JavaScript's `%`: below the divisor in size, and Dafny's remainder on non-negative numbers |
| Utils.DaySuffix | src/pages/rent-charges/RentChargesPage.tsx:439-447 | one of "st", "nd", "rd", "th"; the rule is written once and also serves src/pages/tenants/TenantsPage.tsx:225-233 |
| Utils.DaySuffixOrdinal | src/pages/tenants/TenantsPage.tsx:225-233 | on days 1 to 31 these are the English ordinal suffixes |
| Utils.PeriodStringRoundTrip | src/lib/utils.ts:49-52 | for a four-digit year and a month 1 to 12, the period is `YYYY-MM`, seven characters, and both numbers read back |
| Utils.PaddedMonth | src/lib/utils.ts:51 | the zero-padded month has two characters and reads back as the month |

## Left out

- Network I/O is left out: the Daraja HTTP calls (the access token, URL registration and the simulation request itself) and the Supabase queries. A query's result is an input; the sandbox reply is `C2bSimulate.CallOutcome`.
- `supabase/functions/c2b-register` is left out: it only wraps HTTP and encryption.
- `save-mpesa-settings` is left out: it is AES-GCM/PBKDF2 encryption, a foreign crypto call.
- Decrypting the credentials in `c2b-simulate` is left out, for the same reason.
- Authentication and sessions are inputs, not modelled: the auth header, the user, a "Supabase client" and the landlord profile.
- C2bSimulate.CheckRequest: the JSON body's `amount` is a number or absent (`C2bSimulate.SimulateBody`). A string amount such as `"100"`, which JavaScript would compare after coercion, cannot be represented.
- React rendering, routing, layouts, the marketing and legal pages, and `DashboardPage` are left out. The dashboard's figures are fixed zeros.
- The wall clock is an input. "now", "today", the current period and the current month's first and last instant come from the caller, and `getCurrentMonthRange` is not modelled.
- `Intl` formatting is not modelled (`formatKES`, `formatDate`, `formatPeriod`). `TenanciesPage.Financials` keeps unpaid months as periods, and `TenanciesPage.UnpaidMonthsLabel` takes the already formatted strings.
- Floating point is not modelled. M-Pesa amounts (`parseFloat` of TransAmount, `Number` of the STK Amount) are `Text.JsNumber`: a whole number of shillings or NaN. An absent TransAmount is 0. Fractions, `Math.round`, hexadecimal and exponent forms, and the leading-digits leniency of `parseFloat` are not modelled.
- PropertiesPage.OccupancyPercent: computed exactly, with halves rounded up, instead of `Math.round` on a floating-point quotient; the two can differ only where floating point misrounds.
- Text.ParseInt: strict, where `parseInt` is lenient. `parseInt("12abc")` is 12 in JavaScript but nothing here, and a fractional or exponent form is refused. Every validator built on it (`TenanciesPage.Rent`, `PaymentsPage.PositiveAmount`, `AccountSettingsPage.HandleSave`, `UnmatchedPayments.CheckAllocation`) refuses such inputs, where the page would accept their leading digits.
- MpesaCallback.UnitByCode: Postgres `ilike` is modelled as case-insensitive equality. A reference holding `%` or `_` would act as a wildcard in the database but not here.
- Upper- and lower-casing are ASCII only. Unicode case mapping, used by `ilike` and `toUpperCase`, is not modelled.
- MpesaSettingsPage.MaskValue: string length is counted in characters, here and in `Text.PadStart`. JavaScript's `length` and `slice(-4)` count UTF-16 code units, so a value holding a character outside the Basic Multilingual Plane would be masked differently. Credentials are ASCII and padded months are digits, where the two agree.
- Ledger.Store.Allocate: the three writes of `allocateMutation` happen together or not at all. In the source they are separate requests that can fail part-way, and those partial states are not modelled.
- MpesaCallback.Handle: runs as one step. The duplicate check and the insert are not atomic in the source, so two concurrent notifications can both insert.
- Database errors have no text in the model. The model records only that a write failed (`PaymentsPage.InsertFailed`, `Ledger.PaymentMissing`, `Ledger.ChargeQueryFailed`) and not the error message shown or thrown.
- The `Failed to save …` fallback of each page's `catch` is not modelled. It applies only to thrown values that are not `Error`s.
- Ledger.Store.InsertPayment: the database's own id generation and column defaults, such as `is_deleted = false`, are inputs (`newId`) or written out by the caller.
- The body of the rent-charge generation RPC is not modelled: it is a database function, and its SQL is not part of this model. `RentChargesPage.GenerateMessage` only models its call site and result count.
- Distributing one payment over several charges oldest first is not modelled, because the modelled code allocates to one charge at a time.
- Reversing allocations when a manual payment is edited is not modelled, because the modelled code only rewrites the payment row.
- The per-payment bound (the allocations from a payment total at most its amount) is not a ledger invariant, because `allocateMutation` and the payment edit do not keep it. `Ledger.AllocateBeyondPayment` and `Ledger.EditCanOverAllocate` show the two ways it breaks.
- TenanciesPage.DueThisMonth and PropertyDetailPage.DueThisMonth: the current-month test is `monthStart <= dueDate <= monthEnd` on instants. The pages compare the `due_date` string (`YYYY-MM-DD`) with `toISOString()` timestamps. A charge due on the first of the month is then excluded at UTC and west of it. The model counts it.
- Text.IsSpace: covers the ASCII white space, no-break space and byte-order mark only. JavaScript's `trim` also strips other Unicode spaces and line separators, such as U+2028 and U+3000.
- Query ordering (`order by`) is not modelled, except the period sort the tenants page does itself (`TenantsPage.SortByPeriod`).
- Enum columns are datatypes. The callback and the validation gate compare `mpesa_settings.status` as a string, and it is kept as one (`MpesaSettingsPage.ToggledStatus`). Other statuses outside the enum cannot occur in the model.
- PropertiesPage.SummaryCounts: `vacant + occupied + reserved == total` is proved because the model's unit status has only the three enum values. A row with any other status string cannot be represented.
