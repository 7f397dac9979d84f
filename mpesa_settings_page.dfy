/**
 * The M-Pesa settings page: how stored credentials are masked, what the
 * form starts with, the checks before the credentials are sent to be
 * encrypted and saved, and the ACTIVE/INACTIVE switch.
 */
module MpesaSettingsPage {

  import opened Seqs
  import opened Types
  import opened Text

  /** `maskValue`: nothing for a missing or empty value, four stars for a short one, else four stars and the last four characters. */
  function MaskValue(value: Option<string>): (r: string)
    ensures value.None? || value.value == "" ==> r == ""
    ensures value.Some? && 0 < |value.value| <= 4 ==> r == "****"
    ensures value.Some? && |value.value| > 4 ==> r == "****" + value.value[|value.value| - 4..]
  {
    if value.None? || value.value == "" then ""
    else if |value.value| <= 4 then "****"
    else "****" + value.value[|value.value| - 4..]
  }

  /** A masked value is empty or eight characters or four, and never shows more than the last four. */
  lemma MaskShape(value: Option<string>)
    ensures var r := MaskValue(value);
      && (|r| == 0 || |r| == 4 || |r| == 8)
      && r[..if |r| >= 4 then 4 else |r|] == (if |r| >= 4 then "****" else "")
      && (|r| == 8 ==> r[4..] == value.value[|value.value| - 4..])
  {
  }

  datatype MpesaForm = MpesaForm(paybillOrTill: string, shortcode: string, consumerKey: string, consumerSecret: string, passkey: string)

  /** The form once the settings have loaded: the two numbers copied, the three secrets blank. */
  function InitForm(s: MpesaSettings): (f: MpesaForm)
    ensures f.paybillOrTill == (if s.paybillOrTill.Some? then s.paybillOrTill.value else "")
    ensures f.shortcode == (if s.shortcode.Some? then s.shortcode.value else "")
    ensures f.consumerKey == "" && f.consumerSecret == "" && f.passkey == ""
  {
    MpesaForm(if s.paybillOrTill.Some? then s.paybillOrTill.value else "",
              if s.shortcode.Some? then s.shortcode.value else "", "", "", "")
  }

  datatype SaveError =
    | PaybillRequired | ShortcodeRequired | ConsumerKeyRequired | ConsumerSecretRequired | PasskeyRequired
    | LandlordNotLoaded

  function SaveErrorMessage(e: SaveError): (m: string)
    ensures |m| > 0
  {
    match e
    case PaybillRequired => "Paybill or Till number is required"
    case ShortcodeRequired => "Shortcode is required"
    case ConsumerKeyRequired => "Consumer Key is required"
    case ConsumerSecretRequired => "Consumer Secret is required"
    case PasskeyRequired => "Passkey is required"
    case LandlordNotLoaded => "Landlord not loaded"
  }

  /** The body sent to `save-mpesa-settings`: the landlord and the five trimmed fields. */
  datatype SaveBody = SaveBody(landlordId: Id, paybillOrTill: string, shortcode: string,
                               consumerKey: string, consumerSecret: string, passkey: string)

  datatype SaveStep = Refused(error: SaveError) | Send(body: SaveBody)

  /**
   * `handleSave` and the mutation: the five fields must be non-empty once
   * trimmed, checked in the form's order, then the landlord must be loaded.
   */
  function HandleSave(landlord: Option<Id>, f: MpesaForm): (r: SaveStep)
    ensures Trim(f.paybillOrTill) == "" ==> r == Refused(PaybillRequired)
    ensures Trim(f.paybillOrTill) != "" && Trim(f.shortcode) == "" ==> r == Refused(ShortcodeRequired)
    ensures Trim(f.paybillOrTill) != "" && Trim(f.shortcode) != "" && Trim(f.consumerKey) == "" ==> r == Refused(ConsumerKeyRequired)
    ensures Trim(f.paybillOrTill) != "" && Trim(f.shortcode) != "" && Trim(f.consumerKey) != "" && Trim(f.consumerSecret) == "" ==>
      r == Refused(ConsumerSecretRequired)
    ensures (Trim(f.paybillOrTill) != "" && Trim(f.shortcode) != "" && Trim(f.consumerKey) != "" && Trim(f.consumerSecret) != ""
             && Trim(f.passkey) == "") ==> r == Refused(PasskeyRequired)
    ensures r.Send? <==>
      Trim(f.paybillOrTill) != "" && Trim(f.shortcode) != "" && Trim(f.consumerKey) != "" && Trim(f.consumerSecret) != ""
      && Trim(f.passkey) != "" && landlord.Some?
    ensures r.Send? ==> r.body == SaveBody(landlord.value, Trim(f.paybillOrTill), Trim(f.shortcode),
                                          Trim(f.consumerKey), Trim(f.consumerSecret), Trim(f.passkey))
  {
    if Trim(f.paybillOrTill) == "" then Refused(PaybillRequired)
    else if Trim(f.shortcode) == "" then Refused(ShortcodeRequired)
    else if Trim(f.consumerKey) == "" then Refused(ConsumerKeyRequired)
    else if Trim(f.consumerSecret) == "" then Refused(ConsumerSecretRequired)
    else if Trim(f.passkey) == "" then Refused(PasskeyRequired)
    else if landlord.None? then Refused(LandlordNotLoaded)
    else Send(SaveBody(landlord.value, Trim(f.paybillOrTill), Trim(f.shortcode),
                       Trim(f.consumerKey), Trim(f.consumerSecret), Trim(f.passkey)))
  }

  /** Every field sent is non-empty and has no white space at either end. */
  lemma SentFieldsTrimmed(landlord: Option<Id>, f: MpesaForm)
    requires HandleSave(landlord, f).Send?
    ensures var b := HandleSave(landlord, f).body;
      && b.paybillOrTill != "" && Trim(b.paybillOrTill) == b.paybillOrTill
      && b.shortcode != "" && Trim(b.shortcode) == b.shortcode
      && b.consumerKey != "" && Trim(b.consumerKey) == b.consumerKey
      && b.consumerSecret != "" && Trim(b.consumerSecret) == b.consumerSecret
      && b.passkey != "" && Trim(b.passkey) == b.passkey
  {
    TrimIdempotent(f.paybillOrTill);
    TrimIdempotent(f.shortcode);
    TrimIdempotent(f.consumerKey);
    TrimIdempotent(f.consumerSecret);
    TrimIdempotent(f.passkey);
  }

  /**
   * Saving the form as it was initialised never sends anything: the
   * secrets start blank, so they must be typed in again on every save.
   */
  lemma InitialFormNeverSends(landlord: Option<Id>, s: MpesaSettings)
    ensures HandleSave(landlord, InitForm(s)).Refused?
  {
    TrimEmptyIff("");
  }

  /** `handleToggleStatus`'s new status: ACTIVE becomes INACTIVE, anything else ACTIVE. */
  function ToggledStatus(status: string): (r: string)
    ensures r == "INACTIVE" <==> status == "ACTIVE"
    ensures r == "ACTIVE" || r == "INACTIVE"
  {
    if status == "ACTIVE" then "INACTIVE" else "ACTIVE"
  }

  /** The status written by the switch; nothing without settings. */
  function Toggle(settings: Option<MpesaSettings>): (r: Option<string>)
    ensures r.Some? <==> settings.Some?
    ensures r.Some? ==> r.value == ToggledStatus(settings.value.status)
  {
    if settings.None? then None else Some(ToggledStatus(settings.value.status))
  }

  /** Switching twice restores ACTIVE or INACTIVE; any other stored value ends at INACTIVE. */
  lemma ToggleTwice(status: string)
    ensures status == "ACTIVE" || status == "INACTIVE" ==> ToggledStatus(ToggledStatus(status)) == status
    ensures status != "ACTIVE" && status != "INACTIVE" ==> ToggledStatus(ToggledStatus(status)) == "INACTIVE"
  {
  }
}
