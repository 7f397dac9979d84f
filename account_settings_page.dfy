/**
 * The account settings page: the landlord's default rent due day, shown
 * in a text field and saved once it reads as a day from 1 to 28.
 */
module AccountSettingsPage {

  import opened Seqs
  import opened Types
  import opened Text

  /** The field's first value: the stored day, or "5" when there is none. */
  function InitialDueDay(l: Landlord): (s: string)
    ensures l.defaultRentDueDay.None? ==> s == "5"
    ensures l.defaultRentDueDay.Some? ==> ParseInt(s) == l.defaultRentDueDay
  {
    if l.defaultRentDueDay.Some? then
      ParseIntOfIntToString(l.defaultRentDueDay.value);
      IntToString(l.defaultRentDueDay.value)
    else "5"
  }

  datatype SaveStep = Refused(message: string) | Write(day: int) | NotLoaded

  /**
   * `handleSave` and the mutation: a field that does not read as a number
   * from 1 to 28 is refused; otherwise that number is written, for a
   * loaded landlord.
   */
  function HandleSave(landlord: Option<Landlord>, field: string): (r: SaveStep)
    ensures r.Refused? <==> ParseInt(field).None? || ParseInt(field).value < 1 || ParseInt(field).value > 28
    ensures r.Refused? ==> r.message == "Rent due day must be between 1 and 28"
    ensures r.Write? <==> !r.Refused? && landlord.Some?
    ensures r.Write? ==> Some(r.day) == ParseInt(field) && 1 <= r.day <= 28
  {
    var day := ParseInt(field);
    if day.None? || day.value < 1 || day.value > 28 then Refused("Rent due day must be between 1 and 28")
    else if landlord.None? then NotLoaded
    else Write(day.value)
  }

  /** A landlord without a stored day who saves the untouched field gets day 5. */
  lemma UntouchedFieldSavesFive(l: Landlord)
    requires l.defaultRentDueDay.None?
    ensures HandleSave(Some(l), InitialDueDay(l)) == Write(5)
  {
    assert "5" == IntToString(5);
    ParseIntOfIntToString(5);
  }

  /** A stored day from 1 to 28 is written back unchanged when the field is saved as loaded. */
  lemma StoredDayRoundTrip(l: Landlord)
    requires l.defaultRentDueDay.Some? && 1 <= l.defaultRentDueDay.value <= 28
    ensures HandleSave(Some(l), InitialDueDay(l)) == Write(l.defaultRentDueDay.value)
  {
  }

  /** Every day from 1 to 28, typed as digits, is written as itself. */
  lemma EveryValidDayAccepted(l: Landlord, day: int)
    requires 1 <= day <= 28
    ensures HandleSave(Some(l), IntToString(day)) == Write(day)
  {
    ParseIntOfIntToString(day);
  }
}
