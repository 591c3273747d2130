/** DataInputModal: the manual-entry form, the sample record that submitting
    it builds, and the dialog whose form and open flag the handlers update. */
module DataInput {
  import opened Text
  import opened Quality

  /** The form's fields. The date picker's value is kept as its time in
      milliseconds and its `yyyy-MM-dd` text. */
  datatype Form = Form(
    locationId: string, product: string, parameter: string, value: string,
    unit: string, targetMin: string, dateMs: int, dateText: string,
    sampleId: string, analyst: string, notes: string)

  /** The initial and reset form: every text field empty, the date today. */
  function EmptyForm(now: int, today: string): (f: Form)
    ensures f.locationId == "" && f.sampleId == "" && f.analyst == "" && f.value == ""
    ensures f.product == "" && f.parameter == "" && f.unit == "" && f.targetMin == "" && f.notes == ""
    ensures f.dateMs == now && f.dateText == today
  {
    Form("", "", "", "", "", "", now, today, "", "", "")
  }

  /** handleLocationChange: a known location fills in its product, parameter,
      unit and minimum (as text); an unknown id leaves the form as it was. */
  function SelectLocation(form: Form, locationId: string, num: real -> string): (f: Form)
    ensures FindLocation(locationId).None? ==> f == form
    ensures FindLocation(locationId).Some? ==>
      var loc := FindLocation(locationId).value;
      f.locationId == locationId && f.product == loc.product && f.parameter == loc.parameter &&
      f.unit == loc.unit && f.targetMin == num(loc.minValue)
    ensures f.value == form.value && f.dateMs == form.dateMs && f.dateText == form.dateText &&
      f.sampleId == form.sampleId && f.analyst == form.analyst && f.notes == form.notes
  {
    match FindLocation(locationId)
    case None => form
    case Some(loc) =>
      form.(locationId := locationId, product := loc.product, parameter := loc.parameter,
            unit := loc.unit, targetMin := num(loc.minValue))
  }

  /** The record handleSubmit passes on. Everything but the measured value,
      the date and the optional identifiers comes from the location table,
      not from the form. The status is two-way: PASS at or above the minimum,
      FAIL below it. `parsed` is parseFloat of the value field and `now` the
      clock; no record is built when the form's location is unknown. */
  function ManualRecord(form: Form, parsed: real, now: int): (r: Option<Sample>)
    ensures r.None? <==> FindLocation(form.locationId).None?
    ensures r.Some? ==>
      var loc := FindLocation(form.locationId).value;
      var x := r.value;
      x.locationId == form.locationId && x.location == loc.name && x.product == loc.product &&
      x.parameter == loc.parameter && x.unit == loc.unit && x.targetMin == loc.minValue &&
      x.value == parsed && x.date == form.dateText && x.timestamp == form.dateMs
    ensures r.Some? ==> r.value.status != WARNING && (r.value.status == PASS <==> parsed >= r.value.targetMin)
    ensures r.Some? ==> r.value.sampleId != "" && r.value.analyst != ""
    ensures r.Some? && form.sampleId != "" ==> r.value.sampleId == form.sampleId
    ensures r.Some? && form.analyst != "" ==> r.value.analyst == form.analyst
  {
    match FindLocation(form.locationId)
    case None => None
    case Some(loc) =>
      Some(Sample(
        "manual_" + IntToString(now), form.locationId, loc.name, loc.product, loc.parameter,
        parsed, loc.unit, loc.minValue, form.dateText, form.dateMs,
        if parsed >= loc.minValue then PASS else FAIL,
        if form.sampleId == "" then "SAMPLE-" + IntToString(now) else form.sampleId,
        if form.analyst == "" then "Lab Analyst" else form.analyst))
  }

  /** A manual record agrees with the seeded classification except in the
      warning band, where the seeded data says WARNING and the form says FAIL. */
  lemma ManualStatusAgreesWithClassify(form: Form, parsed: real, now: int)
    requires ManualRecord(form, parsed, now).Some?
    ensures var x := ManualRecord(form, parsed, now).value;
      (Classify(parsed, x.targetMin) != WARNING ==> x.status == Classify(parsed, x.targetMin)) &&
      (Classify(parsed, x.targetMin) == WARNING ==> x.status == FAIL)
  {
  }

  /** After a known location is selected, submitting builds a record for it,
      carrying that location's target, whatever the other fields hold. */
  lemma SelectedLocationSubmits(form: Form, locationId: string, num: real -> string, parsed: real, now: int)
    requires FindLocation(locationId).Some?
    ensures var r := ManualRecord(SelectLocation(form, locationId, num), parsed, now);
      r.Some? && r.value.locationId == locationId &&
      r.value.targetMin == FindLocation(locationId).value.minValue
  {
  }

  /** The dialog: whether it is open, and the form it holds. */
  class EntryDialog {
    var open: bool
    var form: Form

    constructor(now: int, today: string)
      ensures !open && form == EmptyForm(now, today)
    {
      open := false;
      form := EmptyForm(now, today);
    }

    /** handleLocationChange. */
    method LocationChange(locationId: string, num: real -> string)
      modifies this
      ensures form == SelectLocation(old(form), locationId, num)
      ensures open == old(open)
    {
      match FindLocation(locationId)
      case None =>
      case Some(loc) =>
        form := form.(locationId := locationId, product := loc.product, parameter := loc.parameter,
                      unit := loc.unit, targetMin := num(loc.minValue));
    }

    /** handleSubmit: with a known location, hands the record on, closes the
        dialog and resets the form; otherwise changes nothing. */
    method Submit(parsed: real, now: int, today: string) returns (added: Option<Sample>)
      modifies this
      ensures added == ManualRecord(old(form), parsed, now)
      ensures added.None? ==> form == old(form) && open == old(open)
      ensures added.Some? ==> !open && form == EmptyForm(now, today)
    {
      added := ManualRecord(form, parsed, now);
      if added.Some? {
        open := false;
        form := EmptyForm(now, today);
      }
    }
  }
}
