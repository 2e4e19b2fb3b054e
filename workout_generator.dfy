/** client/src/components/ai-workout-generator.tsx: the metric/imperial conversions of the
    profile dialog, the dialog's prefill from a partner record and the request body it
    sends back, and the guard on generating a plan. The factors are exact: 2.54 = 127/50
    and 2.20462 = 110231/50000, and Math.round of a quotient is Js.RoundDiv. */
module WorkoutGenerator {
  import opened Wrappers
  import opened Js
  import opened Schema
  import Table

  datatype FeetInches = FeetInches(feet: int, inches: int)

  // ---------------------------------------------------------------- conversions

  /** Math.round(cm / 2.54). */
  function TotalInches(cm: int): (t: int)
    ensures 254 * t - 127 <= 100 * cm < 254 * t + 127
  {
    RoundDiv(50 * cm, 127)
  }

  /** cmToFeetInches: the rounded total in inches, split into whole feet (Math.floor) and
      the remainder (`%`, which keeps the sign of its left operand). */
  function CmToFeetInches(cm: int): (r: FeetInches)
    ensures cm >= 0 ==> 0 <= r.feet && 0 <= r.inches < 12 && 12 * r.feet + r.inches == TotalInches(cm)
  {
    var t := TotalInches(cm);
    FeetInches(t / 12, JsRem(t, 12))
  }

  /** feetInchesToCm: the centimetre value nearest to 2.54 times the total inches. */
  function FeetInchesToCm(feet: int, inches: int): (cm: int)
    ensures 100 * cm - 50 <= 254 * (12 * feet + inches) < 100 * cm + 50
  {
    RoundDiv(127 * (12 * feet + inches), 50)
  }

  /** feetInchesToCm only sees the total in inches, and never decreases as it grows. */
  lemma FeetInchesToCmMonotone(f1: int, i1: int, f2: int, i2: int)
    requires 12 * f1 + i1 <= 12 * f2 + i2
    ensures FeetInchesToCm(f1, i1) <= FeetInchesToCm(f2, i2)
    ensures 12 * f1 + i1 == 12 * f2 + i2 ==> FeetInchesToCm(f1, i1) == FeetInchesToCm(f2, i2)
  {
    RoundDivMonotone(127 * (12 * f1 + i1), 127 * (12 * f2 + i2), 50);
  }

  /** kgToLbs: the whole number of pounds nearest to 2.20462 times kg; 0 stays 0. */
  function KgToLbs(kg: int): (lbs: int)
    ensures 100000 * lbs - 50000 <= 220462 * kg < 100000 * lbs + 50000
    ensures kg == 0 ==> lbs == 0
  {
    RoundDiv(110231 * kg, 50000)
  }

  /** lbsToKg: the whole number of kilograms nearest to lbs / 2.20462; 0 stays 0. */
  function LbsToKg(lbs: int): (kg: int)
    ensures 220462 * kg - 110231 <= 100000 * lbs < 220462 * kg + 110231
    ensures lbs == 0 ==> kg == 0
  {
    RoundDiv(50000 * lbs, 110231)
  }

  /** Converting kilograms to pounds and back gives the original kilograms: a pound is
      less than half a kilogram, so the rounding to pounds cannot move the value across a
      kilogram boundary. */
  lemma KgLbsRoundTrip(kg: int)
    ensures LbsToKg(KgToLbs(kg)) == kg
  {
    var lbs := KgToLbs(kg);
    RoundDivUnique(50000 * lbs, 110231, kg);
  }

  /** Converting centimetres to feet and inches and back moves the value by at most one
      centimetre (an inch is more than two centimetres, so the rounding to inches loses
      information). */
  lemma HeightRoundTrip(cm: int)
    requires cm >= 0
    ensures var fi := CmToFeetInches(cm); cm - 1 <= FeetInchesToCm(fi.feet, fi.inches) <= cm + 1
  {
  }

  /** The loss is real: 171 cm shows as 5'7" and reads back as 170 cm. */
  lemma HeightRoundTripLoses()
    ensures CmToFeetInches(171) == FeetInches(5, 7)
    ensures FeetInchesToCm(5, 7) == 170
  {
    assert TotalInches(171) == 67 by {
      RoundDivUnique(50 * 171, 127, 67);
    }
    assert RoundDiv(127 * 67, 50) == 170 by {
      RoundDivUnique(127 * 67, 50, 170);
    }
  }

  /** formatHeight: feet'inches", so that parseInt of the text gives back the feet. */
  function FormatHeight(cm: int): (r: string)
    ensures ParseInt(r) == Some(CmToFeetInches(cm).feet)
    ensures |r| > 0 && r[|r| - 1] == '"'
  {
    var fi := CmToFeetInches(cm);
    FeetInchesTextReadsBack(fi.feet, fi.inches);
    IntToString(fi.feet) + "'" + IntToString(fi.inches) + "\""
  }

  /** For a height of at least zero, the text reads back as the feet, and what follows the
      `'` reads back as the inches, which are below 12; it ends with `"`. */
  lemma FormatHeightReadsBack(cm: int)
    requires cm >= 0
    ensures var fi := CmToFeetInches(cm); var s := FormatHeight(cm);
      && 0 <= fi.inches < 12
      && ParseInt(s) == Some(fi.feet)
      && s[|IntToString(fi.feet)|] == '\''
      && ParseInt(s[|IntToString(fi.feet)| + 1..]) == Some(fi.inches)
      && s[|s| - 1] == '"'
  {
    var fi := CmToFeetInches(cm);
    FeetInchesTextReadsBack(fi.feet, fi.inches);
  }

  lemma FeetInchesTextReadsBack(feet: int, inches: int)
    ensures var a := IntToString(feet); var s := a + "'" + IntToString(inches) + "\"";
      && ParseInt(s) == Some(feet)
      && s[|a|] == '\''
      && ParseInt(s[|a| + 1..]) == Some(inches)
      && s[|s| - 1] == '"'
  {
    var a, b := IntToString(feet), IntToString(inches);
    var s := a + "'" + b + "\"";
    var u := b + "\"";
    var t := "'" + u;
    assert s == a + t;
    ParseIntOfIntToString(feet, t);
    assert s[|a|..] == t;
    assert t[1..] == u;
    assert s[|a| + 1..] == s[|a|..][1..];
    ParseIntOfIntToString(inches, "\"");
  }

  // ---------------------------------------------------------------- the dialog

  /** The edit-profile form: every field is the text of an input or a select. */
  datatype ProfileForm = ProfileForm(
    age: string,
    heightFeet: string,
    heightInches: string,
    weightLbs: string,
    fitnessLevel: string,
    goal: string)

  /** The form before any partner is opened. */
  const InitialForm := ProfileForm("", "", "", "", DefaultFitnessLevel, DefaultGoal)

  /** A nullable text column shown in a select: null and "" both fall back to the default. */
  function TextOr(v: Option<string>, default: string): (r: string)
    ensures v.Some? && v.value != "" ==> r == v.value
    ensures v.None? || v.value == "" ==> r == default
  {
    if v.Some? && v.value != "" then v.value else default
  }

  /** handleOpenProfile's form for a partner record. A height or weight of null or 0
      leaves its inputs empty; an age of 0 still shows "0". */
  function Prefill(p: PartnerFields): (f: ProfileForm)
    ensures f.age == (if p.age.Some? then IntToString(p.age.value) else "")
    ensures !Truthy(p.heightCm) ==> f.heightFeet == "" && f.heightInches == ""
    ensures Truthy(p.heightCm) ==>
      f.heightFeet == IntToString(CmToFeetInches(p.heightCm.value).feet) && f.heightInches == IntToString(CmToFeetInches(p.heightCm.value).inches)
    ensures !Truthy(p.weightKg) ==> f.weightLbs == ""
    ensures Truthy(p.weightKg) ==> f.weightLbs == IntToString(KgToLbs(p.weightKg.value))
    ensures f.fitnessLevel == TextOr(p.fitnessLevel, DefaultFitnessLevel) && f.goal == TextOr(p.goal, DefaultGoal)
  {
    var imperial := if Truthy(p.heightCm) then CmToFeetInches(p.heightCm.value) else FeetInches(0, 0);
    ProfileForm(
      if p.age.Some? then IntToString(p.age.value) else "",
      if Truthy(p.heightCm) then IntToString(imperial.feet) else "",
      if Truthy(p.heightCm) then IntToString(imperial.inches) else "",
      if Truthy(p.weightKg) then IntToString(KgToLbs(p.weightKg.value)) else "",
      TextOr(p.fitnessLevel, DefaultFitnessLevel),
      TextOr(p.goal, DefaultGoal))
  }

  /** handleOpenProfile: nothing opens unless the selected id names a partner. */
  function OpenProfile(partners: seq<Partner>, selectedId: Id): (r: Option<ProfileForm>)
    ensures r.None? <==> forall i :: 0 <= i < |partners| ==> partners[i].id != selectedId
    ensures r.Some? ==> exists i :: 0 <= i < |partners| && partners[i].id == selectedId && r.value == Prefill(partners[i].data)
  {
    match Table.FindById(partners, selectedId)
    case None => None
    case Some(p) => Some(Prefill(p.data))
  }

  /** The body of the profile PATCH. None is JSON null, which is also what a NaN becomes. */
  datatype ProfileBody = ProfileBody(
    age: Option<int>,
    heightCm: Option<int>,
    weightKg: Option<int>,
    fitnessLevel: string,
    goal: string)

  datatype ProfileUpdate = ProfileUpdate(id: Id, body: ProfileBody)

  /** `field ? parseInt(field) : 0`: an empty input counts as 0; None is NaN. */
  function NumberOrZero(s: string): (n: Option<int>)
    ensures s == "" ==> n == Some(0)
    ensures s != "" ==> n == ParseInt(s)
  {
    if s == "" then Some(0) else ParseInt(s)
  }

  /** `field ? parseInt(field) : null`: an empty input is null. */
  function NumberOrNull(s: string): (n: Option<int>)
    ensures s == "" ==> n.None?
    ensures s != "" ==> n == ParseInt(s)
  {
    if s == "" then None else ParseInt(s)
  }

  /** The heightCm that handleSaveProfile sends: null unless feet or inches is a non-zero
      number; NaN in either makes the arithmetic NaN, which is sent as null. */
  function HeightFromForm(feetText: string, inchesText: string): (h: Option<int>)
    ensures var feet, inches := NumberOrZero(feetText), NumberOrZero(inchesText);
      h.Some? <==> feet.Some? && inches.Some? && (feet.value != 0 || inches.value != 0)
    ensures var feet, inches := NumberOrZero(feetText), NumberOrZero(inchesText);
      h.Some? ==> h.value == FeetInchesToCm(feet.value, inches.value)
  {
    var feet, inches := NumberOrZero(feetText), NumberOrZero(inchesText);
    if !(Truthy(feet) || Truthy(inches)) then None
    else if feet.Some? && inches.Some? then Some(FeetInchesToCm(feet.value, inches.value))
    else None
  }

  /** The weightKg that handleSaveProfile sends: null for an empty input or a non-number. */
  function WeightFromForm(lbsText: string): (w: Option<int>)
    ensures w.None? <==> lbsText == "" || ParseInt(lbsText).None?
    ensures w.Some? ==> w.value == LbsToKg(ParseInt(lbsText).value)
  {
    match NumberOrNull(lbsText)
    case None => None
    case Some(lbs) => Some(LbsToKg(lbs))
  }

  /** handleSaveProfile: nothing is sent without a selected partner. */
  function SaveProfile(selectedId: Id, form: ProfileForm): (r: Option<ProfileUpdate>)
    ensures r.None? <==> selectedId == ""
    ensures r.Some? ==> r.value.id == selectedId
    ensures r.Some? ==> r.value.body.age == NumberOrNull(form.age)
    ensures r.Some? ==> r.value.body.heightCm == HeightFromForm(form.heightFeet, form.heightInches)
    ensures r.Some? ==> r.value.body.weightKg == WeightFromForm(form.weightLbs)
    ensures r.Some? ==> r.value.body.fitnessLevel == form.fitnessLevel && r.value.body.goal == form.goal
  {
    if selectedId == "" then None
    else
      Some(ProfileUpdate(selectedId, ProfileBody(
        NumberOrNull(form.age),
        HeightFromForm(form.heightFeet, form.heightInches),
        WeightFromForm(form.weightLbs),
        form.fitnessLevel,
        form.goal)))
  }

  /** Opening the dialog and saving it unedited sends back: the same age; the same weight,
      except that 0 becomes null; no height when there was none, or when it was 0 or
      rounds to 0 inches, and otherwise a height within one centimetre of the stored one. */
  lemma SaveUneditedProfile(p: Partner)
    requires p.id != ""
    ensures var r := SaveProfile(p.id, Prefill(p.data));
      && r.Some?
      && r.value.body.age == p.data.age
      && r.value.body.weightKg == (if p.data.weightKg == Some(0) then None else p.data.weightKg)
      && (!Truthy(p.data.heightCm) ==> r.value.body.heightCm.None?)
      && (p.data.heightCm.Some? && p.data.heightCm.value > 0 ==>
            var h := p.data.heightCm.value;
            && (r.value.body.heightCm.None? <==> TotalInches(h) == 0)
            && (r.value.body.heightCm.Some? ==> h - 1 <= r.value.body.heightCm.value <= h + 1))
      && r.value.body.fitnessLevel == TextOr(p.data.fitnessLevel, DefaultFitnessLevel)
  {
    var d := p.data;
    var f := Prefill(d);
    if d.age.Some? {
      ParseIntRoundTrip(d.age.value);
    }
    if Truthy(d.weightKg) {
      ParseIntRoundTrip(KgToLbs(d.weightKg.value));
      KgLbsRoundTrip(d.weightKg.value);
    }
    if d.heightCm.Some? && d.heightCm.value > 0 {
      var h := d.heightCm.value;
      var fi := CmToFeetInches(h);
      ParseIntRoundTrip(fi.feet);
      ParseIntRoundTrip(fi.inches);
      assert NumberOrZero(f.heightFeet) == Some(fi.feet);
      assert NumberOrZero(f.heightInches) == Some(fi.inches);
      HeightRoundTrip(h);
    }
  }

  // ------------------------------------------------------------ plan generation

  datatype GenerateRequest = GenerateRequest(partnerId: Id, focusArea: string)

  /** handleGenerate: a request goes out only when a partner and a focus area are chosen. */
  function HandleGenerate(selectedId: Id, focus: string): (r: Option<GenerateRequest>)
    ensures r.Some? <==> selectedId != "" && focus != ""
    ensures r.Some? ==> r.value == GenerateRequest(selectedId, focus)
  {
    if selectedId == "" || focus == "" then None else Some(GenerateRequest(selectedId, focus))
  }
}
