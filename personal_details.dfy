/**
 * The personal-details step (frontend/components/steps/PersonalDetails.tsx):
 * a local copy of the form data, an error map, three required fields, and
 * the day, month and year lists of the date-of-birth selects.
 */
module PersonalDetails {
  import opened FormValues
  import opened FormRules

  const Rules: seq<Rule> := [
    Rule("first-name", "first-name", "First name is required"),
    Rule("last-name", "last-name", "Last name is required"),
    Rule("phone", "phone", "Phone number is required")
  ]

  /**
   * Validation flags exactly the missing or empty ones of first name, last
   * name and phone, each with its message, and nothing else; it passes
   * exactly when all three are filled.
   */
  lemma ValidateSpec(data: Record)
    ensures var e := RequiredErrors(data, Rules);
      ("first-name" in e <==> !Filled(data, "first-name")) &&
      ("last-name" in e <==> !Filled(data, "last-name")) &&
      ("phone" in e <==> !Filled(data, "phone")) &&
      e.Keys <= {"first-name", "last-name", "phone"} &&
      ("first-name" in e ==> e["first-name"] == "First name is required") &&
      ("last-name" in e ==> e["last-name"] == "Last name is required") &&
      ("phone" in e ==> e["phone"] == "Phone number is required") &&
      (|e| == 0 <==> Filled(data, "first-name") && Filled(data, "last-name") && Filled(data, "phone"))
  {
    var e := RequiredErrors(data, Rules);
    RulesDistinct();
    RequiredErrorsPerRule(data, Rules);
    assert Rules[0].errorKey == "first-name" && Rules[1].errorKey == "last-name" && Rules[2].errorKey == "phone";
    RequiredErrorsKeys(data, Rules);
    forall k | k in e ensures k in {"first-name", "last-name", "phone"} {
      var i :| 0 <= i < |Rules| && Rules[i].errorKey == k;
    }
  }

  lemma RulesDistinct()
    ensures DistinctKeys(Rules)
  {
  }

  /** `Array.from({ length: 31 }, (_, i) => i + 1)`. */
  function Days(): seq<int> {
    seq(31, i => i + 1)
  }

  const Months: seq<string> := [
    "January", "February", "March", "April", "May", "June",
    "July", "August", "September", "October", "November", "December"
  ]

  /** `Array.from({ length: 100 }, (_, i) => (currentYear - 18) - i)`. */
  function Years(currentYear: int): seq<int> {
    seq(100, i => currentYear - 18 - i)
  }

  /**
   * The day list is 1..31, there are twelve months, and the year list holds
   * 100 years in strictly descending order from the year of an 18-year-old.
   */
  lemma OptionLists(currentYear: int)
    ensures |Days()| == 31 && forall i :: 0 <= i < 31 ==> Days()[i] == i + 1
    ensures |Months| == 12
    ensures |Years(currentYear)| == 100 && Years(currentYear)[0] == currentYear - 18
    ensures Years(currentYear)[99] == currentYear - 117
    ensures forall i, j :: 0 <= i < j < 100 ==> Years(currentYear)[i] > Years(currentYear)[j]
  {
  }

  class PersonalDetailsForm {
    var localData: Record
    var errors: Errors

    constructor(formData: Record)
      ensures localData == formData && errors == map[]
    {
      localData := formData;
      errors := map[];
    }

    /** The effect that copies new `formData` props into the local copy. */
    method SyncFromProps(formData: Record)
      modifies this
      ensures localData == formData && errors == old(errors)
    {
      localData := formData;
    }

    /** `handleInputChange`: returns the record handed to `onSaveData`. */
    method HandleInputChange(name: string, value: Value) returns (saved: Record)
      modifies this
      ensures (localData, errors) == InputChanged(old(localData), old(errors), name, value)
      ensures saved == localData
    {
      var newData := localData + map[name := value];
      localData := newData;
      saved := newData;
      if name in errors && errors[name] != "" {
        errors := errors - {name};
      }
    }

    /** `validateStep`: fills a fresh error map one field at a time. */
    method ValidateStep() returns (ok: bool)
      modifies this
      ensures localData == old(localData)
      ensures errors == RequiredErrors(localData, Rules)
      ensures ok <==> |errors| == 0
    {
      var newErrors: Errors := map[];
      assert Rules[..0] == [];
      CheckedPrefix(localData, Rules, 0);
      if !Filled(localData, "first-name") { newErrors := newErrors["first-name" := "First name is required"]; }
      CheckedPrefix(localData, Rules, 1);
      if !Filled(localData, "last-name") { newErrors := newErrors["last-name" := "Last name is required"]; }
      CheckedPrefix(localData, Rules, 2);
      if !Filled(localData, "phone") { newErrors := newErrors["phone" := "Phone number is required"]; }
      assert Rules[..3] == Rules;
      errors := newErrors;
      ok := |newErrors| == 0;
    }

    /** `handleNext`: whether `onNext` is called. */
    method HandleNext() returns (callsOnNext: bool)
      modifies this
      ensures localData == old(localData) && errors == RequiredErrors(localData, Rules)
      ensures callsOnNext <==> Filled(localData, "first-name") && Filled(localData, "last-name") && Filled(localData, "phone")
    {
      callsOnNext := ValidateStep();
      ValidateSpec(localData);
    }
  }
}
