/**
 * The validation and error-clearing idiom every form repeats: a fresh
 * error map filled by one `if (!data[field]) newErrors[key] = message` per
 * required field, and an input handler that writes one field and deletes
 * that field's error.
 */
module FormRules {
  import opened FormValues

  /** One required-field check: the field read, the key its error is stored under, and the message. */
  datatype Rule = Rule(field: string, errorKey: string, message: string)

  /** The error map after running the checks in order (a later check on the same key overwrites). */
  function RequiredErrors(data: Record, rules: seq<Rule>): Errors
    decreases |rules|
  {
    if rules == [] then map[]
    else
      var last := rules[|rules| - 1];
      var before := RequiredErrors(data, rules[..|rules| - 1]);
      if Filled(data, last.field) then before else before[last.errorKey := last.message]
  }

  /** One more check run: the errors of the first `k + 1` rules from those of the first `k`. */
  lemma CheckedPrefix(data: Record, rules: seq<Rule>, k: nat)
    requires k < |rules|
    ensures RequiredErrors(data, rules[..k + 1]) ==
      if Filled(data, rules[k].field) then RequiredErrors(data, rules[..k])
      else RequiredErrors(data, rules[..k])[rules[k].errorKey := rules[k].message]
  {
    assert rules[..k + 1][..k] == rules[..k];
  }

  predicate DistinctKeys(rules: seq<Rule>) {
    forall i, j :: 0 <= i < j < |rules| ==> rules[i].errorKey != rules[j].errorKey
  }

  /**
   * With distinct error keys, the map holds exactly one error per field that
   * is missing or falsy, under that rule's key and with that rule's message.
   */
  lemma RequiredErrorsSpec(data: Record, rules: seq<Rule>)
    requires DistinctKeys(rules)
    ensures forall i :: 0 <= i < |rules| ==>
      (rules[i].errorKey in RequiredErrors(data, rules) <==> !Filled(data, rules[i].field))
    ensures forall i :: 0 <= i < |rules| && !Filled(data, rules[i].field) ==>
      RequiredErrors(data, rules)[rules[i].errorKey] == rules[i].message
    ensures forall k :: k in RequiredErrors(data, rules) ==>
      exists i :: 0 <= i < |rules| && rules[i].errorKey == k
  {
    RequiredErrorsPerRule(data, rules);
    RequiredErrorsKeys(data, rules);
  }

  /** Each rule's key is present exactly when its field is not filled, with the rule's message. */
  lemma {:induction false} RequiredErrorsPerRule(data: Record, rules: seq<Rule>)
    requires DistinctKeys(rules)
    ensures forall i :: 0 <= i < |rules| ==>
      (rules[i].errorKey in RequiredErrors(data, rules) <==> !Filled(data, rules[i].field))
    ensures forall i :: 0 <= i < |rules| && !Filled(data, rules[i].field) ==>
      RequiredErrors(data, rules)[rules[i].errorKey] == rules[i].message
    decreases |rules|
  {
    if rules != [] {
      var n := |rules| - 1;
      var init, last := rules[..n], rules[n];
      assert DistinctKeys(init) by {
        forall i, j | 0 <= i < j < |init| ensures init[i].errorKey != init[j].errorKey {
          assert init[i] == rules[i] && init[j] == rules[j];
        }
      }
      RequiredErrorsPerRule(data, init);
      RequiredErrorsKeys(data, init);
      var before := RequiredErrors(data, init);
      var after := RequiredErrors(data, rules);
      forall j | 0 <= j < |init| ensures init[j].errorKey != last.errorKey {
        assert init[j] == rules[j];
      }
      assert last.errorKey !in before;
      assert after == if Filled(data, last.field) then before else before[last.errorKey := last.message];
      forall i | 0 <= i < |rules|
        ensures rules[i].errorKey in after <==> !Filled(data, rules[i].field)
        ensures !Filled(data, rules[i].field) ==> after[rules[i].errorKey] == rules[i].message
      {
        if i < n {
          assert rules[i] == init[i];
          assert rules[i].errorKey != last.errorKey;
          assert init[i].errorKey in before <==> !Filled(data, init[i].field);
          assert !Filled(data, init[i].field) ==> before[init[i].errorKey] == init[i].message;
        } else {
          assert rules[i] == last;
        }
      }
    }
  }

  /** Every key of the map is some rule's key. */
  lemma {:induction false} RequiredErrorsKeys(data: Record, rules: seq<Rule>)
    ensures forall k :: k in RequiredErrors(data, rules) ==>
      exists i :: 0 <= i < |rules| && rules[i].errorKey == k
    decreases |rules|
  {
    if rules != [] {
      var n := |rules| - 1;
      var init := rules[..n];
      RequiredErrorsKeys(data, init);
      var before := RequiredErrors(data, init);
      assert RequiredErrors(data, rules).Keys <= before.Keys + {rules[n].errorKey};
      forall k | k in RequiredErrors(data, rules) ensures exists i :: 0 <= i < |rules| && rules[i].errorKey == k {
        if k != rules[n].errorKey {
          assert k in before;
          var i :| 0 <= i < |init| && init[i].errorKey == k;
          assert rules[i] == init[i];
        }
      }
    }
  }

  /** Validation passes exactly when every required field is filled. */
  lemma ValidIffAllFilled(data: Record, rules: seq<Rule>)
    requires DistinctKeys(rules)
    ensures |RequiredErrors(data, rules)| == 0 <==> forall i :: 0 <= i < |rules| ==> Filled(data, rules[i].field)
  {
    RequiredErrorsSpec(data, rules);
    if |RequiredErrors(data, rules)| != 0 {
      var k :| k in RequiredErrors(data, rules);
      var i :| 0 <= i < |rules| && rules[i].errorKey == k;
      assert !Filled(data, rules[i].field);
    } else {
      assert RequiredErrors(data, rules) == map[];
    }
  }

  /**
   * `handleInputChange(name, value)` of the step components: the record with
   * `name` set (also handed to `onSaveData`), and the errors without `name`'s.
   */
  function InputChanged(data: Record, errors: Errors, name: string, value: Value): (r: (Record, Errors))
    ensures r.0.Keys == data.Keys + {name} && r.0[name] == value
    ensures forall k :: k in data && k != name ==> r.0[k] == data[k]
    ensures forall k :: k != name ==> (k in r.1 <==> k in errors) && (k in r.1 ==> r.1[k] == errors[k])
    ensures name in r.1 ==> name in errors && errors[name] == ""
  {
    (Merge(data, map[name := value]), ClearError(errors, name))
  }
}
