/** Declarative per-field validation as the auth forms register it: each field carries an
    ordered list of rules, and on submit the first rule the value breaks gives the one
    message shown under the field. A field whose every rule holds shows nothing. */
module FieldRules {
  import opened Options
  import opened Text

  /** `required`, `minLength` and `pattern`, each with its message. */
  datatype Rule =
    | Required(message: string)
    | MinLength(length: nat, message: string)
    | Matches(test: string -> bool, message: string)

  /** Whether `v` satisfies `r`. Only `required` looks at an empty value: the length and
      pattern rules let an empty value through. Lengths are JavaScript `.length`, in
      UTF-16 code units. */
  predicate Passes(r: Rule, v: string)
  {
    match r
    case Required(_) => v != ""
    case MinLength(n, _) => v == "" || Utf16Length(v) >= n
    case Matches(test, _) => v == "" || test(v)
  }

  /** The message under a field: that of the first rule `v` breaks, or none. */
  function FirstError(v: string, rules: seq<Rule>): (e: Option<string>)
    ensures e.None? <==> forall i :: 0 <= i < |rules| ==> Passes(rules[i], v)
    ensures e.Some? ==>
              exists i :: 0 <= i < |rules| && !Passes(rules[i], v) && e.value == rules[i].message
                          && forall j :: 0 <= j < i ==> Passes(rules[j], v)
  {
    if |rules| == 0 then None
    else if !Passes(rules[0], v) then Some(rules[0].message)
    else
      var e := FirstError(v, rules[1..]);
      assert forall i :: 1 <= i < |rules| ==> rules[1..][i - 1] == rules[i];
      e
  }

  /** The message of rule `i` is shown exactly when every earlier rule holds and rule `i`
      does not. */
  lemma {:induction false} FirstErrorIsFirstBroken(v: string, rules: seq<Rule>, i: nat)
    requires i < |rules|
    requires !Passes(rules[i], v)
    requires forall j :: 0 <= j < i ==> Passes(rules[j], v)
    ensures FirstError(v, rules) == Some(rules[i].message)
    decreases i
  {
    if i > 0 {
      var tail := rules[1..];
      assert tail[i - 1] == rules[i];
      assert forall j :: 0 <= j < i - 1 ==> tail[j] == rules[j + 1];
      FirstErrorIsFirstBroken(v, tail, i - 1);
    }
  }
}
