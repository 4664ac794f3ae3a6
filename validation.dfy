/** The check run before a submission: every identity field and both images
    must be present. */
module Validation {
  import opened RegistrationState

  /** The fields a submission needs, by JavaScript truthiness. */
  const Required: set<Field> := {FirstName, LastName, Dob, Screenshot, ScreenshotIdCard, IdCard, UserId}

  /** `props.idCard` is falsy when null and when it holds the empty string. */
  predicate Present(o: Option<string>) {
    o.Some? && o.value != ""
  }

  /** False as soon as one of the seven tests finds its field missing. */
  function Validate(s: State): (ok: bool)
    ensures ok <==> forall f :: f in Required ==> Truthy(Get(s, f))
  {
    !(s.firstname == "" ||
      s.lastname == "" ||
      s.dob == "" ||
      s.screenshot == "" ||
      s.screenshotIdCard == "" ||
      !Present(s.idCard) ||
      s.userid == "")
  }

  /** Emptying any single required field makes the state invalid. */
  lemma ClearingRequiredFieldInvalidates(s: State, f: Settable)
    requires f in Required
    ensures !Validate(Apply(s, Action(Set(f), "")))
  {
    ApplySetsOneField(s, f, "");
  }

  /** Actions on fields that are not required leave validity as it was. */
  lemma OtherFieldsDoNotMatter(s: State, f: Settable, p: string)
    requires f !in Required
    ensures Validate(Apply(s, Action(Set(f), p))) == Validate(s)
  {
    ApplySetsOneField(s, f, p);
    assert forall g :: g in Required ==> Get(Apply(s, Action(Set(f), p)), g) == Get(s, g);
  }

  /** Dispatching text to distinct required fields, one action each, leaves
      every one of them holding its text. */
  lemma FillFields(s: State, fields: seq<Settable>, values: seq<string>, t: seq<Action>)
    requires |fields| == |values| == |t|
    requires forall j :: 0 <= j < |t| ==> fields[j] in Required && t[j] == Action(Set(fields[j]), values[j])
    requires forall i, j :: 0 <= i < j < |fields| ==> fields[i] != fields[j]
    ensures forall j :: 0 <= j < |t| ==> Get(Run(s, t), fields[j]) == Str(values[j])
  {
    var r := s;
    for k := 0 to |t|
      invariant r == Run(s, t[..k])
      invariant forall j :: 0 <= j < k ==> Get(r, fields[j]) == Str(values[j])
    {
      assert t[..k + 1][..k] == t[..k];
      ApplySetsOneField(r, fields[k], values[k]);
      r := Apply(r, t[k]);
    }
    assert t[..|t|] == t;
  }

  /** The fields a user fills in before submitting: four typed fields, the
      two images and the upload widget. */
  const FormFields: seq<Settable> := [UserId, FirstName, LastName, Dob, Screenshot, ScreenshotIdCard, IdCard]

  /** The form's fields are distinct and are exactly the required ones. */
  lemma FormFieldsAreRequired()
    ensures forall i, j :: 0 <= i < j < |FormFields| ==> FormFields[i] != FormFields[j]
    ensures forall f :: f in Required <==> f in FormFields
  {
  }

  /** One dispatch per form field, each carrying that field's text. */
  function FillForm(values: seq<string>): seq<Action>
    requires |values| == |FormFields|
  {
    seq(|FormFields|, j requires 0 <= j < |FormFields| => Action(Set(FormFields[j]), values[j]))
  }

  /** Filling every required field with a non-empty payload, in any state,
      makes the state valid. */
  lemma FilledFormIsValid(s: State, values: seq<string>)
    requires |values| == |FormFields|
    requires forall j :: 0 <= j < |values| ==> values[j] != ""
    ensures Validate(Run(s, FillForm(values)))
  {
    FormFieldsAreRequired();
    FillFields(s, FormFields, values, FillForm(values));
    forall f | f in Required
      ensures Truthy(Get(Run(s, FillForm(values)), f))
    {
      var j :| 0 <= j < |FormFields| && FormFields[j] == f;
    }
  }

  /** The freshly mounted form cannot be submitted. */
  lemma InitialIsInvalid()
    ensures !Validate(Initial)
  {
  }
}
