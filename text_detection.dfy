/** Reading text off the uploaded ID card and pasting one of the detected
    strings into a form field. The detection call itself is remote; only its
    outcome enters the model. */
module TextDetection {
  import opened PipeText
  import opened RegistrationState

  /** What the detection query comes back with. A missing or null list of
      detected strings is `Detected([])`. */
  datatype Detection = DetectThrows | Detected(texts: seq<string>)

  /** The guard in front of the join: a non-empty list was returned. */
  predicate Found(d: Detection) {
    d.Detected? && |d.texts| > 0
  }

  /** The accumulation loop: every detected string followed by `|`. */
  method JoinDetected(texts: seq<string>) returns (pastable: string)
    ensures pastable == Terminated(texts)
    ensures NoSeparator(texts) ==> Split(pastable) == texts + [""]
  {
    pastable := "";
    for i := 0 to |texts|
      invariant pastable == Terminated(texts[..i])
    {
      TerminatedSnoc(texts[..i], texts[i]);
      assert texts[..i + 1] == texts[..i] + [texts[i]];
      pastable := pastable + texts[i] + "|";
    }
    assert texts[..|texts|] == texts;
    if NoSeparator(texts) {
      SplitTerminated(texts);
    }
  }

  /** Before the call: empty the list and hide the picker button. */
  const ClearDetected: seq<Action> :=
    [Action(Set(PastableText), ""), Action(Set(ShowCardTextButton), "false")]

  /** After a non-empty result: publish the joined text and show the button. */
  function Publish(pastable: string): seq<Action> {
    [Action(Set(PastableText), pastable), Action(Set(ShowCardTextButton), "true")]
  }

  /** The dispatches a detection run makes for a given outcome. */
  function DetectionTrace(outcome: Detection): seq<Action> {
    ClearDetected + if Found(outcome) then Publish(Terminated(outcome.texts)) else []
  }

  /** One detection run. A throwing call is swallowed: it dispatches what
      an empty result does. */
  method FetchTextInCard(outcome: Detection) returns (trace: seq<Action>)
    ensures trace == DetectionTrace(outcome)
  {
    trace := [Action(Set(PastableText), ""), Action(Set(ShowCardTextButton), "false")];
    match outcome {
      case DetectThrows =>
      case Detected(texts) =>
        if |texts| > 0 {
          var pastable := JoinDetected(texts);
          trace := trace + [Action(Set(PastableText), pastable), Action(Set(ShowCardTextButton), "true")];
        }
    }
  }

  /** What a detection run leaves behind: the picker button is shown exactly
      when something was found; the list is the split of the joined result,
      which is the detected strings and one empty string when none holds a
      `|`, and `[""]` otherwise; no other field changes. */
  lemma DetectionSettles(s: State, outcome: Detection)
    ensures Run(s, DetectionTrace(outcome)).showCardTextButton == Found(outcome)
    ensures Run(s, DetectionTrace(outcome)).pastableText ==
              if Found(outcome) then Split(Terminated(outcome.texts)) else [""]
    ensures Found(outcome) && NoSeparator(outcome.texts) ==>
              Run(s, DetectionTrace(outcome)).pastableText == outcome.texts + [""]
    ensures forall g :: g != PastableText && g != ShowCardTextButton ==>
              Get(Run(s, DetectionTrace(outcome)), g) == Get(s, g)
  {
    var trace := DetectionTrace(outcome);
    RunPair(s, ClearDetected[0], ClearDetected[1]);
    if Found(outcome) {
      var publish := Publish(Terminated(outcome.texts));
      RunAppend(s, ClearDetected, publish);
      RunPair(Run(s, ClearDetected), publish[0], publish[1]);
      if NoSeparator(outcome.texts) {
        SplitTerminated(outcome.texts);
      }
    } else {
      assert trace == ClearDetected;
    }
  }

  /** A paste button next to a field: remember the field, open the picker. */
  function OnCardTextClick(field: string): seq<Action> {
    [Action(Set(AffectedField), field), Action(Set(ShowTextCopyModal), "true")]
  }

  /** Choosing a string in the picker dispatches it under the remembered
      field's name, whatever that name is, then closes the picker. */
  function TextSelected(s: State, selected: string): seq<Action> {
    [Action(Parse(s.affectedField), selected), Action(Set(ShowTextCopyModal), "false")]
  }

  /** Opening the picker records the target and shows the picker, nothing else. */
  lemma CardTextClickOpensPicker(s: State, field: string)
    ensures Run(s, OnCardTextClick(field)).affectedField == field
    ensures Run(s, OnCardTextClick(field)).showTextCopyModal
    ensures forall g :: g != AffectedField && g != ShowTextCopyModal ==>
              Get(Run(s, OnCardTextClick(field)), g) == Get(s, g)
  {
    RunPair(s, OnCardTextClick(field)[0], OnCardTextClick(field)[1]);
  }

  /** With a target field recorded, the chosen string is written into that
      field as its own action would write it, and the picker is closed. */
  lemma SelectionWritesTarget(s: State, selected: string)
    requires Parse(s.affectedField).Set?
    requires Parse(s.affectedField).field != ShowTextCopyModal
    ensures Get(Run(s, TextSelected(s, selected)), Parse(s.affectedField).field)
            == Decode(Parse(s.affectedField).field, selected)
    ensures !Run(s, TextSelected(s, selected)).showTextCopyModal
    ensures forall g :: g != Parse(s.affectedField).field && g != ShowTextCopyModal ==>
              Get(Run(s, TextSelected(s, selected)), g) == Get(s, g)
  {
    var f := Parse(s.affectedField).field;
    RunPair(s, TextSelected(s, selected)[0], TextSelected(s, selected)[1]);
    ApplySetsOneField(s, f, selected);
    ApplySetsOneField(Apply(s, Action(Set(f), selected)), ShowTextCopyModal, "false");
  }

  /** Without a recognised target (the empty name the state starts with,
      say) selecting a string only closes the picker. */
  lemma SelectionWithoutTargetOnlyCloses(s: State, selected: string)
    requires Parse(s.affectedField).Other?
    ensures Run(s, TextSelected(s, selected)) == s.(showTextCopyModal := false)
  {
    RunPair(s, TextSelected(s, selected)[0], TextSelected(s, selected)[1]);
  }

  /** Clicking the paste button of an identity field and then choosing a
      string fills that field and closes the picker; apart from the recorded
      target, nothing else changes. */
  lemma PasteIntoIdentityField(s: State, f: Settable, selected: string)
    requires f in {UserId, FirstName, LastName, Dob}
    ensures Get(Run(Run(s, OnCardTextClick(FieldName(f))), TextSelected(Run(s, OnCardTextClick(FieldName(f))), selected)), f)
            == Str(selected)
    ensures !Run(Run(s, OnCardTextClick(FieldName(f))), TextSelected(Run(s, OnCardTextClick(FieldName(f))), selected)).showTextCopyModal
    ensures forall g :: g != f && g != AffectedField && g != ShowTextCopyModal ==>
              Get(Run(Run(s, OnCardTextClick(FieldName(f))), TextSelected(Run(s, OnCardTextClick(FieldName(f))), selected)), g)
              == Get(s, g)
  {
    var s1 := Run(s, OnCardTextClick(FieldName(f)));
    CardTextClickOpensPicker(s, FieldName(f));
    ParseName(FieldName(f), Set(f));
    assert Parse(s1.affectedField) == Set(f);
    SelectionWritesTarget(s1, selected);
  }
}
