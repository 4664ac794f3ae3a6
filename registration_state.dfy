/** The view state of the register-with-ID-card screen and its reducer: a
    flat record replaced by a pure transition function on every dispatched
    action. */
module RegistrationState {
  import opened PipeText

  datatype Option<T> = None | Some(value: T)

  /** One flat record; `idCard` is the only field that starts out null. */
  datatype State = State(
    screenshot: string,
    screenshotIdCard: string,
    userid: string,
    firstname: string,
    lastname: string,
    dob: string,
    busy: bool,
    status: string,
    idCard: Option<string>,
    showTextCopyModal: bool,
    alertMessage: string,
    affectedField: string,
    showCardTextButton: bool,
    pastableText: seq<string>)

  /** The defaults the component mounts with and `reset` restores. */
  const Initial: State := State(
    screenshot := "",
    screenshotIdCard := "",
    userid := "",
    firstname := "",
    lastname := "",
    dob := "",
    busy := false,
    status := "initial",
    idCard := None,
    showTextCopyModal := false,
    alertMessage := "",
    affectedField := "",
    showCardTextButton := false,
    pastableText := [])

  /** The record's fields, named so that a field can be chosen at run time. */
  datatype Field =
    | Screenshot | ScreenshotIdCard | UserId | FirstName | LastName | Dob
    | Busy | Status | IdCard | ShowTextCopyModal | AlertMessage
    | AffectedField | ShowCardTextButton | PastableText

  /** The property key of each field in the JavaScript record. */
  function FieldName(f: Field): string {
    match f
    case Screenshot => "screenshot"
    case ScreenshotIdCard => "screenshotIdCard"
    case UserId => "userid"
    case FirstName => "firstname"
    case LastName => "lastname"
    case Dob => "dob"
    case Busy => "busy"
    case Status => "status"
    case IdCard => "idCard"
    case ShowTextCopyModal => "showTextCopyModal"
    case AlertMessage => "alertMessage"
    case AffectedField => "affectedField"
    case ShowCardTextButton => "showCardTextButton"
    case PastableText => "pastableText"
  }

  /** A field's content as a JavaScript value. */
  datatype Value = Str(text: string) | Flag(on: bool) | Null | List(items: seq<string>)

  /** JavaScript truthiness: the empty string, `false` and `null` are falsy;
      an array is truthy even when empty. */
  predicate Truthy(v: Value) {
    match v
    case Str(t) => t != ""
    case Flag(b) => b
    case Null => false
    case List(_) => true
  }

  function Get(s: State, f: Field): Value {
    match f
    case Screenshot => Str(s.screenshot)
    case ScreenshotIdCard => Str(s.screenshotIdCard)
    case UserId => Str(s.userid)
    case FirstName => Str(s.firstname)
    case LastName => Str(s.lastname)
    case Dob => Str(s.dob)
    case Busy => Flag(s.busy)
    case Status => Str(s.status)
    case IdCard => (match s.idCard case None => Null case Some(v) => Str(v))
    case ShowTextCopyModal => Flag(s.showTextCopyModal)
    case AlertMessage => Str(s.alertMessage)
    case AffectedField => Str(s.affectedField)
    case ShowCardTextButton => Flag(s.showCardTextButton)
    case PastableText => List(s.pastableText)
  }

  /** Two states that agree on every field are the same state: Get is a
      complete view of the record. */
  lemma SameFieldsSameState(a: State, b: State)
    requires forall f :: Get(a, f) == Get(b, f)
    ensures a == b
  {
    assert Get(a, Screenshot) == Get(b, Screenshot);
    assert Get(a, ScreenshotIdCard) == Get(b, ScreenshotIdCard);
    assert Get(a, UserId) == Get(b, UserId);
    assert Get(a, FirstName) == Get(b, FirstName);
    assert Get(a, LastName) == Get(b, LastName);
    assert Get(a, Dob) == Get(b, Dob);
    assert Get(a, Busy) == Get(b, Busy);
    assert Get(a, Status) == Get(b, Status);
    assert Get(a, IdCard) == Get(b, IdCard);
    assert Get(a, ShowTextCopyModal) == Get(b, ShowTextCopyModal);
    assert Get(a, AlertMessage) == Get(b, AlertMessage);
    assert Get(a, AffectedField) == Get(b, AffectedField);
    assert Get(a, ShowCardTextButton) == Get(b, ShowCardTextButton);
    assert Get(a, PastableText) == Get(b, PastableText);
  }

  /** Every field except `status` has an action of the same name. */
  type Settable = f: Field | f != Status witness UserId

  /** The type strings the reducer's switch has a case for. */
  predicate Known(kind: string) {
    match kind
    case "userid" => true
    case "firstname" => true
    case "lastname" => true
    case "dob" => true
    case "screenshot" => true
    case "screenshotIdCard" => true
    case "busy" => true
    case "alertMessage" => true
    case "reset" => true
    case "success" => true
    case "idCard" => true
    case "showTextCopyModal" => true
    case "showCardTextButton" => true
    case "affectedField" => true
    case "pastableText" => true
    case _ => false
  }

  /** A type string that falls through to the switch's default. */
  type Unrecognised = kind: string | !Known(kind) witness ""

  /** The action types the reducer's switch distinguishes; any other type
      string is kept as `Other`. */
  datatype Tag = Set(field: Settable) | Reset | Success | Other(name: Unrecognised)

  datatype Action = Action(tag: Tag, payload: string)

  /** The switch on `action.type`. */
  function Parse(kind: string): Tag {
    match kind
    case "userid" => Set(UserId)
    case "firstname" => Set(FirstName)
    case "lastname" => Set(LastName)
    case "dob" => Set(Dob)
    case "screenshot" => Set(Screenshot)
    case "screenshotIdCard" => Set(ScreenshotIdCard)
    case "busy" => Set(Busy)
    case "alertMessage" => Set(AlertMessage)
    case "reset" => Reset
    case "success" => Success
    case "idCard" => Set(IdCard)
    case "showTextCopyModal" => Set(ShowTextCopyModal)
    case "showCardTextButton" => Set(ShowCardTextButton)
    case "affectedField" => Set(AffectedField)
    case "pastableText" => Set(PastableText)
    case _ => Other(kind)
  }

  /** The type string a tag is dispatched with. */
  function Name(t: Tag): string {
    match t
    case Set(f) => FieldName(f)
    case Reset => "reset"
    case Success => "success"
    case Other(n) => n
  }

  /** Parsing and naming are inverse: a type string is recovered from its
      tag, and every tag from its name. */
  lemma ParseName(kind: string, t: Tag)
    ensures Name(Parse(kind)) == kind
    ensures Parse(Name(t)) == t
    ensures Parse(kind).Other? <==> !Known(kind)
  {
  }

  /** `status` has no action of its own: only `success` and `reset` move it. */
  lemma StatusIsNotAnAction()
    ensures Parse(FieldName(Status)) == Other("status")
  {
  }

  /** The value a field holds after its action with payload `p`: the three
      flags compare the payload with "true", the detected-text list splits
      it on `|`, every other field takes it as it is. */
  function Decode(f: Settable, p: string): Value {
    match f
    case Busy => Flag(p == "true")
    case ShowTextCopyModal => Flag(p == "true")
    case ShowCardTextButton => Flag(p == "true")
    case PastableText => List(Split(p))
    case _ => Str(p)
  }

  /** The reducer: one spread-copy per field action, the defaults for
      `reset`, two fields for `success`, and the state unchanged for any
      other action type. */
  function Apply(s: State, a: Action): State {
    match a.tag
    case Set(f) =>
      (match f
       case UserId => s.(userid := a.payload)
       case FirstName => s.(firstname := a.payload)
       case LastName => s.(lastname := a.payload)
       case Dob => s.(dob := a.payload)
       case Screenshot => s.(screenshot := a.payload)
       case ScreenshotIdCard => s.(screenshotIdCard := a.payload)
       case Busy => s.(busy := a.payload == "true")
       case AlertMessage => s.(alertMessage := a.payload)
       case IdCard => s.(idCard := Some(a.payload))
       case ShowTextCopyModal => s.(showTextCopyModal := a.payload == "true")
       case ShowCardTextButton => s.(showCardTextButton := a.payload == "true")
       case AffectedField => s.(affectedField := a.payload)
       case PastableText => s.(pastableText := Split(a.payload)))
    case Reset => Initial
    case Success => s.(status := "success", busy := false)
    case Other(_) => s
  }

  /** A field action writes its own field and leaves every other field as
      it was. */
  lemma ApplySetsOneField(s: State, f: Settable, p: string)
    ensures Get(Apply(s, Action(Set(f), p)), f) == Decode(f, p)
    ensures forall g :: g != f ==> Get(Apply(s, Action(Set(f), p)), g) == Get(s, g)
  {
  }

  /** The flags become true exactly when the payload is the string "true". */
  lemma FlagsParseTrue(s: State, p: string)
    ensures Apply(s, Action(Set(Busy), p)).busy <==> p == "true"
    ensures Apply(s, Action(Set(ShowTextCopyModal), p)).showTextCopyModal <==> p == "true"
    ensures Apply(s, Action(Set(ShowCardTextButton), p)).showCardTextButton <==> p == "true"
  {
  }

  /** `reset` gives the defaults whatever came before, so it is idempotent. */
  lemma ResetRestoresDefaults(s: State, p: string, q: string)
    ensures Apply(s, Action(Reset, p)) == Initial
    ensures Apply(Apply(s, Action(Reset, p)), Action(Reset, q)) == Initial
  {
  }

  /** `success` marks the registration done and not busy, nothing else. */
  lemma SuccessMarksDone(s: State, p: string)
    ensures Get(Apply(s, Action(Success, p)), Status) == Str("success")
    ensures Get(Apply(s, Action(Success, p)), Busy) == Flag(false)
    ensures forall g :: g != Status && g != Busy ==> Get(Apply(s, Action(Success, p)), g) == Get(s, g)
  {
  }

  /** An action type the switch does not know, the empty string included,
      changes nothing. */
  lemma UnknownTypeIsNoOp(s: State, kind: string, p: string)
    requires Parse(kind).Other?
    ensures Apply(s, Action(Parse(kind), p)) == s
  {
  }

  /** The state after dispatching a sequence of actions in order. */
  function Run(s: State, trace: seq<Action>): State
    decreases |trace|
  {
    if trace == [] then s else Apply(Run(s, trace[..|trace| - 1]), trace[|trace| - 1])
  }

  /** Dispatching one trace after another is dispatching their concatenation. */
  lemma {:induction false} RunAppend(s: State, t: seq<Action>, u: seq<Action>)
    ensures Run(s, t + u) == Run(Run(s, t), u)
    decreases |u|
  {
    if u == [] {
      assert t + u == t;
    } else {
      assert (t + u)[..|t + u| - 1] == t + u[..|u| - 1];
      RunAppend(s, t, u[..|u| - 1]);
    }
  }

  /** One more action at the end of a trace is one more reducer step. */
  lemma RunSnoc(s: State, t: seq<Action>, a: Action)
    ensures Run(s, t + [a]) == Apply(Run(s, t), a)
  {
    assert (t + [a])[..|t|] == t;
  }

  /** A two-action trace, as the UI's paired dispatches produce. */
  lemma RunPair(s: State, a: Action, b: Action)
    ensures Run(s, [a, b]) == Apply(Apply(s, a), b)
  {
    RunSnoc(s, [], a);
    assert [a, b] == [a] + [b];
    RunSnoc(s, [a], b);
  }
}
