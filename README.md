# Register-new-user-with-ID-card: the workflow core in Dafny

This project models the logic of the React component
`components/register-new-user-with-idcard.tsx`, which registers a user from
a webcam selfie, a photo of an ID card and four typed identity fields. The
component's view state is one flat record (`RegNewUserWithIdCardProps`)
replaced by a reducer on every dispatched `{type, payload}` action. A
submission validates the record, creates a user record remotely, uploads the
selfie, runs the ID-card verification and deletes the record again if
verification refuses it. Text detected on the card is joined with `|`,
split again by the reducer, and offered in a picker. The picker pastes a
chosen string into whichever field the user picked.

Modules, one per concern of the component:

- `PipeText` (`pipe_text.dfy`): the `|`-delimited encoding of detected text.
  `Split` has the semantics of `String.prototype.split("|")`. `Terminated`
  is what the join loop builds: every item followed by `|`. `Intercalate`
  is the reference inverse of `Split`.
- `RegistrationState` (`registration_state.dfy`): the state record and its
  defaults. It also holds a field accessor (`Field`, `Get`, `Value`, and JS
  truthiness `Truthy`). Action type strings are parsed into a `Tag`
  (`Parse`), and `Apply` is the reducer. `Run` folds a trace of dispatched
  actions through `Apply`.
- `Validation` (`validation.dfy`): `validateFields`.
- `TextDetection` (`text_detection.dfy`): the join loop (`JoinDetected`).
  `FetchTextInCard` gives the dispatches of one detection run for an
  abstract detection outcome. `OnCardTextClick` and `TextSelected` give the
  dispatch pairs of the paste buttons and of the picker.
- `Submission` (`submission.dfy`): `submitUser` as the method `SubmitUser`.
  It takes the snapshot state and the outcome of each remote step. It
  returns one sequence of events: the actions it dispatches and the remote
  calls it makes, interleaved in the order they happen. The remote steps
  are create, reading the image back (`fetch` and `blob`), the storage put,
  verify and delete.

Side effects become values. A dispatch is an element of a trace; the state
it produces is `Run(s, trace)` for whatever state `s` the reducer held. In a
submission, dispatches and remote calls are both events of one sequence, so
the state the reducer has reached when a call is made is the `Run` of the
dispatches before it. A thrown error is an outcome that carries the error's
serialised text.

Some facts about the code that shape the model:

- `"".split("|")` is `[""]`, and the join loop ends every item with `|`.
  So after a detection run `pastableText` always ends in `""`. Before any
  detection run, and after `reset`, it is `[]`.
- The catch-all alert is `"Possible duplicate key. "` followed by the
  serialised error.
- Validation checks the `idCard` field. That field holds the upload
  widget's value.

## Model

| member | source | states |
|---|---|---|
| `PipeText.Split` | components/register-new-user-with-idcard.tsx:149 | splitting on the separator always yields at least one piece, no piece contains the separator, and `""` yields `[""]` |
| `PipeText.IntercalateSplit` | components/register-new-user-with-idcard.tsx:149 | splitting loses nothing: rejoining the pieces with the separator gives the input back |
| `PipeText.SplitIntercalate` | components/register-new-user-with-idcard.tsx:146-150 | splitting a separator join of separator-free pieces gives exactly those pieces |
| `PipeText.TerminatedSnoc` | components/register-new-user-with-idcard.tsx:190-193 | one more loop iteration appends the item and one separator to the accumulated text |
| `PipeText.TerminatedIsIntercalate` | components/register-new-user-with-idcard.tsx:190-193 | the loop's output is the separator join of the items plus one empty last piece |
| `PipeText.SplitTerminated` | components/register-new-user-with-idcard.tsx:190-195 | join loop, then `pastableText` split: items `t1..tn` come back as `[t1, …, tn, ""]` when no item contains the separator |
| `PipeText.SeparatorInItemSplitsIt` | components/register-new-user-with-idcard.tsx:190-195 | without that proviso the round trip breaks: the one item `a`-separator-`b` comes back as `["a", "b", ""]` |
| `RegistrationState.SameFieldsSameState` | components/register-new-user-with-idcard.tsx:19-34 | the field accessor covers the whole record: states equal on every field are equal |
| `RegistrationState.ParseName` | components/register-new-user-with-idcard.tsx:76-153 | the switch's action types and their names are inverse: every type string is recovered from its tag and every tag from its name; a type falls to the default exactly when the switch has no case for it |
| `RegistrationState.StatusIsNotAnAction` | components/register-new-user-with-idcard.tsx:76-153 | `status` has no action of its own; a `status` action is unrecognised |
| `RegistrationState.ApplySetsOneField` | components/register-new-user-with-idcard.tsx:78-150 | each field action writes its field: the payload for text fields, `payload == "true"` for flags, the split on the separator for `pastableText`; every other field is unchanged |
| `RegistrationState.FlagsParseTrue` | components/register-new-user-with-idcard.tsx:108-140 | `busy`, `showTextCopyModal` and `showCardTextButton` become true iff the payload is exactly `"true"` |
| `RegistrationState.ResetRestoresDefaults` | components/register-new-user-with-idcard.tsx:118-119 | `reset` yields the defaults of `initialProps` whatever the prior state, and is idempotent |
| `RegistrationState.SuccessMarksDone` | components/register-new-user-with-idcard.tsx:120-125 | `success` sets `status` to `"success"` and `busy` to false and changes no other field |
| `RegistrationState.UnknownTypeIsNoOp` | components/register-new-user-with-idcard.tsx:151-152 | an action type the switch does not recognise, `""` included, returns the state unchanged |
| `RegistrationState.RunAppend` | components/register-new-user-with-idcard.tsx:389 | dispatching two traces in turn is dispatching their concatenation |
| `Validation.Validate` | components/register-new-user-with-idcard.tsx:156-168 | true iff all seven required fields (first name, last name, date of birth, both images, id card, user id) are truthy |
| `Validation.ClearingRequiredFieldInvalidates` | components/register-new-user-with-idcard.tsx:156-168 | emptying any one required field makes validation fail |
| `Validation.OtherFieldsDoNotMatter` | components/register-new-user-with-idcard.tsx:156-168 | actions on fields that are not required never change the validation result |
| `Validation.FillFields` | components/register-new-user-with-idcard.tsx:78-130 | dispatching text to distinct required fields, one action each, leaves each of them holding its text |
| `Validation.FormFieldsAreRequired` | components/register-new-user-with-idcard.tsx:156-168 | the fields the form fills are distinct and are exactly the seven required ones |
| `Validation.FilledFormIsValid` | components/register-new-user-with-idcard.tsx:156-168 | dispatching non-empty values for all seven required fields, from any state, makes it valid |
| `Validation.InitialIsInvalid` | components/register-new-user-with-idcard.tsx:60-74 | the defaults do not pass validation |
| `TextDetection.JoinDetected` | components/register-new-user-with-idcard.tsx:190-193 | the loop builds every item followed by the separator; splitting it yields the items plus `""` when no item contains the separator |
| `TextDetection.FetchTextInCard` | components/register-new-user-with-idcard.tsx:170-201 | a detection run dispatches the clearing pair first, then the published join only for a non-empty result; a throw dispatches what an empty result does |
| `TextDetection.DetectionSettles` | components/register-new-user-with-idcard.tsx:175-196 | after a run the picker button is shown iff something was found; the list is `[""]` when nothing was found, and the detected strings plus `""` when none holds the separator; no other field changes |
| `TextDetection.CardTextClickOpensPicker` | components/register-new-user-with-idcard.tsx:340-343 | a paste button records the target field name and opens the picker, nothing else |
| `TextDetection.SelectionWritesTarget` | components/register-new-user-with-idcard.tsx:427-431 | with a recognised target, the chosen text is written into that field as its own action would, the picker closes, nothing else changes |
| `TextDetection.SelectionWithoutTargetOnlyCloses` | components/register-new-user-with-idcard.tsx:427-431 | with an unrecognised target, `""` included, choosing text only closes the picker |
| `TextDetection.PasteIntoIdentityField` | components/register-new-user-with-idcard.tsx:427-431 | a paste button of user id, first name, last name or date of birth followed by a choice fills that field and closes the picker; only the recorded target also changes |
| `Submission.FaceImageKeyDeterminesUser` | components/register-new-user-with-idcard.tsx:215 | the user id sits between `regimages/` and `.jpg` in the key, so distinct users get distinct keys |
| `Submission.UserInfoIsProvisional` | components/register-new-user-with-idcard.tsx:216-224 | the created record has company `Amazon`, status `error-initialentry`, the face image key and the identity fields of the snapshot |
| `Submission.SameRecordThroughout` | components/register-new-user-with-idcard.tsx:214-273 | create, verify and delete are all given the one record built from the snapshot; the selfie is stored under the key that record names and is the face image sent to verification |
| `Submission.RejectionOnlyAlerts` | components/register-new-user-with-idcard.tsx:206-209 | the validation rejection changes only the alert; `busy` is untouched |
| `Submission.EpilogueSettles` | components/register-new-user-with-idcard.tsx:247-289 | each ending's dispatches, once the alert is cleared, leave the ending's alert, `busy` false and `status` `success` only when registered; the first of two dispatches keeps `busy` |
| `Submission.SubmissionSettles` | components/register-new-user-with-idcard.tsx:211-291 | each ending leaves the state with `busy` false and the ending's alert; `status` is `success` only when registered; `busy` stays true from the prologue to the last dispatch |
| `Submission.DeleteOnlyAfterRefusal` | components/register-new-user-with-idcard.tsx:269-283 | the delete call is reached iff the record was created, the image stored under a key, and verification answered with a refusal |
| `Submission.SuccessOnlyWhenVerified` | components/register-new-user-with-idcard.tsx:269-286 | `success` is dispatched iff creation, upload with key and verification all succeeded |
| `Submission.TimelineProjects` | components/register-new-user-with-idcard.tsx:211-291 | a validated submission's dispatches alone are the prologue and the ending's dispatches; its calls alone are the calls it reached |
| `Submission.PrologueBeforeEachCall` | components/register-new-user-with-idcard.tsx:211-285 | when any remote call is made the reducer has seen exactly the clear-alert and set-busy dispatches: `busy` is set before the first call and nothing of the ending is dispatched before the last |
| `Submission.CallsWhileBusy` | components/register-new-user-with-idcard.tsx:211-285 | every remote call is made while the state shows `busy` true and the alert cleared, whatever state the submission started from |
| `Submission.TimelineHas` | components/register-new-user-with-idcard.tsx:211-291 | a call is an event of a submission iff it is among its calls; an action iff it is among its prologue and ending dispatches |
| `Submission.SubmitUser` | components/register-new-user-with-idcard.tsx:203-292 | invalid input: one validation alert and no remote call. Otherwise the events are clear-alert, set-busy, then the calls reached in the order create, put, verify, delete, then the ending's dispatches (the first throw wins). A throw while reading the image back ends before the put. Delete is called iff verification refused; `success` is dispatched iff all three steps succeeded |

## Left out

- Rendering: `SummaryRow`, `SubmissionSummary`, the markup of `RegistrationFields`, the body of `RegisterNewUserWithIdCard`, the modal and the CSS class toggles. They hold no behaviour beyond the dispatches modelled here.
- Webcam capture (`getScreenshot`) and the image upload widget: their images enter the model only as action payloads (strings).
- The `capture`, `captureIdCard`, retake, reset-button and `handleClose` handlers: each dispatches one action, and `Apply` covers all of them.
- `onChange` of the upload widget: it dispatches `idCard` and then awaits `fetchTextInCard`, so it is that action followed by `FetchTextInCard`'s trace. Its image decoding is not modelled.
- `getImageFromUploadComponent` is not part of this model. The verification call is recorded with the state's image strings before that conversion.
- `fetch`/`blob`, `Storage.put` and every GraphQL call are foreign I/O. Each is an abstract outcome: success, a returned value, or a throw. `fetch` and `blob` are one outcome, which either throws or lets the put be made; they are not themselves calls in the event sequence. The progress callback and `console.log` are side output and are left out.
- `JSON.stringify` of the user record and of caught errors: the record is passed as the `UserInfo` value itself. An error is an opaque string, and only the literal alert prefix is modelled.
- Non-string payloads: `idCard` is given the widget's image list at run time and the webcam may return null. The model types every payload as a string, as the action interface declares. A missing verification `Message` is likewise a string.
- Async interleaving, React's batching of dispatches and a second submit while busy are not modelled. The code has no guard against these; `SubmitUser` is one sequential run over its snapshot.
- `Submission.SubmitUser` and `TextDetection.FetchTextInCard`: their contracts give the events and the dispatched trace. The states these produce are proved separately, from any starting state, by `SubmissionSettles`, `CallsWhileBusy`, `RejectionOnlyAlerts` and `DetectionSettles`.
