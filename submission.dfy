/** Submitting a registration: validate, create the user record, upload the
    selfie, run the ID-card verification, and delete the record again when
    verification refuses it. The remote steps are given as their outcomes;
    the model yields one sequence of events: the actions dispatched to the
    reducer and the remote calls made, interleaved in the order they happen. */
module Submission {
  import opened RegistrationState
  import opened Validation

  const ValidationMessage: string :=
    "Please fill in all fields; *and* please ensure that you've supplied both a selfie image and uploaded an id card."
  const DuplicateKeyPrefix: string := "Possible duplicate key. "
  const CompanyId: string := "Amazon"
  const InitialEntryStatus: string := "error-initialentry"
  const FaceImageFolder: string := "regimages/"
  const FaceImageSuffix: string := ".jpg"
  const ImageContentType: string := "image/jpeg"

  /** Outcomes of the remote steps. An error carries its serialised text. */
  datatype CreateOutcome = Created | CreateThrows(error: string)
  /** The upload step: reading the image back (`fetch` and `blob`) may throw
      before the put is made; the put itself resolves to a response with a
      key, resolves to nothing, or throws. */
  datatype UploadOutcome = FetchThrows(error: string) | Stored(key: string) | NoResponse | PutThrows(error: string)
  /** A missing `Success` flag in the response reads as `success == false`. */
  datatype VerifyOutcome = Verified(success: bool, message: string) | VerifyThrows(error: string)
  datatype DeleteOutcome = Deleted | DeleteThrows(error: string)
  datatype Remote = Remote(create: CreateOutcome, upload: UploadOutcome, verify: VerifyOutcome, delete: DeleteOutcome)

  /** The user record written before anything else. */
  datatype UserInfo = UserInfo(
    companyid: string,
    userid: string,
    firstname: string,
    lastname: string,
    dob: string,
    registrationstatus: string,
    faceimage: string)

  /** The remote calls, with what each is given. Image arguments are the
      state's image strings, before any conversion. */
  datatype Call =
    | CreateUserInfo(input: UserInfo)
    | StoragePut(key: string, image: string, contentType: string)
    | RegisterNewUserWithIdCard(user: UserInfo, faceImage: string, idImage: string)
    | DeleteUser(user: UserInfo)

  function FaceImageKey(userid: string): string {
    FaceImageFolder + userid + FaceImageSuffix
  }

  function UserInfoOf(props: State): UserInfo {
    UserInfo(CompanyId, props.userid, props.firstname, props.lastname, props.dob,
             InitialEntryStatus, FaceImageKey(props.userid))
  }

  /** The storage key determines the user id: the id sits between the folder
      and the suffix, so two users never share a face image key. */
  lemma FaceImageKeyDeterminesUser(a: string, b: string)
    ensures FaceImageKey(a)[|FaceImageFolder|..|FaceImageKey(a)| - |FaceImageSuffix|] == a
    ensures FaceImageKey(a) == FaceImageKey(b) ==> a == b
  {
    var k := FaceImageKey(a);
    assert k[|FaceImageFolder|..|k| - |FaceImageSuffix|] == a;
    if k == FaceImageKey(b) {
      var kb := FaceImageKey(b);
      assert kb[|FaceImageFolder|..|kb| - |FaceImageSuffix|] == b;
    }
  }

  /** The record created on submission is marked as not yet verified and
      points at the face image under its user's key. */
  lemma UserInfoIsProvisional(props: State)
    ensures UserInfoOf(props).registrationstatus == "error-initialentry"
    ensures UserInfoOf(props).companyid == "Amazon"
    ensures UserInfoOf(props).faceimage == "regimages/" + props.userid + ".jpg"
    ensures UserInfoOf(props).userid == props.userid && UserInfoOf(props).firstname == props.firstname
    ensures UserInfoOf(props).lastname == props.lastname && UserInfoOf(props).dob == props.dob
  {
  }

  /** Every remote call a submission can make, in the order it makes them. */
  function Protocol(props: State): seq<Call> {
    [CreateUserInfo(UserInfoOf(props)),
     StoragePut(FaceImageKey(props.userid), props.screenshot, ImageContentType),
     RegisterNewUserWithIdCard(UserInfoOf(props), props.screenshot, props.screenshotIdCard),
     DeleteUser(UserInfoOf(props))]
  }

  /** The upload counts only when it answers with a non-empty key. */
  predicate HasKey(u: UploadOutcome) {
    u.Stored? && u.key != ""
  }

  /** How a validated submission ends. */
  datatype Ending = NoKey | Refused(message: string) | Registered | Threw(error: string)

  /** The ending the remote outcomes lead to; the first throw wins. */
  function EndingOf(r: Remote): Ending {
    if r.create.CreateThrows? then Threw(r.create.error)
    else if r.upload.FetchThrows? || r.upload.PutThrows? then Threw(r.upload.error)
    else if !HasKey(r.upload) then NoKey
    else if r.verify.VerifyThrows? then Threw(r.verify.error)
    else if r.verify.success then Registered
    else if r.delete.DeleteThrows? then Threw(r.delete.error)
    else Refused(r.verify.message)
  }

  /** How many of the protocol's calls are made before the ending. */
  function CallsReached(r: Remote): nat {
    if r.create.CreateThrows? || r.upload.FetchThrows? then 1
    else if !HasKey(r.upload) then 2
    else if r.verify.VerifyThrows? || r.verify.success then 3
    else 4
  }

  /** Clear the alert and mark the form busy. */
  const Prologue: seq<Action> := [Action(Set(AlertMessage), ""), Action(Set(Busy), "true")]

  /** The dispatches after the prologue, by ending. */
  function Epilogue(e: Ending): seq<Action> {
    match e
    case NoKey => [Action(Set(Busy), "false")]
    case Refused(m) => [Action(Set(AlertMessage), m), Action(Set(Busy), "false")]
    case Registered => [Action(Success, "")]
    case Threw(err) => [Action(Set(AlertMessage), DuplicateKeyPrefix + err), Action(Set(Busy), "false")]
  }

  /** The alert left on screen by an ending. */
  function AlertAfter(e: Ending): string {
    match e
    case NoKey => ""
    case Registered => ""
    case Refused(m) => m
    case Threw(err) => DuplicateKeyPrefix + err
  }

  /** The state a validated submission leaves behind, from the state it was
      dispatched to. */
  function Settled(s: State, e: Ending): State {
    s.(alertMessage := AlertAfter(e), busy := false,
       status := if e == Registered then "success" else s.status)
  }

  /** The ending's dispatches on their own, after the prologue has cleared
      the alert: they settle the alert, `busy` and `status`, and the first of
      two keeps `busy` as it was. */
  lemma EpilogueSettles(p: State, e: Ending)
    requires p.alertMessage == ""
    ensures Run(p, Epilogue(e)) == Settled(p, e)
    ensures |Epilogue(e)| == 2 ==> Run(p, Epilogue(e)[..1]).busy == p.busy
  {
    var first := Epilogue(e)[0];
    RunSnoc(p, [], first);
    assert [first] == [] + [first];
    match e {
      case NoKey =>
        assert Epilogue(e) == [first];
        assert Apply(p, Action(Set(Busy), "false")) == p.(busy := false);
      case Registered =>
        assert Epilogue(e) == [first];
        assert Apply(p, Action(Success, "")) == p.(status := "success", busy := false);
      case Refused(m) =>
        var second := Action(Set(Busy), "false");
        RunPair(p, first, second);
        assert Apply(p, first) == p.(alertMessage := m);
        assert Epilogue(e)[..1] == [first];
      case Threw(err) =>
        var second := Action(Set(Busy), "false");
        RunPair(p, first, second);
        assert Apply(p, first) == p.(alertMessage := DuplicateKeyPrefix + err);
        assert Epilogue(e)[..1] == [first];
    }
  }

  /** Whatever the ending, a validated submission leaves the form not busy,
      with the ending's alert, and `success` only when registered; busy
      stays set from the prologue until the last dispatch. */
  lemma {:induction false} SubmissionSettles(s: State, e: Ending)
    ensures Run(s, Prologue + Epilogue(e)) == Settled(s, e)
    ensures forall k :: |Prologue| <= k < |Prologue + Epilogue(e)| ==> Run(s, (Prologue + Epilogue(e))[..k]).busy
  {
    var t := Prologue + Epilogue(e);
    var p := Run(s, Prologue);
    RunPair(s, Prologue[0], Prologue[1]);
    assert p == s.(alertMessage := "", busy := true);
    RunAppend(s, Prologue, Epilogue(e));
    EpilogueSettles(p, e);
    assert t[..2] == Prologue;
    if |Epilogue(e)| == 2 {
      assert t[..3] == Prologue + Epilogue(e)[..1];
      RunAppend(s, Prologue, Epilogue(e)[..1]);
    }
  }

  /** A rejected submission only sets the validation alert: `busy` and
      everything else stay as they were. */
  lemma RejectionOnlyAlerts(s: State)
    ensures Run(s, [Action(Set(AlertMessage), ValidationMessage)]) == s.(alertMessage := ValidationMessage)
  {
    RunSnoc(s, [], Action(Set(AlertMessage), ValidationMessage));
    assert [Action(Set(AlertMessage), ValidationMessage)] == [] + [Action(Set(AlertMessage), ValidationMessage)];
  }

  /** What a submission does, in the order it does it: a dispatch to the
      reducer, or a call to a remote service. Every call is awaited before
      the next event. */
  datatype Event = Dispatch(action: Action) | Invoke(call: Call)

  function Dispatched(actions: seq<Action>): seq<Event> {
    seq(|actions|, i requires 0 <= i < |actions| => Dispatch(actions[i]))
  }

  function Invoked(calls: seq<Call>): seq<Event> {
    seq(|calls|, i requires 0 <= i < |calls| => Invoke(calls[i]))
  }

  /** The dispatches among the events, in order: what the reducer sees. */
  function Dispatches(events: seq<Event>): seq<Action> {
    if events == [] then []
    else if events[0].Dispatch? then [events[0].action] + Dispatches(events[1..])
    else Dispatches(events[1..])
  }

  /** The remote calls among the events, in order. */
  function Calls(events: seq<Event>): seq<Call> {
    if events == [] then []
    else if events[0].Invoke? then [events[0].call] + Calls(events[1..])
    else Calls(events[1..])
  }

  lemma {:induction false} DispatchesAppend(a: seq<Event>, b: seq<Event>)
    ensures Dispatches(a + b) == Dispatches(a) + Dispatches(b)
    decreases |a|
  {
    if a == [] {
      assert a + b == b;
    } else {
      assert (a + b)[0] == a[0];
      assert (a + b)[1..] == a[1..] + b;
      DispatchesAppend(a[1..], b);
    }
  }

  lemma {:induction false} CallsAppend(a: seq<Event>, b: seq<Event>)
    ensures Calls(a + b) == Calls(a) + Calls(b)
    decreases |a|
  {
    if a == [] {
      assert a + b == b;
    } else {
      assert (a + b)[0] == a[0];
      assert (a + b)[1..] == a[1..] + b;
      CallsAppend(a[1..], b);
    }
  }

  /** Dispatched actions are all dispatches and invoked calls all calls. */
  lemma {:induction false} ProjectPure(actions: seq<Action>, calls: seq<Call>)
    ensures Dispatches(Dispatched(actions)) == actions && Calls(Dispatched(actions)) == []
    ensures Dispatches(Invoked(calls)) == [] && Calls(Invoked(calls)) == calls
    decreases |actions| + |calls|
  {
    if actions != [] {
      assert Dispatched(actions)[1..] == Dispatched(actions[1..]);
      ProjectPure(actions[1..], calls);
    } else if calls != [] {
      assert Invoked(calls)[1..] == Invoked(calls[1..]);
      ProjectPure(actions, calls[1..]);
    }
  }

  /** A validated submission: the prologue's dispatches, the remote calls it
      reaches, then the dispatches of its ending. */
  function Timeline(calls: seq<Call>, e: Ending): seq<Event> {
    Dispatched(Prologue) + Invoked(calls) + Dispatched(Epilogue(e))
  }

  /** Apart, the timeline's dispatches are the prologue and the ending, and
      its calls are the calls. */
  lemma TimelineProjects(calls: seq<Call>, e: Ending)
    ensures Dispatches(Timeline(calls, e)) == Prologue + Epilogue(e)
    ensures Calls(Timeline(calls, e)) == calls
  {
    var pro, mid, epi := Dispatched(Prologue), Invoked(calls), Dispatched(Epilogue(e));
    DispatchesAppend(pro + mid, epi);
    DispatchesAppend(pro, mid);
    CallsAppend(pro + mid, epi);
    CallsAppend(pro, mid);
    ProjectPure(Prologue, calls);
    ProjectPure(Epilogue(e), []);
  }

  /** When any call is made the reducer has seen exactly the prologue:
      `busy` was set before the first call and nothing of the ending is
      dispatched before the last. */
  lemma PrologueBeforeEachCall(calls: seq<Call>, e: Ending, i: nat)
    requires i < |Timeline(calls, e)| && Timeline(calls, e)[i].Invoke?
    ensures Dispatches(Timeline(calls, e)[..i]) == Prologue
  {
    var pro := Dispatched(Prologue);
    assert |pro| <= i < |pro| + |calls|;
    var k := i - |pro|;
    assert Timeline(calls, e)[..i] == pro + Invoked(calls[..k]);
    DispatchesAppend(pro, Invoked(calls[..k]));
    ProjectPure(Prologue, calls[..k]);
  }

  /** Every remote call of a submission is made while the form shows busy
      with the alert cleared, whatever state the submission started from. */
  lemma CallsWhileBusy(s: State, calls: seq<Call>, e: Ending)
    ensures forall i :: 0 <= i < |Timeline(calls, e)| && Timeline(calls, e)[i].Invoke? ==>
              Run(s, Dispatches(Timeline(calls, e)[..i])) == s.(alertMessage := "", busy := true)
  {
    RunPair(s, Prologue[0], Prologue[1]);
    forall i | 0 <= i < |Timeline(calls, e)| && Timeline(calls, e)[i].Invoke?
      ensures Run(s, Dispatches(Timeline(calls, e)[..i])) == s.(alertMessage := "", busy := true)
    {
      PrologueBeforeEachCall(calls, e, i);
    }
  }

  /** One submission over a snapshot of the state. */
  method SubmitUser(props: State, remote: Remote) returns (events: seq<Event>)
    ensures !Validate(props) ==> events == [Dispatch(Action(Set(AlertMessage), ValidationMessage))]
    ensures Validate(props) ==> events == Timeline(Protocol(props)[..CallsReached(remote)], EndingOf(remote))
    ensures Invoke(DeleteUser(UserInfoOf(props))) in events <==>
              Validate(props) && remote.create.Created? && HasKey(remote.upload) &&
              remote.verify.Verified? && !remote.verify.success
    ensures Dispatch(Action(Success, "")) in events <==>
              Validate(props) && remote.create.Created? && HasKey(remote.upload) &&
              remote.verify.Verified? && remote.verify.success
  {
    if !Validate(props) {
      events := [Dispatch(Action(Set(AlertMessage), ValidationMessage))];
      return;
    }

    events := [Dispatch(Action(Set(AlertMessage), "")), Dispatch(Action(Set(Busy), "true"))];
    var filename := FaceImageKey(props.userid);
    var userInfo := UserInfo(CompanyId, props.userid, props.firstname, props.lastname, props.dob,
                             InitialEntryStatus, filename);
    ghost var protocol := Protocol(props);

    events := events + [Invoke(CreateUserInfo(userInfo))];
    assert events == Dispatched(Prologue) + Invoked(protocol[..1]);
    if remote.create.CreateThrows? {
      events := events + [Dispatch(Action(Set(AlertMessage), DuplicateKeyPrefix + remote.create.error)),
                          Dispatch(Action(Set(Busy), "false"))];
      RemoteCallClauses(props, remote, events);
      return;
    }

    if remote.upload.FetchThrows? {
      events := events + [Dispatch(Action(Set(AlertMessage), DuplicateKeyPrefix + remote.upload.error)),
                          Dispatch(Action(Set(Busy), "false"))];
      RemoteCallClauses(props, remote, events);
      return;
    }
    events := events + [Invoke(StoragePut(filename, props.screenshot, ImageContentType))];
    assert events == Dispatched(Prologue) + Invoked(protocol[..2]);
    match remote.upload {
      case PutThrows(err) =>
        events := events + [Dispatch(Action(Set(AlertMessage), DuplicateKeyPrefix + err)),
                            Dispatch(Action(Set(Busy), "false"))];
        RemoteCallClauses(props, remote, events);
        return;
      case NoResponse =>
        events := events + [Dispatch(Action(Set(Busy), "false"))];
        RemoteCallClauses(props, remote, events);
        return;
      case Stored(key) =>
        if key == "" {
          events := events + [Dispatch(Action(Set(Busy), "false"))];
          RemoteCallClauses(props, remote, events);
          return;
        }
    }

    events := events + [Invoke(RegisterNewUserWithIdCard(userInfo, props.screenshot, props.screenshotIdCard))];
    assert events == Dispatched(Prologue) + Invoked(protocol[..3]);
    match remote.verify {
      case VerifyThrows(err) =>
        events := events + [Dispatch(Action(Set(AlertMessage), DuplicateKeyPrefix + err)),
                            Dispatch(Action(Set(Busy), "false"))];
      case Verified(success, message) =>
        if !success {
          events := events + [Invoke(DeleteUser(userInfo))];
          assert events == Dispatched(Prologue) + Invoked(protocol[..4]);
          match remote.delete {
            case DeleteThrows(err) =>
              events := events + [Dispatch(Action(Set(AlertMessage), DuplicateKeyPrefix + err)),
                                  Dispatch(Action(Set(Busy), "false"))];
            case Deleted =>
              events := events + [Dispatch(Action(Set(AlertMessage), message)),
                                  Dispatch(Action(Set(Busy), "false"))];
          }
        } else {
          events := events + [Dispatch(Action(Success, ""))];
        }
    }
    RemoteCallClauses(props, remote, events);
  }

  /** Create, verify and delete are all given the one record built from the
      snapshot, and the image is stored under the key that record names. */
  lemma SameRecordThroughout(props: State)
    ensures Protocol(props)[0].input == Protocol(props)[2].user == Protocol(props)[3].user == UserInfoOf(props)
    ensures Protocol(props)[1].key == UserInfoOf(props).faceimage
    ensures Protocol(props)[1].image == Protocol(props)[2].faceImage == props.screenshot
  {
  }

  /** Compensation: the delete call is reached exactly when the record was
      created, the image stored, and verification answered with a refusal. */
  lemma DeleteOnlyAfterRefusal(props: State, remote: Remote)
    ensures DeleteUser(UserInfoOf(props)) in Protocol(props)[..CallsReached(remote)] <==>
              remote.create.Created? && HasKey(remote.upload) &&
              remote.verify.Verified? && !remote.verify.success
  {
    var p := Protocol(props);
    var n := CallsReached(remote);
    if n < 4 {
      assert forall i :: 0 <= i < n ==> !p[i].DeleteUser?;
      assert forall c :: c in p[..n] ==> !c.DeleteUser?;
    } else {
      assert p[..n][3] == DeleteUser(UserInfoOf(props));
    }
  }

  /** `success` is dispatched exactly when all three remote steps succeeded. */
  lemma SuccessOnlyWhenVerified(remote: Remote)
    ensures Action(Success, "") in Prologue + Epilogue(EndingOf(remote)) <==>
              remote.create.Created? && HasKey(remote.upload) &&
              remote.verify.Verified? && remote.verify.success
  {
    var t := Prologue + Epilogue(EndingOf(remote));
    if EndingOf(remote) == Registered {
      assert t[2] == Action(Success, "");
    } else {
      assert forall i :: 0 <= i < |t| ==> !t[i].tag.Success?;
    }
  }

  /** A call is among the events iff it is among the calls, and an action
      iff it is dispatched in the prologue or the ending. */
  lemma TimelineHas(calls: seq<Call>, e: Ending, c: Call, a: Action)
    ensures Invoke(c) in Timeline(calls, e) <==> c in calls
    ensures Dispatch(a) in Timeline(calls, e) <==> a in Prologue + Epilogue(e)
  {
    var pro, mid, epi := Dispatched(Prologue), Invoked(calls), Dispatched(Epilogue(e));
    assert Timeline(calls, e) == pro + mid + epi;
    if c in calls {
      var j :| 0 <= j < |calls| && calls[j] == c;
      assert mid[j] == Invoke(c);
    }
    if a in Prologue {
      var j :| 0 <= j < |Prologue| && Prologue[j] == a;
      assert pro[j] == Dispatch(a);
    }
    if a in Epilogue(e) {
      var j :| 0 <= j < |Epilogue(e)| && Epilogue(e)[j] == a;
      assert epi[j] == Dispatch(a);
    }
  }

  /** The remote-call clauses of SubmitUser, once its events are known. */
  lemma RemoteCallClauses(props: State, remote: Remote, events: seq<Event>)
    requires events == Timeline(Protocol(props)[..CallsReached(remote)], EndingOf(remote))
    ensures Invoke(DeleteUser(UserInfoOf(props))) in events <==>
              remote.create.Created? && HasKey(remote.upload) &&
              remote.verify.Verified? && !remote.verify.success
    ensures Dispatch(Action(Success, "")) in events <==>
              remote.create.Created? && HasKey(remote.upload) &&
              remote.verify.Verified? && remote.verify.success
  {
    TimelineHas(Protocol(props)[..CallsReached(remote)], EndingOf(remote),
                DeleteUser(UserInfoOf(props)), Action(Success, ""));
    DeleteOnlyAfterRefusal(props, remote);
    SuccessOnlyWhenVerified(remote);
  }
}
