/** Replacing a cancelled settlement: an assessment, one request id that survives retries, and a
    submission whose network outcome may be uncertain. The server may record or refuse a submitted
    request at any time, answer it, or lose the answer; it records one replacement of a settlement
    at most, this panel's or another administrator's. */
module SettlementReplacement {
  import opened Options
  import opened Text

  datatype Target = Target(originalId: string, vendorId: string)

  datatype Verdict = Eligible | Blocked | Undecided

  datatype Provenance = VerifiedDraft | Unverified | Ineligible

  datatype Lineage = Clear | Claimed | UnknownLineage

  /** What the server says of a cancelled settlement; `existing` is a replacement it already shows,
      with its request id if it has one. */
  datatype Assessment = Assessment(
    about: Target, verdict: Verdict, safe: bool, provenance: Provenance, lineage: Lineage, existing: Option<Option<nat>>)
  {
    predicate Allows() { verdict.Eligible? && safe && provenance.VerifiedDraft? && lineage.Clear? }
  }

  /** What one submission sends. */
  datatype Submission = Submission(requestId: nat, target: Target, reason: string)

  datatype Stage = Posting | Reassessing | Checking | Ended

  datatype Attempt = Attempt(submission: Submission, stage: Stage)

  datatype Review = Review(target: Target, ended: bool)

  datatype State = State(
    target: Option<Target>,
    reason: string,
    confirmed: bool,
    requestId: Option<nat>,
    attempted: bool,
    result: Option<nat>,
    assessment: Option<Assessment>,
    loading: bool,
    submitting: bool,
    reported: set<nat>,
    nextId: nat,
    reviews: seq<Review>,
    attempts: seq<Attempt>,
    recorded: set<Submission>)

  // ---------------------------------------------------------------------------------------
  // Handlers
  // ---------------------------------------------------------------------------------------

  /** `reviewReplacement` up to its await. */
  function StartReview(s: State, target: Target): State {
    var kept :=
      if s.target == Some(target) then s
      else s.(reason := "", confirmed := false, requestId := None, attempted := false, result := None);
    kept.(target := Some(target), assessment := None, loading := true, reviews := s.reviews + [Review(target, false)])
  }

  function EndReview(s: State, i: nat, answer: Option<Assessment>): State
    requires i < |s.reviews|
  {
    s.(assessment := if answer.Some? then answer else s.assessment, loading := false,
       reviews := s.reviews[i := s.reviews[i].(ended := true)])
  }

  /** The guards of `submitReplacement`. */
  predicate MaySubmit(s: State) {
    && s.target.Some? && s.confirmed && Trim(s.reason) != ""
    && s.assessment.Some? && s.assessment.value.Allows() && !s.submitting
  }

  /** `submitReplacement` up to its await: a request id already drawn is used again. */
  function Submit(s: State): State {
    if !MaySubmit(s) then s
    else
      var id := if s.requestId.Some? then s.requestId.value else s.nextId;
      s.(requestId := Some(id), attempted := true, submitting := true,
         nextId := if s.requestId.Some? then s.nextId else s.nextId + 1,
         attempts := s.attempts + [Attempt(Submission(id, s.target.value, Trim(s.reason)), Posting)])
  }

  function Move(s: State, i: nat, stage: Stage): State
    requires i < |s.attempts|
  {
    s.(attempts := s.attempts[i := s.attempts[i].(stage := stage)],
       submitting := if stage.Ended? then false else s.submitting)
  }

  /** The creation call answered: recorded, or any failure. */
  function PostReplied(s: State, i: nat, created: bool): State
    requires i < |s.attempts|
  {
    var id := s.attempts[i].submission.requestId;
    if created then Move(s.(result := Some(id), reported := s.reported + {id}), i, Reassessing)
    else Move(s, i, Checking)
  }

  /** The assessment after a confirmed creation; a failure falls into the catch block. */
  function Reassessed(s: State, i: nat, answer: Option<Assessment>): State
    requires i < |s.attempts|
  {
    if answer.Some? then Move(s.(assessment := answer), i, Ended) else Move(s, i, Checking)
  }

  function Seen(s: State, i: nat, answer: Option<Assessment>): State
    requires i < |s.attempts|
  {
    var id := s.attempts[i].submission.requestId;
    if answer.None? then s
    else s.(assessment := answer, reported := s.reported + if answer.value.existing == Some(Some(id)) then {id} else {})
  }

  /** The catch block: durable state decides what is reported. */
  function Checked(s: State, i: nat, answer: Option<Assessment>): State
    requires i < |s.attempts|
  {
    Move(Seen(s, i, answer), i, Ended)
  }

  function Initial(): State {
    State(None, "", false, None, false, None, None, false, false, {}, 0, [], [], {})
  }

  // ---------------------------------------------------------------------------------------
  // Runs
  // ---------------------------------------------------------------------------------------

  datatype Event =
    | Reviews(target: Target)
    | ReviewEnds(review: nat, answer: Option<Assessment>)
    | EditsReason(text: string)
    | TicksConfirm(on: bool)
    | Submits
    | PostReplies(attempt: nat, created: bool)
    | Reassesses(attempt: nat, answer: Option<Assessment>)
    | Checks(attempt: nat, answer: Option<Assessment>)
    | ServerRecords(attempt: nat)
    | OthersRecord(target: Target, reason: string)

  /** An assessment is about the settlement asked for, and shows only recorded replacements of it. */
  ghost predicate Truthful(s: State, answer: Option<Assessment>, target: Target) {
    answer.Some? ==>
      && answer.value.about == target
      && (answer.value.existing.Some? && answer.value.existing.value.Some? ==>
            exists r :: r in s.recorded && r.requestId == answer.value.existing.value.value && r.target == target)
  }

  /** The server's check under its lock: whatever replaces this settlement already has this request id. */
  predicate Unclaimed(s: State, target: Target, requestId: nat) {
    forall r | r in s.recorded && r.target == target :: r.requestId == requestId
  }

  /** What the disabled controls and the server allow: it answers truthfully, replays a request id it
      knows, and refuses a second replacement of a settlement. */
  ghost predicate Enabled(s: State, e: Event) {
    match e
    case Reviews(_) => !s.loading && !s.submitting
    case ReviewEnds(i, answer) => i < |s.reviews| && !s.reviews[i].ended && Truthful(s, answer, s.reviews[i].target)
    case EditsReason(_) => !s.attempted && !s.submitting
    case TicksConfirm(_) => !s.submitting
    case Submits => s.assessment.Some? && s.assessment.value.existing.None? && s.result.None?
    case PostReplies(i, created) =>
      i < |s.attempts| && s.attempts[i].stage.Posting? && (created ==> s.attempts[i].submission in s.recorded)
    case Reassesses(i, answer) =>
      i < |s.attempts| && s.attempts[i].stage.Reassessing? && Truthful(s, answer, s.attempts[i].submission.target)
    case Checks(i, answer) =>
      i < |s.attempts| && s.attempts[i].stage.Checking? && Truthful(s, answer, s.attempts[i].submission.target)
    case ServerRecords(i) =>
      i < |s.attempts| && Unclaimed(s, s.attempts[i].submission.target, s.attempts[i].submission.requestId)
    case OthersRecord(target, _) => forall r | r in s.recorded :: r.target != target
  }

  ghost function Step(s: State, e: Event): State {
    if !Enabled(s, e) then s else
    match e
    case Reviews(target) => StartReview(s, target)
    case ReviewEnds(i, answer) => EndReview(s, i, answer)
    case EditsReason(text) => s.(reason := text)
    case TicksConfirm(on) => s.(confirmed := on)
    case Submits => Submit(s)
    case PostReplies(i, created) => PostReplied(s, i, created)
    case Reassesses(i, answer) => Reassessed(s, i, answer)
    case Checks(i, answer) => Checked(s, i, answer)
    case ServerRecords(i) => s.(recorded := s.recorded + {s.attempts[i].submission})
    // Request ids are fresh wherever they are drawn, so one counter serves everybody.
    case OthersRecord(target, reason) =>
      s.(recorded := s.recorded + {Submission(s.nextId, target, reason)}, nextId := s.nextId + 1)
  }

  ghost function Run(s: State, events: seq<Event>): State
    decreases |events|
  {
    if events == [] then s else Run(Step(s, events[0]), events[1..])
  }

  // ---------------------------------------------------------------------------------------
  // The invariant
  // ---------------------------------------------------------------------------------------

  /** The id held for the current target was sent, if at all, with exactly this target and reason. */
  ghost predicate AttemptWf(s: State, i: nat)
    requires i < |s.attempts|
  {
    var sub := s.attempts[i].submission;
    && sub.requestId < s.nextId
    && (s.requestId == Some(sub.requestId) ==> s.attempted && s.target == Some(sub.target) && Trim(s.reason) == sub.reason)
    && (!s.attempts[i].stage.Ended? ==> s.submitting && s.requestId == Some(sub.requestId))
  }

  ghost predicate Inv(s: State) {
    && (forall i | 0 <= i < |s.attempts| :: AttemptWf(s, i))
    && (forall i, j | 0 <= i < |s.attempts| && 0 <= j < |s.attempts|
          && s.attempts[i].submission.requestId == s.attempts[j].submission.requestId ::
          s.attempts[i].submission == s.attempts[j].submission)
    && (forall i, j | 0 <= i < j < |s.attempts| :: s.attempts[i].stage.Ended? || s.attempts[j].stage.Ended?)
    && (s.requestId.Some? ==> s.requestId.value < s.nextId && s.attempted)
    && (s.submitting ==> s.requestId.Some? && !s.loading)
    && (forall i | 0 <= i < |s.reviews| && !s.reviews[i].ended :: s.loading && s.target == Some(s.reviews[i].target))
    && (s.loading ==> s.assessment.None?)
    && (s.assessment.Some? ==> s.target == Some(s.assessment.value.about))
    && (forall i, j | 0 <= i < j < |s.reviews| :: s.reviews[i].ended || s.reviews[j].ended)
  }

  ghost predicate Sent(s: State, r: Submission) {
    exists i :: 0 <= i < |s.attempts| && s.attempts[i].submission == r
  }

  /** Another administrator's request: its id is none of this panel's. */
  ghost predicate Foreign(s: State, r: Submission) {
    s.requestId != Some(r.requestId) && forall i | 0 <= i < |s.attempts| :: s.attempts[i].submission.requestId != r.requestId
  }

  ghost predicate Recorded(s: State, id: nat) {
    exists r :: r in s.recorded && r.requestId == id && Sent(s, r)
  }

  /** The parts of the invariant about the server, kept apart from the page's own: one replacement of
      a settlement at most, each one sent from here or foreign, and reported ones sent from here. */
  ghost predicate ServerInv(s: State) {
    && (forall r | r in s.recorded :: r.requestId < s.nextId && (Sent(s, r) || Foreign(s, r)))
    && (forall q, r | q in s.recorded && r in s.recorded && q.target == r.target :: q == r)
    && (forall id | id in s.reported :: Recorded(s, id))
  }

  lemma SubmitKeepsInv(s: State)
    requires Inv(s)
    ensures Inv(Submit(s))
  {
    var t := Submit(s);
    if MaySubmit(s) {
      forall i | 0 <= i < |t.attempts| ensures AttemptWf(t, i) { if i < |s.attempts| { assert AttemptWf(s, i); } }
      forall i, j | 0 <= i < |t.attempts| && 0 <= j < |t.attempts|
                    && t.attempts[i].submission.requestId == t.attempts[j].submission.requestId
        ensures t.attempts[i].submission == t.attempts[j].submission
      {
        if i < |s.attempts| { assert AttemptWf(s, i); }
        if j < |s.attempts| { assert AttemptWf(s, j); }
      }
      forall i, j | 0 <= i < j < |t.attempts| ensures t.attempts[i].stage.Ended? || t.attempts[j].stage.Ended? {
        assert AttemptWf(s, i);
      }
    }
  }

  lemma ReviewKeepsInv(s: State, target: Target)
    requires Inv(s) && !s.loading && !s.submitting
    ensures Inv(StartReview(s, target))
  {
    var t := StartReview(s, target);
    forall i | 0 <= i < |t.attempts| ensures AttemptWf(t, i) { assert AttemptWf(s, i); }
  }

  /** Fields the attempts do not depend on, and an answer about the current target. */
  lemma AnswerKeepsInv(s: State, t: State)
    requires Inv(s)
    requires t == s.(result := t.result, reported := t.reported, assessment := t.assessment, confirmed := t.confirmed,
                     recorded := t.recorded)
    requires t.loading ==> t.assessment == s.assessment
    requires t.assessment != s.assessment && t.assessment.Some? ==> t.target == Some(t.assessment.value.about)
    ensures Inv(t)
  {
    forall i | 0 <= i < |t.attempts| ensures AttemptWf(t, i) { assert AttemptWf(s, i); }
  }

  lemma MoveKeepsInv(s: State, i: nat, stage: Stage)
    requires Inv(s) && i < |s.attempts| && !s.attempts[i].stage.Ended?
    ensures Inv(Move(s, i, stage))
  {
    var t := Move(s, i, stage);
    forall j | 0 <= j < |t.attempts| ensures AttemptWf(t, j) { assert AttemptWf(s, j); }
  }

  lemma EndReviewKeepsInv(s: State, i: nat, answer: Option<Assessment>)
    requires Inv(s) && i < |s.reviews| && !s.reviews[i].ended
    requires answer.Some? ==> answer.value.about == s.reviews[i].target
    ensures Inv(EndReview(s, i, answer))
  {
    var t := EndReview(s, i, answer);
    forall j | 0 <= j < |t.attempts| ensures AttemptWf(t, j) { assert AttemptWf(s, j); }
  }

  lemma CreationKeepsInv(s: State, i: nat, created: bool)
    requires Inv(s) && i < |s.attempts| && s.attempts[i].stage.Posting?
    ensures Inv(PostReplied(s, i, created))
  {
    var id := s.attempts[i].submission.requestId;
    var t := if created then s.(result := Some(id), reported := s.reported + {id}) else s;
    AnswerKeepsInv(s, t);
    MoveKeepsInv(t, i, if created then Reassessing else Checking);
  }

  lemma ReassessmentKeepsInv(s: State, i: nat, answer: Option<Assessment>)
    requires Inv(s) && i < |s.attempts| && s.attempts[i].stage.Reassessing?
    requires answer.Some? ==> answer.value.about == s.attempts[i].submission.target
    ensures Inv(Reassessed(s, i, answer))
  {
    assert AttemptWf(s, i);
    var t := if answer.Some? then s.(assessment := answer) else s;
    AnswerKeepsInv(s, t);
    MoveKeepsInv(t, i, if answer.Some? then Ended else Checking);
  }

  lemma CheckKeepsInv(s: State, i: nat, answer: Option<Assessment>)
    requires Inv(s) && i < |s.attempts| && s.attempts[i].stage.Checking?
    requires answer.Some? ==> answer.value.about == s.attempts[i].submission.target
    ensures Inv(Checked(s, i, answer))
  {
    assert AttemptWf(s, i);
    AnswerKeepsInv(s, Seen(s, i, answer));
    MoveKeepsInv(Seen(s, i, answer), i, Ended);
  }

  lemma StepKeepsInv(s: State, e: Event)
    requires Inv(s)
    ensures Inv(Step(s, e))
  {
    if Enabled(s, e) {
      match e
      case Reviews(target) => ReviewKeepsInv(s, target);
      case ReviewEnds(i, answer) => EndReviewKeepsInv(s, i, answer);
      case EditsReason(_) =>
        forall j | 0 <= j < |s.attempts| ensures AttemptWf(Step(s, e), j) { assert AttemptWf(s, j); }
      case TicksConfirm(_) => AnswerKeepsInv(s, Step(s, e));
      case Submits => SubmitKeepsInv(s);
      case PostReplies(i, created) => CreationKeepsInv(s, i, created);
      case Reassesses(i, answer) => ReassessmentKeepsInv(s, i, answer);
      case Checks(i, answer) => CheckKeepsInv(s, i, answer);
      case ServerRecords(_) => AnswerKeepsInv(s, Step(s, e));
      case OthersRecord(_, _) =>
        forall j | 0 <= j < |s.attempts| ensures AttemptWf(Step(s, e), j) { assert AttemptWf(s, j); }
    }
  }

  lemma MoveKeepsAttempts(s: State, i: nat, stage: Stage)
    requires i < |s.attempts|
    ensures var t := Move(s, i, stage);
            |t.attempts| == |s.attempts| && forall j | 0 <= j < |s.attempts| :: t.attempts[j].submission == s.attempts[j].submission
  {
  }

  /** Attempts keep their submissions. */
  lemma StepKeepsAttempts(s: State, e: Event)
    ensures |s.attempts| <= |Step(s, e).attempts|
    ensures forall i | 0 <= i < |s.attempts| :: Step(s, e).attempts[i].submission == s.attempts[i].submission
  {
    if Enabled(s, e) {
      match e
      case PostReplies(i, created) => MoveKeepsAttempts(s, i, if created then Reassessing else Checking);
      case Reassesses(i, answer) => MoveKeepsAttempts(s, i, if answer.Some? then Ended else Checking);
      case Checks(i, _) => MoveKeepsAttempts(s, i, Ended);
      case Submits =>
      case _ => assert Step(s, e).attempts == s.attempts;
    }
  }

  /** Records are never taken back. */
  lemma StepKeepsRecords(s: State, e: Event)
    ensures s.recorded <= Step(s, e).recorded && s.nextId <= Step(s, e).nextId
    ensures !e.ServerRecords? && !e.OthersRecord? ==> Step(s, e).recorded == s.recorded
  {
    match e
    case Submits =>
    case Reviews(_) =>
    case Checks(_, _) =>
    case PostReplies(_, _) =>
    case _ =>
  }

  /** Reviewing another settlement. */
  predicate LeavesBy(s: State, e: Event) { e.Reviews? && !s.loading && !s.submitting && Some(e.target) != s.target }

  lemma OnlyReviewsAndSubmitsTouchTheId(s: State, e: Event)
    requires !e.Reviews? && !e.Submits? && !e.OthersRecord?
    ensures Step(s, e).requestId == s.requestId && Step(s, e).nextId == s.nextId && Step(s, e).target == s.target
  {
    match e
    case PostReplies(_, _) =>
    case Checks(_, _) =>
    case _ =>
  }

  /** One step keeps the held id unless it leaves; a step never brings an old id back. */
  lemma StepAndHeldId(s: State, e: Event, id: nat)
    requires id < s.nextId
    ensures s.nextId <= Step(s, e).nextId
    ensures s.requestId != Some(id) ==> Step(s, e).requestId != Some(id)
    ensures s.requestId == Some(id) ==> (Step(s, e).requestId == Some(id) <==> !LeavesBy(s, e))
    ensures s.requestId == Some(id) && !LeavesBy(s, e) ==> Step(s, e).target == s.target
  {
    if !e.Reviews? && !e.Submits? && !e.OthersRecord? { OnlyReviewsAndSubmitsTouchTheId(s, e); }
  }

  lemma NewAttemptId(s: State, e: Event)
    ensures |Step(s, e).attempts| > |s.attempts| ==>
              && e.Submits? && |Step(s, e).attempts| == |s.attempts| + 1
              && (Step(s, e).attempts[|s.attempts|].submission.requestId == s.nextId
                  || s.requestId == Some(Step(s, e).attempts[|s.attempts|].submission.requestId))
  {
    match e
    case Submits =>
    case Checks(_, _) =>
    case PostReplies(_, _) =>
    case _ =>
  }

  lemma SentStays(s: State, e: Event, r: Submission)
    requires Sent(s, r)
    ensures Sent(Step(s, e), r)
  {
    StepKeepsAttempts(s, e);
    var i :| 0 <= i < |s.attempts| && s.attempts[i].submission == r;
    assert Step(s, e).attempts[i].submission == r;
  }

  /** The page never comes to use an id it has not drawn itself. */
  lemma ForeignStays(s: State, e: Event, r: Submission)
    requires Foreign(s, r) && r.requestId < s.nextId
    ensures Foreign(Step(s, e), r)
  {
    StepKeepsAttempts(s, e);
    StepAndHeldId(s, e, r.requestId);
    var t := Step(s, e);
    forall i | 0 <= i < |t.attempts| ensures t.attempts[i].submission.requestId != r.requestId {
      if i >= |s.attempts| { NewAttemptId(s, e); }
    }
  }

  /** What a step newly reports is a submission of this page that the server has recorded. */
  lemma StepReportsRecorded(s: State, e: Event, id: nat)
    requires ServerInv(s) && id in Step(s, e).reported && id !in s.reported
    ensures Recorded(s, id)
  {
    assert e.PostReplies? || e.Checks?;
    var sub := s.attempts[e.attempt].submission;
    assert sub.requestId == id && Sent(s, sub);
    if e.Checks? {
      var r :| r in s.recorded && r.requestId == id && r.target == sub.target;
      assert !Foreign(s, r);
    }
  }

  lemma ServerStepKeepsOneEach(s: State, e: Event)
    requires Inv(s) && ServerInv(s)
    ensures var t := Step(s, e); forall q, r | q in t.recorded && r in t.recorded && q.target == r.target :: q == r
  {
    StepKeepsRecords(s, e);
    if e.ServerRecords? && Enabled(s, e) {
      var new' := s.attempts[e.attempt].submission;
      forall r | r in s.recorded && r.target == new'.target ensures r == new' {
        assert !Foreign(s, r) && Sent(s, r);
      }
    }
  }

  lemma RecordedStaysOwned(s: State, e: Event, r: Submission)
    requires ServerInv(s) && r in Step(s, e).recorded && Inv(s)
    ensures r.requestId < Step(s, e).nextId && (Sent(Step(s, e), r) || Foreign(Step(s, e), r))
  {
    StepKeepsRecords(s, e);
    if r in s.recorded {
      if Sent(s, r) { SentStays(s, e, r); } else { ForeignStays(s, e, r); }
    } else if e.ServerRecords? {
      assert AttemptWf(s, e.attempt);
      assert s.attempts[e.attempt].submission == r && Sent(s, r);
      SentStays(s, e, r);
    } else {
      forall i | 0 <= i < |s.attempts| ensures s.attempts[i].submission.requestId != r.requestId { assert AttemptWf(s, i); }
    }
  }

  lemma StepKeepsServerInv(s: State, e: Event)
    requires Inv(s) && ServerInv(s)
    ensures ServerInv(Step(s, e))
  {
    var t := Step(s, e);
    StepKeepsRecords(s, e);
    ServerStepKeepsOneEach(s, e);
    forall r | r in t.recorded ensures r.requestId < t.nextId && (Sent(t, r) || Foreign(t, r)) { RecordedStaysOwned(s, e, r); }
    forall id | id in t.reported ensures Recorded(t, id) {
      if id !in s.reported { StepReportsRecorded(s, e, id); }
      assert Recorded(s, id);
      var r :| r in s.recorded && r.requestId == id && Sent(s, r);
      SentStays(s, e, r);
      assert r in t.recorded;
    }
  }

  lemma {:induction false} RunKeepsInv(s: State, events: seq<Event>)
    requires Inv(s) && ServerInv(s)
    ensures Inv(Run(s, events)) && ServerInv(Run(s, events))
    decreases |events|
  {
    if events != [] {
      StepKeepsInv(s, events[0]);
      StepKeepsServerInv(s, events[0]);
      RunKeepsInv(Step(s, events[0]), events[1..]);
    }
  }

  // ---------------------------------------------------------------------------------------
  // What every run keeps
  // ---------------------------------------------------------------------------------------

  /** A request id never means two things: its submissions agree on settlement, vendor and reason. */
  lemma SameIdSameSubmission(events: seq<Event>, i: nat, j: nat)
    requires var t := Run(Initial(), events);
             i < |t.attempts| && j < |t.attempts| && t.attempts[i].submission.requestId == t.attempts[j].submission.requestId
    ensures var t := Run(Initial(), events);
            t.attempts[i].submission == t.attempts[j].submission
  {
    RunKeepsInv(Initial(), events);
  }

  /** The assessment on screen is always about the settlement on screen, and while one submission
      is unsettled there is no other. */
  lemma AssessmentMatchesTarget(events: seq<Event>, i: nat, j: nat)
    ensures var t := Run(Initial(), events);
            && (t.assessment.Some? ==> t.target == Some(t.assessment.value.about))
            && (i < |t.attempts| && j < |t.attempts| && !t.attempts[i].stage.Ended? && !t.attempts[j].stage.Ended? ==>
                  i == j && t.target == Some(t.attempts[i].submission.target))
  {
    RunKeepsInv(Initial(), events);
    var t := Run(Initial(), events);
    assert i < |t.attempts| ==> AttemptWf(t, i);
  }

  /** Over every run the server holds at most one replacement of a settlement. */
  lemma AtMostOneReplacementRecorded(events: seq<Event>, q: Submission, r: Submission)
    requires var t := Run(Initial(), events); q in t.recorded && r in t.recorded && q.target == r.target
    ensures q == r
  {
    RunKeepsInv(Initial(), events);
  }

  /** Whatever was reported as done is the one replacement of its settlement on record at the server,
      exactly as some attempt of this page sent it: a lost reply alone never counts as success. */
  lemma ReportedIsTheReplacement(events: seq<Event>, id: nat)
    requires id in Run(Initial(), events).reported
    ensures var t := Run(Initial(), events);
            exists i :: 0 <= i < |t.attempts| && t.attempts[i].submission.requestId == id && t.attempts[i].submission in t.recorded
                     && forall r | r in t.recorded && r.target == t.attempts[i].submission.target :: r == t.attempts[i].submission
  {
    RunKeepsInv(Initial(), events);
    var t := Run(Initial(), events);
    assert Recorded(t, id);
    var r :| r in t.recorded && r.requestId == id && Sent(t, r);
    var i :| 0 <= i < |t.attempts| && t.attempts[i].submission == r;
  }

  lemma {:induction false} RecordsAreKept(s: State, events: seq<Event>)
    ensures s.recorded <= Run(s, events).recorded
    decreases |events|
  {
    if events != [] {
      StepKeepsRecords(s, events[0]);
      RecordsAreKept(Step(s, events[0]), events[1..]);
    }
  }

  lemma {:induction false} RunAppends(s: State, xs: seq<Event>, ys: seq<Event>)
    ensures Run(s, xs + ys) == Run(Run(s, xs), ys)
    decreases |xs|
  {
    if xs == [] {
      assert xs + ys == ys;
    } else {
      assert (xs + ys)[1..] == xs[1..] + ys;
      RunAppends(Step(s, xs[0]), xs[1..], ys);
    }
  }

  lemma ReportedAttemptIsRecorded(s: State, i: nat)
    requires Inv(s) && ServerInv(s) && i < |s.attempts|
    ensures s.attempts[i].submission.requestId in s.reported ==> s.attempts[i].submission in s.recorded
  {
    var sub := s.attempts[i].submission;
    if sub.requestId in s.reported {
      assert Recorded(s, sub.requestId);
      var r :| r in s.recorded && r.requestId == sub.requestId && Sent(s, r);
      assert r == sub;
    }
  }

  /** Once a replacement of a settlement is on record, a submission for it under another id is at no
      later point recorded or reported as done. */
  lemma FirstRecordedWins(before: seq<Event>, after: seq<Event>, r: Submission, i: nat)
    requires r in Run(Initial(), before).recorded && i < |Run(Initial(), before + after).attempts|
    requires var sub := Run(Initial(), before + after).attempts[i].submission;
             sub.target == r.target && sub.requestId != r.requestId
    ensures var u := Run(Initial(), before + after);
            u.attempts[i].submission !in u.recorded && u.attempts[i].submission.requestId !in u.reported
  {
    RunAppends(Initial(), before, after);
    RecordsAreKept(Run(Initial(), before), after);
    var u := Run(Initial(), before + after);
    RunKeepsInv(Initial(), before + after);
    ReportedAttemptIsRecorded(u, i);
  }

  /** A step adds an attempt exactly when it submits, with a settlement under review, the confirmation
      ticked, a reason that is not blank, an assessment that allows a replacement on all four counts
      and shows none, no result held, and nothing being submitted. */
  lemma SendsExactlyWhen(s: State, e: Event)
    ensures |Step(s, e).attempts| > |s.attempts| <==>
              && e.Submits? && s.target.Some? && s.confirmed && Trim(s.reason) != ""
              && s.assessment.Some? && s.assessment.value.verdict == Eligible && s.assessment.value.safe
              && s.assessment.value.provenance == VerifiedDraft && s.assessment.value.lineage == Clear
              && s.assessment.value.existing == None && s.result == None && !s.submitting
  {
    match e
    case Submits =>
    case PostReplies(_, _) =>
    case Reassesses(_, _) =>
    case Checks(_, _) =>
    case _ =>
  }

  /** The attempt added is for the settlement under review with the trimmed reason, under the request
      id already held or else a new one, which is held from then on. */
  lemma SentExactly(s: State)
    requires |Step(s, Submits).attempts| > |s.attempts|
    ensures var t := Step(s, Submits);
            var id := if s.requestId.Some? then s.requestId.value else s.nextId;
            && t.attempts == s.attempts + [Attempt(Submission(id, s.target.value, Trim(s.reason)), Posting)]
            && t.requestId == Some(id) && t.submitting && t.attempted
            && t.nextId == (if s.requestId.Some? then s.nextId else s.nextId + 1)
  {
    SendsExactlyWhen(s, Submits);
  }

  /** A step reports a request id as done exactly when its creation call was answered with success, or
      a check after a failure shows a replacement with this very id. */
  lemma ReportsExactlyWhen(s: State, e: Event, id: nat)
    ensures id in Step(s, e).reported <==>
              || id in s.reported
              || (e.PostReplies? && Enabled(s, e) && e.created && s.attempts[e.attempt].submission.requestId == id)
              || (e.Checks? && Enabled(s, e) && e.answer.Some? && e.answer.value.existing == Some(Some(id))
                  && s.attempts[e.attempt].submission.requestId == id)
  {
    match e
    case PostReplies(_, _) =>
    case Checks(_, _) =>
    case Submits =>
    case _ =>
  }

  /** In every run a new submission goes out only for an allowed, unreplaced settlement that is the one
      on screen, with the reason typed for it, and confirmed by the administrator. */
  lemma SendsOnlyWhatWasAssessed(events: seq<Event>, e: Event)
    requires var s := Run(Initial(), events); |Step(s, e).attempts| > |s.attempts|
    ensures var s := Run(Initial(), events);
            var sub := Step(s, e).attempts[|s.attempts|].submission;
            && e.Submits? && s.confirmed && s.assessment.Some? && s.assessment.value.Allows() && s.assessment.value.existing == None
            && s.assessment.value.about == sub.target && sub.reason == Trim(s.reason) != "" && s.result == None
            && (s.requestId.Some? ==> sub.requestId == s.requestId.value)
  {
    RunKeepsInv(Initial(), events);
    SendsExactlyWhen(Run(Initial(), events), e);
    SentExactly(Run(Initial(), events));
  }

  /** A run in which another settlement was put under review. */
  ghost predicate Leaves(s: State, events: seq<Event>)
    decreases |events|
  {
    events != [] &&
    (LeavesBy(s, events[0]) || Leaves(Step(s, events[0]), events[1..]))
  }

  lemma {:induction false} OldIdsStayOld(s: State, events: seq<Event>, id: nat)
    requires id < s.nextId && s.requestId != Some(id)
    ensures Run(s, events).requestId != Some(id)
    decreases |events|
  {
    if events != [] {
      StepAndHeldId(s, events[0], id);
      OldIdsStayOld(Step(s, events[0]), events[1..], id);
    }
  }

  /** A drawn id is the one every later submission would carry exactly as long as no other
      settlement was reviewed in between, whatever failed, was lost or was reviewed again. */
  lemma {:induction false} IdSurvivesExactlyWhileStaying(s: State, events: seq<Event>, id: nat)
    requires s.requestId == Some(id) && id < s.nextId
    ensures Run(s, events).requestId == Some(id) <==> !Leaves(s, events)
    ensures !Leaves(s, events) ==> Run(s, events).target == s.target
    decreases |events|
  {
    if events != [] {
      var t := Step(s, events[0]);
      StepAndHeldId(s, events[0], id);
      if t.requestId == Some(id) {
        IdSurvivesExactlyWhileStaying(t, events[1..], id);
      } else {
        OldIdsStayOld(t, events[1..], id);
      }
    }
  }

  /** A later submission for the same settlement carries another id exactly when another settlement
      was put under review in between, whether or not the server has settled the earlier one. */
  lemma NewIdExactlyWhenLeft(s: State, events: seq<Event>)
    requires s.attempts != [] && s.requestId == Some(s.attempts[|s.attempts| - 1].submission.requestId)
    requires s.requestId.value < s.nextId
    requires var t := Run(s, events); |Step(t, Submits).attempts| > |t.attempts|
    ensures var t := Run(s, events);
            Step(t, Submits).attempts[|t.attempts|].submission.requestId != s.attempts[|s.attempts| - 1].submission.requestId <==>
              Leaves(s, events)
  {
    IdSurvivesExactlyWhileStaying(s, events, s.requestId.value);
    IdsOnlyGrow(s, events);
  }

  lemma {:induction false} IdsOnlyGrow(s: State, events: seq<Event>)
    ensures s.nextId <= Run(s, events).nextId
    decreases |events|
  {
    if events != [] {
      if events[0].Reviews? || events[0].Submits? || events[0].OthersRecord? { assert s.nextId <= Step(s, events[0]).nextId; }
      else { OnlyReviewsAndSubmitsTouchTheId(s, events[0]); }
      IdsOnlyGrow(Step(s, events[0]), events[1..]);
    }
  }

  const A := Target("a", "vendor")
  const B := Target("b", "vendor")
  const A_ELIGIBLE := Assessment(A, Eligible, true, VerifiedDraft, Clear, None)
  const FIRST_SENT := Submission(0, A, "r")
  const SECOND_SENT := Submission(1, A, "r")

  lemma TrimmedReason()
    ensures Trim("r") == "r"
  {
    assert "" + "r" + "" == "r";
    TrimPadded("", "r", "");
  }

  /** The panel ready to submit for settlement A, `n` reviews and `sent` attempts behind it. */
  function Ready(reviews: seq<Review>, sent: seq<Attempt>, nextId: nat): State {
    State(Some(A), "r", true, None, false, None, Some(A_ELIGIBLE), false, false, {}, nextId, reviews, sent, {})
  }

  lemma RunFour(s: State, e: Event, f: Event, g: Event, h: Event, rest: seq<Event>)
    ensures Run(s, [e, f, g, h] + rest) == Run(Step(Step(Step(Step(s, e), f), g), h), rest)
  {
    assert ([e, f, g, h] + rest)[1..] == [f, g, h] + rest;
    assert ([f, g, h] + rest)[1..] == [g, h] + rest;
    assert ([g, h] + rest)[1..] == [h] + rest;
    assert ([h] + rest)[1..] == rest;
    assert Run(Step(Step(s, e), f), [g, h] + rest) == Run(Step(Step(Step(s, e), f), g), [h] + rest);
  }

  const ONE_REVIEW := [Review(A, true)]
  const THREE_REVIEWS := [Review(A, true), Review(B, true), Review(A, true)]
  const LOST := [Attempt(FIRST_SENT, Ended)]

  lemma BecomesReady(rest: seq<Event>)
    ensures Run(Initial(), [Reviews(A), ReviewEnds(0, Some(A_ELIGIBLE)), EditsReason("r"), TicksConfirm(true)] + rest)
         == Run(Ready(ONE_REVIEW, [], 0), rest)
  {
    RunFour(Initial(), Reviews(A), ReviewEnds(0, Some(A_ELIGIBLE)), EditsReason("r"), TicksConfirm(true), rest);
    var asked := Step(Initial(), Reviews(A));
    assert asked.reviews == [Review(A, false)];
    assert Step(asked, ReviewEnds(0, Some(A_ELIGIBLE))).reviews == ONE_REVIEW;
  }

  lemma LosesTheReply(rest: seq<Event>)
    ensures Run(Ready(ONE_REVIEW, [], 0), [Submits, PostReplies(0, false), Checks(0, None), Reviews(B)] + rest)
         == Run(Ready(ONE_REVIEW + [Review(B, false)], LOST, 1)
                .(target := Some(B), reason := "", confirmed := false, assessment := None, loading := true), rest)
  {
    TrimmedReason();
    RunFour(Ready(ONE_REVIEW, [], 0), Submits, PostReplies(0, false), Checks(0, None), Reviews(B), rest);
    var sent := Step(Ready(ONE_REVIEW, [], 0), Submits);
    assert sent.attempts == [Attempt(FIRST_SENT, Posting)];
    var failed := Step(sent, PostReplies(0, false));
    assert failed.attempts == [Attempt(FIRST_SENT, Checking)];
    assert Step(failed, Checks(0, None)).attempts == LOST;
  }

  lemma ComesBack(rest: seq<Event>)
    ensures Run(Ready(ONE_REVIEW + [Review(B, false)], LOST, 1)
                .(target := Some(B), reason := "", confirmed := false, assessment := None, loading := true),
                [ReviewEnds(1, None), Reviews(A), ReviewEnds(2, Some(A_ELIGIBLE)), EditsReason("r")] + rest)
         == Run(Ready(THREE_REVIEWS, LOST, 1).(confirmed := false), rest)
  {
    var left := Ready(ONE_REVIEW + [Review(B, false)], LOST, 1)
                .(target := Some(B), reason := "", confirmed := false, assessment := None, loading := true);
    RunFour(left, ReviewEnds(1, None), Reviews(A), ReviewEnds(2, Some(A_ELIGIBLE)), EditsReason("r"), rest);
    var ended := Step(left, ReviewEnds(1, None));
    assert ended.reviews == [Review(A, true), Review(B, true)];
    var asked := Step(ended, Reviews(A));
    assert asked.reviews == [Review(A, true), Review(B, true), Review(A, false)];
    assert Step(asked, ReviewEnds(2, Some(A_ELIGIBLE))).reviews == THREE_REVIEWS;
  }

  /** The panel has sent both and waits for the second reply; the server has recorded neither. */
  const BOTH_SENT: State :=
    Ready(THREE_REVIEWS, LOST + [Attempt(SECOND_SENT, Posting)], 2).(requestId := Some(1), attempted := true, submitting := true)

  lemma SendsAgain(rest: seq<Event>)
    ensures Run(Ready(THREE_REVIEWS, LOST, 1).(confirmed := false), [TicksConfirm(true)] + ([Submits] + rest)) == Run(BOTH_SENT, rest)
  {
    TrimmedReason();
    var s := Ready(THREE_REVIEWS, LOST, 1).(confirmed := false);
    assert ([TicksConfirm(true)] + ([Submits] + rest))[1..] == [Submits] + rest && ([Submits] + rest)[1..] == rest;
    assert Step(Step(s, TicksConfirm(true)), Submits) == BOTH_SENT;
  }

  function SendingTwice(rest: seq<Event>): seq<Event> {
    [Reviews(A), ReviewEnds(0, Some(A_ELIGIBLE)), EditsReason("r"), TicksConfirm(true)]
    + ([Submits, PostReplies(0, false), Checks(0, None), Reviews(B)]
       + ([ReviewEnds(1, None), Reviews(A), ReviewEnds(2, Some(A_ELIGIBLE)), EditsReason("r")]
          + ([TicksConfirm(true)] + ([Submits] + rest))))
  }

  lemma BothAreSent(rest: seq<Event>)
    ensures Run(Initial(), SendingTwice(rest)) == Run(BOTH_SENT, rest)
  {
    var fourth := [TicksConfirm(true)] + ([Submits] + rest);
    var third := [ReviewEnds(1, None), Reviews(A), ReviewEnds(2, Some(A_ELIGIBLE)), EditsReason("r")] + fourth;
    BecomesReady([Submits, PostReplies(0, false), Checks(0, None), Reviews(B)] + third);
    LosesTheReply(third);
    ComesBack(fourth);
    SendsAgain(rest);
  }

  lemma OneIsRecorded(i: nat, j: nat)
    requires (i == 0 && j == 1) || (i == 1 && j == 0)
    ensures Run(BOTH_SENT, [ServerRecords(i), ServerRecords(j)]).recorded == {if i == 0 then FIRST_SENT else SECOND_SENT}
  {
    assert [ServerRecords(i), ServerRecords(j)][1..] == [ServerRecords(j)] && [ServerRecords(j)][1..] == [];
    var one := Step(BOTH_SENT, ServerRecords(i));
    assert one.recorded == {BOTH_SENT.attempts[i].submission};
    assert !Enabled(one, ServerRecords(j));
    assert Run(one, [ServerRecords(j)]) == Run(Step(one, ServerRecords(j)), []);
  }

  /** For example: the reply to the first submission is lost, another settlement is looked at, and the
      first one is reviewed again while the server has not settled it. The second submission for it
      goes out under a new id. Whichever reaches the server's lock first is recorded, the other is
      refused. */
  lemma LeavingSendsTwoIds()
    ensures var t := Run(Initial(), SendingTwice([]));
            && |t.attempts| == 2 && t.recorded == {}
            && t.attempts[0].submission == Submission(0, A, "r") && t.attempts[1].submission == Submission(1, A, "r")
    ensures Run(Initial(), SendingTwice([ServerRecords(0), ServerRecords(1)])).recorded == {Submission(0, A, "r")}
    ensures Run(Initial(), SendingTwice([ServerRecords(1), ServerRecords(0)])).recorded == {Submission(1, A, "r")}
  {
    BothAreSent([]);
    BothAreSent([ServerRecords(0), ServerRecords(1)]);
    BothAreSent([ServerRecords(1), ServerRecords(0)]);
    OneIsRecorded(0, 1);
    OneIsRecorded(1, 0);
  }

  // ---------------------------------------------------------------------------------------
  // The panel as an object
  // ---------------------------------------------------------------------------------------

  class ReplacementPanel {
    var target: Option<Target>
    var reason: string
    var confirmed: bool
    var requestId: Option<nat>
    var attempted: bool
    var result: Option<nat>
    var assessment: Option<Assessment>
    var loading: bool
    var submitting: bool
    var reported: set<nat>
    var nextId: nat
    var reviews: seq<Review>
    var attempts: seq<Attempt>

    /** The panel's state beside what the server has recorded. */
    ghost function Now(recorded: set<Submission>): State
      reads this
    {
      State(target, reason, confirmed, requestId, attempted, result, assessment, loading, submitting, reported,
            nextId, reviews, attempts, recorded)
    }

    /** The invariant of the runs; what the server has recorded has no part in it. */
    ghost predicate Valid()
      reads this
    {
      Inv(Now({}))
    }

    /** A request id means one submission, at most one submission is unsettled, and the assessment is
        about the target. */
    ghost predicate OneMeaning()
      reads this
    {
      && (forall i, j | 0 <= i < |attempts| && 0 <= j < |attempts|
            && attempts[i].submission.requestId == attempts[j].submission.requestId :: attempts[i].submission == attempts[j].submission)
      && (forall i, j | 0 <= i < j < |attempts| :: attempts[i].stage.Ended? || attempts[j].stage.Ended?)
      && (assessment.Some? ==> target == Some(assessment.value.about))
    }

    lemma ValidMeansOneMeaning()
      requires Valid()
      ensures OneMeaning()
    {
    }

    constructor ()
      ensures Valid() && Now({}) == Initial()
    {
      target, reason, confirmed, requestId := None, "", false, None;
      attempted, result, assessment, loading := false, None, None, false;
      submitting, reported, nextId := false, {}, 0;
      reviews, attempts := [], [];
    }

    /** `reviewReplacement` up to its await. */
    method ReviewReplacement(asked: Target)
      requires Valid() && !loading && !submitting
      modifies this
      ensures Valid() && OneMeaning() && assessment.None?
      ensures target == Some(asked) && loading
      ensures if old(target) == Some(asked)
              then requestId == old(requestId) && reason == old(reason) && confirmed == old(confirmed) && result == old(result)
              else requestId == None && reason == "" && !confirmed && result == None && !attempted
      ensures forall server :: Now(server) == StartReview(old(Now(server)), asked)
    {
      ReviewKeepsInv(Now({}), asked);
      Ask(asked);
      ValidMeansOneMeaning();
    }

    method Ask(asked: Target)
      modifies this
      ensures forall server :: Now(server) == StartReview(old(Now(server)), asked)
    {
      if target != Some(asked) {
        reason, confirmed := "", false;
        requestId, attempted, result := None, false, None;
      }
      target := Some(asked);
      assessment := None;
      loading := true;
      reviews := reviews + [Review(asked, false)];
    }

    /** `reviewReplacement` after its await. */
    method ReviewReplied(id: nat, answer: Option<Assessment>)
      requires Valid() && id < |reviews| && !reviews[id].ended
      requires answer.Some? ==> answer.value.about == reviews[id].target
      modifies this`assessment, this`loading, this`reviews
      ensures Valid() && OneMeaning() && assessment == answer && !loading && target == old(target)
      ensures forall server :: Now(server) == EndReview(old(Now(server)), id, answer)
    {
      EndReviewKeepsInv(Now({}), id, answer);
      if answer.Some? { assessment := answer; }
      loading := false;
      reviews := reviews[id := reviews[id].(ended := true)];
    }

    /** `submitReplacement` up to its await. It sends exactly what is confirmed, explained and allowed,
        one submission at a time; its control is shown while there is neither a replacement nor a result. */
    method SubmitReplacement()
      requires Valid()
      modifies this`requestId, this`attempted, this`submitting, this`nextId, this`attempts
      ensures Valid() && OneMeaning()
      ensures |attempts| > |old(attempts)| <==>
                && target.Some? && confirmed && Trim(reason) != "" && !old(submitting) && assessment.Some?
                && assessment.value.verdict == Eligible && assessment.value.safe
                && assessment.value.provenance == VerifiedDraft && assessment.value.lineage == Clear
      ensures |attempts| > |old(attempts)| ==>
                && attempts[..|old(attempts)|] == old(attempts) && submitting
                && attempts[|old(attempts)|].submission.target == assessment.value.about
                && attempts[|old(attempts)|].submission.reason == Trim(reason)
                && attempts[|old(attempts)|].submission.requestId ==
                     (if old(requestId).Some? then old(requestId).value else old(nextId))
      ensures forall server :: Now(server) == Submit(old(Now(server)))
    {
      SubmitKeepsInv(Now({}));
      Send();
      ValidMeansOneMeaning();
    }

    method Send()
      modifies this`requestId, this`attempted, this`submitting, this`nextId, this`attempts
      ensures forall server :: Now(server) == Submit(old(Now(server)))
    {
      if target.None? || !confirmed || Trim(reason) == "" || assessment.None? || !assessment.value.Allows() || submitting {
        return;
      }
      if requestId.None? {
        requestId := Some(nextId);
        nextId := nextId + 1;
      }
      attempted := true;
      submitting := true;
      attempts := attempts + [Attempt(Submission(requestId.value, target.value, Trim(reason)), Posting)];
    }

    /** `submitReplacement` after the creation call. */
    method CreationReplied(id: nat, created: bool)
      requires Valid() && id < |attempts| && attempts[id].stage.Posting?
      modifies this`result, this`reported, this`attempts
      ensures Valid() && OneMeaning()
      ensures |attempts| == |old(attempts)|
      ensures var sent := attempts[id].submission.requestId;
              if created then result == Some(sent) && reported == old(reported) + {sent} && attempts[id].stage == Reassessing
              else result == old(result) && reported == old(reported) && attempts[id].stage == Checking
      ensures forall server :: Now(server) == PostReplied(old(Now(server)), id, created)
    {
      CreationKeepsInv(Now({}), id, created);
      var sent := attempts[id].submission.requestId;
      if created {
        result := Some(sent);
        reported := reported + {sent};
      }
      attempts := attempts[id := attempts[id].(stage := if created then Reassessing else Checking)];
    }

    /** `submitReplacement` after the assessment that follows a creation; a failure goes on to the
        catch block, which asks again. */
    method CreationReassessed(id: nat, answer: Option<Assessment>)
      requires Valid() && id < |attempts| && attempts[id].stage.Reassessing?
      requires answer.Some? ==> answer.value.about == attempts[id].submission.target
      modifies this`assessment, this`submitting, this`attempts
      ensures Valid() && OneMeaning()
      ensures |attempts| == |old(attempts)|
      ensures if answer.Some? then assessment == answer && attempts[id].stage == Ended && !submitting
              else assessment == old(assessment) && attempts[id].stage == Checking
      ensures forall server :: Now(server) == Reassessed(old(Now(server)), id, answer)
    {
      ReassessmentKeepsInv(Now({}), id, answer);
      if answer.None? {
        attempts := attempts[id := attempts[id].(stage := Checking)];
        return;
      }
      assessment := answer;
      attempts := attempts[id := attempts[id].(stage := Ended)];
      submitting := false;
    }

    /** The catch block of `submitReplacement`, after the assessment was asked for again. */
    method DurableStateChecked(id: nat, answer: Option<Assessment>)
      requires Valid() && id < |attempts| && attempts[id].stage.Checking?
      requires answer.Some? ==> answer.value.about == attempts[id].submission.target
      modifies this`assessment, this`reported, this`submitting, this`attempts
      ensures Valid() && OneMeaning()
      ensures var sent := old(attempts[id]).submission.requestId;
              && !submitting && assessment == (if answer.Some? then answer else old(assessment))
              && reported == old(reported) + if answer.Some? && answer.value.existing == Some(Some(sent)) then {sent} else {}
      ensures forall server :: Now(server) == Checked(old(Now(server)), id, answer)
    {
      CheckKeepsInv(Now({}), id, answer);
      Settle(id, answer);
      ValidMeansOneMeaning();
    }

    method Settle(id: nat, answer: Option<Assessment>)
      requires id < |attempts|
      modifies this`assessment, this`reported, this`submitting, this`attempts
      ensures forall server :: Now(server) == Checked(old(Now(server)), id, answer)
    {
      var sent := attempts[id].submission.requestId;
      if answer.Some? {
        assessment := answer;
        if answer.value.existing == Some(Some(sent)) { reported := reported + {sent}; }
      }
      attempts := attempts[id := attempts[id].(stage := Ended)];
      submitting := false;
    }
  }
}
