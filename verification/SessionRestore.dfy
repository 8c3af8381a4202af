/** The route guard's session restore: attempts over shared refs, abort controllers,
    a bounded retry, effect re-runs and cross-tab invalidation. */
module SessionRestore {
  import opened Options

  const RESTORE_TIMEOUT_MS: nat := 10000

  // ---------------------------------------------------------------------------------------
  // The session record shared with the rest of the application
  // ---------------------------------------------------------------------------------------

  /** A cached user, as its stored serialisation. */
  type User = string

  datatype Phase = Unconfirmed | PhaseRestoring | Confirmed | PhaseRestoreError

  /** Stored user and last published transition, with the in-memory restore snapshot. */
  datatype Session = Session(
    user: Option<User>,
    transition: Option<string>,
    phase: Phase,
    authConfirmed: bool,
    confirmedUser: Option<User>,
    confirmedTransition: Option<string>,
    restoreAttempt: Option<nat>)
  {
    predicate ConfirmationCurrent() {
      authConfirmed && user.Some? && confirmedUser == user && confirmedTransition == transition
    }

    function MarkConfirmed(attempt: Option<nat>): Session {
      this.(phase := Confirmed, authConfirmed := true, confirmedUser := user,
            confirmedTransition := transition,
            restoreAttempt := if attempt.Some? then attempt else restoreAttempt)
    }

    function ClearRestoreState(): Session {
      this.(phase := Unconfirmed, authConfirmed := false, confirmedUser := None,
            confirmedTransition := None, restoreAttempt := None)
    }

    function ClearToken(): Session { ClearRestoreState().(user := None) }
  }

  // ---------------------------------------------------------------------------------------
  // State of one mounted guard
  // ---------------------------------------------------------------------------------------

  datatype Gate = Restoring | AuthenticatedUnconfirmed | Authenticated | Unauthenticated | RestoreError

  /** One backend call; its index is the identity of its abort controller. */
  datatype Call = Call(attempt: nat, startedAt: nat)

  /** How a call settles. `Failed` covers time-outs, aborts and every error but a 401. */
  datatype Reply = UserReply(user: User) | NoUser | Unauthorized | Failed

  datatype Outcome = Superseded | SignedIn(user: User) | SignedOut | RestoreFailed

  /** `Replied` is the gap between a call settling and the attempt's code resuming. */
  datatype Stage = Waiting(call: nat) | Replied(reply: Reply) | Finished(outcome: Outcome, at: nat)

  /** One run of `restoreSession` past its early returns; its index is its attempt id.
      `effect` is the effect run whose closure executes it, `epoch` the number of external
      transitions taken before it started. */
  datatype Attempt = Attempt(
    effect: nat, epoch: nat, startedAt: nat, first: nat, retry: Option<nat>, stage: Stage)

  /** The shared refs with every attempt and call made so far. */
  datatype Refs = Refs(
    latest: Option<nat>,
    active: Option<nat>,
    effect: nat,
    mounted: bool,
    attempts: seq<Attempt>,
    calls: seq<Call>,
    aborted: set<nat>,
    settled: set<nat>,
    epoch: nat,
    clock: nat)
  {
    /** `isLatestRestore` of the closure that runs attempt `a`. */
    predicate IsLatest(a: nat) {
      mounted && a < |attempts| && attempts[a].effect == effect && latest == Some(a)
    }

    /** The call has neither settled nor been aborted. */
    predicate InFlight(c: nat) { c < |calls| && c !in settled && c !in aborted }

    function AbortActive(): Refs {
      if active.Some? then this.(aborted := aborted + {active.value}, active := None) else this
    }

    /** `runRestoreRequest`: the call's fresh controller becomes the active one. */
    function OpenCall(a: nat): Refs {
      this.(calls := calls + [Call(a, clock)], active := Some(|calls|))
    }

    /** A new attempt supersedes the previous one and makes its first call. */
    function Begin(): Refs {
      AbortActive().(
        latest := Some(|attempts|),
        attempts := attempts + [Attempt(effect, epoch, clock, |calls|, None, Waiting(|calls|))])
        .OpenCall(|attempts|)
    }

    function Retry(a: nat): Refs
      requires a < |attempts|
    {
      this.(attempts := attempts[a := attempts[a].(retry := Some(|calls|), stage := Waiting(|calls|))]).OpenCall(a)
    }

    function SetStage(a: nat, stage: Stage): Refs
      requires a < |attempts|
    {
      this.(attempts := attempts[a := attempts[a].(stage := stage)])
    }

    /** The call's controller leaves the active ref if it is still there. */
    function Settle(c: nat, reply: Reply): Refs
      requires c < |calls| && calls[c].attempt < |attempts|
    {
      this.(settled := settled + {c}, active := if active == Some(c) then None else active)
          .SetStage(calls[c].attempt, Replied(reply))
    }

    /** An external transition: nothing is latest any more. */
    function Invalidate(): Refs { AbortActive().(latest := None, epoch := epoch + 1) }
  }

  datatype State = State(
    realMode: bool,
    session: Session,
    gate: Gate,
    transitionPending: bool,
    suppressReset: bool,
    timerArmed: bool,
    lastTransition: Option<string>,
    lastUser: Option<User>,
    refs: Refs)
  {
    /** Whether the guard's render shows the protected outlet. */
    predicate ShowsProtected() {
      && refs.mounted
      && !(transitionPending && gate != Unauthenticated)
      && !(realMode && gate == Authenticated && !session.ConfirmationCurrent())
      && (gate == AuthenticatedUnconfirmed || gate == Authenticated || (gate == RestoreError && session.user.Some?))
    }
  }

  // ---------------------------------------------------------------------------------------
  // Handlers
  // ---------------------------------------------------------------------------------------

  function RestoreSession(s: State): State {
    if !s.realMode && s.session.user.None? then s.(gate := Unauthenticated)
    else if !s.realMode then s.(session := s.session.MarkConfirmed(None), gate := Authenticated)
    else if s.session.ConfirmationCurrent() then s.(gate := Authenticated)
    else
      s.(gate := if s.session.user.Some? then AuthenticatedUnconfirmed else Restoring,
         session := s.session.(phase := PhaseRestoring, authConfirmed := false,
                               restoreAttempt := Some(|s.refs.attempts|)),
         refs := s.refs.Begin())
  }

  /** The guard's listener for the session-reset event. */
  function OnSessionReset(s: State): State {
    if !s.refs.mounted then s
    else if s.suppressReset then s.(suppressReset := false)
    else if s.session.user.None? then s.(gate := Unauthenticated, refs := s.refs.AbortActive())
    else RestoreSession(s)
  }

  /** Storing a user dispatches the reset event before returning. */
  function SetSession(s: State, user: User): State {
    OnSessionReset(s.(session := s.session.(user := Some(user))))
  }

  function ClearToken(s: State): State { OnSessionReset(s.(session := s.session.ClearToken())) }

  function SignIn(s: State, a: nat, user: User): State {
    var stored := SetSession(s.(suppressReset := true), user);
    stored.(session := stored.session.MarkConfirmed(Some(a)), transitionPending := false, gate := Authenticated)
  }

  function SignOut(s: State): State { ClearToken(s.(suppressReset := true)).(gate := Unauthenticated) }

  /** The last retry failed without a 401. */
  function GiveUp(s: State, a: nat): State {
    var suppressed := s.(suppressReset := true);
    var cleared := if s.session.user.None? then ClearToken(suppressed) else suppressed;
    cleared.(session := cleared.session.(phase := PhaseRestoreError, authConfirmed := false, restoreAttempt := Some(a)),
             gate := RestoreError)
  }

  function Finish(s: State, a: nat, outcome: Outcome): State
    requires a < |s.refs.attempts|
  {
    s.(refs := s.refs.SetStage(a, Finished(outcome, s.refs.clock)))
  }

  /** The attempt's code after an awaited call settled. */
  function Resume(s: State, a: nat): State
    requires a < |s.refs.attempts| && s.refs.attempts[a].stage.Replied?
  {
    var reply := s.refs.attempts[a].stage.reply;
    if !s.refs.IsLatest(a) then Finish(s, a, Superseded)
    else if reply.UserReply? then SignIn(Finish(s, a, SignedIn(reply.user)), a, reply.user)
    else if reply.Unauthorized? then SignOut(Finish(s, a, SignedOut))
    else if s.refs.attempts[a].retry.None? then s.(suppressReset := true, refs := s.refs.Retry(a))
    else GiveUp(Finish(s, a, RestoreFailed), a)
  }

  function InvalidateExternalSession(s: State): State {
    if !s.realMode then s
    else
      s.(refs := s.refs.Invalidate(), session := s.session.ClearRestoreState(), transitionPending := true,
         gate := if s.session.user.None? then Unauthenticated else Restoring,
         timerArmed := s.session.user.Some?)
  }

  /** A storage event for the cached user, carrying the value the other tab wrote. */
  function OnStoredUserChange(s: State, newValue: Option<User>): State {
    var current := s.session.user;
    if newValue != current || current == s.lastUser then s
    else
      var noted := s.(lastUser := current);
      if noted.session.ConfirmationCurrent() then noted else InvalidateExternalSession(noted)
  }

  /** A storage event for a published session transition. */
  function OnSessionTransition(s: State, id: string): State {
    if s.session.transition != Some(id) || s.lastTransition == Some(id) then s
    else InvalidateExternalSession(s.(lastTransition := Some(id)))
  }

  function FireTimer(s: State): State { RestoreSession(s.(timerArmed := false)) }

  function CleanUpEffect(s: State): State { s.(timerArmed := false, refs := s.refs.AbortActive()) }

  function RunEffect(s: State): State {
    RestoreSession(s.(suppressReset := false, timerArmed := false,
                      lastTransition := s.session.transition, lastUser := s.session.user,
                      refs := s.refs.(effect := s.refs.effect + 1)))
  }

  /** A retry request re-runs the effect: clean-up, then a new closure. */
  function RerunEffect(s: State): State { RunEffect(CleanUpEffect(s)) }

  function Unmount(s: State): State {
    var idle := CleanUpEffect(s);
    idle.(refs := idle.refs.(mounted := false))
  }

  /** `clearSessionAndNavigateToLogin`, the button of the restore-error panel. */
  function ClickSignIn(s: State): State {
    ClearToken(s.(refs := s.refs.AbortActive())).(gate := Unauthenticated)
  }

  function InitialGate(realMode: bool, session: Session): Gate {
    if realMode then
      if session.ConfirmationCurrent() then Authenticated
      else if session.user.Some? then AuthenticatedUnconfirmed else Restoring
    else if session.user.None? then Unauthenticated else Authenticated
  }

  function Mount(realMode: bool, session: Session): State {
    RunEffect(State(realMode, session, InitialGate(realMode, session), false, false, false, None, None,
                    Refs(None, None, 0, true, [], [], {}, {}, 0, 0)))
  }

  // ---------------------------------------------------------------------------------------
  // Runs
  // ---------------------------------------------------------------------------------------

  datatype Event =
    | CallSettles(call: nat, reply: Reply)
    | AttemptResumes(attempt: nat)
    | RetryRequested
    | Unmounted
    | SessionResetDispatched
    | SessionWritten(session: Session)
    | StoredUserChanged(newValue: Option<User>)
    | TransitionPublished(id: string)
    | ExternalTimerFires
    | SignInClicked
    | TimePasses(ms: nat)

  /** What can happen next. Other code may rewrite the session record at any time. Promise
      continuations run before timers, and a call's timer settles it on its deadline. */
  predicate Enabled(s: State, e: Event) {
    var r := s.refs;
    match e
    case CallSettles(c, _) => c < |r.calls| && c !in r.settled && r.calls[c].attempt < |r.attempts|
    case AttemptResumes(a) => a < |r.attempts| && r.attempts[a].stage.Replied?
    case SessionWritten(_) => true
    case TimePasses(ms) => MayPass(r, ms)
    case ExternalTimerFires => r.mounted && s.timerArmed
    case SignInClicked =>
      r.mounted && s.gate == RestoreError && s.session.user.None? && !s.transitionPending
    case _ => r.mounted
  }

  predicate MayPass(r: Refs, ms: nat) {
    && (forall a | 0 <= a < |r.attempts| :: !r.attempts[a].stage.Replied?)
    && (forall c | 0 <= c < |r.calls| && c !in r.settled :: r.clock + ms <= r.calls[c].startedAt + RESTORE_TIMEOUT_MS)
  }

  function Step(s: State, e: Event): State {
    if !Enabled(s, e) then s else
    match e
    case CallSettles(c, reply) => s.(refs := s.refs.Settle(c, reply))
    case AttemptResumes(a) => Resume(s, a)
    case RetryRequested => RerunEffect(s)
    case Unmounted => Unmount(s)
    case SessionResetDispatched => OnSessionReset(s)
    case SessionWritten(session) => s.(session := session)
    case StoredUserChanged(value) => OnStoredUserChange(s, value)
    case TransitionPublished(id) => OnSessionTransition(s, id)
    case ExternalTimerFires => FireTimer(s)
    case SignInClicked => ClickSignIn(s)
    case TimePasses(ms) => s.(refs := s.refs.(clock := s.refs.clock + ms))
  }

  function Run(s: State, events: seq<Event>): State
    decreases |events|
  {
    if events == [] then s else Run(Step(s, events[0]), events[1..])
  }

  // ---------------------------------------------------------------------------------------
  // The invariant
  // ---------------------------------------------------------------------------------------

  /** The time an attempt may have used: one time-out per call made. */
  function Budget(at: Attempt): nat { if at.retry.Some? then 2 * RESTORE_TIMEOUT_MS else RESTORE_TIMEOUT_MS }

  function LastCall(at: Attempt): nat { if at.retry.Some? then at.retry.value else at.first }

  ghost predicate AttemptWf(r: Refs, a: nat)
    requires a < |r.attempts|
  {
    var at := r.attempts[a];
    && at.first < |r.calls| && r.calls[at.first] == Call(a, at.startedAt)
    && at.startedAt <= r.clock && at.effect <= r.effect
    && (at.retry.Some? ==>
          && at.first < at.retry.value < |r.calls|
          && r.calls[at.retry.value].attempt == a
          && r.calls[at.retry.value].startedAt <= at.startedAt + RESTORE_TIMEOUT_MS)
    && (at.stage.Waiting? ==> at.stage.call == LastCall(at) && at.stage.call !in r.settled)
    && (at.stage.Replied? ==> r.clock <= at.startedAt + Budget(at))
    && (at.stage.Finished? ==> at.stage.at <= at.startedAt + Budget(at) && at.stage.at <= r.clock)
  }

  ghost predicate CallWf(r: Refs, c: nat)
    requires c < |r.calls|
  {
    var a := r.calls[c].attempt;
    && a < |r.attempts|
    && (c == r.attempts[a].first || r.attempts[a].retry == Some(c))
    && r.calls[c].startedAt <= r.clock
    && (c !in r.settled ==>
          r.attempts[a].stage == Waiting(c) && r.clock <= r.calls[c].startedAt + RESTORE_TIMEOUT_MS)
    && (r.InFlight(c) ==> r.active == Some(c))
  }

  ghost predicate Inv(r: Refs) {
    && (forall a | 0 <= a < |r.attempts| :: AttemptWf(r, a))
    && (forall c | 0 <= c < |r.calls| :: CallWf(r, c))
    && (forall c | c in r.aborted :: c < |r.calls|)
    && (forall c | c in r.settled :: c < |r.calls|)
    && (r.latest.Some? ==> r.latest.value + 1 == |r.attempts| && r.attempts[r.latest.value].epoch == r.epoch)
    && (r.active.Some? ==> r.InFlight(r.active.value) && r.IsLatest(r.calls[r.active.value].attempt))
  }

  lemma AbortKeepsInv(r: Refs)
    requires Inv(r)
    ensures Inv(r.AbortActive()) && r.AbortActive().active == None
  {
    var t := r.AbortActive();
    forall c | 0 <= c < |t.calls| ensures CallWf(t, c) { assert CallWf(r, c); }
    forall a | 0 <= a < |t.attempts| ensures AttemptWf(t, a) { assert AttemptWf(r, a); }
  }

  lemma BeginKeepsInv(r: Refs)
    requires Inv(r) && r.mounted
    ensures Inv(r.Begin())
  {
    AbortKeepsInv(r);
    var m, t := r.AbortActive(), r.Begin();
    forall c | 0 <= c < |t.calls| ensures CallWf(t, c) { if c < |m.calls| { assert CallWf(m, c); } }
    forall a | 0 <= a < |t.attempts| ensures AttemptWf(t, a) { if a < |m.attempts| { assert AttemptWf(m, a); } }
  }

  lemma RepliedIsIdle(r: Refs, a: nat)
    requires Inv(r) && r.IsLatest(a) && r.attempts[a].stage.Replied?
    ensures r.active.None?
  {
    assert r.active.Some? ==> CallWf(r, r.active.value);
  }

  lemma RetryKeepsInv(r: Refs, a: nat)
    requires Inv(r) && r.IsLatest(a) && r.attempts[a].stage.Replied? && r.attempts[a].retry.None?
    ensures Inv(r.Retry(a))
  {
    RepliedIsIdle(r, a);
    var t := r.Retry(a);
    forall c | 0 <= c < |t.calls| ensures CallWf(t, c) { if c < |r.calls| { assert CallWf(r, c); } }
    forall b | 0 <= b < |t.attempts| ensures AttemptWf(t, b) { assert AttemptWf(r, b); }
  }

  lemma FinishKeepsInv(r: Refs, a: nat, outcome: Outcome)
    requires Inv(r) && a < |r.attempts| && r.attempts[a].stage.Replied?
    ensures Inv(r.SetStage(a, Finished(outcome, r.clock)))
  {
    var t := r.SetStage(a, Finished(outcome, r.clock));
    forall c | 0 <= c < |t.calls| ensures CallWf(t, c) { assert CallWf(r, c); }
    forall b | 0 <= b < |t.attempts| ensures AttemptWf(t, b) { assert AttemptWf(r, b); }
  }

  lemma SettleKeepsInv(r: Refs, c: nat, reply: Reply)
    requires Inv(r) && c < |r.calls| && c !in r.settled && r.calls[c].attempt < |r.attempts|
    ensures Inv(r.Settle(c, reply))
  {
    var t := r.Settle(c, reply);
    assert CallWf(r, c) && AttemptWf(r, r.calls[c].attempt);
    forall d | 0 <= d < |t.calls| ensures CallWf(t, d) { assert CallWf(r, d); }
    forall b | 0 <= b < |t.attempts| ensures AttemptWf(t, b) { assert AttemptWf(r, b); }
  }

  lemma InvalidateKeepsInv(r: Refs)
    requires Inv(r)
    ensures Inv(r.Invalidate())
  {
    AbortKeepsInv(r);
    var m, t := r.AbortActive(), r.Invalidate();
    forall c | 0 <= c < |t.calls| ensures CallWf(t, c) { assert CallWf(m, c); }
    forall a | 0 <= a < |t.attempts| ensures AttemptWf(t, a) { assert AttemptWf(m, a); }
  }

  /** With nothing in flight the live effect may change and the guard may unmount. */
  lemma IdleKeepsInv(r: Refs, effect: nat, mounted: bool)
    requires Inv(r) && r.active.None? && effect >= r.effect
    ensures Inv(r.(effect := effect, mounted := mounted))
  {
    var t := r.(effect := effect, mounted := mounted);
    forall c | 0 <= c < |t.calls| ensures CallWf(t, c) { assert CallWf(r, c); }
    forall a | 0 <= a < |t.attempts| ensures AttemptWf(t, a) { assert AttemptWf(r, a); }
  }

  lemma TimeKeepsInv(r: Refs, ms: nat)
    requires Inv(r) && MayPass(r, ms)
    ensures Inv(r.(clock := r.clock + ms))
  {
    var t := r.(clock := r.clock + ms);
    forall c | 0 <= c < |t.calls| ensures CallWf(t, c) { assert CallWf(r, c); }
    forall a | 0 <= a < |t.attempts| ensures AttemptWf(t, a) { assert AttemptWf(r, a); }
  }

  /** The resuming attempt makes its second call. */
  predicate Retries(r: Refs, a: nat)
    requires a < |r.attempts| && r.attempts[a].stage.Replied?
  {
    r.IsLatest(a) && r.attempts[a].retry.None? && (r.attempts[a].stage.reply.NoUser? || r.attempts[a].stage.reply.Failed?)
  }

  /** How the resuming attempt ends when it does not retry. */
  function Verdict(r: Refs, a: nat): Outcome
    requires a < |r.attempts| && r.attempts[a].stage.Replied?
  {
    var reply := r.attempts[a].stage.reply;
    if !r.IsLatest(a) then Superseded
    else if reply.UserReply? then SignedIn(reply.user)
    else if reply.Unauthorized? then SignedOut
    else RestoreFailed
  }

  lemma ResetRefs(s: State)
    ensures OnSessionReset(s).refs
         == if !s.refs.mounted || s.suppressReset then s.refs
            else if s.session.user.None? then s.refs.AbortActive()
            else RestoreSession(s).refs
  {
  }

  lemma ResumeRefs(s: State, a: nat)
    requires a < |s.refs.attempts| && s.refs.attempts[a].stage.Replied?
    ensures Resume(s, a).refs
         == if Retries(s.refs, a) then s.refs.Retry(a)
            else s.refs.SetStage(a, Finished(Verdict(s.refs, a), s.refs.clock))
  {
  }

  lemma ResumeKeepsInv(s: State, a: nat)
    requires Inv(s.refs) && a < |s.refs.attempts| && s.refs.attempts[a].stage.Replied?
    ensures Inv(Resume(s, a).refs)
  {
    ResumeRefs(s, a);
    if Retries(s.refs, a) { RetryKeepsInv(s.refs, a); } else { FinishKeepsInv(s.refs, a, Verdict(s.refs, a)); }
  }

  lemma RestoreKeepsInv(s: State)
    requires Inv(s.refs) && s.refs.mounted
    ensures Inv(RestoreSession(s).refs)
  {
    BeginKeepsInv(s.refs);
  }

  lemma ResetKeepsInv(s: State)
    requires Inv(s.refs)
    ensures Inv(OnSessionReset(s).refs)
  {
    ResetRefs(s);
    AbortKeepsInv(s.refs);
    if s.refs.mounted { RestoreKeepsInv(s); }
  }

  lemma RerunKeepsInv(s: State)
    requires Inv(s.refs) && s.refs.mounted
    ensures Inv(RerunEffect(s).refs)
  {
    var idle := CleanUpEffect(s);
    AbortKeepsInv(s.refs);
    IdleKeepsInv(idle.refs, idle.refs.effect + 1, true);
    RestoreKeepsInv(idle.(suppressReset := false, timerArmed := false,
                      lastTransition := s.session.transition, lastUser := s.session.user,
                      refs := idle.refs.(effect := idle.refs.effect + 1)));
  }

  /** Every event keeps the invariant. */
  lemma StepKeepsInv(s: State, e: Event)
    requires Inv(s.refs)
    ensures Inv(Step(s, e).refs)
  {
    if Enabled(s, e) {
      match e
      case CallSettles(c, reply) => SettleKeepsInv(s.refs, c, reply);
      case AttemptResumes(a) => ResumeKeepsInv(s, a);
      case RetryRequested => RerunKeepsInv(s);
      case Unmounted =>
        AbortKeepsInv(s.refs);
        IdleKeepsInv(s.refs.AbortActive(), s.refs.effect, false);
      case SessionResetDispatched => ResetKeepsInv(s);
      case SessionWritten(_) =>
      case StoredUserChanged(_) => InvalidateKeepsInv(s.refs);
      case TransitionPublished(_) => InvalidateKeepsInv(s.refs);
      case ExternalTimerFires => RestoreKeepsInv(s.(timerArmed := false));
      case SignInClicked =>
        AbortKeepsInv(s.refs);
        ResetKeepsInv(s.(refs := s.refs.AbortActive(), session := s.session.ClearToken()));
      case TimePasses(ms) => TimeKeepsInv(s.refs, ms);
    }
  }

  lemma MountKeepsInv(realMode: bool, session: Session)
    ensures Inv(Mount(realMode, session).refs)
  {
    BeginKeepsInv(Refs(None, None, 1, true, [], [], {}, {}, 0, 0));
  }

  /** Every reachable state satisfies the invariant. */
  lemma {:induction false} RunKeepsInv(s: State, events: seq<Event>)
    requires Inv(s.refs)
    ensures Inv(Run(s, events).refs)
    decreases |events|
  {
    if events != [] {
      StepKeepsInv(s, events[0]);
      RunKeepsInv(Step(s, events[0]), events[1..]);
    }
  }

  // ---------------------------------------------------------------------------------------
  // What every run keeps
  // ---------------------------------------------------------------------------------------

  /** What no event undoes: attempts are only added, their verdicts are final, and an
      attempt that is not the latest live one never becomes it again. */
  ghost predicate Later(r: Refs, t: Refs) {
    && |r.attempts| <= |t.attempts| && r.effect <= t.effect && r.clock <= t.clock && r.epoch <= t.epoch
    && (t.mounted ==> r.mounted)
    && (t.latest.Some? ==> t.latest == r.latest || t.latest.value >= |r.attempts|)
    && (forall a | 0 <= a < |r.attempts| :: SameAttempt(r.attempts[a], t.attempts[a]))
  }

  predicate SameAttempt(old': Attempt, new': Attempt) {
    && old'.effect == new'.effect && old'.epoch == new'.epoch
    && old'.startedAt == new'.startedAt && old'.first == new'.first
    && (old'.stage.Finished? ==> new'.stage == old'.stage)
  }

  lemma MovesAreLater(r: Refs)
    requires Inv(r)
    ensures Later(r, r.AbortActive()) && Later(r, r.Begin()) && Later(r, r.Invalidate())
  {
  }

  lemma RestoreRefs(s: State)
    ensures RestoreSession(s).refs == s.refs || RestoreSession(s).refs == s.refs.Begin()
  {
  }

  lemma RerunIsLater(s: State)
    requires Inv(s.refs) && s.refs.mounted
    ensures Later(s.refs, RerunEffect(s).refs)
  {
    AbortKeepsInv(s.refs);
    var idle := CleanUpEffect(s).refs;
    var next := idle.(effect := idle.effect + 1);
    IdleKeepsInv(idle, idle.effect + 1, true);
    MovesAreLater(next);
    RestoreRefs(CleanUpEffect(s).(suppressReset := false, timerArmed := false,
                lastTransition := s.session.transition, lastUser := s.session.user, refs := next));
  }

  lemma SettleIsLater(r: Refs, c: nat, reply: Reply)
    requires Inv(r) && c < |r.calls| && c !in r.settled && r.calls[c].attempt < |r.attempts|
    ensures Later(r, r.Settle(c, reply))
  {
    assert CallWf(r, c);
  }

  lemma ResumeIsLater(s: State, a: nat)
    requires Inv(s.refs) && a < |s.refs.attempts| && s.refs.attempts[a].stage.Replied?
    ensures Later(s.refs, Resume(s, a).refs)
  {
    ResumeRefs(s, a);
  }

  lemma ResetIsLater(s: State)
    requires Inv(s.refs)
    ensures Later(s.refs, OnSessionReset(s).refs)
  {
    MovesAreLater(s.refs);
    ResetRefs(s);
    RestoreRefs(s);
  }

  lemma ClickIsLater(s: State)
    requires Inv(s.refs) && s.session.user.None?
    ensures Later(s.refs, ClickSignIn(s).refs)
  {
    var idle := s.(refs := s.refs.AbortActive(), session := s.session.ClearToken());
    MovesAreLater(s.refs);
    ResetRefs(idle);
    assert ClickSignIn(s).refs == OnSessionReset(idle).refs;
  }

  lemma UnmountIsLater(s: State)
    requires Inv(s.refs)
    ensures Later(s.refs, Unmount(s).refs)
  {
  }

  lemma ExternalRefs(s: State, value: Option<User>, id: string)
    ensures OnStoredUserChange(s, value).refs == s.refs || OnStoredUserChange(s, value).refs == s.refs.Invalidate()
    ensures OnSessionTransition(s, id).refs == s.refs || OnSessionTransition(s, id).refs == s.refs.Invalidate()
  {
  }

  lemma ExternalIsLater(s: State, value: Option<User>, id: string)
    requires Inv(s.refs)
    ensures Later(s.refs, OnStoredUserChange(s, value).refs) && Later(s.refs, OnSessionTransition(s, id).refs)
  {
    MovesAreLater(s.refs);
    ExternalRefs(s, value, id);
  }

  lemma TimerIsLater(s: State)
    requires Inv(s.refs)
    ensures Later(s.refs, FireTimer(s).refs)
  {
    MovesAreLater(s.refs);
    RestoreRefs(s.(timerArmed := false));
  }

  lemma StepIsLater(s: State, e: Event)
    requires Inv(s.refs)
    ensures Later(s.refs, Step(s, e).refs)
  {
    if Enabled(s, e) {
      match e
      case CallSettles(c, reply) => SettleIsLater(s.refs, c, reply);
      case AttemptResumes(a) => ResumeIsLater(s, a);
      case RetryRequested => RerunIsLater(s);
      case SessionResetDispatched => ResetIsLater(s);
      case ExternalTimerFires => TimerIsLater(s);
      case SignInClicked => ClickIsLater(s);
      case Unmounted => UnmountIsLater(s);
      case StoredUserChanged(value) => ExternalIsLater(s, value, "");
      case TransitionPublished(id) => ExternalIsLater(s, None, id);
      case SessionWritten(_) =>
      case TimePasses(_) =>
    }
  }

  lemma {:induction false} RunIsLater(s: State, events: seq<Event>)
    requires Inv(s.refs)
    ensures Later(s.refs, Run(s, events).refs)
    decreases |events|
  {
    if events != [] {
      StepKeepsInv(s, events[0]);
      StepIsLater(s, events[0]);
      RunIsLater(Step(s, events[0]), events[1..]);
      var r, m, t := s.refs, Step(s, events[0]).refs, Run(s, events).refs;
      assert forall a | 0 <= a < |r.attempts| :: SameAttempt(r.attempts[a], m.attempts[a]) && SameAttempt(m.attempts[a], t.attempts[a]);
    }
  }

  /** In every reachable state at most one call is in flight and not aborted. It is the one in
      the shared controller ref, and it belongs to the latest attempt of the live effect. */
  lemma AtMostOneCallInFlight(realMode: bool, session: Session, events: seq<Event>, c: nat)
    ensures var r := Run(Mount(realMode, session), events).refs;
            && (r.InFlight(c) <==> r.active == Some(c))
            && (r.InFlight(c) ==> r.IsLatest(r.calls[c].attempt))
  {
    MountKeepsInv(realMode, session);
    RunKeepsInv(Mount(realMode, session), events);
    var r := Run(Mount(realMode, session), events).refs;
    assert c < |r.calls| ==> CallWf(r, c);
  }

  /** A superseded or cancelled attempt stays so for ever, and whenever its call settles its
      code changes nothing but its own record. */
  lemma SupersededStaysInert(s: State, a: nat, events: seq<Event>)
    requires Inv(s.refs) && a < |s.refs.attempts| && !s.refs.IsLatest(a)
    ensures var t := Run(s, events);
            && a < |t.refs.attempts| && !t.refs.IsLatest(a)
            && (t.refs.attempts[a].stage.Replied? ==>
                  Step(t, AttemptResumes(a)) == Finish(t, a, Superseded))
  {
    RunIsLater(s, events);
    RunKeepsInv(s, events);
    assert SameAttempt(s.refs.attempts[a], Run(s, events).refs.attempts[a]);
    assert AttemptWf(s.refs, a);
  }

  /** Something a sign-in does: install a user, confirm the session in real mode, or lift the
      block after an external transition. */
  predicate SignsIn(s: State, t: State) {
    || (t.session.user.Some? && t.session.user != s.session.user)
    || (s.realMode && t.session.authConfirmed && !s.session.authConfirmed)
    || (s.transitionPending && !t.transitionPending)
  }

  lemma ResetSignsNobodyIn(s: State)
    ensures !SignsIn(s, OnSessionReset(s)) && OnSessionReset(s).realMode == s.realMode
  {
  }

  /** Only the latest live attempt, holding a user reply, signs in. */
  lemma OnlyTheLatestAttemptSignsIn(s: State, e: Event)
    requires !e.SessionWritten? && SignsIn(s, Step(s, e))
    ensures e.AttemptResumes? && Enabled(s, e) && s.refs.IsLatest(e.attempt)
    ensures Verdict(s.refs, e.attempt).SignedIn?
    ensures Step(s, e).session.user == Some(Verdict(s.refs, e.attempt).user)
  {
    if e.SessionResetDispatched? { ResetSignsNobodyIn(s); }
    if e.SignInClicked? {
      ResetSignsNobodyIn(s.(refs := s.refs.AbortActive(), session := s.session.ClearToken()));
    }
  }

  /** The state after an attempt ended with `verdict` in state `s`. */
  ghost predicate Delivers(s: State, t: State, verdict: Outcome) {
    match verdict
    case Superseded => t == s.(refs := s.refs.(attempts := t.refs.attempts))
    case SignedIn(u) => t.session.user == Some(u) && t.session.ConfirmationCurrent() && t.ShowsProtected()
    case SignedOut =>
      t.session.user.None? && !t.session.authConfirmed && t.gate == Unauthenticated && !t.ShowsProtected()
    case RestoreFailed => t.session.user == s.session.user && !t.session.authConfirmed && t.gate == RestoreError
  }

  lemma SignInDelivers(s: State, a: nat, user: User)
    requires s.refs.mounted
    ensures Delivers(s, SignIn(s, a, user), SignedIn(user))
  {
  }

  lemma SignOutDelivers(s: State)
    requires s.refs.mounted
    ensures Delivers(s, SignOut(s), SignedOut)
  {
  }

  lemma GiveUpDelivers(s: State, a: nat)
    requires s.refs.mounted
    ensures Delivers(s, GiveUp(s, a), RestoreFailed)
  {
  }

  /** Resuming an attempt either makes its second call, touching neither session nor gate, or
      ends it for good in exactly one of four ways. */
  lemma ResumeEffects(s: State, a: nat)
    requires Inv(s.refs) && a < |s.refs.attempts| && s.refs.attempts[a].stage.Replied?
    ensures var t := Resume(s, a);
            && a < |t.refs.attempts|
            && if Retries(s.refs, a) then
                 && t.refs.InFlight(|s.refs.calls|) && t.refs.attempts[a].stage == Waiting(|s.refs.calls|)
                 && t.session == s.session && t.gate == s.gate && t.transitionPending == s.transitionPending
               else
                 && t.refs.attempts[a].stage == Finished(Verdict(s.refs, a), s.refs.clock)
                 && Delivers(s, t, Verdict(s.refs, a))
  {
    ResumeRefs(s, a);
    if !Retries(s.refs, a) {
      var done := Finish(s, a, Verdict(s.refs, a));
      match Verdict(s.refs, a)
      case Superseded =>
      case SignedIn(user) => SignInDelivers(done, a, user);
      case SignedOut => SignOutDelivers(done);
      case RestoreFailed => GiveUpDelivers(done, a);
    }
  }

  /** Each attempt makes at most two calls, every call is bounded by the time-out, and past
      twice the time-out the attempt has ended. */
  lemma AttemptsAreBounded(realMode: bool, session: Session, events: seq<Event>, a: nat)
    ensures var r := Run(Mount(realMode, session), events).refs;
            a < |r.attempts| ==>
              && (forall c | 0 <= c < |r.calls| && r.calls[c].attempt == a ::
                    c == r.attempts[a].first || Some(c) == r.attempts[a].retry)
              && (r.clock > r.attempts[a].startedAt + 20000 ==> r.attempts[a].stage.Finished?)
              && (r.attempts[a].stage.Finished? ==> r.attempts[a].stage.at <= r.attempts[a].startedAt + 20000)
  {
    MountKeepsInv(realMode, session);
    RunKeepsInv(Mount(realMode, session), events);
    var r := Run(Mount(realMode, session), events).refs;
    if a < |r.attempts| {
      assert AttemptWf(r, a);
      forall c | 0 <= c < |r.calls| && r.calls[c].attempt == a
        ensures c == r.attempts[a].first || Some(c) == r.attempts[a].retry
      {
        assert CallWf(r, c);
      }
      if r.attempts[a].stage.Waiting? { assert CallWf(r, r.attempts[a].stage.call); }
    }
  }

  /** What an attempt still has to go through: two steps for each call it may yet make. */
  function Weight(at: Attempt): nat {
    match at.stage
    case Waiting(_) => if at.retry.None? then 4 else 2
    case Replied(_) => if at.retry.None? then 3 else 1
    case Finished(_, _) => 0
  }

  function TotalWeight(attempts: seq<Attempt>): nat {
    if attempts == [] then 0 else Weight(attempts[0]) + TotalWeight(attempts[1..])
  }

  lemma {:induction false} TotalWeightUpdate(attempts: seq<Attempt>, i: nat, at: Attempt)
    requires i < |attempts|
    ensures TotalWeight(attempts[i := at]) == TotalWeight(attempts) - Weight(attempts[i]) + Weight(at)
  {
    if i > 0 {
      TotalWeightUpdate(attempts[1..], i - 1, at);
      assert attempts[i := at][1..] == attempts[1..][i - 1 := at];
    }
  }

  predicate Progresses(e: Event) { e.CallSettles? || e.AttemptResumes? || e.TimePasses? }

  lemma ResumingIsProgress(s: State, a: nat)
    requires Inv(s.refs) && a < |s.refs.attempts| && s.refs.attempts[a].stage.Replied?
    ensures TotalWeight(Step(s, AttemptResumes(a)).refs.attempts) < TotalWeight(s.refs.attempts)
    ensures Step(s, AttemptResumes(a)).refs.clock == s.refs.clock
  {
    ResumeRefs(s, a);
    TotalWeightUpdate(s.refs.attempts, a, Step(s, AttemptResumes(a)).refs.attempts[a]);
    assert Step(s, AttemptResumes(a)).refs.attempts == s.refs.attempts[a := Step(s, AttemptResumes(a)).refs.attempts[a]];
  }

  lemma SettlingIsProgress(s: State, c: nat, reply: Reply)
    requires Inv(s.refs) && c < |s.refs.calls| && c !in s.refs.settled
    ensures TotalWeight(Step(s, CallSettles(c, reply)).refs.attempts) < TotalWeight(s.refs.attempts)
    ensures Step(s, CallSettles(c, reply)).refs.clock == s.refs.clock
  {
    assert CallWf(s.refs, c);
    var a := s.refs.calls[c].attempt;
    TotalWeightUpdate(s.refs.attempts, a, s.refs.attempts[a].(stage := Replied(reply)));
  }

  /** The clock is never stuck: from every state that keeps the invariant, calls can settle and
      attempts resume until any later time is reached. */
  lemma {:induction false} ClockIsNeverStuck(s: State, time: nat) returns (events: seq<Event>)
    requires Inv(s.refs) && time >= s.refs.clock
    ensures Run(s, events).refs.clock == time
    ensures forall e | e in events :: Progresses(e)
    decreases TotalWeight(s.refs.attempts)
  {
    var e := TimePasses(time - s.refs.clock);
    if a :| 0 <= a < |s.refs.attempts| && s.refs.attempts[a].stage.Replied? {
      e := AttemptResumes(a);
      ResumingIsProgress(s, a);
    } else if c :| 0 <= c < |s.refs.calls| && c !in s.refs.settled {
      e := CallSettles(c, Failed);
      SettlingIsProgress(s, c, Failed);
    } else {
      assert MayPass(s.refs, time - s.refs.clock);
      events := [e];
      assert events[1..] == [];
      return;
    }
    StepKeepsInv(s, e);
    var rest := ClockIsNeverStuck(Step(s, e), time);
    events := [e] + rest;
    assert events[1..] == rest;
  }

  // ---------------------------------------------------------------------------------------
  // The block after an external transition
  // ---------------------------------------------------------------------------------------

  /** Since a transition taken when there were `n` attempts, the block is in force until an
      attempt numbered `n` or later signs a user in. */
  ghost predicate BlockedSince(s: State, n: nat) {
    && n <= |s.refs.attempts|
    && (s.refs.latest.Some? ==> s.refs.latest.value >= n)
    && (s.transitionPending || SignedInSince(s.refs, n))
  }

  ghost predicate SignedInSince(r: Refs, n: nat) {
    exists a :: n <= a < |r.attempts| && r.attempts[a].stage.Finished? && r.attempts[a].stage.outcome.SignedIn?
  }

  lemma StepKeepsBlock(s: State, e: Event, n: nat)
    requires Inv(s.refs) && BlockedSince(s, n)
    ensures BlockedSince(Step(s, e), n)
  {
    StepIsLater(s, e);
    var t := Step(s, e);
    if SignedInSince(s.refs, n) {
      var a :| n <= a < |s.refs.attempts| && s.refs.attempts[a].stage.Finished? && s.refs.attempts[a].stage.outcome.SignedIn?;
      assert SameAttempt(s.refs.attempts[a], t.refs.attempts[a]);
    } else if !t.transitionPending {
      if !e.SessionWritten? {
        OnlyTheLatestAttemptSignsIn(s, e);
        ResumeRefs(s, e.attempt);
        assert t.refs.attempts[e.attempt].stage.outcome.SignedIn?;
      }
    }
  }

  lemma {:induction false} RunKeepsBlock(s: State, events: seq<Event>, n: nat)
    requires Inv(s.refs) && BlockedSince(s, n)
    ensures BlockedSince(Run(s, events), n)
    decreases |events|
  {
    if events != [] {
      StepKeepsBlock(s, events[0], n);
      StepKeepsInv(s, events[0]);
      RunKeepsBlock(Step(s, events[0]), events[1..], n);
    }
  }

  /** After an event that takes an external transition, nothing protected is rendered until an
      attempt started after that event has signed a user in. */
  lemma BlockedUntilConfirmed(s: State, e: Event, events: seq<Event>)
    requires Inv(s.refs) && Step(s, e).refs.epoch > s.refs.epoch
    ensures var t := Run(Step(s, e), events);
            t.ShowsProtected() ==> SignedInSince(t.refs, |s.refs.attempts|)
  {
    EpochsAreTransitions(s, e);
    StepKeepsInv(s, e);
    RunKeepsBlock(Step(s, e), events, |s.refs.attempts|);
  }

  lemma OthersKeepTheEpoch(s: State, e: Event)
    requires !e.StoredUserChanged? && !e.TransitionPublished?
    ensures Step(s, e).refs.epoch == s.refs.epoch
  {
    match e
    case AttemptResumes(a) => if Enabled(s, e) { ResumeRefs(s, a); }
    case SessionResetDispatched => ResetRefs(s);
    case RetryRequested =>
    case ExternalTimerFires =>
    case SignInClicked =>
    case _ =>
  }

  lemma EpochsAreTransitions(s: State, e: Event)
    requires Step(s, e).refs.epoch > s.refs.epoch
    ensures s.realMode && (e.StoredUserChanged? || e.TransitionPublished?)
    ensures var t := Step(s, e);
            t.transitionPending && t.refs.latest.None? && t.refs.active.None? && |t.refs.attempts| == |s.refs.attempts|
  {
    if !e.StoredUserChanged? && !e.TransitionPublished? { OthersKeepTheEpoch(s, e); }
  }

  // ---------------------------------------------------------------------------------------
  // What is rendered
  // ---------------------------------------------------------------------------------------

  /** Gate by gate, the outlet is shown exactly in these cases: while a session is being confirmed, or
      after a failed restore with a cached user, unless a transition is pending; and when confirmed,
      in real mode only as long as the confirmation is of the stored user and transition. */
  lemma OutletIsShownExactlyWhen(s: State)
    ensures !s.refs.mounted ==> !s.ShowsProtected()
    ensures s.gate == Restoring || s.gate == Unauthenticated ==> !s.ShowsProtected()
    ensures s.refs.mounted && s.gate == AuthenticatedUnconfirmed ==> (s.ShowsProtected() <==> !s.transitionPending)
    ensures s.refs.mounted && s.gate == RestoreError ==> (s.ShowsProtected() <==> !s.transitionPending && s.session.user != None)
    ensures s.refs.mounted && s.gate == Authenticated ==>
              (s.ShowsProtected() <==>
                 && !s.transitionPending
                 && (s.realMode ==> s.session.authConfirmed && s.session.user != None
                                    && s.session.confirmedUser == s.session.user && s.session.confirmedTransition == s.session.transition))
  {
  }

  /** On the first render the outlet is shown exactly when a user is stored. */
  lemma FirstRenderShowsExactlyWhen(realMode: bool, session: Session)
    ensures Mount(realMode, session).ShowsProtected() <==> session.user != None
  {
  }

  /** The very first render has the gate that the effect then sets again: authenticated for a confirmed
      session or, in mock mode, a stored user; confirming with a cached user; else restoring or, in
      mock mode, unauthenticated. */
  lemma EffectKeepsTheInitialGate(realMode: bool, session: Session)
    ensures Mount(realMode, session).gate == InitialGate(realMode, session)
    ensures InitialGate(realMode, session) ==
            if session.user == None then (if realMode then Restoring else Unauthenticated)
            else if realMode && !session.ConfirmationCurrent() then AuthenticatedUnconfirmed else Authenticated
  {
  }

  /** Nobody is signed in, yet the outlet is shown. */
  predicate ShowsToNobody(s: State) { s.ShowsProtected() && s.session.user.None? }

  /** In real mode that can only be while a session is being confirmed. */
  lemma ShowsToNobodyExactlyWhen(s: State)
    requires s.realMode && s.session.user.None?
    ensures ShowsToNobody(s) <==> s.refs.mounted && !s.transitionPending && s.gate == AuthenticatedUnconfirmed
  {
  }

  /** Other code removes the user and dispatches the reset: the outlet goes away unless the guard
      swallows that reset, as it does when a retry or a failed restore has left its flag set. */
  lemma RemovalIsHeardExactlyWhen(s: State, removed: Session)
    requires s.realMode && s.refs.mounted && !s.transitionPending && s.gate == AuthenticatedUnconfirmed && removed.user.None?
    ensures ShowsToNobody(Run(s, [SessionWritten(removed), SessionResetDispatched])) <==> s.suppressReset
  {
    RunTwo(s, SessionWritten(removed), SessionResetDispatched);
  }

  /** When an attempt's code has run, that is exactly so while its retry is awaited, and after it has given
      up with a user cached. */
  lemma SwallowingIsDueExactly(s: State, a: nat)
    requires a < |s.refs.attempts| && s.refs.attempts[a].stage.Replied?
    ensures Resume(s, a).suppressReset <==>
              || Retries(s.refs, a)
              || (!Retries(s.refs, a) && Verdict(s.refs, a) == RestoreFailed && s.session.user != None)
              || (Verdict(s.refs, a) == Superseded && s.suppressReset)
  {
  }

  /** Every removal of the user by other code is followed at once by its reset, and heard. */
  predicate RemovalsAreHeard(s: State, events: seq<Event>)
    decreases |events|
  {
    events != [] ==>
      if events[0].SessionWritten? && events[0].session.user.None? then
        !s.suppressReset && |events| > 1 && events[1].SessionResetDispatched?
        && RemovalsAreHeard(Step(Step(s, events[0]), events[1]), events[2..])
      else RemovalsAreHeard(Step(s, events[0]), events[1..])
  }

  /** Confirming a session means there is one. */
  predicate ConfirmsSomebody(s: State) { s.refs.mounted && s.gate == AuthenticatedUnconfirmed ==> s.session.user.Some? }

  lemma ResetConfirmsSomebody(s: State)
    requires s.realMode && (s.suppressReset ==> ConfirmsSomebody(s))
    ensures ConfirmsSomebody(OnSessionReset(s))
  {
  }

  lemma ResumeConfirmsSomebody(s: State, a: nat)
    requires s.realMode && ConfirmsSomebody(s) && a < |s.refs.attempts| && s.refs.attempts[a].stage.Replied?
    ensures ConfirmsSomebody(Resume(s, a))
  {
    ResumeRefs(s, a);
  }

  lemma StepConfirmsSomebody(s: State, e: Event)
    requires s.realMode && ConfirmsSomebody(s) && (e.SessionWritten? ==> e.session.user.Some?)
    ensures ConfirmsSomebody(Step(s, e)) && Step(s, e).realMode
  {
    StepKeepsMode(s, e);
    if Enabled(s, e) {
      match e
      case AttemptResumes(a) => ResumeConfirmsSomebody(s, a);
      case SessionResetDispatched => ResetConfirmsSomebody(s);
      case _ =>
    }
  }

  lemma StepKeepsMode(s: State, e: Event)
    ensures Step(s, e).realMode == s.realMode
  {
    match e
    case SessionResetDispatched => ResetSignsNobodyIn(s);
    case AttemptResumes(_) =>
    case RetryRequested =>
    case StoredUserChanged(_) =>
    case TransitionPublished(_) =>
    case ExternalTimerFires =>
    case SignInClicked =>
    case _ =>
  }

  lemma {:induction false} RunConfirmsSomebody(s: State, events: seq<Event>)
    requires s.realMode && ConfirmsSomebody(s) && RemovalsAreHeard(s, events)
    ensures ConfirmsSomebody(Run(s, events)) && Run(s, events).realMode
    decreases |events|
  {
    if events != [] {
      var e := events[0];
      if e.SessionWritten? && e.session.user.None? {
        var t := Step(Step(s, e), events[1]);
        ResetConfirmsSomebody(Step(s, e));
        StepKeepsMode(Step(s, e), events[1]);
        assert events[1..][1..] == events[2..];
        RunConfirmsSomebody(t, events[2..]);
      } else {
        StepConfirmsSomebody(s, e);
        RunConfirmsSomebody(Step(s, e), events[1..]);
      }
    }
  }

  lemma SomebodyIsShown(s: State)
    requires s.realMode && ConfirmsSomebody(s)
    ensures !ShowsToNobody(s)
  {
  }

  /** In every real-mode run whose removals are heard, nothing protected is shown to nobody. */
  lemma NothingIsShownToNobody(session: Session, events: seq<Event>)
    requires RemovalsAreHeard(Mount(true, session), events)
    ensures !ShowsToNobody(Run(Mount(true, session), events))
  {
    RunConfirmsSomebody(Mount(true, session), events);
    SomebodyIsShown(Run(Mount(true, session), events));
  }

  /** For example: a sign-out while the retry is pending is swallowed, and the outlet stays although
      nobody is signed in. */
  lemma SignOutDuringRetryIsLost(user: User)
    ensures var cached := Session(Some(user), None, Unconfirmed, false, None, None, None);
            var retrying := Run(Mount(true, cached), [CallSettles(0, Failed), AttemptResumes(0)]);
            ShowsToNobody(Run(retrying, [SessionWritten(cached.ClearToken()), SessionResetDispatched]))
  {
    var cached := Session(Some(user), None, Unconfirmed, false, None, None, None);
    var s0 := Mount(true, cached);
    RunTwo(s0, CallSettles(0, Failed), AttemptResumes(0));
    var s1 := Step(s0, CallSettles(0, Failed));
    assert Retries(s1.refs, 0);
    RemovalIsHeardExactlyWhen(Step(s1, AttemptResumes(0)), cached.ClearToken());
  }

  // ---------------------------------------------------------------------------------------
  // When restores begin and external changes are taken
  // ---------------------------------------------------------------------------------------

  /** Whether the stored user is the one that was confirmed, under the same transition. */
  lemma ConfirmationIsCurrentExactlyWhen(session: Session)
    ensures session.ConfirmationCurrent() <==>
              && session.authConfirmed && session.user != None && session.confirmedUser == session.user
              && session.confirmedTransition == session.transition
  {
  }

  /** Confirming notes user and transition of that moment and, if given, the attempt; clearing keeps the
      stored transition and, when only the restore state is cleared, the user. */
  lemma SessionRecordExactly(s: Session, attempt: Option<nat>)
    ensures s.MarkConfirmed(attempt) ==
            Session(s.user, s.transition, Confirmed, true, s.user, s.transition, if attempt != None then attempt else s.restoreAttempt)
    ensures s.ClearRestoreState() == Session(s.user, s.transition, Unconfirmed, false, None, None, None)
    ensures s.ClearToken() == Session(None, s.transition, Unconfirmed, false, None, None, None)
  {
  }

  /** A restore starts an attempt exactly in real mode with no current confirmation; it then aborts
      what was in flight, and the gate says whether there is a user to show meanwhile. Otherwise the
      gate opens exactly for a confirmed session or, in mock mode, a stored user. */
  lemma RestoreBeginsExactlyWhen(s: State)
    ensures var t := RestoreSession(s);
            && (|t.refs.attempts| > |s.refs.attempts| <==> s.realMode && !s.session.ConfirmationCurrent())
            && (|t.refs.attempts| > |s.refs.attempts| ==>
                  && t.refs.latest == Some(|s.refs.attempts|) && t.refs.active == Some(|s.refs.calls|)
                  && |t.refs.attempts| == |s.refs.attempts| + 1 && |t.refs.calls| == |s.refs.calls| + 1
                  && (s.refs.active.Some? ==> s.refs.active.value in t.refs.aborted)
                  && t.session.user == s.session.user && !t.session.authConfirmed
                  && t.gate == (if s.session.user != None then AuthenticatedUnconfirmed else Restoring))
            && (|t.refs.attempts| == |s.refs.attempts| ==>
                  t.refs == s.refs && t.session.user == s.session.user
                  && (t.gate == Authenticated <==> s.session.user != None) && (t.gate == Unauthenticated <==> s.session.user == None))
  {
  }

  /** A reset is swallowed once when the guard is about to cause one itself. Otherwise, without a user,
      it aborts what is in flight and closes the gate, and with one it restores. */
  lemma ResetExactly(s: State)
    requires s.refs.mounted
    ensures var t := Step(s, SessionResetDispatched);
            && (s.suppressReset ==> t == s.(suppressReset := false))
            && (!s.suppressReset && s.session.user == None ==>
                  && t.gate == Unauthenticated && t.session == s.session && t.refs.latest == s.refs.latest
                  && t.refs.attempts == s.refs.attempts && t.refs.active == None
                  && (s.refs.active.Some? ==> s.refs.active.value in t.refs.aborted))
            && (|t.refs.attempts| > |s.refs.attempts| <==>
                  !s.suppressReset && s.session.user != None && s.realMode && !s.session.ConfirmationCurrent())
  {
    if !s.suppressReset && s.session.user.Some? { RestoreBeginsExactlyWhen(s); }
  }

  /** A retry request aborts what is in flight, ages every attempt, forgets what the old closure had
      seen and disarms its timer; it restores exactly in real mode with no current confirmation. */
  lemma RerunExactly(s: State)
    requires s.refs.mounted
    ensures var t := Step(s, RetryRequested);
            && t.refs.effect == s.refs.effect + 1 && !t.timerArmed && !t.suppressReset
            && t.lastUser == s.session.user && t.lastTransition == s.session.transition
            && (s.refs.active.Some? ==> s.refs.active.value in t.refs.aborted)
            && (|t.refs.attempts| > |s.refs.attempts| <==> s.realMode && !s.session.ConfirmationCurrent())
            && t.transitionPending == s.transitionPending && t.session.user == s.session.user
  {
    RestoreBeginsExactlyWhen(CleanUpEffect(s).(suppressReset := false, lastTransition := s.session.transition,
                                               lastUser := s.session.user,
                                               refs := CleanUpEffect(s).refs.(effect := s.refs.effect + 1)));
  }

  /** Time passes exactly up to the deadline of ten seconds of every unsettled call, and no attempt's code
      is waiting to resume. */
  lemma CallsTimeOutExactly(r: Refs, ms: nat)
    ensures MayPass(r, ms) <==>
              && (forall a | 0 <= a < |r.attempts| :: !r.attempts[a].stage.Replied?)
              && (forall c | 0 <= c < |r.calls| && c !in r.settled :: r.clock + ms - r.calls[c].startedAt <= 10000)
  {
  }

  /** The verdict on an attempt whose call has settled: superseded unless it is the latest of the
      mounted guard's live effect; signed in by a user reply, signed out by a 401; and on any other
      reply one retry before it gives up. */
  lemma VerdictExactly(r: Refs, a: nat)
    requires a < |r.attempts| && r.attempts[a].stage.Replied?
    ensures var latest := r.mounted && r.attempts[a].effect == r.effect && r.latest == Some(a);
            var reply := r.attempts[a].stage.reply;
            && (Retries(r, a) <==> latest && (reply == NoUser || reply == Failed) && r.attempts[a].retry == None)
            && (!Retries(r, a) ==>
                  Verdict(r, a) == if !latest then Superseded
                                   else match reply
                                     case UserReply(user) => SignedIn(user)
                                     case Unauthorized => SignedOut
                                     case _ => RestoreFailed)
  {
  }

  /** A change of the stored user is taken exactly when it is the value now stored, not the one last
      seen, and not one the session confirms. */
  lemma UserChangeIsTakenExactlyWhen(s: State, newValue: Option<User>)
    requires s.realMode && s.refs.mounted
    ensures Step(s, StoredUserChanged(newValue)).refs.epoch > s.refs.epoch <==>
              newValue == s.session.user && s.session.user != s.lastUser && !s.session.ConfirmationCurrent()
    ensures newValue == s.session.user ==> Step(s, StoredUserChanged(newValue)).lastUser == s.session.user
  {
  }

  /** A published transition is taken exactly when it is the stored one and was not seen before. */
  lemma TransitionIsTakenExactlyWhen(s: State, id: string)
    requires s.realMode && s.refs.mounted
    ensures Step(s, TransitionPublished(id)).refs.epoch > s.refs.epoch <==>
              s.session.transition == Some(id) && s.lastTransition != Some(id)
    ensures s.session.transition == Some(id) ==> Step(s, TransitionPublished(id)).lastTransition == Some(id)
  {
  }

  /** What taking one does: whatever was in flight is aborted, no attempt is the latest, confirmation
      is gone and the block is up; with a user a restore is due, without one the gate closes. */
  lemma TakenChangeBlocks(s: State, e: Event)
    requires s.refs.mounted && s.realMode && (e.StoredUserChanged? || e.TransitionPublished?)
    requires Step(s, e).refs.epoch > s.refs.epoch
    ensures var t := Step(s, e);
            && t.refs.latest.None? && t.refs.active.None? && (s.refs.active.Some? ==> s.refs.active.value in t.refs.aborted)
            && t.transitionPending && !t.session.authConfirmed && t.session.user == s.session.user
            && (t.timerArmed <==> s.session.user != None) && t.gate == (if s.session.user != None then Restoring else Unauthenticated)
            && (s.session.user != None ==> |Step(t, ExternalTimerFires).refs.attempts| == |s.refs.attempts| + 1)
  {
    var t := Step(s, e);
    if s.session.user != None {
      assert Enabled(t, ExternalTimerFires) && !t.session.ConfirmationCurrent();
      RestoreBeginsExactlyWhen(t.(timerArmed := false));
    }
  }

  // ---------------------------------------------------------------------------------------
  // A reset aborts, it does not supersede
  // ---------------------------------------------------------------------------------------

  /** A session reset that finds no user aborts the call in flight, yet every attempt that was
      the latest live one still is. */
  lemma ResetSupersedesNothing(s: State, a: nat)
    requires s.session.user.None?
    ensures OnSessionReset(s).refs.IsLatest(a) <==> s.refs.IsLatest(a)
  {
    ResetRefs(s);
  }

  /** A call settles, an attempt resumes or time passes. When `strict`, an aborted call can only fail. */
  predicate Allowed(s: State, e: Event, strict: bool) {
    Progresses(e) && (strict && e.CallSettles? && e.call in s.refs.aborted ==> e.reply.Failed?)
  }

  /** A run of nothing else. */
  predicate OnlySettles(s: State, events: seq<Event>, strict: bool)
    decreases |events|
  {
    events != [] ==> Allowed(s, events[0], strict) && OnlySettles(Step(s, events[0]), events[1..], strict)
  }

  /** Attempt `a` is the latest live one and its next answer or its retry may bring a user. */
  predicate MaySignIn(r: Refs, a: nat, strict: bool) {
    r.IsLatest(a) &&
    match r.attempts[a].stage
    case Waiting(c) => r.attempts[a].retry.None? || !strict || c !in r.aborted
    case Replied(reply) => reply.UserReply? || (!reply.Unauthorized? && r.attempts[a].retry.None?)
    case Finished(_, _) => false
  }

  predicate HoldsUser(r: Refs, a: nat) {
    a < |r.attempts| && r.attempts[a].stage.Replied? && r.attempts[a].stage.reply.UserReply?
  }

  lemma SettlingKeepsHope(s: State, a: nat, c: nat, reply: Reply, strict: bool)
    requires Inv(s.refs) && MaySignIn(s.refs, a, strict) && s.refs.attempts[a].stage == Waiting(c)
    requires reply == if strict && c in s.refs.aborted then Failed else UserReply("user")
    ensures Enabled(s, CallSettles(c, reply))
    ensures MaySignIn(Step(s, CallSettles(c, reply)).refs, a, strict)
    ensures Weight(Step(s, CallSettles(c, reply)).refs.attempts[a]) < Weight(s.refs.attempts[a])
  {
    assert AttemptWf(s.refs, a);
  }

  lemma ResumingKeepsHope(s: State, a: nat, strict: bool)
    requires Inv(s.refs) && MaySignIn(s.refs, a, strict) && s.refs.attempts[a].stage.Replied?
    ensures var t := Step(s, AttemptResumes(a));
            if HoldsUser(s.refs, a) then t.session.user.Some?
            else MaySignIn(t.refs, a, strict) && Weight(t.refs.attempts[a]) < Weight(s.refs.attempts[a])
  {
    ResumeRefs(s, a);
  }

  lemma HopeStays(s: State, a: nat, strict: bool) returns (e: Event)
    requires Inv(s.refs) && MaySignIn(s.refs, a, strict)
    ensures Allowed(s, e, strict)
    ensures HoldsUser(s.refs, a) ==> Step(s, e).session.user.Some?
    ensures !HoldsUser(s.refs, a) ==>
              MaySignIn(Step(s, e).refs, a, strict) && Weight(Step(s, e).refs.attempts[a]) < Weight(s.refs.attempts[a])
  {
    if s.refs.attempts[a].stage.Waiting? {
      var c := s.refs.attempts[a].stage.call;
      var reply := if strict && c in s.refs.aborted then Failed else UserReply("user");
      e := CallSettles(c, reply);
      SettlingKeepsHope(s, a, c, reply, strict);
    } else {
      e := AttemptResumes(a);
      ResumingKeepsHope(s, a, strict);
    }
  }

  lemma {:induction false} HopeIsFulfilled(s: State, a: nat, strict: bool) returns (events: seq<Event>)
    requires Inv(s.refs) && MaySignIn(s.refs, a, strict)
    ensures OnlySettles(s, events, strict) && Run(s, events).session.user.Some?
    decreases Weight(s.refs.attempts[a])
  {
    var e := HopeStays(s, a, strict);
    if HoldsUser(s.refs, a) {
      events := [e];
      assert events[1..] == [];
    } else {
      StepKeepsInv(s, e);
      var rest := HopeIsFulfilled(Step(s, e), a, strict);
      events := [e] + rest;
      assert events[1..] == rest;
    }
  }

  ghost predicate Hopeless(s: State, strict: bool) {
    s.session.user.None? && forall a :: !MaySignIn(s.refs, a, strict)
  }

  lemma ResumingStaysHopeless(s: State, a: nat, strict: bool)
    requires Inv(s.refs) && Hopeless(s, strict) && a < |s.refs.attempts| && s.refs.attempts[a].stage.Replied?
    ensures Hopeless(Resume(s, a), strict)
  {
    ResumeRefs(s, a);
    assert !MaySignIn(s.refs, a, strict);
    forall b ensures !MaySignIn(Resume(s, a).refs, b, strict) { assert !MaySignIn(s.refs, b, strict); }
  }

  lemma SettlingStaysHopeless(s: State, c: nat, reply: Reply, strict: bool)
    requires Inv(s.refs) && Hopeless(s, strict) && Enabled(s, CallSettles(c, reply)) && Allowed(s, CallSettles(c, reply), strict)
    ensures Hopeless(Step(s, CallSettles(c, reply)), strict)
  {
    assert CallWf(s.refs, c);
    assert !MaySignIn(s.refs, s.refs.calls[c].attempt, strict);
    forall b ensures !MaySignIn(s.refs.Settle(c, reply), b, strict) { assert !MaySignIn(s.refs, b, strict); }
  }

  lemma HopelessStays(s: State, e: Event, strict: bool)
    requires Inv(s.refs) && Hopeless(s, strict) && Allowed(s, e, strict)
    ensures Hopeless(Step(s, e), strict)
  {
    if Enabled(s, e) {
      match e
      case CallSettles(c, reply) => SettlingStaysHopeless(s, c, reply, strict);
      case AttemptResumes(a) => ResumingStaysHopeless(s, a, strict);
      case TimePasses(_) =>
        forall a ensures !MaySignIn(Step(s, e).refs, a, strict) { assert !MaySignIn(s.refs, a, strict); }
    }
  }

  lemma {:induction false} HopelessNeverSignsIn(s: State, events: seq<Event>, strict: bool)
    requires Inv(s.refs) && Hopeless(s, strict) && OnlySettles(s, events, strict)
    ensures Run(s, events).session.user.None?
    decreases |events|
  {
    if events != [] {
      HopelessStays(s, events[0], strict);
      StepKeepsInv(s, events[0]);
      HopelessNeverSignsIn(Step(s, events[0]), events[1..], strict);
    }
  }

  /** Attempt `a` survives a session reset in state `s` with a chance to sign a user in. */
  predicate Undoes(s: State, a: nat, strict: bool) {
    s.refs.IsLatest(a) &&
    match s.refs.attempts[a].stage
    case Waiting(c) => s.refs.attempts[a].retry.None? || !strict || (s.suppressReset && c !in s.refs.aborted)
    case Replied(reply) => reply.UserReply? || (!reply.Unauthorized? && s.refs.attempts[a].retry.None?)
    case Finished(_, _) => false
  }

  lemma ResetKeepsHope(s: State, a: nat, strict: bool)
    requires Inv(s.refs) && s.refs.mounted && s.session.user.None?
    ensures MaySignIn(OnSessionReset(s).refs, a, strict) <==> Undoes(s, a, strict)
  {
    ResetRefs(s);
    if s.refs.IsLatest(a) {
      assert AttemptWf(s.refs, a);
      if s.refs.attempts[a].stage.Waiting? { assert CallWf(s.refs, s.refs.attempts[a].stage.call); }
    }
  }

  /** After a reset that finds no user, and as long as the guard stays mounted and nothing else
      happens, a restore can sign a user back in exactly when the latest live attempt waits for its
      first call, waits for a retry that the reset does not abort, holds a user, or has failed once
      without a 401. Without `strict`, aborted calls may still answer and any wait will do. */
  lemma SignOutIsUndoneExactlyWhen(s: State, strict: bool)
    requires Inv(s.refs) && s.refs.mounted && s.session.user.None?
    ensures (exists events: seq<Event> :: OnlySettles(OnSessionReset(s), events, strict)
                                       && Run(OnSessionReset(s), events).session.user.Some?)
       <==> exists a :: Undoes(s, a, strict)
  {
    var t := OnSessionReset(s);
    ResetKeepsInv(s);
    forall a ensures MaySignIn(t.refs, a, strict) <==> Undoes(s, a, strict) { ResetKeepsHope(s, a, strict); }
    if a :| Undoes(s, a, strict) {
      assert MaySignIn(t.refs, a, strict);
      var events := HopeIsFulfilled(t, a, strict);
    } else {
      assert t.session.user.None?;
      forall events: seq<Event> | OnlySettles(t, events, strict) ensures Run(t, events).session.user.None? {
        HopelessNeverSignsIn(t, events, strict);
      }
    }
  }

  /** Once the guard has unmounted, as the redirect of the unauthenticated gate makes it, nothing
      it started touches the session any more: the undoing answer has to come before that. */
  lemma {:induction false} NothingSignsInAfterUnmount(s: State, events: seq<Event>)
    requires !s.refs.mounted && forall e | e in events :: !e.SessionWritten?
    ensures Run(s, events).session == s.session && !Run(s, events).ShowsProtected()
    decreases |events|
  {
    if events != [] {
      assert events[0] in events && !Step(s, events[0]).refs.mounted && Step(s, events[0]).session == s.session;
      NothingSignsInAfterUnmount(Step(s, events[0]), events[1..]);
    }
  }

  /** For example, when signing out while the first call is pending: the aborted call's failure
      starts the retry, and the retry's answer, if it comes before the guard unmounts, signs the
      user back in. */
  lemma SignOutDuringRestore(user: User)
    ensures var cached := Session(Some(user), None, Unconfirmed, false, None, None, None);
            var signedOut := Run(Mount(true, cached), [SessionWritten(cached.ClearToken()), SessionResetDispatched]);
            var t := Run(signedOut, [CallSettles(0, Failed), AttemptResumes(0), CallSettles(1, UserReply(user)), AttemptResumes(0)]);
            && signedOut.gate == Unauthenticated && 0 in signedOut.refs.aborted
            && t.ShowsProtected() && t.session.user == Some(user)
  {
    var cached := Session(Some(user), None, Unconfirmed, false, None, None, None);
    var s0 := Mount(true, cached);
    var s1 := Step(s0, SessionWritten(cached.ClearToken()));
    var s2 := Step(s1, SessionResetDispatched);
    RunTwo(s0, SessionWritten(cached.ClearToken()), SessionResetDispatched);
    var s3 := Step(s2, CallSettles(0, Failed));
    var s4 := Step(s3, AttemptResumes(0));
    RunTwo(s2, CallSettles(0, Failed), AttemptResumes(0));
    assert Retries(s3.refs, 0);
    var s5 := Step(s4, CallSettles(1, UserReply(user)));
    RunTwo(s4, CallSettles(1, UserReply(user)), AttemptResumes(0));
    RunAppends(s2, [CallSettles(0, Failed), AttemptResumes(0)], [CallSettles(1, UserReply(user)), AttemptResumes(0)]);
    assert [CallSettles(0, Failed), AttemptResumes(0)] + [CallSettles(1, UserReply(user)), AttemptResumes(0)]
        == [CallSettles(0, Failed), AttemptResumes(0), CallSettles(1, UserReply(user)), AttemptResumes(0)];
  }

  lemma RunTwo(s: State, e: Event, f: Event)
    ensures Run(s, [e, f]) == Step(Step(s, e), f)
  {
    assert [e, f][1..] == [f] && [f][1..] == [];
    assert Run(Step(s, e), [f]) == Run(Step(Step(s, e), f), []);
  }

  lemma {:induction false} RunAppends(s: State, xs: seq<Event>, ys: seq<Event>)
    ensures Run(s, xs + ys) == Run(Run(s, xs), ys)
    decreases |xs|
  {
    if xs == [] {
      assert xs + ys == ys;
    } else {
      assert (xs + ys)[1..] == xs[1..] + ys;
      RunAppends(Step(s, xs[0]), xs[1..], ys);
    }
  }
}
