/** The route guard as an object: refs and flags updated step by step. Each handler keeps the object
    valid and performs its event of `SessionRestore`, so what is proved there of every run holds of
    every sequence of handler calls. */
module RouteGuard {
  import opened Options
  import opened SessionRestore

  class Guard {
    const realMode: bool
    var session: Session
    var gate: Gate
    var transitionPending: bool
    var suppressNextSessionReset: bool
    var externalRestoreTimerArmed: bool
    var lastTransition: Option<string>
    var lastUser: Option<User>
    var refs: Refs

    ghost function Now(): State
      reads this
    {
      State(realMode, session, gate, transitionPending, suppressNextSessionReset, externalRestoreTimerArmed,
            lastTransition, lastUser, refs)
    }

    /** The invariant of the runs. */
    ghost predicate Valid()
      reads this
    {
      Inv(refs)
    }

    /** No two backend calls are in flight, and one that is belongs to the latest live attempt. */
    ghost predicate OneCallAtMost()
      reads this
    {
      && (forall c: nat, d: nat :: refs.InFlight(c) && refs.InFlight(d) ==> c == d)
      && (forall c: nat :: refs.InFlight(c) ==> refs.IsLatest(refs.calls[c].attempt))
    }

    lemma ValidMeansOneCall()
      requires Valid()
      ensures OneCallAtMost()
    {
      forall c: nat | refs.InFlight(c) ensures refs.active == Some(c) { assert CallWf(refs, c); }
    }

    constructor (realMode: bool, session: Session)
      ensures Valid() && OneCallAtMost()
      ensures Now() == Mount(realMode, session)
    {
      this.realMode := realMode;
      this.session := session;
      gate := InitialGate(realMode, session);
      transitionPending, suppressNextSessionReset, externalRestoreTimerArmed := false, false, false;
      lastTransition, lastUser := None, None;
      refs := Refs(None, None, 0, true, [], [], {}, {}, 0, 0);
      new;
      StartEffect();
      MountKeepsInv(realMode, session);
      ValidMeansOneCall();
    }

    method AbortActiveRestore()
      modifies this`refs
      ensures Now() == old(Now()).(refs := old(Now()).refs.AbortActive())
    {
      if refs.active.Some? {
        refs := refs.(aborted := refs.aborted + {refs.active.value});
      }
      refs := refs.(active := None);
    }

    /** Opens the attempt's next call under a fresh controller. */
    method RunRestoreRequest(attempt: nat) returns (call: nat)
      modifies this`refs
      ensures Now() == old(Now()).(refs := old(Now()).refs.OpenCall(attempt)) && call == |old(refs).calls|
    {
      call := |refs.calls|;
      refs := refs.(calls := refs.calls + [Call(attempt, refs.clock)]);
      refs := refs.(active := Some(call));
    }

    method RestoreSession()
      modifies this
      ensures Now() == SessionRestore.RestoreSession(old(Now()))
    {
      if !realMode && session.user.None? {
        gate := Unauthenticated;
        return;
      }
      if !realMode {
        session := session.MarkConfirmed(None);
        gate := Authenticated;
        return;
      }
      if session.ConfirmationCurrent() {
        gate := Authenticated;
        return;
      }
      AbortActiveRestore();
      var attempt := |refs.attempts|;
      refs := refs.(latest := Some(attempt));
      gate := if session.user.Some? then AuthenticatedUnconfirmed else Restoring;
      session := session.(phase := PhaseRestoring, authConfirmed := false, restoreAttempt := Some(attempt));
      var record := Attempt(refs.effect, refs.epoch, refs.clock, |refs.calls|, None, Waiting(|refs.calls|));
      refs := refs.(attempts := refs.attempts + [record]);
      var _ := RunRestoreRequest(attempt);
    }

    /** The reset event as other code dispatches it. */
    method SessionReset()
      requires Valid() && refs.mounted
      modifies this
      ensures Valid() && OneCallAtMost()
      ensures Now() == Step(old(Now()), SessionResetDispatched)
      ensures old(suppressNextSessionReset) ==>
                !suppressNextSessionReset && session == old(session) && gate == old(gate) && refs == old(refs)
      ensures !old(suppressNextSessionReset) && old(session.user) == None ==>
                gate == Unauthenticated && refs.active == None && |refs.attempts| == |old(refs.attempts)|
      ensures |refs.attempts| > |old(refs.attempts)| <==>
                !old(suppressNextSessionReset) && old(session.user) != None && realMode && !old(session.ConfirmationCurrent())
      ensures session.user.None? ==> forall a :: refs.IsLatest(a) <==> old(refs.IsLatest(a))
    {
      StepKeepsInv(Now(), SessionResetDispatched);
      ResetExactly(Now());
      ghost var before := Now();
      OnSessionReset();
      if before.session.user.None? { forall a { ResetSupersedesNothing(before, a); } }
      ValidMeansOneCall();
    }

    method OnSessionReset()
      modifies this
      ensures Now() == SessionRestore.OnSessionReset(old(Now()))
    {
      if !refs.mounted { return; }
      if suppressNextSessionReset {
        suppressNextSessionReset := false;
        return;
      }
      if session.user.None? {
        AbortActiveRestore();
        gate := Unauthenticated;
        return;
      }
      RestoreSession();
    }

    method SetSession(user: User)
      modifies this
      ensures Now() == SessionRestore.SetSession(old(Now()), user)
    {
      session := session.(user := Some(user));
      OnSessionReset();
    }

    method ClearToken()
      modifies this
      ensures Now() == SessionRestore.ClearToken(old(Now()))
    {
      session := session.ClearToken();
      OnSessionReset();
    }

    /** The awaited call settles: the request's clean-up runs, the attempt's code does not yet. */
    method SettleCall(call: nat, reply: Reply)
      requires Valid() && call < |refs.calls| && call !in refs.settled
      modifies this`refs
      ensures Valid() && OneCallAtMost()
      ensures Now() == Step(old(Now()), CallSettles(call, reply))
      ensures !refs.InFlight(call)
    {
      assert CallWf(refs, call);
      StepKeepsInv(Now(), CallSettles(call, reply));
      refs := refs.(settled := refs.settled + {call});
      var attempt := refs.calls[call].attempt;
      refs := refs.(attempts := refs.attempts[attempt := refs.attempts[attempt].(stage := Replied(reply))]);
      if refs.active == Some(call) {
        refs := refs.(active := None);
      }
      ValidMeansOneCall();
    }

    method Finish(attempt: nat, outcome: Outcome)
      requires attempt < |refs.attempts| && refs.attempts[attempt].stage.Replied?
      modifies this`refs
      ensures Now() == SessionRestore.Finish(old(Now()), attempt, outcome)
    {
      refs := refs.(attempts := refs.attempts[attempt := refs.attempts[attempt].(stage := Finished(outcome, refs.clock))]);
    }

    method SignIn(attempt: nat, user: User)
      modifies this
      ensures Now() == SessionRestore.SignIn(old(Now()), attempt, user)
    {
      suppressNextSessionReset := true;
      SetSession(user);
      session := session.MarkConfirmed(Some(attempt));
      transitionPending := false;
      gate := Authenticated;
    }

    method SignOut()
      modifies this
      ensures Now() == SessionRestore.SignOut(old(Now()))
    {
      suppressNextSessionReset := true;
      ClearToken();
      gate := Unauthenticated;
    }

    method Retry(attempt: nat)
      requires attempt < |refs.attempts|
      modifies this
      ensures Now() == old(Now()).(suppressReset := true, refs := old(Now()).refs.Retry(attempt))
    {
      suppressNextSessionReset := true;
      var call := |refs.calls|;
      refs := refs.(attempts := refs.attempts[attempt := refs.attempts[attempt].(retry := Some(call), stage := Waiting(call))]);
      var _ := RunRestoreRequest(attempt);
    }

    method GiveUp(attempt: nat)
      modifies this
      ensures Now() == SessionRestore.GiveUp(old(Now()), attempt)
    {
      suppressNextSessionReset := true;
      if session.user.None? { ClearToken(); }
      session := session.(phase := PhaseRestoreError, authConfirmed := false, restoreAttempt := Some(attempt));
      gate := RestoreError;
    }

    /** The code of `restoreSession` after its first call or its retry settled. */
    method ResumeAttempt(attempt: nat)
      requires Valid() && attempt < |refs.attempts| && refs.attempts[attempt].stage.Replied?
      modifies this
      ensures Valid() && OneCallAtMost()
      ensures Now() == Step(old(Now()), AttemptResumes(attempt))
      ensures !old(Retries(refs, attempt)) ==> Delivers(old(Now()), Now(), old(Verdict(refs, attempt)))
      ensures !old(refs.IsLatest(attempt)) ==> session == old(session) && gate == old(gate)
    {
      StepKeepsInv(Now(), AttemptResumes(attempt));
      ResumeEffects(Now(), attempt);
      Continue(attempt);
      ValidMeansOneCall();
    }

    method Continue(attempt: nat)
      requires attempt < |refs.attempts| && refs.attempts[attempt].stage.Replied?
      modifies this
      ensures Now() == Resume(old(Now()), attempt)
    {
      var reply := refs.attempts[attempt].stage.reply;
      var isLatest := refs.mounted && refs.attempts[attempt].effect == refs.effect && refs.latest == Some(attempt);
      if !isLatest {
        Finish(attempt, Superseded);
        return;
      }
      match reply {
        case UserReply(user) =>
          Finish(attempt, SignedIn(user));
          SignIn(attempt, user);
        case Unauthorized =>
          Finish(attempt, SignedOut);
          SignOut();
        case _ =>
          if refs.attempts[attempt].retry.None? {
            Retry(attempt);
          } else {
            Finish(attempt, RestoreFailed);
            GiveUp(attempt);
          }
      }
    }

    method InvalidateExternalSession()
      modifies this
      ensures Now() == SessionRestore.InvalidateExternalSession(old(Now()))
    {
      if !realMode { return; }
      externalRestoreTimerArmed := false;
      AbortActiveRestore();
      refs := refs.(latest := None, epoch := refs.epoch + 1);
      session := session.ClearRestoreState();
      transitionPending := true;
      gate := Restoring;
      if session.user.None? {
        gate := Unauthenticated;
        return;
      }
      externalRestoreTimerArmed := true;
    }

    /** After a handler that took a transition nothing is in flight, and the outlet is hidden until
        an attempt started from now on signs a user in. */
    ghost predicate Blocked()
      reads this
    {
      transitionPending && refs.active.None? && refs.latest.None? && !Now().ShowsProtected()
    }

    method OnStoredUserChange(newValue: Option<User>)
      requires Valid() && refs.mounted
      modifies this
      ensures Valid() && OneCallAtMost()
      ensures Now() == Step(old(Now()), StoredUserChanged(newValue))
      ensures refs.epoch != old(refs.epoch) <==>
                realMode && newValue == old(session.user) && newValue != old(lastUser) && !old(session.ConfirmationCurrent())
      ensures refs.epoch != old(refs.epoch) ==> Blocked()
    {
      StepKeepsInv(Now(), StoredUserChanged(newValue));
      NoteStoredUser(newValue);
      ValidMeansOneCall();
    }

    method NoteStoredUser(newValue: Option<User>)
      modifies this
      ensures Now() == SessionRestore.OnStoredUserChange(old(Now()), newValue)
    {
      var current := session.user;
      if newValue != current || current == lastUser { return; }
      lastUser := current;
      if session.ConfirmationCurrent() { return; }
      InvalidateExternalSession();
    }

    method OnSessionTransition(id: string)
      requires Valid() && refs.mounted
      modifies this
      ensures Valid() && OneCallAtMost()
      ensures Now() == Step(old(Now()), TransitionPublished(id))
      ensures refs.epoch != old(refs.epoch) <==>
                realMode && old(session.transition) == Some(id) && old(lastTransition) != Some(id)
      ensures refs.epoch != old(refs.epoch) ==> Blocked()
    {
      StepKeepsInv(Now(), TransitionPublished(id));
      NoteTransition(id);
      ValidMeansOneCall();
    }

    method NoteTransition(id: string)
      modifies this
      ensures Now() == SessionRestore.OnSessionTransition(old(Now()), id)
    {
      if session.transition != Some(id) || lastTransition == Some(id) { return; }
      lastTransition := Some(id);
      InvalidateExternalSession();
    }

    method FireExternalTimer()
      requires Valid() && refs.mounted && externalRestoreTimerArmed
      modifies this
      ensures Valid() && OneCallAtMost()
      ensures Now() == Step(old(Now()), ExternalTimerFires)
      ensures !externalRestoreTimerArmed
      ensures |refs.attempts| > |old(refs.attempts)| <==> realMode && !old(session.ConfirmationCurrent())
    {
      StepKeepsInv(Now(), ExternalTimerFires);
      externalRestoreTimerArmed := false;
      RestoreSession();
      ValidMeansOneCall();
    }

    method StartEffect()
      modifies this
      ensures Now() == RunEffect(old(Now()))
    {
      refs := refs.(effect := refs.effect + 1);
      suppressNextSessionReset, externalRestoreTimerArmed := false, false;
      lastTransition, lastUser := session.transition, session.user;
      RestoreSession();
    }

    method CleanUp()
      modifies this`externalRestoreTimerArmed, this`refs
      ensures Now() == CleanUpEffect(old(Now()))
    {
      externalRestoreTimerArmed := false;
      AbortActiveRestore();
    }

    method RetryRequest()
      requires Valid() && refs.mounted
      modifies this
      ensures Valid() && OneCallAtMost()
      ensures Now() == Step(old(Now()), RetryRequested)
      ensures |refs.attempts| > |old(refs.attempts)| <==> realMode && !old(session.ConfirmationCurrent())
    {
      StepKeepsInv(Now(), RetryRequested);
      RerunExactly(Now());
      CleanUp();
      StartEffect();
      ValidMeansOneCall();
    }

    method Unmount()
      requires Valid() && refs.mounted
      modifies this
      ensures Valid() && forall c: nat :: !refs.InFlight(c)
      ensures !externalRestoreTimerArmed && !refs.mounted && session == old(session)
      ensures Now() == Step(old(Now()), Unmounted)
    {
      StepKeepsInv(Now(), Unmounted);
      CleanUp();
      refs := refs.(mounted := false);
      ValidMeansOneCall();
    }

    method ClearSessionAndNavigateToLogin()
      requires Valid() && Enabled(Now(), SignInClicked)
      modifies this
      ensures Valid() && OneCallAtMost()
      ensures Now() == Step(old(Now()), SignInClicked)
      ensures session.user.None? && !Now().ShowsProtected()
    {
      StepKeepsInv(Now(), SignInClicked);
      AbortActiveRestore();
      ClearToken();
      gate := Unauthenticated;
      ValidMeansOneCall();
    }

    /** Somebody is signed in, and was confirmed under the transition that is current. */
    ghost predicate ConfirmedNow()
      reads this
    {
      && session.authConfirmed && session.user != None
      && session.confirmedUser == session.user && session.confirmedTransition == session.transition
    }

    /** The guard's render decision, branch by branch. */
    method ShowsOutlet() returns (shown: bool)
      ensures refs.mounted ==> (shown <==> Now().ShowsProtected())
      ensures gate == Restoring || gate == Unauthenticated ==> !shown
      ensures gate == AuthenticatedUnconfirmed ==> (shown <==> !transitionPending)
      ensures gate == RestoreError ==> (shown <==> !transitionPending && session.user != None)
      ensures gate == Authenticated ==>
                (shown <==> !transitionPending && (realMode ==> ConfirmedNow()))
    {
      if (transitionPending && gate != Unauthenticated) ||
         (realMode && gate == Authenticated && !session.ConfirmationCurrent()) {
        return false;
      }
      if gate == AuthenticatedUnconfirmed { return true; }
      if gate == Restoring { return false; }
      if gate == RestoreError { return session.user.Some?; }
      return gate == Authenticated;
    }
  }
}
