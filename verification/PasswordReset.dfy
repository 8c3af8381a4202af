/** Admin password reset for one vendor: a pending operation kept in session storage, replies that
    may be lost or come after the section was left, status checks, remounts and page loads. The
    server may commit or refuse a sent reset at any time, whether or not its reply ever arrives. */
module PasswordReset {
  import opened Options

  /** What the server has done with a reset. */
  datatype Fate = Undecided | Committed | Refused

  /** What this browser session has learnt about it. */
  datatype Knowledge = Unknown | KnownCommitted | KnownRefused

  /** Which page load, and which mount of the section in it, a request was made from. */
  datatype Origin = Origin(page: nat, mount: nat)

  /** One reset sent; its index is its operation id. */
  datatype Reset = Reset(target: string, origin: Origin, awaiting: bool, knowledge: Knowledge, fate: Fate)

  /** One status check; `operation` is the pending operation it was started for. */
  datatype Check = Check(operation: nat, origin: Origin, awaiting: bool)

  datatype Pending = Pending(operation: nat, target: string)

  /** `stored` is session storage; `pending`, `selected` and `submitting` belong to the mounted section. */
  datatype State = State(
    stored: Option<Pending>,
    pending: Option<Pending>,
    selected: Option<string>,
    submitting: bool,
    now: Origin,
    resets: seq<Reset>,
    checks: seq<Check>)

  datatype Reply = Success | VersionConflict | OtherFailure

  // ---------------------------------------------------------------------------------------
  // Handlers
  // ---------------------------------------------------------------------------------------

  function AfterExecute(s: State): State {
    if s.selected.None? || s.submitting || s.pending.Some? then s
    else
      var operation := Pending(|s.resets|, s.selected.value);
      s.(pending := Some(operation), stored := Some(operation), submitting := true,
         resets := s.resets + [Reset(s.selected.value, s.now, true, Unknown, Undecided)])
  }

  function Learn(s: State, i: nat, knowledge: Knowledge): State
    requires i < |s.resets|
  {
    s.(resets := s.resets[i := s.resets[i].(knowledge := knowledge)])
  }

  /** A reply to reset `i`. Its code clears storage even when the mount that sent it is gone; the
      component state it sets is then nobody's. */
  function ResetReplied(s: State, i: nat, reply: Reply): State
    requires i < |s.resets|
  {
    var heard := s.(resets := s.resets[i := s.resets[i].(awaiting := false)]);
    var own := s.resets[i].origin == s.now;
    var done := if own then heard.(selected := None, submitting := false) else heard;
    if reply.OtherFailure? then done
    else
      Learn(done, i, if reply.Success? then KnownCommitted else KnownRefused).(
        stored := None, pending := if own then None else s.pending)
  }

  function StartCheck(s: State): State {
    if s.pending.None? then s
    else s.(checks := s.checks + [Check(s.pending.value.operation, s.now, true)])
  }

  /** A reply to check `k`: `found` says the server reported the operation as committed. */
  function CheckReplied(s: State, k: nat, found: bool): State
    requires k < |s.checks| && s.checks[k].operation < |s.resets|
  {
    var answered := s.(checks := s.checks[k := s.checks[k].(awaiting := false)]);
    if !found then answered
    else
      Learn(answered, s.checks[k].operation, KnownCommitted).(
        stored := None, pending := if s.checks[k].origin == s.now then None else s.pending)
  }

  /** A mount rebuilds the component state from storage. */
  function Mount(s: State, origin: Origin): State {
    s.(pending := s.stored, selected := None, submitting := false, now := origin)
  }

  /** The section is left and opened again in the same page load: old requests are still answered. */
  function Remount(s: State): State { Mount(s, s.now.(mount := s.now.mount + 1)) }

  /** A page load: replies to the old page are lost. */
  function Reload(s: State): State { Mount(s, Origin(s.now.page + 1, 0)) }

  function Initial(): State { State(None, None, None, false, Origin(0, 0), [], []) }

  // ---------------------------------------------------------------------------------------
  // Runs
  // ---------------------------------------------------------------------------------------

  datatype Event =
    | Selects(target: string)
    | Cancels
    | Confirms
    | ResetReplies(reset: nat, reply: Reply)
    | ChecksStatus
    | CheckReplies(check: nat, found: bool)
    | ServerDecides(reset: nat, fate: Fate)
    | Remounts
    | Reloads

  /** A reset or check of this page load that has not been answered. */
  predicate ResetWaits(s: State, i: int) {
    0 <= i < |s.resets| && s.resets[i].awaiting && s.resets[i].origin.page == s.now.page
  }

  predicate CheckWaits(s: State, k: int) {
    0 <= k < |s.checks| && s.checks[k].awaiting && s.checks[k].origin.page == s.now.page
  }

  /** What the disabled controls and a truthful server allow. */
  predicate Enabled(s: State, e: Event) {
    match e
    case Selects(_) => !s.submitting && s.pending.None?
    case Cancels => !s.submitting
    case Confirms => !s.submitting
    case ResetReplies(i, reply) =>
      && ResetWaits(s, i)
      && (reply.Success? ==> s.resets[i].fate.Committed?)
      && (reply.VersionConflict? ==> s.resets[i].fate.Refused?)
    case ChecksStatus => s.pending.Some? && !s.submitting
    case CheckReplies(k, found) =>
      && CheckWaits(s, k) && s.checks[k].operation < |s.resets|
      && (found ==> s.resets[s.checks[k].operation].fate.Committed?)
    case ServerDecides(i, fate) => i < |s.resets| && s.resets[i].fate.Undecided? && !fate.Undecided?
    case Remounts => true
    case Reloads => true
  }

  function Step(s: State, e: Event): State {
    if !Enabled(s, e) then s else
    match e
    case Selects(target) => s.(selected := Some(target))
    case Cancels => s.(selected := None)
    case Confirms => AfterExecute(s)
    case ResetReplies(i, reply) => ResetReplied(s, i, reply)
    case ChecksStatus => StartCheck(s)
    case CheckReplies(k, found) => CheckReplied(s, k, found)
    case ServerDecides(i, fate) => s.(resets := s.resets[i := s.resets[i].(fate := fate)])
    case Remounts => Remount(s)
    case Reloads => Reload(s)
  }

  function Run(s: State, events: seq<Event>): State
    decreases |events|
  {
    if events == [] then s else Run(Step(s, events[0]), events[1..])
  }

  // ---------------------------------------------------------------------------------------
  // What each step does
  // ---------------------------------------------------------------------------------------

  /** A step sends a reset exactly when it confirms one for a selected target with no operation pending
      and nothing being submitted; the reset is for that target and is recorded before it is sent. */
  lemma SendsExactlyWhen(s: State, e: Event)
    ensures var t := Step(s, e);
            && (|t.resets| > |s.resets| <==> e.Confirms? && s.selected.Some? && s.pending.None? && !s.submitting)
            && (|t.resets| > |s.resets| ==>
                  && t.resets == s.resets + [Reset(s.selected.value, s.now, true, Unknown, Undecided)]
                  && t.stored == t.pending == Some(Pending(|s.resets|, s.selected.value)) && t.submitting
                  && t.selected == s.selected && t.checks == s.checks)
  {
    match e
    case ResetReplies(_, _) =>
    case CheckReplies(_, _) =>
    case _ =>
  }

  /** A step starts a check exactly when it is asked to while an operation is pending and nothing is
      being submitted; the check is about that operation. */
  lemma ChecksExactlyWhen(s: State, e: Event)
    ensures var t := Step(s, e);
            && (|t.checks| > |s.checks| <==> e.ChecksStatus? && s.pending.Some? && !s.submitting)
            && (|t.checks| > |s.checks| ==>
                  t == s.(checks := s.checks + [Check(s.pending.value.operation, s.now, true)]))
  {
    match e
    case ResetReplies(_, _) =>
    case CheckReplies(_, _) =>
    case _ =>
  }

  /** The dialog's selection: taken and dropped only while nothing is being submitted, and taken only
      with no operation pending. */
  lemma SelectionExactly(s: State, target: string)
    ensures Step(s, Selects(target)) == s.(selected := if !s.submitting && s.pending == None then Some(target) else s.selected)
    ensures Step(s, Cancels) == s.(selected := if s.submitting then s.selected else None)
  {
  }

  /** The answer to a reset: success and version conflict clear the stored record whoever it is of, and
      say what happened; any other failure clears nothing. The mount that sent it also drops its
      selection and, on a clear answer, its pending operation; another mount's state is left alone. */
  lemma ResetAnswersExactly(s: State, i: nat, reply: Reply)
    requires Enabled(s, ResetReplies(i, reply))
    ensures var t, own := Step(s, ResetReplies(i, reply)), s.resets[i].origin == s.now;
            && t.stored == (if reply == OtherFailure then s.stored else None)
            && t.pending == (if own && reply != OtherFailure then None else s.pending)
            && t.selected == (if own then None else s.selected) && t.submitting == (s.submitting && !own)
            && t.now == s.now && t.checks == s.checks
            && t.resets == s.resets[i := s.resets[i].(
                 awaiting := false,
                 knowledge := match reply
                              case Success => KnownCommitted
                              case VersionConflict => KnownRefused
                              case OtherFailure => s.resets[i].knowledge)]
  {
  }

  /** The answer to a check: one that found the operation clears the stored record and, in its own
      mount, the pending operation; one that did not changes nothing. */
  lemma CheckAnswersExactly(s: State, k: nat, found: bool)
    requires Enabled(s, CheckReplies(k, found))
    ensures var t, check := Step(s, CheckReplies(k, found)), s.checks[k];
            && t.stored == (if found then None else s.stored)
            && t.pending == (if found && check.origin == s.now then None else s.pending)
            && t.selected == s.selected && t.submitting == s.submitting && t.now == s.now
            && t.checks == s.checks[k := check.(awaiting := false)]
            && t.resets == if found then s.resets[check.operation := s.resets[check.operation].(knowledge := KnownCommitted)]
                           else s.resets
  {
  }

  // ---------------------------------------------------------------------------------------
  // The record of what is unknown
  // ---------------------------------------------------------------------------------------

  /** The record is exact: the resets of unknown outcome are the stored one and no other, and the
      mounted section knows it. */
  ghost predicate Exact(s: State) {
    && (forall i | 0 <= i < |s.resets| :: s.resets[i].knowledge.Unknown? <==> s.stored == Some(Pending(i, s.resets[i].target)))
    && (s.stored.Some? ==>
          && s.pending == s.stored && s.stored.value.operation < |s.resets|
          && s.resets[s.stored.value.operation].target == s.stored.value.target)
  }

  /** What this session believes about a reset is what the server did. */
  ghost predicate Truthful(s: State) {
    forall i | 0 <= i < |s.resets| ::
      && (s.resets[i].knowledge.KnownCommitted? ==> s.resets[i].fate.Committed?)
      && (s.resets[i].knowledge.KnownRefused? ==> s.resets[i].fate.Refused?)
  }

  /** The operation whose answer `e` makes the code clear the stored record. */
  function Cleared(s: State, e: Event): Option<nat> {
    if !Enabled(s, e) then None
    else match e
      case ResetReplies(i, reply) => if reply.OtherFailure? then None else Some(i)
      case CheckReplies(k, found) => if found then Some(s.checks[k].operation) else None
      case _ => None
  }

  /** The record is empty or is the answered operation's own: a test that neither the reset's nor the
      check's continuation makes. */
  predicate ClearsOwn(s: State, e: Event) {
    Cleared(s, e).Some? ==> s.stored.None? || s.stored.value.operation == Cleared(s, e).value
  }

  lemma QuietStepsStayExact(s: State, e: Event)
    requires Exact(s) && !e.ResetReplies? && !e.CheckReplies?
    ensures Exact(Step(s, e))
  {
    match e
    case Confirms =>
    case ChecksStatus =>
    case _ =>
  }

  lemma ResetAnswersStayExactExactlyWhen(s: State, i: nat, reply: Reply)
    requires Exact(s)
    ensures Exact(Step(s, ResetReplies(i, reply))) <==> ClearsOwn(s, ResetReplies(i, reply))
  {
    var e := ResetReplies(i, reply);
    if !ClearsOwn(s, e) { assert Step(s, e).resets[s.stored.value.operation].knowledge.Unknown?; }
  }

  lemma CheckAnswersStayExactExactlyWhen(s: State, k: nat, found: bool)
    requires Exact(s)
    ensures Exact(Step(s, CheckReplies(k, found))) <==> ClearsOwn(s, CheckReplies(k, found))
  {
    var e := CheckReplies(k, found);
    if !ClearsOwn(s, e) { assert Step(s, e).resets[s.stored.value.operation].knowledge.Unknown?; }
  }

  /** From an exact record a step leads to an exact record if and only if what it clears is its own. */
  lemma StepStaysExactExactlyWhen(s: State, e: Event)
    requires Exact(s)
    ensures Exact(Step(s, e)) <==> ClearsOwn(s, e)
  {
    match e
    case ResetReplies(i, reply) => ResetAnswersStayExactExactlyWhen(s, i, reply);
    case CheckReplies(k, found) => CheckAnswersStayExactExactlyWhen(s, k, found);
    case _ => QuietStepsStayExact(s, e);
  }

  lemma KnowledgeIsTruthful(s: State, e: Event)
    requires Truthful(s)
    ensures Truthful(Step(s, e))
  {
  }

  /** The record is exact at every point of the run. */
  ghost predicate AlwaysExact(s: State, events: seq<Event>)
    decreases |events|
  {
    Exact(s) && (events != [] ==> AlwaysExact(Step(s, events[0]), events[1..]))
  }

  /** Every answer of the run that clears the record finds it empty or its own. */
  ghost predicate AlwaysClearsOwn(s: State, events: seq<Event>)
    decreases |events|
  {
    events != [] ==> ClearsOwn(s, events[0]) && AlwaysClearsOwn(Step(s, events[0]), events[1..])
  }

  /** Over every run, remounts and page loads included: the record is exact throughout if and only if
      every answer that clears it finds it empty or its own. */
  lemma {:induction false} RunStaysExactExactlyWhen(s: State, events: seq<Event>)
    requires Exact(s)
    ensures AlwaysExact(s, events) <==> AlwaysClearsOwn(s, events)
    decreases |events|
  {
    if events != [] {
      StepStaysExactExactlyWhen(s, events[0]);
      if ClearsOwn(s, events[0]) { RunStaysExactExactlyWhen(Step(s, events[0]), events[1..]); }
    }
  }

  lemma {:induction false} RunKeepsExact(s: State, events: seq<Event>)
    requires Exact(s) && Truthful(s) && AlwaysClearsOwn(s, events)
    ensures Exact(Run(s, events)) && Truthful(Run(s, events))
    decreases |events|
  {
    if events != [] {
      StepStaysExactExactlyWhen(s, events[0]);
      KnowledgeIsTruthful(s, events[0]);
      RunKeepsExact(Step(s, events[0]), events[1..]);
    }
  }

  /** In every such run from a fresh session at most one reset has an unknown outcome: it is the
      stored pending operation. What is believed known is what the server did. */
  lemma AtMostOneUnknown(events: seq<Event>, i: nat)
    requires AlwaysClearsOwn(Initial(), events)
    ensures var t := Run(Initial(), events);
            && Truthful(t) && (t.stored.Some? ==> t.pending == t.stored)
            && (i < |t.resets| ==>
                  (t.resets[i].knowledge.Unknown? <==> t.stored == Some(Pending(i, t.resets[i].target))))
  {
    RunKeepsExact(Initial(), events);
  }

  /** And a new reset is sent only when the fate of every earlier one is known: committed, or refused
      by a version conflict. */
  lemma SendsOnlyWhenAllKnown(events: seq<Event>, e: Event)
    requires AlwaysClearsOwn(Initial(), events)
    requires |Step(Run(Initial(), events), e).resets| > |Run(Initial(), events).resets|
    ensures var t := Run(Initial(), events);
            forall i | 0 <= i < |t.resets| :: !t.resets[i].knowledge.Unknown? && !t.resets[i].fate.Undecided?
  {
    RunKeepsExact(Initial(), events);
  }

  // ---------------------------------------------------------------------------------------
  // What a user can do about it
  // ---------------------------------------------------------------------------------------

  ghost predicate PagesPast(s: State) {
    && (forall i | 0 <= i < |s.resets| :: s.resets[i].origin.page <= s.now.page)
    && (forall k | 0 <= k < |s.checks| :: s.checks[k].origin.page <= s.now.page)
  }

  /** Only sending and checking add something unanswered; an answer ends its own. */
  lemma OnlyRequestsWait(s: State, e: Event)
    requires PagesPast(s)
    ensures var t := Step(s, e);
            && PagesPast(t)
            && (forall i :: ResetWaits(t, i) ==> ResetWaits(s, i) || (e.Confirms? && i == |s.resets|))
            && (forall k :: CheckWaits(t, k) ==> CheckWaits(s, k) || (e.ChecksStatus? && k == |s.checks|))
            && (Enabled(s, e) && e.ResetReplies? ==> !ResetWaits(t, e.reset))
            && (Enabled(s, e) && e.CheckReplies? ==> !CheckWaits(t, e.check))
  {
    if Enabled(s, e) {
      match e
      case ResetReplies(i, reply) => ResetAnswersExactly(s, i, reply);
      case CheckReplies(k, found) => CheckAnswersExactly(s, k, found);
      case Confirms => SendsExactlyWhen(s, e);
      case ChecksStatus => ChecksExactlyWhen(s, e);
      case Selects(_) =>
      case Cancels =>
      case ServerDecides(_, _) =>
      case Remounts =>
      case Reloads =>
    }
  }

  /** No reset is sent while an earlier reset or check of this page load is unanswered. */
  ghost predicate SendsAlone(s: State, events: seq<Event>)
    decreases |events|
  {
    events != [] ==>
      && (|Step(s, events[0]).resets| > |s.resets| ==> (forall i :: !ResetWaits(s, i)) && (forall k :: !CheckWaits(s, k)))
      && SendsAlone(Step(s, events[0]), events[1..])
  }

  /** Whatever is unanswered, pending or stored is about the last reset sent. */
  ghost predicate AboutTheLast(s: State) {
    && (forall i | ResetWaits(s, i) :: i == |s.resets| - 1)
    && (forall k | CheckWaits(s, k) :: s.checks[k].operation == |s.resets| - 1)
    && (s.pending.Some? ==> s.pending.value.operation == |s.resets| - 1)
    && (s.stored.Some? ==> s.stored.value.operation == |s.resets| - 1)
    && PagesPast(s)
  }

  lemma AnswersAboutTheLastAreSafe(s: State, e: Event)
    requires AboutTheLast(s)
    ensures ClearsOwn(s, e)
  {
  }

  lemma StepStaysAboutTheLast(s: State, e: Event)
    requires AboutTheLast(s)
    requires |Step(s, e).resets| > |s.resets| ==> (forall i :: !ResetWaits(s, i)) && (forall k :: !CheckWaits(s, k))
    ensures AboutTheLast(Step(s, e))
  {
    OnlyRequestsWait(s, e);
    if Enabled(s, e) {
      match e
      case ResetReplies(i, reply) => ResetAnswersExactly(s, i, reply);
      case CheckReplies(k, found) => CheckAnswersExactly(s, k, found);
      case Confirms => SendsExactlyWhen(s, e);
      case ChecksStatus => ChecksExactlyWhen(s, e);
      case Selects(_) =>
      case Cancels =>
      case ServerDecides(_, _) =>
      case Remounts =>
      case Reloads =>
    }
  }

  /** Waiting with a new reset until every earlier request is answered keeps the record exact,
      whatever is remounted or loaded again. */
  lemma {:induction false} SendingAloneIsSafe(s: State, events: seq<Event>)
    requires AboutTheLast(s) && SendsAlone(s, events)
    ensures AlwaysClearsOwn(s, events)
    decreases |events|
  {
    if events != [] {
      AnswersAboutTheLastAreSafe(s, events[0]);
      StepStaysAboutTheLast(s, events[0]);
      SendingAloneIsSafe(Step(s, events[0]), events[1..]);
    }
  }

  /** No status check is started while another one of this page load is unanswered, and the section
      is not remounted within a page load. */
  ghost predicate OneVisitWithoutOverlap(s: State, events: seq<Event>)
    decreases |events|
  {
    events != [] ==>
      && !events[0].Remounts?
      && (events[0].ChecksStatus? ==> forall k :: !CheckWaits(s, k))
      && OneVisitWithoutOverlap(Step(s, events[0]), events[1..])
  }

  /** The unanswered requests are the mounted section's own: its one reset while it submits, or one
      check while an operation is pending. */
  ghost predicate OneAtATime(s: State) {
    && PagesPast(s)
    && (forall i | ResetWaits(s, i) :: s.submitting && s.resets[i].origin == s.now)
    && (forall i, j | ResetWaits(s, i) && ResetWaits(s, j) :: i == j)
    && (forall k | CheckWaits(s, k) :: !s.submitting && s.pending.Some? && s.checks[k].origin == s.now)
    && (forall j, k | CheckWaits(s, j) && CheckWaits(s, k) :: j == k)
  }

  lemma StepKeepsOneAtATime(s: State, e: Event)
    requires OneAtATime(s) && !e.Remounts? && (e.ChecksStatus? ==> forall k :: !CheckWaits(s, k))
    ensures OneAtATime(Step(s, e))
    ensures |Step(s, e).resets| > |s.resets| ==> (forall i :: !ResetWaits(s, i)) && (forall k :: !CheckWaits(s, k))
  {
    OnlyRequestsWait(s, e);
    if Enabled(s, e) {
      match e
      case ResetReplies(_, _) =>
      case CheckReplies(_, _) =>
      case Confirms =>
      case ChecksStatus =>
      case _ =>
    }
  }

  /** Status checks that do not overlap, in a section that stays mounted between page loads, are
      enough for that. */
  lemma {:induction false} NonOverlappingChecksSendAlone(s: State, events: seq<Event>)
    requires OneAtATime(s) && OneVisitWithoutOverlap(s, events)
    ensures SendsAlone(s, events)
    decreases |events|
  {
    if events != [] {
      StepKeepsOneAtATime(s, events[0]);
      NonOverlappingChecksSendAlone(Step(s, events[0]), events[1..]);
    }
  }

  /** So in every run of such a section from a fresh session, page loads included, the record is
      exact throughout. */
  lemma NonOverlappingChecksAreSafe(events: seq<Event>)
    requires OneVisitWithoutOverlap(Initial(), events)
    ensures AlwaysExact(Initial(), events) && AlwaysClearsOwn(Initial(), events)
  {
    NonOverlappingChecksSendAlone(Initial(), events);
    SendingAloneIsSafe(Initial(), events);
    RunStaysExactExactlyWhen(Initial(), events);
  }

  // ---------------------------------------------------------------------------------------
  // Two runs that lose track
  // ---------------------------------------------------------------------------------------

  const FIRST := Origin(0, 0)
  const SECOND := Origin(0, 1)

  /** Reset 0 has committed and its reply was lost; nothing else is unanswered. */
  const LOST_REPLY: State :=
    State(Some(Pending(0, "a")), Some(Pending(0, "a")), None, false, FIRST, [Reset("a", FIRST, false, Unknown, Committed)], [])

  /** The same after two checks were started and the first one answered. */
  const ONE_CHECK_LEFT: State :=
    State(None, None, None, false, FIRST, [Reset("a", FIRST, false, KnownCommitted, Committed)],
          [Check(0, FIRST, false), Check(0, FIRST, true)])

  /** Reset 0 has committed, the section was left and opened again, and a check has found reset 0;
      its own reply is still on its way. */
  const REPLY_STILL_COMING: State :=
    State(None, None, None, false, SECOND, [Reset("a", FIRST, true, KnownCommitted, Committed)], [Check(0, SECOND, false)])

  lemma RunThree(s: State, e: Event, f: Event, g: Event, rest: seq<Event>)
    ensures Run(s, [e, f, g] + rest) == Run(Step(Step(Step(s, e), f), g), rest)
  {
    assert ([e, f, g] + rest)[1..] == [f, g] + rest;
    assert ([f, g] + rest)[1..] == [g] + rest;
    assert ([g] + rest)[1..] == rest;
    assert Run(Step(s, e), [f, g] + rest) == Run(Step(Step(s, e), f), [g] + rest);
  }

  lemma ReachesLostReply(rest: seq<Event>)
    ensures Run(Initial(), [Selects("a"), Confirms, ServerDecides(0, Committed)] + ([ResetReplies(0, OtherFailure)] + rest))
         == Run(LOST_REPLY, rest)
  {
    RunThree(Initial(), Selects("a"), Confirms, ServerDecides(0, Committed), [ResetReplies(0, OtherFailure)] + rest);
    assert ([ResetReplies(0, OtherFailure)] + rest)[1..] == rest;
    var sent := Step(Step(Initial(), Selects("a")), Confirms);
    assert sent.resets == [Reset("a", FIRST, true, Unknown, Undecided)];
    assert Step(sent, ServerDecides(0, Committed)).resets == [Reset("a", FIRST, true, Unknown, Committed)];
    assert Step(Step(sent, ServerDecides(0, Committed)), ResetReplies(0, OtherFailure)) == LOST_REPLY;
  }

  lemma ReachesOneCheckLeft(rest: seq<Event>)
    ensures Run(LOST_REPLY, [ChecksStatus, ChecksStatus, CheckReplies(0, true)] + rest) == Run(ONE_CHECK_LEFT, rest)
  {
    RunThree(LOST_REPLY, ChecksStatus, ChecksStatus, CheckReplies(0, true), rest);
    var asked := Step(Step(LOST_REPLY, ChecksStatus), ChecksStatus);
    assert asked.checks == [Check(0, FIRST, true), Check(0, FIRST, true)];
    assert Step(asked, CheckReplies(0, true)) == ONE_CHECK_LEFT;
  }

  lemma LosesTrack()
    ensures var t := Run(ONE_CHECK_LEFT, [Selects("b"), Confirms, CheckReplies(1, true)]);
            |t.resets| == 2 && t.resets[1].knowledge.Unknown? && t.stored.None?
  {
    RunThree(ONE_CHECK_LEFT, Selects("b"), Confirms, CheckReplies(1, true), []);
    assert [Selects("b"), Confirms, CheckReplies(1, true)] + [] == [Selects("b"), Confirms, CheckReplies(1, true)];
  }

  /** Overlapping checks: the late answer of a second check for reset 0 wipes the stored record of
      reset 1, which is still in flight with an unknown outcome. */
  lemma OverlappingChecksLoseTrack()
    ensures var events := [Selects("a"), Confirms, ServerDecides(0, Committed), ResetReplies(0, OtherFailure),
                           ChecksStatus, ChecksStatus, CheckReplies(0, true), Selects("b"), Confirms,
                           CheckReplies(1, true)];
            var t := Run(Initial(), events);
            && |t.resets| == 2 && t.resets[1].knowledge.Unknown? && t.stored.None?
            && !AlwaysClearsOwn(Initial(), events)
  {
    var third := [Selects("b"), Confirms, CheckReplies(1, true)];
    var second := [ChecksStatus, ChecksStatus, CheckReplies(0, true)] + third;
    var events := [Selects("a"), Confirms, ServerDecides(0, Committed)] + ([ResetReplies(0, OtherFailure)] + second);
    ReachesLostReply(second);
    ReachesOneCheckLeft(third);
    LosesTrack();
    if AlwaysClearsOwn(Initial(), events) { AtMostOneUnknown(events, 1); }
    assert events == [Selects("a"), Confirms, ServerDecides(0, Committed), ResetReplies(0, OtherFailure),
                      ChecksStatus, ChecksStatus, CheckReplies(0, true), Selects("b"), Confirms, CheckReplies(1, true)];
  }

  lemma ReachesReplyStillComing(rest: seq<Event>)
    ensures Run(Initial(), [Selects("a"), Confirms, ServerDecides(0, Committed)]
                           + ([Remounts, ChecksStatus, CheckReplies(0, true)] + rest))
         == Run(REPLY_STILL_COMING, rest)
  {
    RunThree(Initial(), Selects("a"), Confirms, ServerDecides(0, Committed), [Remounts, ChecksStatus, CheckReplies(0, true)] + rest);
    var sent := Step(Step(Initial(), Selects("a")), Confirms);
    assert sent.resets == [Reset("a", FIRST, true, Unknown, Undecided)];
    var committed := Step(sent, ServerDecides(0, Committed));
    assert committed.resets == [Reset("a", FIRST, true, Unknown, Committed)];
    RunThree(committed, Remounts, ChecksStatus, CheckReplies(0, true), rest);
    var asked := Step(Step(committed, Remounts), ChecksStatus);
    assert asked.checks == [Check(0, SECOND, true)];
    assert Step(asked, CheckReplies(0, true)) == REPLY_STILL_COMING;
  }

  lemma LosesTrackThenSends()
    ensures var t := Run(REPLY_STILL_COMING, [Selects("b"), Confirms, ResetReplies(0, Success)] + ([Reloads, Selects("c"), Confirms] + []));
            |t.resets| == 3 && t.resets[1].knowledge.Unknown? && t.stored == Some(Pending(2, "c"))
  {
    RunThree(REPLY_STILL_COMING, Selects("b"), Confirms, ResetReplies(0, Success), [Reloads, Selects("c"), Confirms] + []);
    var sent := Step(Step(REPLY_STILL_COMING, Selects("b")), Confirms);
    assert sent.resets == [Reset("a", FIRST, true, KnownCommitted, Committed), Reset("b", SECOND, true, Unknown, Undecided)];
    var wiped := Step(sent, ResetReplies(0, Success));
    assert wiped.stored.None? && wiped.resets[1].knowledge.Unknown?;
    RunThree(wiped, Reloads, Selects("c"), Confirms, []);
  }

  /** A remount loses track even without overlapping checks: the late success of reset 0 wipes the
      stored record of reset 1, and after a page load a third reset goes out while the outcome of
      reset 1 is unknown and recorded nowhere. */
  lemma RemountLosesTrack()
    ensures var events := [Selects("a"), Confirms, ServerDecides(0, Committed), Remounts, ChecksStatus, CheckReplies(0, true),
                           Selects("b"), Confirms, ResetReplies(0, Success), Reloads, Selects("c"), Confirms];
            var t := Run(Initial(), events);
            && |t.resets| == 3 && t.resets[1].knowledge.Unknown? && t.stored == Some(Pending(2, "c"))
            && !AlwaysClearsOwn(Initial(), events)
  {
    var fourth := [Reloads, Selects("c"), Confirms] + [];
    var third := [Selects("b"), Confirms, ResetReplies(0, Success)] + fourth;
    var events := [Selects("a"), Confirms, ServerDecides(0, Committed)] + ([Remounts, ChecksStatus, CheckReplies(0, true)] + third);
    ReachesReplyStillComing(third);
    LosesTrackThenSends();
    if AlwaysClearsOwn(Initial(), events) { AtMostOneUnknown(events, 1); }
    assert events == [Selects("a"), Confirms, ServerDecides(0, Committed), Remounts, ChecksStatus, CheckReplies(0, true),
                      Selects("b"), Confirms, ResetReplies(0, Success), Reloads, Selects("c"), Confirms];
  }

  // ---------------------------------------------------------------------------------------
  // The section as an object
  // ---------------------------------------------------------------------------------------

  /** Component state and session storage; the requests sent so far stand for the network. */
  class ResetSection {
    var stored: Option<Pending>
    var pending: Option<Pending>
    var selected: Option<string>
    var submitting: bool
    var origin: Origin
    var resets: seq<Reset>
    var checks: seq<Check>

    ghost function Now(): State
      reads this
    {
      State(stored, pending, selected, submitting, origin, resets, checks)
    }

    /** Beliefs are true, and requests come from no later page load. */
    ghost predicate Valid()
      reads this
    {
      Truthful(Now()) && PagesPast(Now())
    }

    constructor ()
      ensures Valid() && Exact(Now()) && Now() == Initial()
    {
      stored, pending, selected, submitting, origin := None, None, None, false, Origin(0, 0);
      resets, checks := [], [];
    }

    method SavePending(operation: Option<Pending>)
      modifies this`stored
      ensures stored == operation
    {
      stored := operation;
    }

    /** `executeReset` up to its await. With an exact record it sends only when every earlier reset
        is known, and the record stays exact. */
    method ExecuteReset()
      requires Valid()
      modifies this
      ensures Valid() && (old(Exact(Now())) ==> Exact(Now()))
      ensures Now() == AfterExecute(old(Now()))
      ensures |resets| > |old(resets)| <==> old(selected.Some? && pending.None? && !submitting)
      ensures |resets| > |old(resets)| ==>
                && resets == old(resets) + [Reset(selected.value, origin, true, Unknown, Undecided)]
                && stored == pending == Some(Pending(|old(resets)|, selected.value)) && submitting
      ensures old(Exact(Now())) && |resets| > |old(resets)| ==>
                forall i | 0 <= i < |old(resets)| :: !resets[i].knowledge.Unknown? && !resets[i].fate.Undecided?
    {
      if selected.None? || submitting || pending.Some? { return; }
      var operation := Pending(|resets|, selected.value);
      pending := Some(operation);
      SavePending(Some(operation));
      submitting := true;
      resets := resets + [Reset(selected.value, origin, true, Unknown, Undecided)];
    }

    /** `executeReset` after its await: success, a version conflict, or anything else. */
    method FinishReset(id: nat, reply: Reply)
      requires Valid() && Enabled(Now(), ResetReplies(id, reply))
      modifies this
      ensures Valid()
      ensures Now() == Step(old(Now()), ResetReplies(id, reply))
      ensures stored == (if reply == OtherFailure then old(stored) else None)
      ensures if old(resets[id].origin) == origin
              then selected == None && !submitting && pending == (if reply == OtherFailure then old(pending) else None)
              else selected == old(selected) && submitting == old(submitting) && pending == old(pending)
      ensures old(Exact(Now())) ==> (Exact(Now()) <==> old(ClearsOwn(Now(), ResetReplies(id, reply))))
    {
      AnswerIsSound(ResetReplies(id, reply));
      var own := resets[id].origin == origin;
      resets := resets[id := resets[id].(awaiting := false)];
      if !reply.OtherFailure? {
        if own { pending := None; }
        SavePending(None);
        resets := resets[id := resets[id].(knowledge := if reply.Success? then KnownCommitted else KnownRefused)];
      }
      if own {
        selected := None;
        submitting := false;
      }
    }

    lemma AnswerIsSound(e: Event)
      requires Valid()
      ensures Truthful(Step(Now(), e)) && PagesPast(Step(Now(), e))
      ensures Exact(Now()) ==> (Exact(Step(Now(), e)) <==> ClearsOwn(Now(), e))
    {
      KnowledgeIsTruthful(Now(), e);
      OnlyRequestsWait(Now(), e);
      if Exact(Now()) { StepStaysExactExactlyWhen(Now(), e); }
    }

    /** `checkOperation` up to its await; the closure keeps the operation it asks about. */
    method CheckOperation()
      requires Valid()
      modifies this`checks
      ensures Valid() && (old(Exact(Now())) ==> Exact(Now()))
      ensures Now() == StartCheck(old(Now()))
      ensures checks == old(checks) + if pending.Some? then [Check(pending.value.operation, origin, true)] else []
    {
      if pending.None? { return; }
      checks := checks + [Check(pending.value.operation, origin, true)];
    }

    method FinishCheck(id: nat, found: bool)
      requires Valid() && Enabled(Now(), CheckReplies(id, found))
      modifies this
      ensures Valid()
      ensures Now() == Step(old(Now()), CheckReplies(id, found))
      ensures stored == (if found then None else old(stored))
      ensures pending == (if found && old(checks[id].origin) == origin then None else old(pending))
      ensures old(Exact(Now())) ==> (Exact(Now()) <==> old(ClearsOwn(Now(), CheckReplies(id, found))))
    {
      AnswerIsSound(CheckReplies(id, found));
      var check := checks[id];
      checks := checks[id := check.(awaiting := false)];
      if found {
        if check.origin == origin { pending := None; }
        SavePending(None);
        resets := resets[check.operation := resets[check.operation].(knowledge := KnownCommitted)];
      }
    }

    /** The section mounts, after a page load or within one: component state is rebuilt from storage. */
    method MountSection(pageLoad: bool)
      requires Valid()
      modifies this
      ensures Valid() && (old(Exact(Now())) ==> Exact(Now()))
      ensures Now() == Step(old(Now()), if pageLoad then Reloads else Remounts)
      ensures pending == stored == old(stored) && selected == None && !submitting
      ensures pageLoad ==> (forall i :: !ResetWaits(Now(), i)) && (forall k :: !CheckWaits(Now(), k))
    {
      origin := if pageLoad then Origin(origin.page + 1, 0) else Origin(origin.page, origin.mount + 1);
      selected, submitting := None, false;
      pending := stored;
    }
  }
}
