/** Opening a record of another vendor from the operations page: the vendor is selected, a wait
    watches until the selection is verified, and only then the page navigates. */
module VendorNavigation {
  import opened Options
  import opened Text

  /** How long a wait may take, in milliseconds. */
  const WAIT_LIMIT: nat := 20000

  datatype SelectionStatus = Empty | Unverified | Verified | Failed

  /** What a check can see: the session snapshot and the vendor selection. A missing token is "". */
  datatype World = World(
    sessionReady: bool, authConfirmed: bool, token: string, isAdmin: bool,
    selectedVendor: string, status: SelectionStatus, currentVendor: string) {

    predicate AdminWith(t: string) { sessionReady && authConfirmed && token == t && isAdmin }

    predicate VerifiedFor(vendor: string) { selectedVendor == vendor && status.Verified? && currentVendor == vendor }
  }

  /** One call of `waitForVerifiedAdminVendor` with its controller; `resolved` lists the values
      passed to `resolve`, and `delivered` says its `then` callback has run. */
  datatype Wait = Wait(
    click: nat, vendorId: string, token: string, path: string, startedAt: nat, aborted: bool,
    finished: bool, listening: bool, abortHook: bool, timer: bool, resolved: seq<bool>, delivered: bool)

  function Finish(w: Wait, verified: bool): Wait {
    if w.finished then w
    else w.(finished := true, listening := false, abortHook := false, timer := false, resolved := w.resolved + [verified])
  }

  function Check(w: Wait, world: World): Wait {
    if w.aborted || !world.AdminWith(w.token) || world.selectedVendor != w.vendorId then Finish(w, false)
    else if world.status.Verified? && world.currentVendor == w.vendorId then Finish(w, true)
    else if world.status.Failed? || world.status.Empty? then Finish(w, false)
    else w
  }

  /** `controller.abort()`: the first call dispatches the abort event to the handler, if still attached. */
  function Abort(w: Wait): Wait {
    if !w.aborted && w.abortHook then Finish(w.(aborted := true), false) else w.(aborted := true)
  }

  /** A wait as registered, then checked at once. */
  function NewWait(click: nat, vendor: string, token: string, path: string, now: nat, world: World): Wait {
    Check(Wait(click, vendor, token, path, now, false, false, true, true, true, [], false), world)
  }

  datatype Navigation = Navigation(path: string, vendorId: string, click: nat, waited: bool)

  datatype State = State(
    world: World,
    waits: seq<Wait>,
    pending: Option<nat>,
    mounted: bool,
    error: bool,
    clicks: nat,
    clock: nat,
    navigations: seq<Navigation>)

  predicate StartsWith(s: string, prefix: string) { |prefix| <= |s| && s[..|prefix|] == prefix }

  predicate IsSegment(s: string) { s != "" && forall c | c in s :: c !in {'/', '?', '#'} }

  predicate IsGuarded(path: string) { StartsWith(path, "/orders/") || StartsWith(path, "/returns/") }

  predicate IsRecordPath(path: string) {
    || (StartsWith(path, "/orders/") && IsSegment(path[8..]))
    || (StartsWith(path, "/returns/") && IsSegment(path[9..]))
  }

  /** The vendor-change event reaches every listener. */
  function Notify(waits: seq<Wait>, world: World): (r: seq<Wait>)
    ensures |r| == |waits|
    ensures forall i | 0 <= i < |waits| :: r[i] == if waits[i].listening then Check(waits[i], world) else waits[i]
  {
    seq(|waits|, i requires 0 <= i < |waits| => if waits[i].listening then Check(waits[i], world) else waits[i])
  }

  function AbortPending(s: State): State {
    if s.pending.Some? && s.pending.value < |s.waits|
    then s.(waits := s.waits[s.pending.value := Abort(s.waits[s.pending.value])])
    else s
  }

  datatype Link = Link(path: Option<string>, vendorId: Option<string>)

  predicate MayOpen(link: Link, world: World) {
    && link.vendorId.Some? && Trim(link.vendorId.value) != ""
    && world.sessionReady && world.authConfirmed && world.token != "" && world.isAdmin
  }

  function Navigate(s: State, path: string, vendor: string, click: nat, waited: bool): State {
    s.(navigations := s.navigations + [Navigation(path, vendor, click, waited)])
  }

  /** What a click does first: whatever was pending is aborted and forgotten. */
  function Settle(s: State): State { AbortPending(s).(pending := None, error := false) }

  /** `setCurrentVendorId`, leading to the world `after`. */
  function SelectVendor(s: State, after: World): State { s.(world := after, waits := Notify(s.waits, after)) }

  function OpenMock(s: State, vendor: string, path: string, after: World): State {
    var t := SelectVendor(s, after);
    if after.currentVendor == vendor then Navigate(t, path, vendor, t.clicks, false).(clicks := t.clicks + 1)
    else t.(clicks := t.clicks + 1, error := true)
  }

  function OpenDeferred(s: State, vendor: string, path: string, after: World): State {
    var t := SelectVendor(s, after);
    t.(clicks := t.clicks + 1, pending := Some(|t.waits|),
       waits := t.waits + [NewWait(t.clicks, vendor, s.world.token, path, s.clock, after)])
  }

  /** `handleOperationsNavigation` after that. `realMode` is the API mode and `after` the world once
      the vendor has been selected, for the paths that select it. */
  function Open(s: State, link: Link, realMode: bool, after: World): State {
    if link.path.None? || !IsGuarded(link.path.value) then s.(clicks := s.clicks + 1)
    else if !IsRecordPath(link.path.value) || !MayOpen(link, s.world) then s.(clicks := s.clicks + 1, error := true)
    else
      var vendor := Trim(link.vendorId.value);
      if !realMode then OpenMock(s, vendor, link.path.value, after)
      else if s.world.VerifiedFor(vendor) then
        Navigate(s, link.path.value, vendor, s.clicks, false).(clicks := s.clicks + 1)
      else OpenDeferred(s, vendor, link.path.value, after)
  }

  function HandleClick(s: State, link: Link, realMode: bool, after: World): State {
    Open(Settle(s), link, realMode, after)
  }

  /** The `then` callback of wait `i`. */
  function Deliver(s: State, i: nat): State
    requires i < |s.waits| && s.waits[i].resolved != []
  {
    var w := s.waits[i];
    var t := s.(waits := s.waits[i := w.(delivered := true)]);
    if w.aborted || s.pending != Some(i) then t
    else if w.resolved[0] then Navigate(t.(pending := None), w.path, w.vendorId, w.click, true)
    else t.(pending := None, error := true)
  }

  function Initial(world: World): State { State(world, [], None, true, false, 0, 0, []) }

  // ---------------------------------------------------------------------------------------
  // Runs
  // ---------------------------------------------------------------------------------------

  datatype Event =
    | Clicks(link: Link, realMode: bool, after: World)
    | WorldChanges(world: World, notify: bool)
    | TimesOut(wait: nat)
    | Delivers(wait: nat)
    | Unmounts
    | TimePasses(ms: nat)

  /** What can happen next. A timer fires on its deadline. */
  predicate Enabled(s: State, e: Event) {
    match e
    case Clicks(_, _, _) => s.mounted
    case WorldChanges(_, _) => true
    case TimesOut(i) => i < |s.waits| && s.waits[i].timer && s.clock == s.waits[i].startedAt + WAIT_LIMIT
    case Delivers(i) => i < |s.waits| && s.waits[i].resolved != [] && !s.waits[i].delivered
    case Unmounts => s.mounted
    case TimePasses(ms) => forall i | 0 <= i < |s.waits| && s.waits[i].timer :: s.clock + ms <= s.waits[i].startedAt + WAIT_LIMIT
  }

  function Step(s: State, e: Event): State {
    if !Enabled(s, e) then s else
    match e
    case Clicks(link, realMode, after) => HandleClick(s, link, realMode, after)
    case WorldChanges(world, notify) => s.(world := world, waits := if notify then Notify(s.waits, world) else s.waits)
    case TimesOut(i) => s.(waits := s.waits[i := Finish(s.waits[i], false)])
    case Delivers(i) => Deliver(s, i)
    case Unmounts => AbortPending(s).(mounted := false)
    case TimePasses(ms) => s.(clock := s.clock + ms)
  }

  function Run(s: State, events: seq<Event>): State
    decreases |events|
  {
    if events == [] then s else Run(Step(s, events[0]), events[1..])
  }

  // ---------------------------------------------------------------------------------------
  // What a check decides and what a click does
  // ---------------------------------------------------------------------------------------

  /** An open wait resolves to true exactly when an admin session with the captured token stands, its
      vendor is selected, verified and current, and it was not aborted. It resolves to false exactly when
      one of the first conditions is gone or the selection has failed or become empty. Otherwise it
      stays open: while the vendor is not yet verified, or verified and not yet current. */
  lemma CheckDecidesExactly(w: Wait, world: World)
    requires w.resolved == [] && !w.finished
    ensures var stands := !w.aborted && world.sessionReady && world.authConfirmed && world.token == w.token && world.isAdmin
                          && world.selectedVendor == w.vendorId;
            && (Check(w, world).resolved == [true] <==> stands && world.status == Verified && world.currentVendor == w.vendorId)
            && (Check(w, world).resolved == [false] <==> !stands || world.status == Failed || world.status == Empty)
            && (Check(w, world) == w <==>
                  stands && (world.status == Unverified || (world.status == Verified && world.currentVendor != w.vendorId)))
  {
    var c := Check(w, world);
    if c.finished { assert c.resolved == [c.resolved[0]]; }
  }

  /** The end of the twenty seconds or an abort resolves an open wait to false. */
  lemma GivingUpExactly(w: Wait)
    requires w.resolved == [] && !w.finished && !w.aborted && w.abortHook
    ensures Finish(w, false) == w.(finished := true, listening := false, abortHook := false, timer := false, resolved := [false])
    ensures Abort(w) == w.(aborted := true, finished := true, listening := false, abortHook := false, timer := false, resolved := [false])
  {
  }

  /** A wait's timer fires exactly twenty seconds after it started, and time passes exactly up to there. */
  lemma TimersFireExactly(s: State, i: nat, ms: nat)
    ensures Enabled(s, TimesOut(i)) <==> i < |s.waits| && s.waits[i].timer && s.clock - s.waits[i].startedAt == 20000
    ensures Enabled(s, TimePasses(ms)) <==>
              forall j | 0 <= j < |s.waits| && s.waits[j].timer :: s.clock + ms - s.waits[j].startedAt <= 20000
  {
  }

  /** The guarded links and among them those to a record. */
  lemma PathsExactly(path: string)
    ensures IsGuarded(path) <==> exists rest :: path == "/orders/" + rest || path == "/returns/" + rest
    ensures IsRecordPath(path) <==>
              exists id :: && id != "" && '/' !in id && '?' !in id && '#' !in id
                           && (path == "/orders/" + id || path == "/returns/" + id)
  {
    PrefixSplits(path, "/orders/");
    PrefixSplits(path, "/returns/");
    if StartsWith(path, "/orders/") { assert path == "/orders/" + path[8..]; }
    if StartsWith(path, "/returns/") { assert path == "/returns/" + path[9..]; }
  }

  lemma PrefixSplits(path: string, prefix: string)
    ensures StartsWith(path, prefix) <==> exists rest :: path == prefix + rest
    ensures forall rest | path == prefix + rest :: path[|prefix|..] == rest
  {
    if StartsWith(path, prefix) { assert path == prefix + path[|prefix|..]; }
  }

  predicate Guards(link: Link) { link.path.Some? && IsGuarded(link.path.value) }

  /** A guarded link to a record of a named vendor, under a confirmed admin session with a token. */
  predicate Admits(link: Link, world: World) {
    && Guards(link) && IsRecordPath(link.path.value)
    && link.vendorId.Some? && Trim(link.vendorId.value) != ""
    && world.sessionReady && world.authConfirmed && world.token != "" && world.isAdmin
  }

  /** Every click aborts and forgets what was pending and takes the message away. It then navigates at
      once exactly to an admitted record whose vendor is already verified and current, or in mock mode
      has become current; it starts a wait exactly for an admitted record in real mode otherwise; it
      shows a message exactly for a guarded link that is not admitted or whose vendor did not become
      current in mock mode. */
  lemma ClickDecidesExactly(s: State, link: Link, realMode: bool, after: World)
    ensures var t := HandleClick(s, link, realMode, after);
            var admitted := Admits(link, s.world);
            var ready := admitted && realMode && s.world.selectedVendor == Trim(link.vendorId.value)
                         && s.world.status == Verified && s.world.currentVendor == Trim(link.vendorId.value);
            var switched := admitted && !realMode && after.currentVendor == Trim(link.vendorId.value);
            && t.clicks == s.clicks + 1
            && (|t.navigations| > |s.navigations| <==> ready || switched)
            && (|t.navigations| > |s.navigations| ==>
                  t.navigations == s.navigations + [Navigation(link.path.value, Trim(link.vendorId.value), s.clicks, false)])
            && (|t.waits| > |s.waits| <==> admitted && realMode && !ready)
            && (t.pending == if |t.waits| > |s.waits| then Some(|s.waits|) else None)
            && (t.error <==> (Guards(link) && !admitted) || (admitted && !realMode && !switched))
            && (t.world == if admitted && !ready then after else s.world)
  {
  }

  /** The wait started is for the record's path and vendor under the token of that moment, and has been
      checked once. */
  lemma StartedWaitExactly(s: State, link: Link, realMode: bool, after: World)
    requires |HandleClick(s, link, realMode, after).waits| > |s.waits|
    ensures var t := HandleClick(s, link, realMode, after);
            && |t.waits| == |s.waits| + 1
            && t.waits[|s.waits|] == Check(Wait(s.clicks, Trim(link.vendorId.value), s.world.token, link.path.value, s.clock,
                                                false, false, true, true, true, [], false), after)
  {
    ClickDecidesExactly(s, link, realMode, after);
  }

  /** A delivered answer navigates exactly for the pending wait, not aborted, that resolved to true, and
      shows a message exactly for one that resolved to false; any other answer changes neither. */
  lemma DeliveryDecidesExactly(s: State, i: nat)
    requires i < |s.waits| && s.waits[i].resolved != []
    ensures var t, w := Deliver(s, i), s.waits[i];
            var acts := !w.aborted && s.pending == Some(i);
            && (t.navigations == if acts && w.resolved[0] then s.navigations + [Navigation(w.path, w.vendorId, w.click, true)]
                                 else s.navigations)
            && (t.error <==> s.error || (acts && !w.resolved[0]))
            && (t.pending == if acts then None else s.pending)
            && t.waits == s.waits[i := w.(delivered := true)] && t.world == s.world && t.clicks == s.clicks
  {
  }

  // ---------------------------------------------------------------------------------------
  // The invariant
  // ---------------------------------------------------------------------------------------

  /** A wait resolves once, and exactly then lets go of listener, abort handler and timer. */
  predicate WaitWf(w: Wait) {
    && |w.resolved| == (if w.finished then 1 else 0)
    && w.listening == w.abortHook == w.timer == !w.finished
    && (w.aborted || w.delivered ==> w.finished)
  }

  /** Only the wait of the latest click can still act. */
  ghost predicate Inv(s: State) {
    && (forall i | 0 <= i < |s.waits| ::
          WaitWf(s.waits[i]) && s.waits[i].click < s.clicks
          && (s.waits[i].timer ==> s.clock <= s.waits[i].startedAt + WAIT_LIMIT)
          && (!s.waits[i].aborted && !s.waits[i].delivered ==> s.pending == Some(i)))
    && (s.pending.Some? ==>
          && s.pending.value < |s.waits| && (s.waits[s.pending.value].delivered ==> s.waits[s.pending.value].aborted)
          && s.waits[s.pending.value].click == s.clicks - 1
          && (s.mounted <==> !s.waits[s.pending.value].aborted)
          && forall k | 0 <= k < |s.navigations| :: s.navigations[k].click < s.clicks - 1)
    && (forall k | 0 <= k < |s.navigations| :: s.navigations[k].click < s.clicks)
    && (forall k, l | 0 <= k < l < |s.navigations| :: s.navigations[k].click < s.navigations[l].click)
  }

  lemma NotifyKeepsWf(waits: seq<Wait>, world: World)
    requires forall i | 0 <= i < |waits| :: WaitWf(waits[i])
    ensures forall i | 0 <= i < |waits| ::
              var w := Notify(waits, world)[i];
              WaitWf(w) && w.click == waits[i].click && w.startedAt == waits[i].startedAt && (w.timer ==> waits[i].timer) && w.aborted == waits[i].aborted && w.delivered == waits[i].delivered
  {
  }

  /** Nothing is pending and every earlier wait has been settled. */
  ghost predicate Idle(s: State) {
    Inv(s) && s.pending.None? && forall i | 0 <= i < |s.waits| :: s.waits[i].aborted || s.waits[i].delivered
  }

  lemma AbortKeepsInv(s: State)
    requires Inv(s)
    ensures Idle(Settle(s))
    ensures s.mounted ==> Inv(AbortPending(s).(mounted := false))
  {
  }

  lemma IdleClickKeepsInv(s: State, path: string, vendor: string)
    requires Idle(s)
    ensures Inv(s.(clicks := s.clicks + 1)) && Inv(s.(clicks := s.clicks + 1, error := true))
    ensures Inv(Navigate(s, path, vendor, s.clicks, false).(clicks := s.clicks + 1))
  {
  }

  lemma SelectKeepsIdle(s: State, after: World)
    requires Idle(s)
    ensures Idle(SelectVendor(s, after))
  {
    NotifyKeepsWf(s.waits, after);
  }

  lemma DeferredKeepsInv(s: State, vendor: string, path: string, after: World)
    requires Idle(s) && s.mounted
    ensures Inv(OpenDeferred(s, vendor, path, after))
  {
    SelectKeepsIdle(s, after);
    var w := NewWait(s.clicks, vendor, s.world.token, path, s.clock, after);
    assert WaitWf(w) && w.startedAt == s.clock && w.click == s.clicks && !w.aborted && !w.delivered;
  }

  lemma OpenKeepsInv(s: State, link: Link, realMode: bool, after: World)
    requires Idle(s) && s.mounted
    ensures Inv(Open(s, link, realMode, after))
  {
    if link.path.None? || !IsGuarded(link.path.value) || !IsRecordPath(link.path.value) || !MayOpen(link, s.world) {
      IdleClickKeepsInv(s, "", "");
    } else {
      OpenRecordKeepsInv(s, link.path.value, Trim(link.vendorId.value), realMode, after);
    }
  }

  lemma OpenRecordKeepsInv(s: State, path: string, vendor: string, realMode: bool, after: World)
    requires Idle(s) && s.mounted
    ensures Inv(OpenMock(s, vendor, path, after)) && Inv(OpenDeferred(s, vendor, path, after))
    ensures Inv(Navigate(s, path, vendor, s.clicks, false).(clicks := s.clicks + 1))
  {
    SelectKeepsIdle(s, after);
    IdleClickKeepsInv(SelectVendor(s, after), path, vendor);
    IdleClickKeepsInv(s, path, vendor);
    DeferredKeepsInv(s, vendor, path, after);
  }

  lemma DeliverKeepsInv(s: State, i: nat)
    requires Inv(s) && Enabled(s, Delivers(i))
    ensures Inv(Deliver(s, i))
  {
    assert WaitWf(s.waits[i]);
  }

  lemma TimeoutKeepsInv(s: State, i: nat)
    requires Inv(s) && Enabled(s, TimesOut(i))
    ensures Inv(Step(s, TimesOut(i)))
  {
    assert WaitWf(s.waits[i]);
  }

  lemma TimeKeepsInv(s: State, ms: nat)
    requires Inv(s) && Enabled(s, TimePasses(ms))
    ensures Inv(s.(clock := s.clock + ms))
  {
  }

  lemma StepKeepsInv(s: State, e: Event)
    requires Inv(s)
    ensures Inv(Step(s, e))
  {
    if Enabled(s, e) {
      match e
      case Clicks(link, realMode, after) =>
        AbortKeepsInv(s);
        OpenKeepsInv(Settle(s), link, realMode, after);
      case WorldChanges(world, _) => NotifyKeepsWf(s.waits, world);
      case TimesOut(i) => TimeoutKeepsInv(s, i);
      case Delivers(i) => DeliverKeepsInv(s, i);
      case Unmounts => AbortKeepsInv(s);
      case TimePasses(ms) => TimeKeepsInv(s, ms);
    }
  }

  lemma {:induction false} RunKeepsInv(s: State, events: seq<Event>)
    requires Inv(s)
    ensures Inv(Run(s, events))
    decreases |events|
  {
    if events != [] {
      StepKeepsInv(s, events[0]);
      RunKeepsInv(Step(s, events[0]), events[1..]);
    }
  }

  // ---------------------------------------------------------------------------------------
  // What every run keeps
  // ---------------------------------------------------------------------------------------

  /** Every wait has resolved at most once, holds its listener, abort handler and timer exactly until
      then, and at most the last wait is still open. */
  lemma WaitsLetGoOnResolving(world: World, events: seq<Event>, i: nat)
    requires i < |Run(Initial(world), events).waits|
    ensures var t := Run(Initial(world), events);
            var w := t.waits[i];
            && |w.resolved| <= 1 && w.listening == w.abortHook == w.timer == (w.resolved == [])
            && (w.resolved == [] ==> t.mounted && t.pending == Some(i) && w.click == t.clicks - 1)
  {
    RunKeepsInv(Initial(world), events);
    var t := Run(Initial(world), events);
    assert WaitWf(t.waits[i]);
  }

  /** Every wait has resolved exactly once when its twenty seconds are over, whatever has happened. */
  lemma WaitsResolveInTime(world: World, events: seq<Event>, i: nat)
    requires i < |Run(Initial(world), events).waits|
    requires Run(Initial(world), events).clock > Run(Initial(world), events).waits[i].startedAt + 20000
    ensures |Run(Initial(world), events).waits[i].resolved| == 1
  {
    RunKeepsInv(Initial(world), events);
    assert WaitWf(Run(Initial(world), events).waits[i]);
  }

  /** And that time comes: from every such state some run reaches any later time. */
  lemma ClockIsNeverStuck(s: State, time: nat) returns (events: seq<Event>)
    requires Inv(s) && time >= s.clock
    ensures Run(s, events).clock == time
  {
    if i :| 0 <= i < |s.waits| && s.waits[i].timer && time > s.waits[i].startedAt + WAIT_LIMIT {
      assert WaitWf(s.waits[i]);
      var early := TimePasses(s.waits[i].startedAt + WAIT_LIMIT - s.clock);
      assert Enabled(s, early) by { OnlyOneTimer(s, i); }
      var t := Step(s, early);
      StepKeepsInv(s, early);
      var u := Step(t, TimesOut(i));
      StepKeepsInv(t, TimesOut(i));
      OnlyOneTimer(s, i);
      var late := TimePasses(time - u.clock);
      assert Enabled(u, late);
      events := [early, TimesOut(i), late];
      assert events[1..] == [TimesOut(i), late] && events[1..][1..] == [late] && [late][1..] == [];
      assert Run(u, [late]).clock == time;
    } else {
      events := [TimePasses(time - s.clock)];
      assert events[1..] == [];
    }
  }

  lemma OnlyOneTimer(s: State, i: nat)
    requires Inv(s) && i < |s.waits| && s.waits[i].timer
    ensures forall j | 0 <= j < |s.waits| && s.waits[j].timer :: j == i
  {
    assert WaitWf(s.waits[i]);
    forall j | 0 <= j < |s.waits| && s.waits[j].timer ensures j == i { assert WaitWf(s.waits[j]); }
  }

  lemma OpenKeepsWaits(s: State, link: Link, realMode: bool, after: World)
    ensures var t := Open(s, link, realMode, after);
            && |t.waits| >= |s.waits| && t.clicks == s.clicks + 1
            && forall i | 0 <= i < |s.waits| :: t.waits[i] == s.waits[i] || t.waits[i] == Check(s.waits[i], after)
  {
  }

  /** A step keeps what a wait is for and what it has resolved to. */
  lemma StepKeepsWaits(s: State, e: Event, i: nat)
    requires Inv(s) && i < |s.waits|
    ensures var t := Step(s, e);
            && i < |t.waits| && t.waits[i].click == s.waits[i].click && t.clicks >= s.clicks
            && (s.waits[i].resolved != [] ==> t.waits[i].resolved == s.waits[i].resolved)
            && (!s.mounted ==> !t.mounted)
  {
    assert WaitWf(s.waits[i]);
    match e
    case Clicks(link, realMode, after) => OpenKeepsWaits(Settle(s), link, realMode, after);
    case Delivers(j) => if Enabled(s, e) { DeliveryDecidesExactly(s, j); }
    case WorldChanges(_, _) =>
    case TimesOut(_) =>
    case _ =>
  }

  lemma OpenNavigatesForItsClick(s: State, link: Link, realMode: bool, after: World)
    ensures var t := Open(s, link, realMode, after);
            |t.navigations| > |s.navigations| ==> t.navigations[|s.navigations|].click == s.clicks
  {
  }

  lemma ClickEndsPending(s: State, link: Link, realMode: bool, after: World)
    requires Inv(s)
    ensures var t := HandleClick(s, link, realMode, after);
            && t.clicks == s.clicks + 1 && |t.waits| >= |s.waits|
            && (s.pending.Some? ==> t.waits[s.pending.value].aborted && t.waits[s.pending.value].resolved != [])
            && (|t.navigations| > |s.navigations| ==> t.navigations[|s.navigations|].click == s.clicks)
  {
    AbortKeepsInv(s);
    var idle := Settle(s);
    if s.pending.Some? { assert WaitWf(idle.waits[s.pending.value]); }
    OpenKeepsWaits(idle, link, realMode, after);
    OpenNavigatesForItsClick(idle, link, realMode, after);
  }

  /** A wait never resolves twice nor changes its answer, and once another click has come its late
      answer changes neither page, message nor pending navigation; after unmounting no answer does. */
  lemma {:induction false} LateAnswersAreInert(s: State, events: seq<Event>, i: nat)
    requires Inv(s) && i < |s.waits|
    ensures var t := Run(s, events);
            && i < |t.waits| && t.waits[i].click == s.waits[i].click && t.clicks >= s.clicks
            && (s.waits[i].resolved != [] ==> t.waits[i].resolved == s.waits[i].resolved)
            && (s.waits[i].click < s.clicks - 1 || !s.mounted ==>
                  var u := Step(t, Delivers(i));
                  u.navigations == t.navigations && u.error == t.error && u.pending == t.pending)
    decreases |events|
  {
    if events != [] {
      StepKeepsInv(s, events[0]);
      StepKeepsWaits(s, events[0], i);
      LateAnswersAreInert(Step(s, events[0]), events[1..], i);
    }
  }

  lemma CheckResolvesTrueOnlyWhenVerified(w: Wait, world: World)
    requires w.resolved == [] && Check(w, world).resolved == [true]
    ensures world.AdminWith(w.token) && world.VerifiedFor(w.vendorId) && !w.aborted
  {
    assert Check(w, world).resolved[0];
  }

  lemma OpenResolvesVerified(s: State, link: Link, realMode: bool, after: World, i: nat)
    requires Idle(s) && i < |Open(s, link, realMode, after).waits|
    ensures var t := Open(s, link, realMode, after);
            if i < |s.waits| then t.waits[i] == s.waits[i]
            else t.waits[i].resolved == [true] ==>
              t.world.AdminWith(t.waits[i].token) && t.world.VerifiedFor(t.waits[i].vendorId) && !t.waits[i].aborted
  {
    if i < |s.waits| {
      assert WaitWf(s.waits[i]);
    } else {
      var w := Wait(s.clicks, Trim(link.vendorId.value), s.world.token, link.path.value, s.clock, false, false, true, true, true, [], false);
      assert Open(s, link, realMode, after) == OpenDeferred(s, w.vendorId, w.path, after);
      if Check(w, after).resolved == [true] { CheckResolvesTrueOnlyWhenVerified(w, after); }
    }
  }

  /** A wait that resolves to true does so while its vendor is verified and current under the admin
      token it captured, and was not aborted before. */
  lemma TrueOnlyWhenVerified(s: State, e: Event, i: nat)
    requires Inv(s) && i < |Step(s, e).waits|
    requires Step(s, e).waits[i].resolved == [true]
    requires i < |s.waits| ==> s.waits[i].resolved == []
    ensures var t := Step(s, e);
            var w := t.waits[i];
            && t.world.sessionReady && t.world.authConfirmed && t.world.token == w.token && t.world.isAdmin
            && t.world.selectedVendor == w.vendorId && t.world.status == Verified && t.world.currentVendor == w.vendorId
            && !w.aborted
  {
    assert Step(s, e).waits[i].resolved[0];
    if e.Clicks? {
      AbortKeepsInv(s);
      OpenResolvesVerified(Settle(s), e.link, e.realMode, e.after, i);
    } else {
      assert WaitWf(s.waits[i]);
      assert e.WorldChanges?;
      CheckResolvesTrueOnlyWhenVerified(s.waits[i], e.world);
    }
  }

  /** The step adds this navigation, and for the latest click: at once, or for the pending wait that
      resolved to true. */
  ghost predicate NavigatesLatest(s: State, e: Event, n: Navigation) {
    && Step(s, e).navigations == s.navigations + [n] && n.click == Step(s, e).clicks - 1 && s.mounted
    && (n.waited ==>
          && e.Delivers? && s.pending == Some(e.wait) && e.wait < |s.waits| && s.waits[e.wait].resolved == [true]
          && !s.waits[e.wait].aborted && n.path == s.waits[e.wait].path && n.vendorId == s.waits[e.wait].vendorId)
    && (!n.waited ==> e.Clicks?)
  }

  lemma ClickNavigatesLatest(s: State, link: Link, realMode: bool, after: World)
    requires s.mounted && |HandleClick(s, link, realMode, after).navigations| > |s.navigations|
    ensures NavigatesLatest(s, Clicks(link, realMode, after), HandleClick(s, link, realMode, after).navigations[|s.navigations|])
  {
    ClickDecidesExactly(s, link, realMode, after);
  }

  lemma DeliveryNavigatesLatest(s: State, i: nat)
    requires Inv(s) && Enabled(s, Delivers(i)) && |Deliver(s, i).navigations| > |s.navigations|
    ensures NavigatesLatest(s, Delivers(i), Deliver(s, i).navigations[|s.navigations|])
  {
    assert WaitWf(s.waits[i]);
    DeliveryDecidesExactly(s, i);
  }

  /** Every navigation belongs to the latest click; a deferred one needs that click's own wait to
      have resolved true, and goes to that click's record under that click's vendor. */
  lemma OnlyTheLatestClickNavigates(world: World, events: seq<Event>, e: Event)
    requires var s := Run(Initial(world), events); |Step(s, e).navigations| > |s.navigations|
    ensures var s := Run(Initial(world), events);
            NavigatesLatest(s, e, Step(s, e).navigations[|s.navigations|])
  {
    RunKeepsInv(Initial(world), events);
    var s := Run(Initial(world), events);
    match e
    case Clicks(link, realMode, after) => ClickNavigatesLatest(s, link, realMode, after);
    case Delivers(i) => DeliveryNavigatesLatest(s, i);
    case _ =>
  }

  /** Navigations follow the order of the clicks, at most one for each. */
  lemma NavigationsFollowClicks(world: World, events: seq<Event>, k: nat, l: nat)
    requires k < l < |Run(Initial(world), events).navigations|
    ensures var t := Run(Initial(world), events);
            t.navigations[k].click < t.navigations[l].click < t.clicks
  {
    RunKeepsInv(Initial(world), events);
  }

  // ---------------------------------------------------------------------------------------
  // The wait and the page as objects
  // ---------------------------------------------------------------------------------------

  /** The closure state of `waitForVerifiedAdminVendor` with its abort signal. */
  class VerifiedVendorWait {
    const click: nat
    const vendorId: string
    const token: string
    const path: string
    const startedAt: nat
    var aborted: bool
    var finished: bool
    var listening: bool
    var abortHook: bool
    var timer: bool
    var resolved: seq<bool>
    var delivered: bool

    ghost function Now(): Wait
      reads this
    {
      Wait(click, vendorId, token, path, startedAt, aborted, finished, listening, abortHook, timer, resolved, delivered)
    }

    /** Resolved at most once, and holding its three hooks exactly until then. */
    ghost predicate Valid()
      reads this
    {
      WaitWf(Now())
    }

    /** Registers timer, listener and abort handler, then checks at once. */
    constructor (click: nat, vendorId: string, token: string, path: string, now: nat, world: World)
      ensures Valid() && Now() == NewWait(click, vendorId, token, path, now, world)
      ensures resolved == [true] <==>
                && world.sessionReady && world.authConfirmed && world.token == token && world.isAdmin
                && world.selectedVendor == vendorId && world.status == Verified && world.currentVendor == vendorId
    {
      this.click, this.vendorId, this.token, this.path, startedAt := click, vendorId, token, path, now;
      aborted, finished, delivered, resolved := false, false, false, [];
      timer, listening, abortHook := true, true, true;
      new;
      OnVendorChange(world);
    }

    /** The first call resolves and lets go of every hook; a later one changes nothing. */
    method Finalize(verified: bool)
      requires WaitWf(Now().(aborted := false))
      modifies this`finished, this`listening, this`abortHook, this`timer, this`resolved
      ensures Valid() && resolved == (if old(resolved) == [] then [verified] else old(resolved))
      ensures !listening && !abortHook && !timer
      ensures Now() == Finish(old(Now()), verified)
    {
      if finished { return; }
      finished := true;
      listening := false;
      abortHook := false;
      timer := false;
      resolved := resolved + [verified];
    }

    /** The check, as the vendor-change listener. */
    method OnVendorChange(world: World)
      requires Valid()
      modifies this`finished, this`listening, this`abortHook, this`timer, this`resolved
      ensures Valid() && (old(resolved) != [] ==> resolved == old(resolved))
      ensures old(resolved) == [] ==>
                (resolved == [true] <==>
                   && !aborted && world.sessionReady && world.authConfirmed && world.token == token && world.isAdmin
                   && world.selectedVendor == vendorId && world.status == Verified && world.currentVendor == vendorId)
      ensures Now() == Check(old(Now()), world)
    {
      ghost var before := Now();
      if aborted || !world.AdminWith(token) || world.selectedVendor != vendorId {
        Finalize(false);
      } else if world.status.Verified? && world.currentVendor == vendorId {
        Finalize(true);
      } else if world.status.Failed? || world.status.Empty? {
        Finalize(false);
      }
      if before.resolved == [] { CheckDecidesExactly(before, world); }
    }

    /** `controller.abort()`: whatever was still open resolves to false. */
    method AbortSignal()
      requires Valid()
      modifies this
      ensures Valid() && aborted && resolved == (if old(resolved) == [] then [false] else old(resolved))
      ensures Now() == Abort(old(Now()))
    {
      var dispatch := !aborted && abortHook;
      aborted := true;
      if dispatch { Finalize(false); }
    }
  }

  class OperationsPage {
    var world: World
    var waits: seq<Wait>
    var pendingNavigation: Option<nat>
    var mounted: bool
    var navigationError: bool
    var clicks: nat
    var clock: nat
    var navigations: seq<Navigation>

    ghost function Now(): State
      reads this
    {
      State(world, waits, pendingNavigation, mounted, navigationError, clicks, clock, navigations)
    }

    /** The invariant of the runs. */
    ghost predicate Valid()
      reads this
    {
      Inv(Now())
    }

    /** At most one wait is open: the latest click's. */
    ghost predicate OneOpenWait()
      reads this
    {
      forall i | 0 <= i < |waits| && waits[i].resolved == [] :: pendingNavigation == Some(i) && waits[i].click == clicks - 1
    }

    lemma ValidMeansOneOpenWait()
      requires Valid()
      ensures OneOpenWait()
    {
      forall i | 0 <= i < |waits| && waits[i].resolved == [] ensures pendingNavigation == Some(i) { assert WaitWf(waits[i]); }
    }

    constructor (world: World)
      ensures Valid() && Now() == Initial(world)
    {
      this.world, waits, pendingNavigation, mounted := world, [], None, true;
      navigationError, clicks, clock, navigations := false, 0, 0, [];
    }

    method AbortAndForget()
      modifies this`waits, this`pendingNavigation, this`navigationError
      ensures Now() == Settle(old(Now()))
    {
      if pendingNavigation.Some? && pendingNavigation.value < |waits| {
        waits := waits[pendingNavigation.value := Abort(waits[pendingNavigation.value])];
      }
      pendingNavigation := None;
      navigationError := false;
    }

    /** A click: what was pending is over, and whatever navigates now is this click's. */
    method HandleOperationsNavigation(link: Link, realMode: bool, after: World)
      requires Valid() && mounted
      modifies this`world, this`waits, this`pendingNavigation, this`navigationError, this`clicks, this`navigations
      ensures Valid() && OneOpenWait() && clicks == old(clicks) + 1
      ensures Now() == Step(old(Now()), Clicks(link, realMode, after))
      ensures |navigations| > |old(navigations)| <==>
                && Admits(link, old(world))
                && (if realMode then old(world).VerifiedFor(Trim(link.vendorId.value))
                    else after.currentVendor == Trim(link.vendorId.value))
      ensures |navigations| > |old(navigations)| ==>
                navigations[|old(navigations)|] == Navigation(link.path.value, Trim(link.vendorId.value), old(clicks), false)
      ensures |waits| > |old(waits)| <==>
                Admits(link, old(world)) && realMode && !old(world).VerifiedFor(Trim(link.vendorId.value))
      ensures old(pendingNavigation).Some? ==>
                waits[old(pendingNavigation).value].aborted && waits[old(pendingNavigation).value].resolved != []
    {
      StepKeepsInv(Now(), Clicks(link, realMode, after));
      ClickEndsPending(Now(), link, realMode, after);
      ClickDecidesExactly(Now(), link, realMode, after);
      Open(link, realMode, after);
      ValidMeansOneOpenWait();
    }

    method Open(link: Link, realMode: bool, after: World)
      modifies this`world, this`waits, this`pendingNavigation, this`navigationError, this`clicks, this`navigations
      ensures Now() == HandleClick(old(Now()), link, realMode, after)
    {
      AbortAndForget();
      var click := clicks;
      clicks := clicks + 1;
      if link.path.None? || !IsGuarded(link.path.value) { return; }
      if !IsRecordPath(link.path.value) || !MayOpen(link, world) {
        navigationError := true;
        return;
      }
      var vendor, path := Trim(link.vendorId.value), link.path.value;
      if realMode && world.VerifiedFor(vendor) {
        navigations := navigations + [Navigation(path, vendor, click, false)];
        return;
      }
      var token := world.token;
      world := after;
      waits := Notify(waits, after);
      if realMode {
        pendingNavigation := Some(|waits|);
        waits := waits + [NewWait(click, vendor, token, path, clock, after)];
      } else if after.currentVendor == vendor {
        navigations := navigations + [Navigation(path, vendor, click, false)];
      } else {
        navigationError := true;
      }
    }

    /** The `then` callback of a wait: only the latest click's still acts. */
    method WaitSettled(id: nat)
      requires Valid() && Enabled(Now(), Delivers(id))
      modifies this`waits, this`pendingNavigation, this`navigationError, this`navigations
      ensures Valid() && OneOpenWait()
      ensures Now() == Step(old(Now()), Delivers(id))
      ensures waits[id].click < clicks - 1 || !mounted ==>
                navigations == old(navigations) && navigationError == old(navigationError) && pendingNavigation == old(pendingNavigation)
      ensures |navigations| > |old(navigations)| <==> waits[id].resolved == [true] && !waits[id].aborted && old(pendingNavigation) == Some(id)
      ensures |navigations| > |old(navigations)| ==>
                && navigations[|old(navigations)|] == Navigation(waits[id].path, waits[id].vendorId, clicks - 1, true)
                && mounted
    {
      StepKeepsInv(Now(), Delivers(id));
      assert WaitWf(waits[id]);
      var wait := waits[id];
      waits := waits[id := wait.(delivered := true)];
      if wait.aborted || pendingNavigation != Some(id) {
        ValidMeansOneOpenWait();
        return;
      }
      pendingNavigation := None;
      if wait.resolved[0] {
        navigations := navigations + [Navigation(wait.path, wait.vendorId, wait.click, true)];
      } else {
        navigationError := true;
      }
      ValidMeansOneOpenWait();
    }
  }
}
