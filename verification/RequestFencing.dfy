/** Requests of the API client: each captures the session owner when it starts and checks it
    again after every await, while other code changes the session and the CSRF cache. */
module RequestFencing {
  import opened Options
  import opened Text

  /** What identifies the session a request belongs to. */
  datatype Owner = Owner(
    user: Option<string>, token: Option<string>, transition: Option<string>, restoreAttempt: Option<string>)
  {
    /** What clearing the session leaves. */
    function Cleared(): Owner { Owner(None, None, transition, None) }

    predicate Anonymous() { user.None? && token.None? && restoreAttempt.None? }
  }

  datatype HttpMethod = GET | POST | PUT

  datatype ErrorKind = Network | NotAuthorized | Server | InvalidResponse

  datatype ApiError = ApiError(kind: ErrorKind, status: Option<nat>)

  datatype Outcome = Returned(payload: string) | Rejected(error: ApiError)

  /** Where a request waits. `HeaderReady` and `ReadyToSend` are the gaps between an inner async
      function returning and its caller resuming. */
  datatype Stage =
    | FetchingCsrf
    | ReadingCsrf(csrfStatus: SuccessStatus)
    | HeaderReady(token: Option<string>)
    | ReadyToSend
    | Fetching
    | Reading(status: nat)
    | Done(outcome: Outcome)

  datatype Request = Request(
    owner: Owner, method': HttpMethod, endpoint: string, csrfHeader: Option<string>, stage: Stage)

  /** What a resuming request sees and may change: the current session owner, the CSRF cache and itself. */
  datatype View = View(owner: Owner, csrf: Option<string>, request: Request) {
    predicate Current() { request.owner == owner }

    function At(stage: Stage): View { this.(request := request.(stage := stage)) }
  }

  datatype State = State(realMode: bool, owner: Owner, csrf: Option<string>, requests: seq<Request>)

  predicate Success(status: nat) { 200 <= status <= 299 }

  type SuccessStatus = status: nat | Success(status) witness 200

  predicate RequiresCsrf(realMode: bool, method': HttpMethod, endpoint: string) {
    realMode && method' != GET && endpoint != "/auth/login" && endpoint != "/auth/logout"
  }

  /** Endpoints whose 401 answer clears the local session. */
  predicate ClearsSession(endpoint: string) { endpoint != "/auth/me" && endpoint != "/auth/logout" }

  /** The trimmed token, or nothing when it is blank. */
  function NormalizedToken(token: Option<string>): Option<string> {
    if token.None? || Trim(token.value) == "" then None else Some(Trim(token.value))
  }

  const SESSION_CHANGED := ApiError(InvalidResponse, None)

  predicate MeansUnauthorized(error: ApiError) { error.kind == NotAuthorized || error.status == Some(401) }

  /** The `catch` of `request` for an API error. */
  function Fail(v: View, error: ApiError): View {
    var cleared :=
      if MeansUnauthorized(error) && ClearsSession(v.request.endpoint) && v.Current() then
        v.(csrf := None, owner := v.owner.Cleared())
      else v;
    cleared.At(Done(Rejected(error)))
  }

  /** The start of `request`, up to its first await. */
  function Begin(realMode: bool, owner: Owner, csrf: Option<string>,
                 method': HttpMethod, endpoint: string, csrfHeader: Option<string>): Request
  {
    if !RequiresCsrf(realMode, method', endpoint) || csrfHeader.Some? then
      Request(owner, method', endpoint, csrfHeader, ReadyToSend)
    else
      Request(owner, method', endpoint, csrf, if csrf.Some? then ReadyToSend else FetchingCsrf)
  }

  /** The CSRF endpoint answered. */
  function CsrfAnswered(v: View, status: nat): View {
    if !v.Current() then Fail(v, SESSION_CHANGED)
    else if !Success(status) then Fail(v.(csrf := None), ApiError(NotAuthorized, Some(status)))
    else v.At(ReadingCsrf(status))
  }

  /** The CSRF answer's body was read; `token` is absent when it is not a string. */
  function CsrfRead(v: View, token: Option<string>): View
    requires v.request.stage.ReadingCsrf?
  {
    if !v.Current() then Fail(v, SESSION_CHANGED)
    else if NormalizedToken(token).None? then
      Fail(v.(csrf := None), ApiError(InvalidResponse, Some(v.request.stage.csrfStatus)))
    else v.(csrf := NormalizedToken(token)).At(HeaderReady(NormalizedToken(token)))
  }

  /** `attachCsrfHeaderIfNeeded` resumes with the fetched token. */
  function HeaderResumed(v: View): View
    requires v.request.stage.HeaderReady?
  {
    if !v.Current() then Fail(v, SESSION_CHANGED)
    else v.(request := v.request.(csrfHeader := v.request.stage.token, stage := ReadyToSend))
  }

  /** `request` resumes and sends. */
  function SendResumed(v: View): View {
    if !v.Current() then Fail(v, SESSION_CHANGED) else v.At(Fetching)
  }

  /** The request's own response arrived. */
  function Answered(v: View, status: nat): View {
    if !v.Current() then Fail(v, SESSION_CHANGED) else v.At(Reading(status))
  }

  datatype Body = Parsed(payload: string) | BadJson

  /** The response body was read. Malformed JSON throws before the owner is checked. */
  function BodyRead(v: View, body: Body): View
    requires v.request.stage.Reading?
  {
    var status := v.request.stage.status;
    if body.BadJson? then Fail(v, ApiError(InvalidResponse, Some(status)))
    else if !v.Current() then Fail(v, SESSION_CHANGED)
    else if !Success(status) then Fail(v, ApiError(if status == 401 then NotAuthorized else Server, Some(status)))
    else v.At(Done(Returned(body.payload)))
  }

  /** An await rejected with something other than an API error. */
  function NetworkFailed(v: View): View { v.At(Done(Rejected(ApiError(Network, None)))) }

  /** What continues an awaiting request. */
  datatype Arrival =
    | CsrfResponse(status: nat)
    | CsrfBody(token: Option<string>)
    | HeaderResumes
    | SendResumes
    | Response(status: nat)
    | ResponseBody(body: Body)
    | NetworkFailure

  predicate Awaits(stage: Stage, arrival: Arrival) {
    match arrival
    case CsrfResponse(_) => stage.FetchingCsrf?
    case CsrfBody(_) => stage.ReadingCsrf?
    case HeaderResumes => stage.HeaderReady?
    case SendResumes => stage.ReadyToSend?
    case Response(_) => stage.Fetching?
    case ResponseBody(_) => stage.Reading?
    case NetworkFailure => stage.FetchingCsrf? || stage.ReadingCsrf? || stage.Fetching? || stage.Reading?
  }

  function Continue(v: View, arrival: Arrival): View
    requires Awaits(v.request.stage, arrival)
  {
    match arrival
    case CsrfResponse(status) => CsrfAnswered(v, status)
    case CsrfBody(token) => CsrfRead(v, token)
    case HeaderResumes => HeaderResumed(v)
    case SendResumes => SendResumed(v)
    case Response(status) => Answered(v, status)
    case ResponseBody(body) => BodyRead(v, body)
    case NetworkFailure => NetworkFailed(v)
  }

  datatype Event =
    | Started(method': HttpMethod, endpoint: string, csrfHeader: Option<string>)
    | Arrives(request: nat, arrival: Arrival)
    | SessionChanges(owner: Owner)
    | CsrfChanges(token: Option<string>)

  predicate Enabled(s: State, e: Event) {
    e.Arrives? ==> e.request < |s.requests| && Awaits(s.requests[e.request].stage, e.arrival)
  }

  function Step(s: State, e: Event): State {
    if !Enabled(s, e) then s else
    match e
    case Started(m, endpoint, header) =>
      s.(requests := s.requests + [Begin(s.realMode, s.owner, s.csrf, m, endpoint, header)])
    case Arrives(i, arrival) =>
      var v := Continue(View(s.owner, s.csrf, s.requests[i]), arrival);
      s.(owner := v.owner, csrf := v.csrf, requests := s.requests[i := v.request])
    case SessionChanges(owner) => s.(owner := owner)
    case CsrfChanges(token) => s.(csrf := NormalizedToken(token))
  }

  function Run(s: State, events: seq<Event>): State
    decreases |events|
  {
    if events == [] then s else Run(Step(s, events[0]), events[1..])
  }

  predicate Returns(r: Request) { r.stage.Done? && r.stage.outcome.Returned? }

  // ---------------------------------------------------------------------------------------
  // Effects only under the captured owner
  // ---------------------------------------------------------------------------------------

  /** A continuing request changes the session or the CSRF cache, sends, or returns its payload
      only while the owner it captured is the current one. It keeps that owner for ever. */
  lemma EffectsOnlyUnderOwner(v: View, arrival: Arrival)
    requires Awaits(v.request.stage, arrival)
    ensures var w := Continue(v, arrival);
            && w.request.owner == v.request.owner
            && (w.owner != v.owner || w.csrf != v.csrf || w.request.stage.Fetching? || Returns(w.request) ==>
                  v.Current())
  {
  }

  /** A continuing request clears a signed-in session exactly when it is answered unauthorized, by a
      CSRF answer that is no success or by a 401, its endpoint is one that clears, and its owner is
      still current. It leaves the published transition and nothing else. */
  lemma ClearsExactlyWhen(v: View, arrival: Arrival)
    requires Awaits(v.request.stage, arrival) && !v.owner.Anonymous()
    ensures var w := Continue(v, arrival);
            && (w.owner != v.owner <==>
                  && ((arrival.CsrfResponse? && (arrival.status < 200 || arrival.status > 299))
                      || (arrival.ResponseBody? && v.request.stage.status == 401))
                  && v.request.endpoint != "/auth/me" && v.request.endpoint != "/auth/logout"
                  && v.request.owner == v.owner)
            && (w.owner != v.owner ==> w.owner == Owner(None, None, v.owner.transition, None) && w.csrf.None?)
  {
  }

  // ---------------------------------------------------------------------------------------
  // What each answer makes of a request
  // ---------------------------------------------------------------------------------------

  /** A request returns exactly when the body of a 2xx response has parsed under its own owner, and
      what it returns is that body. */
  lemma ReturnsExactlyWhen(v: View, arrival: Arrival)
    requires Awaits(v.request.stage, arrival)
    ensures var w := Continue(v, arrival);
            && (Returns(w.request) <==>
                  && arrival.ResponseBody? && arrival.body.Parsed? && v.request.owner == v.owner
                  && 200 <= v.request.stage.status <= 299)
            && (Returns(w.request) ==> w.request.stage.outcome.payload == arrival.body.payload)
  {
  }

  /** Every other body ends its request with the error the answer dictates: malformed JSON is an
      invalid response whoever is signed in, a changed owner an invalid response without a status,
      401 is unauthorized, and any other status a failure of the server. */
  lemma BodiesAreRejectedExactly(v: View, body: Body)
    requires v.request.stage.Reading?
    ensures var status := v.request.stage.status;
            var stage := Continue(v, ResponseBody(body)).request.stage;
            && (body.BadJson? ==> stage == Done(Rejected(ApiError(InvalidResponse, Some(status)))))
            && (body.Parsed? && v.request.owner != v.owner ==> stage == Done(Rejected(ApiError(InvalidResponse, None))))
            && (body.Parsed? && v.request.owner == v.owner && status == 401 ==>
                  stage == Done(Rejected(ApiError(NotAuthorized, Some(401)))))
            && (body.Parsed? && v.request.owner == v.owner && status != 401 && (status < 200 || status > 299) ==>
                  stage == Done(Rejected(ApiError(Server, Some(status)))))
  {
  }

  /** And before the body: a changed owner ends the request, a CSRF answer that is no success or
      brings no text ends it too, and otherwise it goes on to its next await with what it received. */
  lemma EarlierArrivalsExactly(v: View, arrival: Arrival)
    requires Awaits(v.request.stage, arrival) && !arrival.ResponseBody?
    ensures var r, stage := v.request, Continue(v, arrival).request.stage;
            var current := r.owner == v.owner;
            && (arrival.NetworkFailure? ==> stage == Done(Rejected(ApiError(Network, None))))
            && (!arrival.NetworkFailure? && !current ==> stage == Done(Rejected(ApiError(InvalidResponse, None))))
            && (arrival.CsrfResponse? && current ==>
                  if 200 <= arrival.status <= 299 then stage.ReadingCsrf? && stage.csrfStatus == arrival.status
                  else stage == Done(Rejected(ApiError(NotAuthorized, Some(arrival.status)))))
            && (arrival.CsrfBody? && current ==>
                  if arrival.token.Some? && Trim(arrival.token.value) != "" then stage == HeaderReady(Some(Trim(arrival.token.value)))
                  else stage == Done(Rejected(ApiError(InvalidResponse, Some(r.stage.csrfStatus)))))
            && (arrival.HeaderResumes? && current ==> stage == ReadyToSend && Continue(v, arrival).request.csrfHeader == r.stage.token)
            && (arrival.SendResumes? && current ==> stage == Fetching)
            && (arrival.Response? && current ==> stage == Reading(arrival.status))
  {
  }

  /** The cache afterwards: a text the CSRF endpoint brought, trimmed; nothing after a CSRF answer
      without one, or after a 401 that clears; and otherwise what it was. */
  lemma CacheAfterExactly(v: View, arrival: Arrival)
    requires Awaits(v.request.stage, arrival)
    ensures var current := v.request.owner == v.owner;
            var unauthorized := arrival.ResponseBody? && v.request.stage.status == 401
                                && v.request.endpoint != "/auth/me" && v.request.endpoint != "/auth/logout";
            Continue(v, arrival).csrf ==
              if current && arrival.CsrfBody? && arrival.token.Some? && Trim(arrival.token.value) != ""
              then Some(Trim(arrival.token.value))
              else if current && (arrival.CsrfBody? || (arrival.CsrfResponse? && (arrival.status < 200 || arrival.status > 299)) || unauthorized)
              then None
              else v.csrf
  {
  }

  /** A starting request fetches a token exactly when it writes, in real mode, to any endpoint but
      login and logout, was given no token and finds none cached. Otherwise it goes on with the token
      given or, where one is needed, the cached one. */
  lemma FetchesTokenExactlyWhen(realMode: bool, owner: Owner, csrf: Option<string>,
                                method': HttpMethod, endpoint: string, csrfHeader: Option<string>)
    ensures var r := Begin(realMode, owner, csrf, method', endpoint, csrfHeader);
            var needed := realMode && method' != GET && endpoint != "/auth/login" && endpoint != "/auth/logout";
            && r.owner == owner && r.method' == method' && r.endpoint == endpoint
            && (r.stage == FetchingCsrf <==> needed && csrfHeader == None && csrf == None)
            && (r.stage != FetchingCsrf ==> r.stage == ReadyToSend)
            && r.csrfHeader == (if csrfHeader != None then csrfHeader else if needed then csrf else None)
  {
  }

  /** What an event changes: an arrival exactly the request it is for, the session and the cache as its
      continuation leaves them; a start adds one request; other code sets the session, or the cache
      to a trimmed token that is not blank. */
  lemma StepExactly(s: State, e: Event)
    requires Enabled(s, e)
    ensures var t := Step(s, e);
            match e
            case Started(m, endpoint, header) =>
              t == s.(requests := s.requests + [Begin(s.realMode, s.owner, s.csrf, m, endpoint, header)])
            case Arrives(i, arrival) =>
              var v := Continue(View(s.owner, s.csrf, s.requests[i]), arrival);
              t == State(s.realMode, v.owner, v.csrf, s.requests[i := v.request])
            case SessionChanges(owner) => t == s.(owner := owner)
            case CsrfChanges(token) =>
              t == s.(csrf := if token != None && Trim(token.value) != "" then Some(Trim(token.value)) else None)
  {
  }

  /** Event `e` brings request `i` the body `payload` of a 2xx response under its own owner. */
  predicate BringsAnswer(s: State, e: Event, i: nat, payload: string) {
    && e == Arrives(i, ResponseBody(Parsed(payload)))
    && i < |s.requests| && s.requests[i].owner == s.owner
    && s.requests[i].stage.Reading? && 200 <= s.requests[i].stage.status <= 299
  }

  lemma NewReturnsAreAnswers(s: State, e: Event, i: nat)
    requires i < |Step(s, e).requests| && Returns(Step(s, e).requests[i])
    requires i < |s.requests| ==> !Returns(s.requests[i])
    ensures BringsAnswer(s, e, i, Step(s, e).requests[i].stage.outcome.payload)
  {
    if e.Arrives? && Enabled(s, e) { ReturnsExactlyWhen(View(s.owner, s.csrf, s.requests[e.request]), e.arrival); }
  }

  lemma OutcomesAreFinal(s: State, e: Event, i: nat)
    requires i < |s.requests| && s.requests[i].stage.Done?
    ensures i < |Step(s, e).requests| && Step(s, e).requests[i] == s.requests[i]
  {
  }

  /** Over every run: a returned payload is the body some event brought of a 2xx response to this very
      request, while its owner was current. */
  lemma {:induction false} ReturnedWasAnswered(s: State, events: seq<Event>, i: nat) returns (k: nat)
    requires var t := Run(s, events); i < |t.requests| && Returns(t.requests[i])
    requires i < |s.requests| ==> !Returns(s.requests[i])
    ensures k < |events|
    ensures BringsAnswer(Run(s, events[..k]), events[k], i, Run(s, events).requests[i].stage.outcome.payload)
    decreases |events|
  {
    var s' := Step(s, events[0]);
    if i < |s'.requests| && Returns(s'.requests[i]) {
      k := 0;
      NewReturnsAreAnswers(s, events[0], i);
      EndedStaysEnded(s', events[1..], i);
    } else {
      var m := ReturnedWasAnswered(s', events[1..], i);
      k := m + 1;
      assert events[..k][1..] == events[1..][..m];
    }
  }

  lemma {:induction false} EndedStaysEnded(s: State, events: seq<Event>, i: nat)
    requires i < |s.requests| && s.requests[i].stage.Done?
    ensures i < |Run(s, events).requests| && Run(s, events).requests[i] == s.requests[i]
    decreases |events|
  {
    if events != [] {
      OutcomesAreFinal(s, events[0], i);
      EndedStaysEnded(Step(s, events[0]), events[1..], i);
    }
  }

  // ---------------------------------------------------------------------------------------
  // Requests of a superseded session are invisible
  // ---------------------------------------------------------------------------------------

  predicate Captured(s: State, i: int, o: Owner) { 0 <= i < |s.requests| && s.requests[i].owner == o }

  /** Owner `o` is over: it is current neither now nor at any point of the run. */
  predicate IsOver(s: State, o: Owner, events: seq<Event>)
    decreases |events|
  {
    s.owner != o && (events != [] ==> IsOver(Step(s, events[0]), o, events[1..]))
  }

  predicate IsLate(s: State, o: Owner, e: Event) { e.Arrives? && Captured(s, e.request, o) }

  /** `events` without those that continue a request of `o`. The requests of `o` are fixed from
      `s` on, since none can start while another owner is current. */
  function WithoutLate(s: State, o: Owner, events: seq<Event>): seq<Event> {
    if events == [] then []
    else if IsLate(s, o, events[0]) then WithoutLate(s, o, events[1..])
    else [events[0]] + WithoutLate(s, o, events[1..])
  }

  /** Two states that only the requests of `o` could tell apart. */
  ghost predicate Agree(s: State, t: State, o: Owner) {
    && s.realMode == t.realMode && s.owner == t.owner && s.csrf == t.csrf && |s.requests| == |t.requests|
    && (forall i | 0 <= i < |s.requests| :: Captured(s, i, o) <==> Captured(t, i, o))
    && (forall i | 0 <= i < |s.requests| && !Captured(s, i, o) :: s.requests[i] == t.requests[i])
  }

  lemma LateStepIsInvisible(s: State, o: Owner, e: Event)
    requires s.owner != o && IsLate(s, o, e)
    ensures Agree(Step(s, e), s, o)
  {
    if Enabled(s, e) { EffectsOnlyUnderOwner(View(s.owner, s.csrf, s.requests[e.request]), e.arrival); }
  }

  lemma OtherStepsAgree(s: State, t: State, o: Owner, e: Event)
    requires Agree(s, t, o) && !IsLate(s, o, e)
    ensures Agree(Step(s, e), Step(t, e), o)
  {
    if e.Arrives? && e.request < |s.requests| {
      assert s.requests[e.request] == t.requests[e.request];
      if Enabled(s, e) { EffectsOnlyUnderOwner(View(s.owner, s.csrf, s.requests[e.request]), e.arrival); }
    }
  }

  /** No step under another owner starts a request for `o`. */
  lemma StepKeepsCaptured(s: State, o: Owner, e: Event)
    requires s.owner != o
    ensures forall i :: Captured(Step(s, e), i, o) <==> Captured(s, i, o)
  {
    if e.Arrives? && Enabled(s, e) {
      EffectsOnlyUnderOwner(View(s.owner, s.csrf, s.requests[e.request]), e.arrival);
    }
  }

  /** Which events count as late depends only on the owners of the requests. */
  lemma {:induction false} LateIsFixed(s: State, t: State, o: Owner, events: seq<Event>)
    requires forall i :: Captured(s, i, o) <==> Captured(t, i, o)
    ensures WithoutLate(s, o, events) == WithoutLate(t, o, events)
  {
    if events != [] { LateIsFixed(s, t, o, events[1..]); }
  }

  /** Erasing every late event of a session that is over changes neither the session, nor the
      CSRF cache, nor any other request: late replies are invisible in every run. */
  lemma {:induction false} LateRepliesAreInvisible(s: State, t: State, o: Owner, events: seq<Event>)
    requires IsOver(s, o, events) && Agree(s, t, o)
    ensures Agree(Run(s, events), Run(t, WithoutLate(s, o, events)), o)
    decreases |events|
  {
    if events != [] {
      var e, rest := events[0], events[1..];
      var s' := Step(s, e);
      StepKeepsCaptured(s, o, e);
      LateIsFixed(s, s', o, rest);
      if IsLate(s, o, e) {
        LateStepIsInvisible(s, o, e);
        AgreeTransitive(s', s, t, o);
        LateRepliesAreInvisible(s', t, o, rest);
      } else {
        OtherStepsAgree(s, t, o, e);
        LateRepliesAreInvisible(s', Step(t, e), o, rest);
        assert ([e] + WithoutLate(s, o, rest))[1..] == WithoutLate(s, o, rest);
      }
    }
  }

  lemma AgreeTransitive(s: State, t: State, u: State, o: Owner)
    requires Agree(s, t, o) && Agree(t, u, o)
    ensures Agree(s, u, o)
  {
  }

  /** A session that is over stays over, and none of its requests returns a payload any more. */
  lemma {:induction false} LateRequestsNeverReturn(s: State, o: Owner, events: seq<Event>, i: nat)
    requires IsOver(s, o, events) && Captured(s, i, o) && !Returns(s.requests[i])
    ensures var t := Run(s, events);
            t.owner != o && Captured(t, i, o) && !Returns(t.requests[i])
    decreases |events|
  {
    if events != [] {
      var e := events[0];
      StepKeepsCaptured(s, o, e);
      if e.Arrives? && Enabled(s, e) {
        EffectsOnlyUnderOwner(View(s.owner, s.csrf, s.requests[e.request]), e.arrival);
      }
      assert Captured(Step(s, e), i, o);
      LateRequestsNeverReturn(Step(s, e), o, events[1..], i);
    }
  }

  // ---------------------------------------------------------------------------------------
  // Tokens
  // ---------------------------------------------------------------------------------------

  /** The cached token is trimmed and not blank, and a request past the header stage that must carry
      a token does. */
  ghost predicate Inv(s: State) {
    && NormalizedToken(s.csrf) == s.csrf
    && forall i | 0 <= i < |s.requests| :: CarriesToken(s.realMode, s.requests[i])
  }

  predicate CarriesToken(realMode: bool, r: Request) {
    && (r.stage.HeaderReady? ==> r.stage.token.Some?)
    && (RequiresCsrf(realMode, r.method', r.endpoint) && (r.stage.ReadyToSend? || r.stage.Fetching? || r.stage.Reading? || Returns(r)) ==>
          r.csrfHeader.Some?)
  }

  lemma NormalizedIsNormal(token: Option<string>)
    ensures NormalizedToken(NormalizedToken(token)) == NormalizedToken(token)
  {
    if token.Some? { TrimIdempotent(token.value); }
  }

  lemma ContinueKeepsTokens(realMode: bool, v: View, arrival: Arrival)
    requires Awaits(v.request.stage, arrival) && CarriesToken(realMode, v.request) && NormalizedToken(v.csrf) == v.csrf
    ensures var w := Continue(v, arrival);
            CarriesToken(realMode, w.request) && NormalizedToken(w.csrf) == w.csrf
  {
    if arrival.CsrfBody? { NormalizedIsNormal(arrival.token); }
  }

  lemma StepKeepsInv(s: State, e: Event)
    requires Inv(s)
    ensures Inv(Step(s, e))
  {
    if Enabled(s, e) {
      match e
      case Arrives(i, arrival) => ContinueKeepsTokens(s.realMode, View(s.owner, s.csrf, s.requests[i]), arrival);
      case CsrfChanges(token) => NormalizedIsNormal(token);
      case _ =>
    }
  }

  /** In every run, a request that needs a CSRF token carries one from the moment it may be sent. */
  lemma {:induction false} SentRequestsCarryTokens(s: State, events: seq<Event>, i: nat)
    requires Inv(s)
    ensures var t := Run(s, events);
            Inv(t) && (i < |t.requests| ==> CarriesToken(t.realMode, t.requests[i]))
    decreases |events|
  {
    if events != [] {
      StepKeepsInv(s, events[0]);
      SentRequestsCarryTokens(Step(s, events[0]), events[1..], i);
    }
  }

  // ---------------------------------------------------------------------------------------
  // The client as an object
  // ---------------------------------------------------------------------------------------

  /** The module state of the client with the requests it serves. */
  class ApiClient {
    const realMode: bool
    var owner: Owner
    var csrfToken: Option<string>
    var requests: seq<Request>

    ghost function Now(): State
      reads this
    {
      State(realMode, owner, csrfToken, requests)
    }

    ghost predicate Valid()
      reads this
    {
      Inv(Now())
    }

    constructor (realMode: bool, owner: Owner)
      ensures Valid() && Now() == State(realMode, owner, None, [])
    {
      this.realMode, this.owner := realMode, owner;
      csrfToken, requests := None, [];
    }

    method SetCsrfToken(token: Option<string>)
      modifies this`csrfToken
      ensures Now() == Step(old(Now()), CsrfChanges(token))
      ensures old(Valid()) ==> Valid()
    {
      if Valid() { StepKeepsInv(Now(), CsrfChanges(token)); }
      csrfToken := None;
      if token.Some? && Trim(token.value) != "" {
        csrfToken := Some(Trim(token.value));
      }
    }

    method ClearSession()
      modifies this`owner
      ensures owner == old(owner).Cleared()
    {
      owner := owner.(user := None, token := None, restoreAttempt := None);
    }

    method StartRequest(method': HttpMethod, endpoint: string, csrfHeader: Option<string>) returns (id: nat)
      requires Valid()
      modifies this`requests
      ensures Valid() && id < |requests| && requests[id].owner == owner
      ensures Now() == Step(old(Now()), Started(method', endpoint, csrfHeader)) && id == |old(requests)|
      ensures requests[id].stage == FetchingCsrf <==>
                && realMode && method' != GET && endpoint != "/auth/login" && endpoint != "/auth/logout"
                && csrfHeader == None && csrfToken == None
    {
      StepKeepsInv(Now(), Started(method', endpoint, csrfHeader));
      id := |requests|;
      var header, stage := csrfHeader, ReadyToSend;
      if RequiresCsrf(realMode, method', endpoint) && csrfHeader.None? {
        header := csrfToken;
        if csrfToken.None? { stage := FetchingCsrf; }
      }
      requests := requests + [Request.Request(owner, method', endpoint, header, stage)];
    }

    method Move(id: nat, stage: Stage)
      requires id < |requests|
      modifies this`requests
      ensures requests == old(requests)[id := old(requests)[id].(stage := stage)]
    {
      requests := requests[id := requests[id].(stage := stage)];
    }

    method HandleError(id: nat, error: ApiError)
      requires id < |requests|
      modifies this
      ensures |requests| == |old(requests)|
      ensures View(owner, csrfToken, requests[id]) == Fail(old(View(owner, csrfToken, requests[id])), error)
      ensures requests == old(requests)[id := requests[id]]
    {
      if (error.kind == NotAuthorized || error.status == Some(401))
         && ClearsSession(requests[id].endpoint) && owner == requests[id].owner {
        csrfToken := None;
        ClearSession();
      }
      Move(id, Done(Rejected(error)));
    }

    /** The continuation after one await of request `id`. Under another owner it can only end the
        request; the body of a 2xx response is what it returns, and any other body rejects it with
        the error the answer dictates; and a request it sends carries the token it needs. */
    method Continue(id: nat, arrival: Arrival)
      requires Valid() && id < |requests| && Awaits(requests[id].stage, arrival)
      modifies this
      ensures Valid() && |requests| == |old(requests)|
      ensures Now() == Step(old(Now()), Arrives(id, arrival))
      ensures old(owner != requests[id].owner) ==>
                owner == old(owner) && csrfToken == old(csrfToken) && requests[id].stage.Done? && !Returns(requests[id])
      ensures Returns(requests[id]) <==>
                && arrival.ResponseBody? && arrival.body.Parsed?
                && old(owner == requests[id].owner && 200 <= requests[id].stage.status <= 299)
      ensures Returns(requests[id]) ==> requests[id].stage.outcome.payload == arrival.body.payload
      ensures arrival.ResponseBody? && !Returns(requests[id]) ==>
                var status := old(requests[id].stage.status);
                requests[id].stage.Done? && requests[id].stage.outcome.error ==
                  if arrival.body.BadJson? then ApiError(InvalidResponse, Some(status))
                  else if old(owner != requests[id].owner) then ApiError(InvalidResponse, None)
                  else if status == 401 then ApiError(NotAuthorized, Some(401))
                  else ApiError(Server, Some(status))
      ensures requests[id].stage.Fetching? && realMode && requests[id].method' != GET
              && requests[id].endpoint != "/auth/login" && requests[id].endpoint != "/auth/logout" ==>
                requests[id].csrfHeader.Some?
    {
      ReturnsExactlyWhen(View(owner, csrfToken, requests[id]), arrival);
      if arrival.ResponseBody? { BodiesAreRejectedExactly(View(owner, csrfToken, requests[id]), arrival.body); }
      EffectsOnlyUnderOwner(View(owner, csrfToken, requests[id]), arrival);
      StepKeepsInv(Now(), Arrives(id, arrival));
      Resume(id, arrival);
    }

    method Resume(id: nat, arrival: Arrival)
      requires id < |requests| && Awaits(requests[id].stage, arrival)
      modifies this
      ensures Now() == Step(old(Now()), Arrives(id, arrival))
    {
      if arrival.NetworkFailure? {
        Move(id, Done(Rejected(ApiError(Network, None))));
        return;
      }
      var stage := requests[id].stage;
      if arrival == ResponseBody(BadJson) {
        HandleError(id, ApiError(InvalidResponse, Some(stage.status)));
        return;
      }
      if owner != requests[id].owner {
        HandleError(id, SESSION_CHANGED);
        return;
      }
      match arrival {
        case CsrfResponse(status) =>
          if Success(status) {
            Move(id, ReadingCsrf(status));
          } else {
            csrfToken := None;
            HandleError(id, ApiError(NotAuthorized, Some(status)));
          }
        case CsrfBody(token) =>
          if NormalizedToken(token).None? {
            csrfToken := None;
            HandleError(id, ApiError(InvalidResponse, Some(stage.csrfStatus)));
          } else {
            SetCsrfToken(token);
            Move(id, HeaderReady(csrfToken));
          }
        case HeaderResumes =>
          requests := requests[id := requests[id].(csrfHeader := stage.token, stage := ReadyToSend)];
        case SendResumes => Move(id, Fetching);
        case Response(status) => Move(id, Reading(status));
        case ResponseBody(body) =>
          if Success(stage.status) {
            Move(id, Done(Returned(body.payload)));
          } else {
            HandleError(id, ApiError(if stage.status == 401 then NotAuthorized else Server, Some(stage.status)));
          }
      }
    }
  }
}
