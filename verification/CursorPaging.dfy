/** Two cursor paginations: the ticket page keeps a list of cursors and an index, the vendor selector
    a stack of cursors and a request key that admits only the answer to the current request. */
module CursorPaging {
  import opened Options
  import opened Text

  /** The cursor of a page; the first page has none. */
  type Cursor = Option<string>

  /** The next cursor a server gives for a filter signature and a cursor. An empty one is none. */
  type Server = (string, Cursor) -> Cursor

  function Following(server: Server, filters: string, cursor: Cursor): Cursor {
    var next := server(filters, cursor);
    if next.Some? && next.value != "" then next else None
  }

  /** The cursor of page `i`: the `i`-th iterate of the server from the first page. */
  function Iterate(server: Server, filters: string, i: nat): Cursor {
    if i == 0 then None else Following(server, filters, Iterate(server, filters, i - 1))
  }

  /** Entry `i` is the `i`-th iterate, and every entry after the first is a real cursor. */
  ghost predicate IsChain(server: Server, filters: string, cursors: seq<Cursor>) {
    && cursors != []
    && forall i: nat | i < |cursors| :: cursors[i] == Iterate(server, filters, i) && (i > 0 ==> cursors[i].Some?)
  }

  lemma ChainPrefix(server: Server, filters: string, cursors: seq<Cursor>, n: nat)
    requires IsChain(server, filters, cursors) && 0 < n <= |cursors|
    ensures IsChain(server, filters, cursors[..n])
  {
  }

  lemma ChainSnoc(server: Server, filters: string, cursors: seq<Cursor>)
    requires IsChain(server, filters, cursors) && Following(server, filters, cursors[|cursors| - 1]).Some?
    ensures IsChain(server, filters, cursors + [Following(server, filters, cursors[|cursors| - 1])])
  {
    assert cursors[|cursors| - 1] == Iterate(server, filters, |cursors| - 1);
  }

  // ---------------------------------------------------------------------------------------
  // List and index
  // ---------------------------------------------------------------------------------------

  datatype Pagination = Pagination(signature: string, cursors: seq<Cursor>, index: int)

  function Fresh(signature: string): Pagination { Pagination(signature, [None], 0) }

  function Active(p: Pagination, signature: string): Pagination {
    if p.signature == signature then p else Fresh(signature)
  }

  predicate InRange(p: Pagination) { 0 <= p.index < |p.cursors| }

  /** `nextPage`, given the next cursor of the page on screen, if loaded. */
  function NextPage(p: Pagination, signature: string, next: Cursor): Pagination
    requires InRange(Active(p, signature))
  {
    var a := Active(p, signature);
    if next.None? || next.value == "" then p
    else Pagination(signature, a.cursors[..a.index + 1] + [next], a.index + 1)
  }

  function PreviousPage(p: Pagination, signature: string): Pagination {
    var a := Active(p, signature);
    a.(index := if a.index - 1 > 0 then a.index - 1 else 0)
  }

  /** The ticket page: the signature of the current filters, and the pagination state, which the
      signature effect resets some time after the signature has changed. */
  datatype TicketPage = TicketPage(signature: string, pagination: Pagination)

  datatype TicketEvent =
    | FiltersChange(signature: string)
    | EffectRuns
    | NextClicked(loaded: bool)
    | PreviousClicked

  function CurrentCursor(t: TicketPage): Cursor
    requires InRange(Active(t.pagination, t.signature))
  {
    var a := Active(t.pagination, t.signature);
    a.cursors[a.index]
  }

  /** The page on screen is keyed by signature and cursor, so its next cursor is the server's for them. */
  function TicketStep(server: Server, t: TicketPage, e: TicketEvent): TicketPage
    requires InRange(Active(t.pagination, t.signature))
  {
    match e
    case FiltersChange(signature) => t.(signature := signature)
    case EffectRuns => t.(pagination := Fresh(t.signature))
    case NextClicked(loaded) =>
      t.(pagination := NextPage(t.pagination, t.signature, if loaded then server(t.signature, CurrentCursor(t)) else None))
    case PreviousClicked => t.(pagination := PreviousPage(t.pagination, t.signature))
  }

  /** The cursors held are a chain for the signature they were built under, and the index is in range. */
  ghost predicate TicketInv(server: Server, t: TicketPage) {
    InRange(t.pagination) && IsChain(server, t.pagination.signature, t.pagination.cursors)
  }

  lemma FreshIsChain(server: Server, signature: string)
    ensures IsChain(server, signature, Fresh(signature).cursors) && InRange(Fresh(signature))
  {
  }

  lemma TicketStepKeepsInv(server: Server, t: TicketPage, e: TicketEvent)
    requires TicketInv(server, t)
    ensures TicketInv(server, TicketStep(server, t, e))
  {
    FreshIsChain(server, t.signature);
    var a := Active(t.pagination, t.signature);
    ChainPrefix(server, t.signature, a.cursors, a.index + 1);
    var next := server(t.signature, CurrentCursor(t));
    if next.Some? && next.value != "" {
      ChainSnoc(server, t.signature, a.cursors[..a.index + 1]);
    }
  }

  ghost function TicketRun(server: Server, t: TicketPage, events: seq<TicketEvent>): TicketPage
    requires TicketInv(server, t)
    decreases |events|
  {
    if events == [] then t
    else
      TicketStepKeepsInv(server, t, events[0]);
      TicketRun(server, TicketStep(server, t, events[0]), events[1..])
  }

  lemma {:induction false} TicketRunKeepsInv(server: Server, t: TicketPage, events: seq<TicketEvent>)
    requires TicketInv(server, t)
    ensures TicketInv(server, TicketRun(server, t, events))
    decreases |events|
  {
    if events != [] {
      TicketStepKeepsInv(server, t, events[0]);
      TicketRunKeepsInv(server, TicketStep(server, t, events[0]), events[1..]);
    }
  }

  lemma TicketStartIsInv(server: Server, signature: string)
    ensures TicketInv(server, TicketPage(signature, Fresh("")))
  {
    FreshIsChain(server, "");
  }

  /** In every reachable state the page on screen is page `index` of the current filters: its cursor
      is that many steps from the first, never one obtained under other filters. */
  lemma ShownPageIsTheIndexedOne(server: Server, signature: string, events: seq<TicketEvent>)
    ensures TicketInv(server, TicketPage(signature, Fresh("")))
    ensures var t := TicketRun(server, TicketPage(signature, Fresh("")), events);
            var a := Active(t.pagination, t.signature);
            InRange(a) && a.cursors[a.index] == Iterate(server, t.signature, a.index) && IsChain(server, t.signature, a.cursors)
  {
    TicketStartIsInv(server, signature);
    TicketRunKeepsInv(server, TicketPage(signature, Fresh("")), events);
    FreshIsChain(server, TicketRun(server, TicketPage(signature, Fresh("")), events).signature);
  }

  // ---------------------------------------------------------------------------------------
  // The stack, and its refinement
  // ---------------------------------------------------------------------------------------

  datatype Move = Push(loaded: bool) | Pop

  /** `onNext` and `onPrevious`, the latter behind its `hasPrevious` control. */
  function StackMove(server: Server, filters: string, stack: seq<Cursor>, m: Move): seq<Cursor>
    requires stack != []
  {
    match m
    case Push(loaded) =>
      var next := if loaded then server(filters, stack[|stack| - 1]) else None;
      if next.Some? && next.value != "" then stack + [next] else stack
    case Pop => if |stack| > 1 then stack[..|stack| - 1] else stack
  }

  function ListMove(m: Move): TicketEvent {
    match m case Push(loaded) => NextClicked(loaded) case Pop => PreviousClicked
  }

  function StackOf(p: Pagination): seq<Cursor>
    requires InRange(p)
  {
    p.cursors[..p.index + 1]
  }

  function StackRun(server: Server, filters: string, stack: seq<Cursor>, moves: seq<Move>): (r: seq<Cursor>)
    requires stack != []
    ensures r != []
    decreases |moves|
  {
    if moves == [] then stack else StackRun(server, filters, StackMove(server, filters, stack, moves[0]), moves[1..])
  }

  function ListMoves(moves: seq<Move>): seq<TicketEvent>
    decreases |moves|
  {
    if moves == [] then [] else [ListMove(moves[0])] + ListMoves(moves[1..])
  }

  lemma StackStepRefines(server: Server, t: TicketPage, m: Move)
    requires TicketInv(server, t)
    ensures var u := TicketStep(server, t, ListMove(m));
            InRange(Active(u.pagination, u.signature)) && u.signature == t.signature
            && StackOf(Active(u.pagination, u.signature)) == StackMove(server, t.signature, StackOf(Active(t.pagination, t.signature)), m)
  {
    TicketStepKeepsInv(server, t, ListMove(m));
    var a := Active(t.pagination, t.signature);
    assert StackOf(a)[|StackOf(a)| - 1] == CurrentCursor(t);
  }

  /** Whatever is clicked, the selector's stack is the ticket page's list up to its index. */
  lemma {:induction false} StackRefinesList(server: Server, t: TicketPage, moves: seq<Move>)
    requires TicketInv(server, t)
    ensures TicketInv(server, TicketRun(server, t, ListMoves(moves)))
    ensures var u := TicketRun(server, t, ListMoves(moves));
            && InRange(Active(u.pagination, u.signature)) && u.signature == t.signature
            && StackOf(Active(u.pagination, u.signature)) == StackRun(server, t.signature, StackOf(Active(t.pagination, t.signature)), moves)
    decreases |moves|
  {
    TicketRunKeepsInv(server, t, ListMoves(moves));
    if moves != [] {
      var u := TicketStep(server, t, ListMove(moves[0]));
      TicketStepKeepsInv(server, t, ListMove(moves[0]));
      StackStepRefines(server, t, moves[0]);
      assert ListMoves(moves)[0] == ListMove(moves[0]) && ListMoves(moves)[1..] == ListMoves(moves[1..]);
      StackRefinesList(server, u, moves[1..]);
    }
  }

  // ---------------------------------------------------------------------------------------
  // The vendor selector's requests
  // ---------------------------------------------------------------------------------------

  datatype RequestKey = RequestKey(session: nat, search: string, cursor: Cursor, generation: nat, retry: nat)

  /** A directory request: `current` until its effect is cleaned up, `ended` once it has settled. */
  datatype Request = Request(key: RequestKey, current: bool, ended: bool)

  /** `result` is the stored answer: the key it was asked under and the next cursor it brought. */
  datatype Selector = Selector(
    session: nat, search: string, cursors: seq<Cursor>, generation: nat, retry: nat,
    result: Option<(RequestKey, Cursor)>, requests: seq<Request>)

  function KeyOf(s: Selector): RequestKey
    requires s.cursors != []
  {
    RequestKey(s.session, Trim(s.search), s.cursors[|s.cursors| - 1], s.generation, s.retry)
  }

  /** The answer used for the page: the stored one, if it was asked under today's key. */
  function CurrentResult(s: Selector): Option<Cursor>
    requires s.cursors != []
  {
    if s.result.Some? && s.result.value.0 == KeyOf(s) then Some(s.result.value.1) else None
  }

  function Retire(requests: seq<Request>): seq<Request> {
    seq(|requests|, i requires 0 <= i < |requests| => requests[i].(current := false))
  }

  /** The request effect after a render: cleanup of the old request and start of one for the new key,
      when the key has changed. */
  function Rerender(was: RequestKey, s: Selector): Selector
    requires s.cursors != []
  {
    if KeyOf(s) == was then s else s.(requests := Retire(s.requests) + [Request(KeyOf(s), true, false)])
  }

  datatype SelectorEvent =
    | SearchChanges(text: string)
    | SessionChanges(session: nat)
    | NextPressed
    | PreviousPressed
    | RetryPressed
    | Settles(request: nat, ok: bool)

  function Change(s: Selector, e: SelectorEvent): Selector
    requires s.cursors != []
  {
    match e
    case SearchChanges(text) => s.(search := text, cursors := [None], generation := s.generation + 1)
    case SessionChanges(session) => s.(session := session)
    case NextPressed =>
      var next := if CurrentResult(s).Some? then CurrentResult(s).value else None;
      if next.Some? && next.value != "" then s.(cursors := s.cursors + [next], generation := s.generation + 1) else s
    case PreviousPressed =>
      if |s.cursors| > 1 then s.(cursors := s.cursors[..|s.cursors| - 1], generation := s.generation + 1) else s
    case RetryPressed => s.(retry := s.retry + 1)
    case Settles(_, _) => s
  }

  /** A settled request stores its answer only while it is current. */
  function SelectorStep(server: Server, s: Selector, e: SelectorEvent): (t: Selector)
    requires s.cursors != []
    ensures t.cursors != []
  {
    match e
    case Settles(i, ok) =>
      if i < |s.requests| && !s.requests[i].ended then
        var r := s.requests[i];
        var t := s.(requests := s.requests[i := r.(ended := true)]);
        if ok && r.current then t.(result := Some((r.key, server(r.key.search, r.key.cursor)))) else t
      else s
    case _ => Rerender(KeyOf(s), Change(s, e))
  }

  function SelectorRun(server: Server, s: Selector, events: seq<SelectorEvent>): (t: Selector)
    requires s.cursors != []
    ensures t.cursors != []
    decreases |events|
  {
    if events == [] then s else SelectorRun(server, SelectorStep(server, s, events[0]), events[1..])
  }

  function FirstRender(session: nat): Selector {
    Selector(session, "", [None], 0, 0, None, [Request(RequestKey(session, "", None, 0, 0), true, false)])
  }

  /** The stack is a chain for the search in force; the only current request is the last and asks
      for today's key; and a stored answer is the server's for the key it is stored under. */
  ghost predicate SelectorInv(server: Server, s: Selector) {
    && IsChain(server, Trim(s.search), s.cursors)
    && s.requests != []
    && (forall i | 0 <= i < |s.requests| :: s.requests[i].current <==> i == |s.requests| - 1)
    && s.requests[|s.requests| - 1].key == KeyOf(s)
    && (s.result.Some? ==> s.result.value.1 == server(s.result.value.0.search, s.result.value.0.cursor))
  }

  lemma ChangeKeepsChain(server: Server, s: Selector, e: SelectorEvent)
    requires SelectorInv(server, s)
    ensures IsChain(server, Trim(Change(s, e).search), Change(s, e).cursors)
  {
    match e
    case SearchChanges(text) => FreshIsChain(server, Trim(text));
    case NextPressed =>
      if Change(s, e) != s { ChainSnoc(server, Trim(s.search), s.cursors); }
    case PreviousPressed =>
      if |s.cursors| > 1 { ChainPrefix(server, Trim(s.search), s.cursors, |s.cursors| - 1); }
    case _ =>
  }

  lemma RerenderKeepsInv(server: Server, s: Selector, t: Selector)
    requires SelectorInv(server, s) && IsChain(server, Trim(t.search), t.cursors)
    requires t.requests == s.requests && t.result == s.result
    ensures SelectorInv(server, Rerender(KeyOf(s), t))
  {
  }

  lemma SelectorStepKeepsInv(server: Server, s: Selector, e: SelectorEvent)
    requires SelectorInv(server, s)
    ensures SelectorInv(server, SelectorStep(server, s, e))
  {
    if !e.Settles? {
      ChangeKeepsChain(server, s, e);
      RerenderKeepsInv(server, s, Change(s, e));
    }
  }

  lemma {:induction false} SelectorRunKeepsInv(server: Server, s: Selector, events: seq<SelectorEvent>)
    requires SelectorInv(server, s)
    ensures SelectorInv(server, SelectorRun(server, s, events))
    decreases |events|
  {
    if events != [] {
      SelectorStepKeepsInv(server, s, events[0]);
      SelectorRunKeepsInv(server, SelectorStep(server, s, events[0]), events[1..]);
    }
  }

  /** In every reachable state, however late answers arrive: the stack is a chain for the search, the
      page shown answers exactly today's search and cursor, and at most one request can store. */
  lemma SelectorShowsTheCurrentPage(server: Server, session: nat, events: seq<SelectorEvent>, i: nat, j: nat)
    ensures var s := SelectorRun(server, FirstRender(session), events);
            && IsChain(server, Trim(s.search), s.cursors)
            && (CurrentResult(s).Some? ==>
                  CurrentResult(s).value == server(Trim(s.search), Iterate(server, Trim(s.search), |s.cursors| - 1)))
            && (i < |s.requests| && j < |s.requests| && s.requests[i].current && s.requests[j].current ==> i == j)
  {
    FreshIsChain(server, Trim(""));
    assert Trim("") == "";
    SelectorRunKeepsInv(server, FirstRender(session), events);
  }

  /** A request that was replaced never changes the stored answer again. */
  lemma {:induction false} ReplacedRequestsAreInert(server: Server, s: Selector, events: seq<SelectorEvent>, i: nat, ok: bool)
    requires s.cursors != [] && i < |s.requests| && !s.requests[i].current
    ensures var t := SelectorRun(server, s, events);
            && i < |t.requests| && !t.requests[i].current
            && SelectorStep(server, t, Settles(i, ok)).result == t.result
    decreases |events|
  {
    if events != [] { ReplacedRequestsAreInert(server, SelectorStep(server, s, events[0]), events[1..], i, ok); }
  }

  /** A new request goes out exactly for a typed search, another session, a Next to a following page, a
      Previous from beyond the first page and a retry; it asks for today's key and retires the others. */
  lemma AsksAnewExactlyWhen(server: Server, s: Selector, e: SelectorEvent)
    requires SelectorInv(server, s)
    ensures var t := SelectorStep(server, s, e);
            && (|t.requests| > |s.requests| <==>
                  match e
                  case SearchChanges(_) => true
                  case SessionChanges(session) => session != s.session
                  case NextPressed =>
                    CurrentResult(s).Some? && CurrentResult(s).value.Some? && CurrentResult(s).value.value != ""
                  case PreviousPressed => |s.cursors| > 1
                  case RetryPressed => true
                  case Settles(_, _) => false)
            && (|t.requests| > |s.requests| ==>
                  && |t.requests| == |s.requests| + 1
                  && t.requests[|s.requests|] ==
                       Request(RequestKey(t.session, Trim(t.search), t.cursors[|t.cursors| - 1], t.generation, t.retry), true, false)
                  && forall i | 0 <= i < |s.requests| :: !t.requests[i].current)
  {
  }

  /** An answer is stored exactly when it succeeds for the current request, and it is the server's for
      what that request asked. */
  lemma StoresExactlyWhen(server: Server, s: Selector, i: nat, ok: bool)
    requires SelectorInv(server, s) && i < |s.requests| && !s.requests[i].ended
    ensures SelectorStep(server, s, Settles(i, ok)).result ==
            if ok && i == |s.requests| - 1
            then Some((s.requests[i].key, server(Trim(s.search), s.cursors[|s.cursors| - 1])))
            else s.result
    ensures SelectorStep(server, s, Settles(i, ok)).requests == s.requests[i := s.requests[i].(ended := true)]
  {
  }

  // ---------------------------------------------------------------------------------------
  // The components as objects
  // ---------------------------------------------------------------------------------------

  /** The pagination state of the ticket page, for one server. */
  class TicketPager {
    ghost const server: Server
    var signature: string
    var pagination: Pagination

    ghost function Now(): TicketPage
      reads this
    {
      TicketPage(signature, pagination)
    }

    /** The invariant of the runs. */
    ghost predicate Valid()
      reads this
    {
      TicketInv(server, Now())
    }

    /** The page on screen, counted from zero, and its cursor. */
    ghost predicate Shows(page: int, cursor: Cursor)
      reads this
    {
      var a := Active(pagination, signature);
      && a.index == page && InRange(a) && a.cursors[page] == cursor == Iterate(server, signature, page)
    }

    constructor (server: Server, signature: string)
      ensures Valid() && Shows(0, None) && Now() == TicketPage(signature, Fresh(""))
    {
      this.server, this.signature, pagination := server, signature, Fresh("");
    }

    /** `nextPage`, with what the loaded page gives as next cursor: to the following page of the
        current filters, or nowhere when there is none. */
    method GoNext(next: Cursor)
      requires Valid() && next == server(signature, CurrentCursor(Now()))
      modifies this`pagination
      ensures Valid()
      ensures Now() == TicketStep(server, old(Now()), NextClicked(true))
      ensures var page := old(Active(pagination, signature).index);
              var following := Following(server, signature, old(CurrentCursor(Now())));
              if following.Some? then Shows(page + 1, following) else pagination == old(pagination)
    {
      TicketStepKeepsInv(server, Now(), NextClicked(true));
      if next.None? || next.value == "" { return; }
      var active := Active(pagination, signature);
      pagination := Pagination(signature, active.cursors[..active.index + 1] + [next], active.index + 1);
    }

    /** `previousPage`: one page back, or still the first. */
    method GoPrevious()
      requires Valid()
      modifies this`pagination
      ensures Valid()
      ensures Now() == TicketStep(server, old(Now()), PreviousClicked)
      ensures var page := old(Active(pagination, signature).index);
              Shows(if page > 0 then page - 1 else 0, Iterate(server, signature, if page > 0 then page - 1 else 0))
    {
      TicketStepKeepsInv(server, Now(), PreviousClicked);
      FreshIsChain(server, signature);
      var active := Active(pagination, signature);
      var index := active.index - 1;
      if index < 0 { index := 0; }
      pagination := active.(index := index);
    }

    /** The filters change, and some time later the effect runs: the first page either way, as soon
        as the signature is new. */
    method ChangeFilters(signature': string)
      requires Valid()
      modifies this`signature
      ensures Valid() && Now() == TicketStep(server, old(Now()), FiltersChange(signature'))
      ensures pagination.signature != signature' ==> Shows(0, None)
    {
      TicketStepKeepsInv(server, Now(), FiltersChange(signature'));
      signature := signature';
    }

    method ResetForSignature()
      requires Valid()
      modifies this`pagination
      ensures Valid() && Shows(0, None)
      ensures Now() == TicketStep(server, old(Now()), EffectRuns)
    {
      TicketStepKeepsInv(server, Now(), EffectRuns);
      pagination := Fresh(signature);
    }
  }

  /** The vendor selector's state, for one server. */
  class VendorSelector {
    ghost const server: Server
    var session: nat
    var search: string
    var cursors: seq<Cursor>
    var generation: nat
    var retries: nat
    var stored: Option<(RequestKey, Cursor)>
    var requests: seq<Request>

    ghost function Now(): Selector
      reads this
    {
      Selector(session, search, cursors, generation, retries, stored, requests)
    }

    /** The invariant of the runs. */
    ghost predicate Valid()
      reads this
    {
      SelectorInv(server, Now())
    }

    /** What is used for the page answers today's search and cursor. */
    ghost predicate Answered()
      reads this
      requires cursors != []
    {
      CurrentResult(Now()).Some? ==> CurrentResult(Now()).value == server(Trim(search), cursors[|cursors| - 1])
    }

    constructor (server: Server, session: nat)
      ensures Valid() && Now() == FirstRender(session)
    {
      this.server := server;
      this.session, search, cursors, generation, retries := session, "", [None], 0, 0;
      stored := None;
      requests := [Request(RequestKey(session, "", None, 0, 0), true, false)];
    }

    method ChangeSearch(text: string)
      requires Valid()
      modifies this`search, this`cursors, this`generation, this`requests
      ensures Valid() && Answered() && |cursors| == 1
      ensures Now() == SelectorStep(server, old(Now()), SearchChanges(text))
    {
      SelectorStepKeepsInv(server, Now(), SearchChanges(text));
      var was := Key();
      search := text;
      cursors := [None];
      generation := generation + 1;
      StartRequest(was);
    }

    /** To the following page of the search, when today's answer brought one. */
    method OnNext()
      requires Valid()
      modifies this`cursors, this`generation, this`requests
      ensures Valid() && Answered()
      ensures Now() == SelectorStep(server, old(Now()), NextPressed)
      ensures |cursors| > |old(cursors)| ==>
                cursors == old(cursors) + [Following(server, Trim(search), old(cursors)[|old(cursors)| - 1])]
    {
      SelectorStepKeepsInv(server, Now(), NextPressed);
      Push();
    }

    method Push()
      requires cursors != []
      modifies this`cursors, this`generation, this`requests
      ensures Now() == SelectorStep(server, old(Now()), NextPressed)
    {
      var key := Key();
      if stored.None? || stored.value.0 != key { return; }
      var next := stored.value.1;
      if next.Some? && next.value != "" {
        cursors := cursors + [next];
        generation := generation + 1;
        StartRequest(key);
      }
    }

    /** Pressed only where `hasPrevious` shows the control: back to the page before. */
    method OnPrevious()
      requires Valid() && |cursors| > 1
      modifies this`cursors, this`generation, this`requests
      ensures Valid() && Answered() && cursors == old(cursors)[..|old(cursors)| - 1]
      ensures Now() == SelectorStep(server, old(Now()), PreviousPressed)
    {
      SelectorStepKeepsInv(server, Now(), PreviousPressed);
      var was := Key();
      cursors := cursors[..|cursors| - 1];
      generation := generation + 1;
      StartRequest(was);
    }

    method Key() returns (key: RequestKey)
      requires cursors != []
      ensures key == KeyOf(Now())
    {
      key := RequestKey(session, Trim(search), cursors[|cursors| - 1], generation, retries);
    }

    /** The request effect: the old request's cleanup, then a new request. */
    method StartRequest(was: RequestKey)
      requires cursors != []
      modifies this`requests
      ensures Now() == Rerender(was, old(Now()))
    {
      var key := Key();
      if key == was { return; }
      requests := Retire(requests) + [Request(key, true, false)];
    }

    /** A directory request settles: a replaced one changes nothing that is shown. */
    method RequestSettled(id: nat, ok: bool, answer: Cursor)
      requires Valid() && id < |requests| && !requests[id].ended
      requires ok ==> answer == server(requests[id].key.search, requests[id].key.cursor)
      modifies this`requests, this`stored
      ensures Valid() && Answered()
      ensures Now() == SelectorStep(server, old(Now()), Settles(id, ok))
      ensures !old(requests[id].current) ==> stored == old(stored)
      ensures ok && old(requests[id].current) ==> CurrentResult(Now()) == Some(answer)
    {
      SelectorStepKeepsInv(server, Now(), Settles(id, ok));
      var request := requests[id];
      requests := requests[id := request.(ended := true)];
      if ok && request.current { stored := Some((request.key, answer)); }
    }
  }
}
