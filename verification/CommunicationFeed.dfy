/** The vendor's communication feed: four loops turn tickets, returns, orders and finance records
    into events, which are sorted newest first. */
module CommunicationFeed {
  import opened Options
  import opened OrderStory

  // ---------------------------------------------------------------------------------------
  // Inputs and events
  // ---------------------------------------------------------------------------------------

  datatype TicketStatus = WaitingForVendor | Resolved | Closed | OtherStatus(name: string)

  datatype Ticket = Ticket(
    id: string, status: TicketStatus, vendorUnreadCount: int, lastReplyAt: Option<string>, updatedAt: string)

  /** `refundPending`: a Shopify return request without a Shopify refund. */
  datatype Return = Return(id: string, status: Option<string>, refundPending: bool, updatedAt: Option<string>, date: string)

  datatype Category = Refund | Payout | OtherCategory(name: string)

  datatype FinanceStatus = Pending | Failed | OtherFinanceStatus(name: string)

  datatype FinanceRecord = FinanceRecord(id: string, category: Category, status: FinanceStatus, date: string)

  /** Entries that are not records are `None`; a missing finance dashboard has no transactions. */
  datatype Input = Input(
    tickets: seq<Option<Ticket>>, orders: seq<Option<Order>>, returns': seq<Option<Return>>,
    finance: seq<Option<FinanceRecord>>)

  datatype EventType =
    | SupportReply | SupportStatusChange | ReturnUpdate | RefundProcessed | PayoutUpdate | ShipmentIssue | TrackingRequired

  datatype Priority = Informational | RequiresAction | OverdueResponse

  datatype Subject = SupportSubject | OrderSubject | ReturnSubject | FinanceSubject

  datatype Event = Event(
    id: string, kind: EventType, timestamp: string, warning: bool, priority: Priority, subject: Subject,
    relatedId: string, unread: bool, requiresAction: bool, resolved: bool)

  function Records<T>(entries: seq<Option<T>>): seq<T>
    decreases |entries|
  {
    if entries == [] then []
    else (if entries[0].Some? then [entries[0].value] else []) + Records(entries[1..])
  }

  function TicketEvent(t: Ticket): Event {
    var waiting := t.status.WaitingForVendor?;
    var unread := t.vendorUnreadCount > 0;
    Event("support-" + t.id, if Filled(t.lastReplyAt) then SupportReply else SupportStatusChange,
          if t.lastReplyAt.Some? then t.lastReplyAt.value else t.updatedAt, waiting || unread,
          if waiting then RequiresAction else if unread then OverdueResponse else Informational,
          SupportSubject, t.id, unread, waiting, t.status.Resolved? || t.status.Closed?)
  }

  function ReturnEvent(r: Return): Event {
    var status := if r.status.Some? then Lower(r.status.value) else "";
    var action := status == "requested" || status == "pending" || status == "in review";
    var resolved := status in ["refunded", "processed", "closed", "approved"] && !r.refundPending;
    Event("return-" + r.id, if resolved then RefundProcessed else ReturnUpdate,
          if r.updatedAt.Some? then r.updatedAt.value else r.date, action,
          if action then RequiresAction else Informational, ReturnSubject, r.id, false, action, resolved)
  }

  predicate NeedsTracking(o: Order) {
    && !Filled(o.trackingNumber) && !Filled(o.carrier) && o.shippingStatus == Some("Awaiting Shipment")
    && o.fulfillmentActionAvailable && GetStory(o).canCreateShipment
  }

  function TrackingEvent(o: Order): Event {
    Event("tracking-" + o.id, TrackingRequired,
          if o.shipmentUpdatedAt.Some? then o.shipmentUpdatedAt.value else o.date, true, RequiresAction,
          OrderSubject, o.id, false, true, false)
  }

  predicate Reported(f: FinanceRecord) { f.category.Refund? || f.category.Payout? }

  function FinanceEvent(f: FinanceRecord): Event {
    var pending := f.status.Pending? || f.status.Failed?;
    Event("finance-" + f.id, if f.category.Refund? then RefundProcessed else PayoutUpdate, f.date, pending,
          if pending then RequiresAction else Informational, FinanceSubject, f.id, false, pending, !pending)
  }

  /** Entries that are no records are left out, the others keep their order. */
  lemma {:induction false} RecordsExactly<T>(a: seq<Option<T>>, entry: Option<T>, b: seq<Option<T>>)
    ensures Records(a + b) == Records(a) + Records(b)
    ensures Records([entry]) == if entry.Some? then [entry.value] else []
    decreases |a|
  {
    assert [entry][1..] == [];
    if a == [] {
      assert a + b == b;
    } else {
      assert (a + b)[1..] == a[1..] + b;
      RecordsExactly(a[1..], entry, b);
    }
  }

  /** A ticket's event: dated by the last reply, or else by the last update; to be acted on exactly while
      support waits for the vendor, resolved exactly when resolved or closed. */
  lemma TicketEventExactly(t: Ticket)
    ensures var e := TicketEvent(t);
            && e.id == "support-" + t.id && e.relatedId == t.id && e.subject == SupportSubject
            && e.timestamp == (if t.lastReplyAt != None then t.lastReplyAt.value else t.updatedAt)
            && (e.kind == SupportReply <==> t.lastReplyAt != None && t.lastReplyAt != Some(""))
            && (e.kind != SupportReply ==> e.kind == SupportStatusChange)
            && (e.unread <==> t.vendorUnreadCount >= 1)
            && (e.requiresAction <==> t.status == WaitingForVendor)
            && (e.resolved <==> t.status == Resolved || t.status == Closed)
            && (e.warning <==> t.status == WaitingForVendor || t.vendorUnreadCount >= 1)
            && (e.priority == RequiresAction <==> t.status == WaitingForVendor)
            && (e.priority == OverdueResponse <==> t.status != WaitingForVendor && t.vendorUnreadCount >= 1)
  {
  }

  /** A return's event: dated by its update, or else by its date; to be acted on while requested, pending
      or in review, and resolved once refunded, processed, closed or approved, unless its refund is
      still to come. Statuses are compared in lower case. */
  lemma ReturnEventExactly(r: Return, status: string)
    requires status == if r.status != None then Lower(r.status.value) else ""
    ensures var e := ReturnEvent(r);
            && e.id == "return-" + r.id && e.relatedId == r.id && e.subject == ReturnSubject && !e.unread
            && e.timestamp == (if r.updatedAt != None then r.updatedAt.value else r.date)
            && (e.requiresAction <==> status == "requested" || status == "pending" || status == "in review")
            && (e.resolved <==>
                  && !r.refundPending
                  && (status == "refunded" || status == "processed" || status == "closed" || status == "approved"))
            && e.kind == (if e.resolved then RefundProcessed else ReturnUpdate)
            && (e.warning <==> e.requiresAction) && e.priority == (if e.requiresAction then RequiresAction else Informational)
  {
  }

  /** An order lacks tracking exactly when it has neither number nor carrier, awaits shipment, may be
      acted on, and is neither refunded for good nor cancelled nor blocked. */
  lemma NeedsTrackingExactlyWhen(o: Order)
    ensures NeedsTracking(o) <==>
              && (o.trackingNumber == None || o.trackingNumber == Some("")) && (o.carrier == None || o.carrier == Some(""))
              && o.shippingStatus == Some("Awaiting Shipment") && o.fulfillmentActionAvailable
              && !o.refundTerminal && !o.isCancelled && (o.cancelledAt == None || o.cancelledAt == Some(""))
              && NormalizeToken(o.allocationStatus) != "vendor_blocked"
  {
    ShipmentAllowedExactlyWhen(o);
  }

  /** A tracking event: dated by the shipment's update, or else by the order, and always to be acted on. */
  lemma TrackingEventExactly(o: Order)
    ensures TrackingEvent(o) ==
            Event("tracking-" + o.id, TrackingRequired,
                  if o.shipmentUpdatedAt != None then o.shipmentUpdatedAt.value else o.date,
                  true, RequiresAction, OrderSubject, o.id, false, true, false)
  {
  }

  /** Refunds and payouts are reported, no other records; one that failed counts as pending, and what is
      not pending is resolved. */
  lemma FinanceEventExactly(f: FinanceRecord)
    ensures Reported(f) <==> f.category == Refund || f.category == Payout
    ensures var e, pending := FinanceEvent(f), f.status == Pending || f.status == Failed;
            && e.id == "finance-" + f.id && e.relatedId == f.id && e.subject == FinanceSubject && !e.unread
            && e.timestamp == f.date
            && (f.category == Refund ==> e.kind == RefundProcessed) && (f.category == Payout ==> e.kind == PayoutUpdate)
            && e.requiresAction == e.warning == pending && e.resolved == !pending
            && e.priority == (if pending then RequiresAction else Informational)
  {
  }

  /** One event for each record that passes, in order. */
  function Mapped<T(!new)>(records: seq<T>, passes: T -> bool, event: T -> Event): seq<Event>
    decreases |records|
  {
    if records == [] then []
    else (if passes(records[0]) then [event(records[0])] else []) + Mapped(records[1..], passes, event)
  }

  predicate AnyTicket(t: Ticket) { true }

  predicate AnyReturn(r: Return) { true }

  function TicketEvents(input: Input): seq<Event> { Mapped(Records(input.tickets), AnyTicket, TicketEvent) }

  function ReturnEvents(input: Input): seq<Event> { Mapped(Records(input.returns'), AnyReturn, ReturnEvent) }

  function TrackingEvents(input: Input): seq<Event> { Mapped(Records(input.orders), NeedsTracking, TrackingEvent) }

  function FinanceEvents(input: Input): seq<Event> { Mapped(Records(input.finance), Reported, FinanceEvent) }

  /** The events in the order the loops push them. */
  function Pushed(input: Input): seq<Event> {
    TicketEvents(input) + ReturnEvents(input) + TrackingEvents(input) + FinanceEvents(input)
  }

  // ---------------------------------------------------------------------------------------
  // The stable sort
  // ---------------------------------------------------------------------------------------

  /** Each event is at least as new as the ones after it; `time` reads a timestamp. */
  predicate NewestFirst(events: seq<Event>, time: string -> int) {
    forall i, j | 0 <= i < j < |events| :: time(events[i].timestamp) >= time(events[j].timestamp)
  }

  function OneAtTime(e: Event, time: string -> int, t: int): seq<Event> {
    if time(e.timestamp) == t then [e] else []
  }

  function AtTime(events: seq<Event>, time: string -> int, t: int): seq<Event>
    decreases |events|
  {
    if events == [] then []
    else OneAtTime(events[0], time, t) + AtTime(events[1..], time, t)
  }

  /** Sorted newest first, events of equal time in their old order. */
  ghost predicate StablySorted(events: seq<Event>, sorted: seq<Event>, time: string -> int) {
    NewestFirst(sorted, time) && forall t :: AtTime(sorted, time, t) == AtTime(events, time, t)
  }

  function Insert(e: Event, sorted: seq<Event>, time: string -> int): seq<Event>
    decreases |sorted|
  {
    if sorted == [] || time(e.timestamp) >= time(sorted[0].timestamp) then [e] + sorted
    else [sorted[0]] + Insert(e, sorted[1..], time)
  }

  function Sort(events: seq<Event>, time: string -> int): seq<Event>
    decreases |events|
  {
    if events == [] then [] else Insert(events[0], Sort(events[1..], time), time)
  }

  lemma {:induction false} InsertAddsOne(e: Event, sorted: seq<Event>, time: string -> int)
    ensures multiset(Insert(e, sorted, time)) == multiset(sorted) + multiset{e}
    decreases |sorted|
  {
    if sorted != [] {
      InsertAddsOne(e, sorted[1..], time);
      assert sorted == [sorted[0]] + sorted[1..];
    }
  }

  lemma {:induction false} InsertKeepsOrder(e: Event, sorted: seq<Event>, time: string -> int)
    requires NewestFirst(sorted, time)
    ensures NewestFirst(Insert(e, sorted, time), time)
    decreases |sorted|
  {
    if sorted != [] && time(e.timestamp) < time(sorted[0].timestamp) {
      var rest := Insert(e, sorted[1..], time);
      InsertKeepsOrder(e, sorted[1..], time);
      forall x | x in rest ensures time(sorted[0].timestamp) >= time(x.timestamp) {
        InsertAddsOne(e, sorted[1..], time);
        assert x in multiset(rest);
        assert x in multiset(sorted[1..]) || x == e;
      }
    }
  }

  lemma AtTimeOfCons(e: Event, events: seq<Event>, time: string -> int, t: int)
    ensures AtTime([e] + events, time, t) ==
            OneAtTime(e, time, t) + AtTime(events, time, t)
  {
    assert ([e] + events)[1..] == events;
  }

  lemma Swap(a: seq<Event>, b: seq<Event>, rest: seq<Event>)
    requires a == [] || b == []
    ensures a + (b + rest) == b + (a + rest)
  {
    assert [] + rest == rest;
  }

  lemma {:induction false} InsertKeepsTimes(e: Event, sorted: seq<Event>, time: string -> int, t: int)
    ensures AtTime(Insert(e, sorted, time), time, t) == AtTime([e] + sorted, time, t)
    decreases |sorted|
  {
    if sorted != [] && time(e.timestamp) < time(sorted[0].timestamp) {
      var rest := sorted[1..];
      InsertKeepsTimes(e, rest, time, t);
      AtTimeOfCons(sorted[0], Insert(e, rest, time), time, t);
      AtTimeOfCons(e, rest, time, t);
      AtTimeOfCons(e, sorted, time, t);
      Swap(OneAtTime(sorted[0], time, t), OneAtTime(e, time, t), AtTime(rest, time, t));
    }
  }

  lemma {:induction false} SortIsStable(events: seq<Event>, time: string -> int)
    ensures StablySorted(events, Sort(events, time), time)
    ensures multiset(Sort(events, time)) == multiset(events)
    decreases |events|
  {
    if events != [] {
      var rest := Sort(events[1..], time);
      SortIsStable(events[1..], time);
      InsertAddsOne(events[0], rest, time);
      InsertKeepsOrder(events[0], rest, time);
      assert events == [events[0]] + events[1..];
      forall t ensures AtTime(Sort(events, time), time, t) == AtTime(events, time, t) {
        InsertKeepsTimes(events[0], rest, time, t);
        AtTimeOfCons(events[0], rest, time, t);
      }
    }
  }

  lemma {:induction false} AtTimeMembers(events: seq<Event>, time: string -> int, t: int)
    ensures forall e :: e in AtTime(events, time, t) <==> e in events && time(e.timestamp) == t
    decreases |events|
  {
    if events != [] {
      AtTimeMembers(events[1..], time, t);
      assert forall e :: e in events <==> e == events[0] || e in events[1..];
    }
  }

  lemma FirstIsFirstOfItsTime(sorted: seq<Event>, time: string -> int)
    requires sorted != []
    ensures var t := time(sorted[0].timestamp);
            AtTime(sorted, time, t) == [sorted[0]] + AtTime(sorted[1..], time, t)
  {
  }

  /** The head of one form occurs in the other, so it is no newer than the other's head. */
  lemma HeadIsNoNewer(a: seq<Event>, b: seq<Event>, time: string -> int)
    requires a != [] && NewestFirst(b, time)
    requires var t := time(a[0].timestamp); AtTime(a, time, t) == AtTime(b, time, t)
    ensures b != [] && time(a[0].timestamp) <= time(b[0].timestamp)
  {
    var t := time(a[0].timestamp);
    FirstIsFirstOfItsTime(a, time);
    AtTimeMembers(b, time, t);
    assert a[0] in AtTime(b, time, t);
    var i :| 0 <= i < |b| && b[i] == a[0];
  }

  lemma TailsAgree(a: seq<Event>, b: seq<Event>, time: string -> int, v: int)
    requires a != [] && b != [] && a[0] == b[0] && AtTime(a, time, v) == AtTime(b, time, v)
    ensures AtTime(a[1..], time, v) == AtTime(b[1..], time, v)
  {
    var head := if time(a[0].timestamp) == v then [a[0]] else [];
    assert AtTime(a, time, v)[|head|..] == AtTime(a[1..], time, v);
    assert AtTime(b, time, v)[|head|..] == AtTime(b[1..], time, v);
  }

  lemma HeadsAgree(a: seq<Event>, b: seq<Event>, time: string -> int)
    requires a != [] && b != []
    requires var t := time(a[0].timestamp); time(b[0].timestamp) == t && AtTime(a, time, t) == AtTime(b, time, t)
    ensures a[0] == b[0]
  {
    FirstIsFirstOfItsTime(a, time);
    FirstIsFirstOfItsTime(b, time);
    var t := time(a[0].timestamp);
    assert AtTime(a, time, t)[0] == a[0] && AtTime(b, time, t)[0] == b[0];
  }

  /** There is only one stable order: any two stably sorted forms of the same events agree. */
  lemma {:induction false} StableOrderIsUnique(a: seq<Event>, b: seq<Event>, time: string -> int)
    requires NewestFirst(a, time) && NewestFirst(b, time)
    requires forall t :: AtTime(a, time, t) == AtTime(b, time, t)
    ensures a == b
    decreases |a|
  {
    if a != [] { HeadIsNoNewer(a, b, time); }
    if b != [] { HeadIsNoNewer(b, a, time); }
    if a != [] {
      HeadsAgree(a, b, time);
      forall v ensures AtTime(a[1..], time, v) == AtTime(b[1..], time, v) { TailsAgree(a, b, time, v); }
      StableOrderIsUnique(a[1..], b[1..], time);
      assert a == [a[0]] + a[1..] && b == [b[0]] + b[1..];
    }
  }

  // ---------------------------------------------------------------------------------------
  // Building the feed
  // ---------------------------------------------------------------------------------------

  lemma {:induction false} MappedSnoc<T(!new)>(records: seq<T>, i: nat, passes: T -> bool, event: T -> Event)
    requires i < |records|
    ensures Mapped(records[..i + 1], passes, event) ==
            Mapped(records[..i], passes, event) + (if passes(records[i]) then [event(records[i])] else [])
    decreases i
  {
    var longer, shorter := records[..i + 1], records[..i];
    if i > 0 {
      MappedSnoc(records[1..], i - 1, passes, event);
      assert longer[1..] == records[1..][..i] && shorter[1..] == records[1..][..i - 1];
    } else {
      assert longer[1..] == [];
    }
  }

  /** The four loops of `buildVendorCommunicationFeed`, each pushing behind what is there. */
  method PushTickets(pushed: seq<Event>, tickets: seq<Ticket>) returns (events: seq<Event>)
    ensures events == pushed + Mapped(tickets, AnyTicket, TicketEvent)
  {
    events := pushed;
    for i := 0 to |tickets|
      invariant events == pushed + Mapped(tickets[..i], AnyTicket, TicketEvent)
    {
      MappedSnoc(tickets, i, AnyTicket, TicketEvent);
      events := events + [TicketEvent(tickets[i])];
    }
    assert tickets[..|tickets|] == tickets;
  }

  method PushReturns(pushed: seq<Event>, returns': seq<Return>) returns (events: seq<Event>)
    ensures events == pushed + Mapped(returns', AnyReturn, ReturnEvent)
  {
    events := pushed;
    for i := 0 to |returns'|
      invariant events == pushed + Mapped(returns'[..i], AnyReturn, ReturnEvent)
    {
      MappedSnoc(returns', i, AnyReturn, ReturnEvent);
      events := events + [ReturnEvent(returns'[i])];
    }
    assert returns'[..|returns'|] == returns';
  }

  method PushTracking(pushed: seq<Event>, orders: seq<Order>) returns (events: seq<Event>)
    ensures events == pushed + Mapped(orders, NeedsTracking, TrackingEvent)
  {
    events := pushed;
    for i := 0 to |orders|
      invariant events == pushed + Mapped(orders[..i], NeedsTracking, TrackingEvent)
    {
      MappedSnoc(orders, i, NeedsTracking, TrackingEvent);
      if !NeedsTracking(orders[i]) { continue; }
      events := events + [TrackingEvent(orders[i])];
    }
    assert orders[..|orders|] == orders;
  }

  method PushFinance(pushed: seq<Event>, records: seq<FinanceRecord>) returns (events: seq<Event>)
    ensures events == pushed + Mapped(records, Reported, FinanceEvent)
  {
    events := pushed;
    for i := 0 to |records|
      invariant events == pushed + Mapped(records[..i], Reported, FinanceEvent)
    {
      MappedSnoc(records, i, Reported, FinanceEvent);
      if !Reported(records[i]) { continue; }
      events := events + [FinanceEvent(records[i])];
    }
    assert records[..|records|] == records;
  }

  method PushAll(input: Input) returns (events: seq<Event>)
    ensures events == Pushed(input)
  {
    events := PushTickets([], Records(input.tickets));
    assert events == TicketEvents(input);
    events := PushReturns(events, Records(input.returns'));
    events := PushTracking(events, Records(input.orders));
    events := PushFinance(events, Records(input.finance));
  }

  /** `buildVendorCommunicationFeed`: four loops that push, then one sort. */
  method BuildVendorCommunicationFeed(input: Input, time: string -> int) returns (feed: seq<Event>)
    ensures StablySorted(Pushed(input), feed, time) && multiset(feed) == multiset(Pushed(input))
  {
    var events := PushAll(input);
    feed := Sort(events, time);
    SortIsStable(events, time);
  }

  /** Every run of the builder on one input yields the same feed. */
  lemma FeedIsDetermined(input: Input, a: seq<Event>, b: seq<Event>, time: string -> int)
    requires StablySorted(Pushed(input), a, time) && StablySorted(Pushed(input), b, time)
    ensures a == b
  {
    StableOrderIsUnique(a, b, time);
  }

  // ---------------------------------------------------------------------------------------
  // What holds of every feed
  // ---------------------------------------------------------------------------------------

  lemma {:induction false} MappedMembers<T(!new)>(records: seq<T>, passes: T -> bool, event: T -> Event)
    ensures forall e :: e in Mapped(records, passes, event) <==> exists r :: r in records && passes(r) && e == event(r)
    decreases |records|
  {
    if records != [] {
      MappedMembers(records[1..], passes, event);
      forall e ensures e in Mapped(records, passes, event) <==> exists r :: r in records && passes(r) && e == event(r) {
        if e in Mapped(records[1..], passes, event) {
          var r :| r in records[1..] && passes(r) && e == event(r);
          assert r in records;
        }
        if r :| r in records && passes(r) && e == event(r) {
          assert r == records[0] || r in records[1..];
        }
      }
    }
  }

  /** Exactly these events, no others: one per ticket, one per return, one per order that lacks
      tracking and may be shipped, one per refund or payout. */
  lemma FeedHoldsExactly(input: Input, feed: seq<Event>, e: Event)
    requires multiset(feed) == multiset(Pushed(input))
    ensures e in feed <==>
              || (exists t :: t in Records(input.tickets) && e == TicketEvent(t))
              || (exists r :: r in Records(input.returns') && e == ReturnEvent(r))
              || (exists o :: o in Records(input.orders) && NeedsTracking(o) && e == TrackingEvent(o))
              || (exists f :: f in Records(input.finance) && Reported(f) && e == FinanceEvent(f))
  {
    assert e in feed <==> e in multiset(feed);
    assert e in Pushed(input) <==> e in multiset(Pushed(input));
    MappedMembers(Records(input.tickets), AnyTicket, TicketEvent);
    MappedMembers(Records(input.returns'), AnyReturn, ReturnEvent);
    MappedMembers(Records(input.orders), NeedsTracking, TrackingEvent);
    MappedMembers(Records(input.finance), Reported, FinanceEvent);
    assert e in Pushed(input) <==>
      e in TicketEvents(input) || e in ReturnEvents(input) || e in TrackingEvents(input) || e in FinanceEvents(input);
    assert (exists t :: t in Records(input.tickets) && AnyTicket(t) && e == TicketEvent(t)) <==>
      exists t :: t in Records(input.tickets) && e == TicketEvent(t);
    assert (exists r :: r in Records(input.returns') && AnyReturn(r) && e == ReturnEvent(r)) <==>
      exists r :: r in Records(input.returns') && e == ReturnEvent(r);
  }

  /** No event both requires action and is resolved, the priority says which require action, and
      order events are the tracking events. */
  predicate Consistent(e: Event) {
    && !(e.requiresAction && e.resolved)
    && (e.requiresAction <==> e.priority.RequiresAction?)
    && (e.subject.OrderSubject? <==> e.kind.TrackingRequired?)
  }

  lemma ReturnEventIsConsistent(r: Return)
    ensures Consistent(ReturnEvent(r)) && !ReturnEvent(r).subject.OrderSubject?
  {
    var status := if r.status.Some? then Lower(r.status.value) else "";
    assert status == "requested" || status == "pending" || status == "in review" ==>
        status !in ["refunded", "processed", "closed", "approved"];
  }

  lemma TicketEventIsConsistent(t: Ticket)
    ensures Consistent(TicketEvent(t)) && !TicketEvent(t).subject.OrderSubject?
  {
  }

  lemma FinanceEventIsConsistent(f: FinanceRecord)
    ensures Consistent(FinanceEvent(f)) && !FinanceEvent(f).subject.OrderSubject?
  {
  }

  /** An event is consistent and about an order exactly when it comes from the orders' loop. */
  lemma FeedIsConsistent(input: Input, feed: seq<Event>, e: Event)
    requires multiset(feed) == multiset(Pushed(input)) && e in feed
    ensures Consistent(e)
    ensures e.subject.OrderSubject? ==> exists o :: o in Records(input.orders) && NeedsTracking(o) && e == TrackingEvent(o)
  {
    FeedHoldsExactly(input, feed, e);
    if o :| o in Records(input.orders) && NeedsTracking(o) && e == TrackingEvent(o) {
      assert Consistent(TrackingEvent(o));
    } else {
      forall r | e == ReturnEvent(r) ensures Consistent(e) && !e.subject.OrderSubject? { ReturnEventIsConsistent(r); }
      forall t | e == TicketEvent(t) ensures Consistent(e) && !e.subject.OrderSubject? { TicketEventIsConsistent(t); }
      forall f | e == FinanceEvent(f) ensures Consistent(e) && !e.subject.OrderSubject? { FinanceEventIsConsistent(f); }
    }
  }

  /** A tracking event stands for an order that is neither cancelled nor refunded for good nor blocked
      by its vendor, and has no tracking yet. */
  lemma TrackingEventsAreOpen(input: Input, feed: seq<Event>, e: Event)
    requires multiset(feed) == multiset(Pushed(input)) && e in feed && e.subject.OrderSubject?
    ensures exists o :: o in Records(input.orders) && e == TrackingEvent(o) && !FullyCancelled(o) && !o.refundTerminal
                     && NormalizeToken(o.allocationStatus) != "vendor_blocked"
                     && !Filled(o.trackingNumber) && !Filled(o.carrier)
  {
    FeedIsConsistent(input, feed, e);
    var o :| o in Records(input.orders) && NeedsTracking(o) && e == TrackingEvent(o);
    ShipmentAllowedExactlyWhen(o);
  }

  // ---------------------------------------------------------------------------------------
  // Distinct ids
  // ---------------------------------------------------------------------------------------

  predicate DistinctIds(events: seq<Event>) {
    forall i, j | 0 <= i < j < |events| :: events[i].id != events[j].id
  }

  /** Permuting events keeps their ids distinct. */
  lemma DistinctIdsPermute(a: seq<Event>, b: seq<Event>)
    requires multiset(a) == multiset(b) && DistinctIds(a)
    ensures DistinctIds(b)
  {
    forall i, j | 0 <= i < j < |b| ensures b[i].id != b[j].id {
      assert b[i] in multiset(b) && b[j] in multiset(b);
      assert b[i] in a && b[j] in a;
      if b[i] == b[j] {
        TwiceInside(b, i, j);
        TwiceApart(a, b[i]);
      }
    }
  }

  lemma TwiceInside(s: seq<Event>, i: nat, j: nat)
    requires i < j < |s| && s[i] == s[j]
    ensures multiset(s)[s[i]] >= 2
  {
    assert s == s[..j] + [s[j]] + s[j + 1..];
    assert s[i] in s[..j];
  }

  lemma TwiceApart(s: seq<Event>, e: Event)
    requires multiset(s)[e] >= 2
    ensures !DistinctIds(s)
  {
    assert e in multiset(s);
    var i :| 0 <= i < |s| && s[i] == e;
    assert s == s[..i] + [s[i]] + s[i + 1..];
    if e in s[..i] {
      var j :| 0 <= j < i && s[j] == e;
    } else {
      assert multiset(s[..i])[e] == 0;
      assert e in multiset(s[i + 1..]);
      var j :| i < j < |s| && s[j] == e;
    }
  }

  /** Mapping records with distinct ids, whatever is filtered out, yields distinct prefixed ids. */
  lemma {:induction false} MappedIdsDistinct<T(!new)>(records: seq<T>, passes: T -> bool, event: T -> Event, id: T -> string, prefix: string)
    requires forall r :: event(r).id == prefix + id(r)
    requires forall i, j | 0 <= i < j < |records| :: id(records[i]) != id(records[j])
    ensures DistinctIds(Mapped(records, passes, event))
    decreases |records|
  {
    if records != [] {
      var rest := Mapped(records[1..], passes, event);
      MappedIdsDistinct(records[1..], passes, event, id, prefix);
      MappedMembers(records[1..], passes, event);
      forall k | 0 <= k < |rest| ensures rest[k].id != event(records[0]).id {
        assert rest[k] in rest;
        var r :| r in records[1..] && passes(r) && rest[k] == event(r);
        assert rest[k].id[|prefix|..] == id(r) && event(records[0]).id[|prefix|..] == id(records[0]);
      }
    }
  }

  /** Every event's id starts with the letter of its kind of record. */
  predicate AllStartWith(events: seq<Event>, c: char) { forall i | 0 <= i < |events| :: events[i].id != "" && events[i].id[0] == c }

  lemma {:induction false} MappedStartWith<T(!new)>(records: seq<T>, passes: T -> bool, event: T -> Event, c: char)
    requires forall r :: event(r).id != "" && event(r).id[0] == c
    ensures AllStartWith(Mapped(records, passes, event), c)
    decreases |records|
  {
    if records != [] { MappedStartWith(records[1..], passes, event, c); }
  }

  lemma DistinctIdsConcat(a: seq<Event>, b: seq<Event>, cs: set<char>, c: char)
    requires DistinctIds(a) && DistinctIds(b) && AllStartWith(b, c) && c !in cs
    requires forall i | 0 <= i < |a| :: a[i].id != "" && a[i].id[0] in cs
    ensures DistinctIds(a + b)
    ensures forall i | 0 <= i < |a + b| :: (a + b)[i].id != "" && (a + b)[i].id[0] in cs + {c}
  {
  }

  ghost predicate DistinctBy<T(!new)>(records: seq<T>, id: T -> string) {
    forall i, j | 0 <= i < j < |records| :: id(records[i]) != id(records[j])
  }

  /** When each kind of record has distinct ids, so has the feed. */
  lemma FeedIdsDistinct(input: Input, feed: seq<Event>)
    requires multiset(feed) == multiset(Pushed(input))
    requires DistinctBy(Records(input.tickets), (t: Ticket) => t.id)
    requires DistinctBy(Records(input.returns'), (r: Return) => r.id)
    requires DistinctBy(Records(input.orders), (o: Order) => o.id)
    requires DistinctBy(Records(input.finance), (f: FinanceRecord) => f.id)
    ensures DistinctIds(feed)
  {
    MappedIdsDistinct(Records(input.tickets), AnyTicket, TicketEvent, (t: Ticket) => t.id, "support-");
    MappedIdsDistinct(Records(input.returns'), AnyReturn, ReturnEvent, (r: Return) => r.id, "return-");
    MappedIdsDistinct(Records(input.orders), NeedsTracking, TrackingEvent, (o: Order) => o.id, "tracking-");
    MappedIdsDistinct(Records(input.finance), Reported, FinanceEvent, (f: FinanceRecord) => f.id, "finance-");
    MappedStartWith(Records(input.tickets), AnyTicket, TicketEvent, 's');
    MappedStartWith(Records(input.returns'), AnyReturn, ReturnEvent, 'r');
    MappedStartWith(Records(input.orders), NeedsTracking, TrackingEvent, 't');
    MappedStartWith(Records(input.finance), Reported, FinanceEvent, 'f');
    var a, b := TicketEvents(input), ReturnEvents(input);
    DistinctIdsConcat(a, b, {'s'}, 'r');
    DistinctIdsConcat(a + b, TrackingEvents(input), {'s', 'r'}, 't');
    DistinctIdsConcat(a + b + TrackingEvents(input), FinanceEvents(input), {'s', 'r', 't'}, 'f');
    DistinctIdsPermute(Pushed(input), feed);
  }

  // ---------------------------------------------------------------------------------------
  // Filters and summary
  // ---------------------------------------------------------------------------------------

  datatype Filter = AllEvents | Unread | NeedsAction | Support | Returns | Finance | Shipments | ResolvedOnly

  predicate Shows(filter: Filter, e: Event) {
    match filter
    case AllEvents => true
    case Unread => e.unread
    case NeedsAction => e.requiresAction
    case Support => e.subject.SupportSubject?
    case Returns => e.subject.ReturnSubject?
    case Finance => e.subject.FinanceSubject?
    case Shipments => e.subject.OrderSubject? && (e.kind.TrackingRequired? || e.kind.ShipmentIssue?)
    case ResolvedOnly => e.resolved
  }

  function FilterEvents(events: seq<Event>, filter: Filter): seq<Event>
    decreases |events|
  {
    if events == [] then []
    else (if Shows(filter, events[0]) then [events[0]] else []) + FilterEvents(events[1..], filter)
  }

  /** What the other filters show, in the order of the feed. */
  lemma {:induction false} FiltersExactly(events: seq<Event>, e: Event)
    ensures e in FilterEvents(events, AllEvents) <==> e in events
    ensures e in FilterEvents(events, Unread) <==> e in events && e.unread
    ensures e in FilterEvents(events, NeedsAction) <==> e in events && e.requiresAction
    ensures e in FilterEvents(events, ResolvedOnly) <==> e in events && e.resolved
    decreases |events|
  {
    if events != [] {
      FiltersExactly(events[1..], e);
      assert e in events <==> e == events[0] || e in events[1..];
    }
  }

  datatype Summary = Summary(total: nat, unread: nat, requiresAction: nat, support: nat)

  function GetSummary(events: seq<Event>): Summary {
    Summary(|events|, |FilterEvents(events, Unread)|, |FilterEvents(events, NeedsAction)|, |FilterEvents(events, Support)|)
  }

  lemma {:induction false} FilterMultiplicity(events: seq<Event>, filter: Filter, e: Event)
    ensures multiset(FilterEvents(events, filter))[e] == if Shows(filter, e) then multiset(events)[e] else 0
    decreases |events|
  {
    if events != [] {
      FilterMultiplicity(events[1..], filter, e);
      assert events == [events[0]] + events[1..];
    }
  }

  lemma {:induction false} ActionAndResolvedAreDisjoint(events: seq<Event>)
    requires forall i | 0 <= i < |events| :: Consistent(events[i])
    ensures |FilterEvents(events, NeedsAction)| + |FilterEvents(events, ResolvedOnly)| <= |events|
    decreases |events|
  {
    if events != [] {
      ActionAndResolvedAreDisjoint(events[1..]);
      assert Consistent(events[0]);
    }
  }

  function ShownOne(e: Event, filter: Filter): seq<Event> { if Shows(filter, e) then [e] else [] }

  lemma FilterOfCons(e: Event, rest: seq<Event>, filter: Filter)
    ensures FilterEvents([e] + rest, filter) == ShownOne(e, filter) + FilterEvents(rest, filter)
  {
    assert ([e] + rest)[1..] == rest;
  }

  lemma {:induction false} FilterConcat(a: seq<Event>, b: seq<Event>, filter: Filter)
    ensures FilterEvents(a + b, filter) == FilterEvents(a, filter) + FilterEvents(b, filter)
    decreases |a|
  {
    if a == [] {
      assert a + b == b;
    } else {
      FilterConcat(a[1..], b, filter);
      FilterOfCons(a[0], a[1..] + b, filter);
      FilterOfCons(a[0], a[1..], filter);
      assert a + b == [a[0]] + (a[1..] + b) && a == [a[0]] + a[1..];
      Associates(ShownOne(a[0], filter), FilterEvents(a[1..], filter), FilterEvents(b, filter));
    }
  }

  lemma Associates(a: seq<Event>, b: seq<Event>, c: seq<Event>)
    ensures a + (b + c) == (a + b) + c
  {
  }

  lemma {:induction false} FilterAllOrNone(events: seq<Event>, filter: Filter, shown: bool)
    requires forall i | 0 <= i < |events| :: Shows(filter, events[i]) == shown
    ensures FilterEvents(events, filter) == if shown then events else []
    decreases |events|
  {
    if events != [] { FilterAllOrNone(events[1..], filter, shown); }
  }

  predicate BySubject(filter: Filter) { filter.Support? || filter.Returns? || filter.Finance? || filter.Shipments? }

  function SubjectOf(filter: Filter): Subject
    requires BySubject(filter)
  {
    if filter.Support? then SupportSubject else if filter.Returns? then ReturnSubject
    else if filter.Finance? then FinanceSubject else OrderSubject
  }

  lemma MappedSubject<T(!new)>(records: seq<T>, passes: T -> bool, event: T -> Event, subject: Subject, f: Filter)
    requires BySubject(f)
    requires forall r :: event(r).subject == subject && (subject.OrderSubject? ==> event(r).kind.TrackingRequired?)
    ensures FilterEvents(Mapped(records, passes, event), f) == if SubjectOf(f) == subject then Mapped(records, passes, event) else []
  {
    MappedMembers(records, passes, event);
    var events := Mapped(records, passes, event);
    forall i | 0 <= i < |events| ensures Shows(f, events[i]) == (SubjectOf(f) == subject) { assert events[i] in events; }
    FilterAllOrNone(events, f, SubjectOf(f) == subject);
  }

  lemma FilterPushed(input: Input, f: Filter)
    ensures FilterEvents(Pushed(input), f) ==
            FilterEvents(TicketEvents(input), f) + FilterEvents(ReturnEvents(input), f)
            + FilterEvents(TrackingEvents(input), f) + FilterEvents(FinanceEvents(input), f)
  {
    FilterConcat(TicketEvents(input) + ReturnEvents(input) + TrackingEvents(input), FinanceEvents(input), f);
    FilterConcat(TicketEvents(input) + ReturnEvents(input), TrackingEvents(input), f);
    FilterConcat(TicketEvents(input), ReturnEvents(input), f);
  }

  function LoopOf(input: Input, f: Filter): seq<Event>
    requires BySubject(f)
  {
    if f.Support? then TicketEvents(input) else if f.Returns? then ReturnEvents(input)
    else if f.Finance? then FinanceEvents(input) else TrackingEvents(input)
  }

  /** Each subject filter shows exactly what one loop pushed. */
  lemma SubjectFilterMatchesLoop(input: Input, f: Filter)
    requires BySubject(f)
    ensures FilterEvents(Pushed(input), f) == LoopOf(input, f)
  {
    FilterPushed(input, f);
    TicketsUnderFilter(input, f);
    ReturnsUnderFilter(input, f);
    TrackingUnderFilter(input, f);
    FinanceUnderFilter(input, f);
    LonePart(FilterEvents(TicketEvents(input), f), FilterEvents(ReturnEvents(input), f),
             FilterEvents(TrackingEvents(input), f), FilterEvents(FinanceEvents(input), f), LoopOf(input, f));
  }

  lemma LonePart(a: seq<Event>, b: seq<Event>, c: seq<Event>, d: seq<Event>, part: seq<Event>)
    requires || (a == part && b == c == d == []) || (b == part && a == c == d == [])
             || (c == part && a == b == d == []) || (d == part && a == b == c == [])
    ensures a + b + c + d == part
  {
  }

  lemma TicketsUnderFilter(input: Input, f: Filter)
    requires BySubject(f)
    ensures FilterEvents(TicketEvents(input), f) == if f.Support? then TicketEvents(input) else []
  {
    MappedSubject(Records(input.tickets), AnyTicket, TicketEvent, SupportSubject, f);
  }

  lemma ReturnsUnderFilter(input: Input, f: Filter)
    requires BySubject(f)
    ensures FilterEvents(ReturnEvents(input), f) == if f.Returns? then ReturnEvents(input) else []
  {
    MappedSubject(Records(input.returns'), AnyReturn, ReturnEvent, ReturnSubject, f);
  }

  lemma TrackingUnderFilter(input: Input, f: Filter)
    requires BySubject(f)
    ensures FilterEvents(TrackingEvents(input), f) == if f.Shipments? then TrackingEvents(input) else []
  {
    MappedSubject(Records(input.orders), NeedsTracking, TrackingEvent, OrderSubject, f);
  }

  lemma FinanceUnderFilter(input: Input, f: Filter)
    requires BySubject(f)
    ensures FilterEvents(FinanceEvents(input), f) == if f.Finance? then FinanceEvents(input) else []
  {
    MappedSubject(Records(input.finance), Reported, FinanceEvent, FinanceSubject, f);
  }

  /** A filter of a feed and of the pushed events show the same events, sorted or not. */
  lemma FiltersIgnoreOrder(feed: seq<Event>, pushed: seq<Event>, filter: Filter)
    requires multiset(feed) == multiset(pushed)
    ensures multiset(FilterEvents(feed, filter)) == multiset(FilterEvents(pushed, filter))
    ensures |FilterEvents(feed, filter)| == |FilterEvents(pushed, filter)|
  {
    forall e ensures multiset(FilterEvents(feed, filter))[e] == multiset(FilterEvents(pushed, filter))[e] {
      FilterMultiplicity(feed, filter, e);
      FilterMultiplicity(pushed, filter, e);
    }
    assert multiset(FilterEvents(feed, filter)) == multiset(FilterEvents(pushed, filter));
    assert |multiset(FilterEvents(feed, filter))| == |FilterEvents(feed, filter)|;
    assert |multiset(FilterEvents(pushed, filter))| == |FilterEvents(pushed, filter)|;
  }

  lemma FeedFilter(input: Input, feed: seq<Event>, f: Filter)
    requires multiset(feed) == multiset(Pushed(input)) && BySubject(f)
    ensures multiset(FilterEvents(feed, f)) == multiset(LoopOf(input, f))
    ensures |FilterEvents(feed, f)| == |LoopOf(input, f)|
  {
    SubjectFilterMatchesLoop(input, f);
    FiltersIgnoreOrder(feed, Pushed(input), f);
  }

  lemma FourParts(feed: seq<Event>, a: seq<Event>, b: seq<Event>, c: seq<Event>, d: seq<Event>)
    requires multiset(feed) == multiset(a + b + c + d)
    ensures multiset(feed) == multiset(a) + multiset(b) + multiset(c) + multiset(d)
    ensures |feed| == |a| + |b| + |c| + |d|
  {
    assert |multiset(feed)| == |feed|;
    assert |multiset(a + b + c + d)| == |a + b + c + d|;
  }

  /** The four subject filters split every feed without loss or overlap, each showing the events of
      one kind of record. */
  lemma SubjectFiltersPartition(input: Input, feed: seq<Event>)
    requires multiset(feed) == multiset(Pushed(input))
    ensures multiset(feed) ==
            multiset(FilterEvents(feed, Support)) + multiset(FilterEvents(feed, Returns))
            + multiset(FilterEvents(feed, Shipments)) + multiset(FilterEvents(feed, Finance))
  {
    FeedFilter(input, feed, Support);
    FeedFilter(input, feed, Returns);
    FeedFilter(input, feed, Finance);
    FeedFilter(input, feed, Shipments);
    FourParts(feed, TicketEvents(input), ReturnEvents(input), TrackingEvents(input), FinanceEvents(input));
  }

  /** The summary counts the records behind the feed: its total is one per event pushed, its support
      count one per ticket; and what requires action and what is resolved never exceed the total. */
  lemma SummaryCounts(input: Input, feed: seq<Event>)
    requires multiset(feed) == multiset(Pushed(input))
    ensures var s := GetSummary(feed);
            && s.total == |TicketEvents(input)| + |ReturnEvents(input)| + |TrackingEvents(input)| + |FinanceEvents(input)|
            && s.support == |TicketEvents(input)|
            && s.requiresAction + |FilterEvents(feed, ResolvedOnly)| <= s.total
  {
    forall i | 0 <= i < |feed| ensures Consistent(feed[i]) { FeedIsConsistent(input, feed, feed[i]); }
    ActionAndResolvedAreDisjoint(feed);
    FeedFilter(input, feed, Support);
    FourParts(feed, TicketEvents(input), ReturnEvents(input), TrackingEvents(input), FinanceEvents(input));
  }
}
