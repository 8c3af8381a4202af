/** The operations page's offset paging: pages of ten, Back and Next behind their controls, and an
    effect that clamps the offset when the total has shrunk below it. */
module OffsetPaging {
  import opened Options

  const PAGE_SIZE := 10

  function Min(a: int, b: int): int { if a < b then a else b }

  function Max(a: int, b: int): int { if a > b then a else b }

  predicate CanBack(offset: int) { offset > 0 }

  predicate CanForward(offset: int, total: int) { offset + PAGE_SIZE < total }

  /** `Math.floor` of a non-negative quotient. */
  function LastPageOffset(total: nat): int { Max(0, (Max(total, 1) - 1) / PAGE_SIZE * PAGE_SIZE) }

  /** The clamp effect; no total means the page has not loaded. */
  function Clamp(offset: int, total: Option<nat>): int {
    if total.None? || offset == 0 || offset < total.value then offset else LastPageOffset(total.value)
  }

  // ---------------------------------------------------------------------------------------
  // Windows
  // ---------------------------------------------------------------------------------------

  /** The rows of the page at `offset`, numbered from zero. */
  function Window(offset: nat, total: nat): seq<nat> {
    if offset >= total then [] else seq(Min(offset + PAGE_SIZE, total) - offset, i requires 0 <= i => offset + i)
  }

  /** A page shows ten rows, or what is left, from its offset on. */
  lemma WindowExactly(offset: nat, total: nat)
    ensures |Window(offset, total)| ==
            if offset >= total then 0 else if total - offset >= 10 then 10 else total - offset
    ensures forall i | 0 <= i < |Window(offset, total)| :: Window(offset, total)[i] == offset + i
  {
  }

  /** The rows of the page at `offset` and of all pages reached from it by pressing Next while it is enabled. */
  function RowsFrom(offset: nat, total: nat): seq<nat>
    decreases total - offset
  {
    Window(offset, total) + if CanForward(offset, total) then RowsFrom(offset + PAGE_SIZE, total) else []
  }

  /** Pressing Next from the first page to the last shows every row once, in order. */
  lemma {:induction false} NextVisitsEveryRowOnce(offset: nat, total: nat)
    ensures |RowsFrom(offset, total)| == (if offset < total then total - offset else 0)
    ensures forall i | 0 <= i < |RowsFrom(offset, total)| :: RowsFrom(offset, total)[i] == offset + i
    decreases total - offset
  {
    if CanForward(offset, total) {
      NextVisitsEveryRowOnce(offset + PAGE_SIZE, total);
      assert |Window(offset, total)| == PAGE_SIZE;
    }
  }

  /** A page shows no rows exactly when its offset is at or beyond the total. */
  lemma PageIsEmptyExactlyWhen(offset: nat, total: nat)
    ensures Window(offset, total) == [] <==> offset >= total
  {
    if offset < total { assert |Window(offset, total)| > 0; }
  }

  // ---------------------------------------------------------------------------------------
  // Runs
  // ---------------------------------------------------------------------------------------

  /** The eight paged queues of the page. */
  datatype Queue =
    | VendorBlocked | ResolvedVendorBlocked | Shipment | ReturnReview
    | FinanceReview | FinanceIntegrity | CustomerCancellation | SupportAttention

  /** The queues for which the page has a clamp effect. */
  predicate HasClamp(q: Queue) {
    match q
    case Shipment | ReturnReview | FinanceReview | FinanceIntegrity | CustomerCancellation => true
    case VendorBlocked | ResolvedVendorBlocked | SupportAttention => false
  }

  datatype Pager = Pager(queue: Queue, offset: int, total: Option<nat>)

  datatype Event = Next | Back | Arrives(total: Option<nat>) | EffectRuns

  function Total(p: Pager): nat { if p.total.Some? then p.total.value else 0 }

  function Step(p: Pager, e: Event): Pager {
    match e
    case Next => if CanForward(p.offset, Total(p)) then p.(offset := p.offset + PAGE_SIZE) else p
    case Back => if CanBack(p.offset) then p.(offset := Max(0, p.offset - PAGE_SIZE)) else p
    case Arrives(total) => p.(total := total)
    case EffectRuns => if HasClamp(p.queue) then p.(offset := Clamp(p.offset, p.total)) else p
  }

  function Run(p: Pager, events: seq<Event>): Pager
    decreases |events|
  {
    if events == [] then p else Run(Step(p, events[0]), events[1..])
  }

  /** Next moves ten rows on exactly when the page loaded and has rows behind it, Back ten rows back
      exactly from beyond the first page; a total that arrives moves nothing; and the effect moves
      exactly a loaded page beyond the end, in the five queues that have it, to the last page. */
  lemma StepsExactly(p: Pager, total: Option<nat>)
    requires p.offset >= 0 && p.offset % 10 == 0
    ensures Step(p, Next) == p.(offset := if p.total != None && p.offset + 10 < p.total.value then p.offset + 10 else p.offset)
    ensures Step(p, Back) == p.(offset := if p.offset >= 10 then p.offset - 10 else 0)
    ensures Step(p, Arrives(total)) == p.(total := total)
    ensures Step(p, EffectRuns) ==
            if p.queue in {Shipment, ReturnReview, FinanceReview, FinanceIntegrity, CustomerCancellation}
               && p.total != None && 0 < p.offset && p.total.value <= p.offset
            then p.(offset := if p.total.value == 0 then 0 else (p.total.value - 1) / 10 * 10)
            else p
  {
  }

  lemma LastPageStart(total: nat)
    ensures var last := LastPageOffset(total);
            0 <= last && last % PAGE_SIZE == 0 && last < Max(total, 1) <= last + PAGE_SIZE
  {
  }

  /** One clamp reaches the start of the last page, from where Next is disabled, no further clamp
      fires, and rows are shown if there are any. */
  lemma ClampReachesTheLastPage(offset: nat, total: nat)
    requires offset > 0 && offset >= total
    ensures var o := Clamp(offset, Some(total));
            && 0 <= o < offset && o % PAGE_SIZE == 0 && !CanForward(o, total) && Clamp(o, Some(total)) == o
            && (o < total || (o == 0 && total == 0))
  {
    LastPageStart(total);
  }

  /** Offsets stay non-negative multiples of the page size, whatever totals arrive. */
  lemma {:induction false} OffsetsAreAligned(p: Pager, events: seq<Event>)
    requires p.offset >= 0 && p.offset % PAGE_SIZE == 0
    ensures Run(p, events).offset >= 0 && Run(p, events).offset % PAGE_SIZE == 0
    decreases |events|
  {
    if events != [] {
      if p.total.Some? { LastPageStart(p.total.value); }
      OffsetsAreAligned(Step(p, events[0]), events[1..]);
    }
  }

  /** A loaded page that shows no rows although there are some. */
  predicate Stranded(p: Pager) { p.total.Some? && p.offset > 0 && p.offset >= p.total.value > 0 }

  predicate Waiting(e: Event) { e.EffectRuns? || e.Next? }

  /** From a stranded page some run of effects and Next presses reaches a page with rows exactly when
      the queue has a clamp effect: without it only Back or a new total helps. */
  lemma StrandedPagesRecoverExactlyWhen(p: Pager)
    requires Stranded(p)
    ensures (exists events: seq<Event> :: (forall e | e in events :: Waiting(e)) && !Stranded(Run(p, events))) <==>
              p.queue in {Shipment, ReturnReview, FinanceReview, FinanceIntegrity, CustomerCancellation}
  {
    if HasClamp(p.queue) {
      ClampReachesTheLastPage(p.offset, p.total.value);
      var events := [EffectRuns];
      assert events[1..] == [];
      assert !Stranded(Run(p, events));
    } else {
      forall events: seq<Event> | forall e | e in events :: Waiting(e) ensures Stranded(Run(p, events)) {
        StaysStranded(p, events);
      }
    }
  }

  lemma {:induction false} StaysStranded(p: Pager, events: seq<Event>)
    requires Stranded(p) && !HasClamp(p.queue) && forall e | e in events :: Waiting(e)
    ensures Run(p, events) == p
    decreases |events|
  {
    if events != [] {
      assert Waiting(events[0]) && Step(p, events[0]) == p;
      StaysStranded(p, events[1..]);
    }
  }

  /** For example: the third page of the support queue after its total has shrunk to fifteen rows. */
  lemma SupportQueueStrands()
    ensures var p := Run(Pager(SupportAttention, 0, Some(25)), [Next, Next, Arrives(Some(15)), EffectRuns]);
            p.offset == 20 && Stranded(p) && Window(20, 15) == []
  {
    var p0 := Pager(SupportAttention, 0, Some(25));
    var all := [Next, Next, Arrives(Some(15)), EffectRuns];
    var p1, p2 := Step(p0, Next), Step(Step(p0, Next), Next);
    var p3 := Step(p2, Arrives(Some(15)));
    assert all[1..] == [Next, Arrives(Some(15)), EffectRuns] && all[1..][1..] == [Arrives(Some(15)), EffectRuns];
    assert [Arrives(Some(15)), EffectRuns][1..] == [EffectRuns] && [EffectRuns][1..] == [];
    assert Run(p3, [EffectRuns]) == Run(Step(p3, EffectRuns), []);
    assert Run(p2, [Arrives(Some(15)), EffectRuns]) == Run(p3, [EffectRuns]);
    assert Run(p1, all[1..]) == Run(p2, all[1..][1..]);
  }

  /** The offset of one queue. */
  class Paging {
    const queue: Queue
    var offset: int
    var total: Option<nat>

    ghost function Now(): Pager
      reads this
    {
      Pager(queue, offset, total)
    }

    /** The offset is the start of a page. */
    ghost predicate Valid()
      reads this
    {
      offset >= 0 && offset % PAGE_SIZE == 0
    }

    constructor (queue: Queue)
      ensures Valid() && Now() == Pager(queue, 0, None)
    {
      this.queue, offset, total := queue, 0, None;
    }

    /** To the page whose rows follow directly, if there are any. */
    method PressNext()
      requires Valid()
      modifies this`offset
      ensures Valid() && Now() == Step(old(Now()), Next)
      ensures offset != old(offset) <==> total.Some? && old(offset) + 10 < total.value
      ensures offset != old(offset) ==>
                |Window(old(offset), Total(Now()))| == PAGE_SIZE == offset - old(offset) && Window(offset, Total(Now())) != []
    {
      var rows := if total.Some? then total.value else 0;
      if offset + PAGE_SIZE < rows {
        offset := offset + PAGE_SIZE;
        PageIsEmptyExactlyWhen(offset, rows);
      }
    }

    method PressBack()
      requires Valid()
      modifies this`offset
      ensures Valid() && Now() == Step(old(Now()), Back)
      ensures offset == if old(offset) == 0 then 0 else old(offset) - PAGE_SIZE
    {
      if offset > 0 { offset := Max(0, offset - PAGE_SIZE); }
    }

    method ClampEffect()
      requires Valid()
      modifies this`offset
      ensures Valid() && Now() == Step(old(Now()), EffectRuns)
      ensures queue in {Shipment, ReturnReview, FinanceReview, FinanceIntegrity, CustomerCancellation} ==> !Stranded(Now())
      ensures queue in {VendorBlocked, ResolvedVendorBlocked, SupportAttention} ==> offset == old(offset)
    {
      if !HasClamp(queue) || total.None? || offset == 0 || offset < total.value { return; }
      ClampReachesTheLastPage(offset, total.value);
      offset := Max(0, (Max(total.value, 1) - 1) / PAGE_SIZE * PAGE_SIZE);
    }
  }
}
