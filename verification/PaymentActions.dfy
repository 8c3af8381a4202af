/** The payment preparation page: a queue, one confirmation dialog whose target is frozen when it
    opens, and payment mutations whose replies may arrive after the context has moved on. */
module PaymentActions {
  import opened Options
  import opened Text
  import EftAmount

  // ---------------------------------------------------------------------------------------
  // The queue
  // ---------------------------------------------------------------------------------------

  datatype BatchStatus =
    | Draft | Review | Approved | ExecutionPending | Paid | PaidPlaceholder | CashlessCompleted | Cancelled

  /** `hasR1Offset` and `hasNet` are the two `hasAmount` tests on the batch's amount texts. */
  datatype Batch = Batch(id: string, vendorId: string, status: BatchStatus, hasR1Offset: bool, hasNet: bool)

  datatype Readiness = Readiness(eligibleCredits: int, eligibleRows: int, hasLatestBatch: bool)

  datatype Item = ReadyItem(vendorId': string) | BatchItem(batch: Batch) {
    function Id(): string {
      match this
      case ReadyItem(vendor) => "ready:" + vendor
      case BatchItem(batch) => "batch:" + batch.id
    }

    function VendorId(): string { if ReadyItem? then vendorId' else batch.vendorId }

    function BatchId(): Option<string> { if BatchItem? then Some(batch.id) else None }

    predicate R1Payment() { BatchItem? && batch.hasR1Offset }
  }

  datatype Action = Prepare | MarkReview | MarkPaid | Cancel | CancelReview | CompleteCashless

  function SupportedActions(item: Item): set<Action> {
    if item.ReadyItem? then {Prepare}
    else match item.batch.status
      case Draft => {MarkReview, Cancel}
      case Review =>
        if item.batch.hasR1Offset && !item.batch.hasNet then {CompleteCashless, CancelReview}
        else if item.batch.hasR1Offset then {MarkPaid, CancelReview}
        else {MarkPaid}
      case _ => {}
  }

  /** `getNextAction`: the action the queue row announces. */
  function NextAction(item: Item): Option<Action> {
    if item.ReadyItem? then Some(Prepare)
    else if item.batch.status.Draft? then Some(MarkReview)
    else if item.batch.status.Review? then
      Some(if item.batch.hasR1Offset && !item.batch.hasNet then CompleteCashless else MarkPaid)
    else None
  }

  /** Which actions a row supports, action by action. */
  lemma ActionIsSupportedExactlyWhen(item: Item, action: Action)
    ensures action in SupportedActions(item) <==>
              match action
              case Prepare => item.ReadyItem?
              case MarkReview => item.BatchItem? && item.batch.status == Draft
              case Cancel => item.BatchItem? && item.batch.status == Draft
              case MarkPaid => item.BatchItem? && item.batch.status == Review && (!item.batch.hasR1Offset || item.batch.hasNet)
              case CancelReview => item.BatchItem? && item.batch.status == Review && item.batch.hasR1Offset
              case CompleteCashless => item.BatchItem? && item.batch.status == Review && item.batch.hasR1Offset && !item.batch.hasNet
  {
  }

  /** The two tables agree: a row announces an action exactly when it supports one, it supports
      the one it announces, and paying by EFT and completing cashless exclude each other. */
  lemma AnnouncedActionIsSupported(item: Item)
    ensures NextAction(item).None? <==> SupportedActions(item) == {}
    ensures NextAction(item).Some? ==> NextAction(item).value in SupportedActions(item)
    ensures NextAction(item) != Some(Cancel) && NextAction(item) != Some(CancelReview)
    ensures !(MarkPaid in SupportedActions(item) && CompleteCashless in SupportedActions(item))
    ensures CancelReview in SupportedActions(item) ==> item.R1Payment()
  {
    if NextAction(item).Some? { assert NextAction(item).value in SupportedActions(item); }
  }

  datatype Tab = AllTab | ReadyTab | DraftTab | ReviewTab | ApprovedTab | PaidTab | CashlessTab | CancelledTab

  /** `matchesWorkflow`. */
  predicate MatchesWorkflow(item: Item, tab: Tab) {
    if tab.AllTab? then true
    else if tab.ReadyTab? then item.ReadyItem?
    else if !item.BatchItem? then false
    else match tab
      case PaidTab => item.batch.status.Paid?
      case ApprovedTab => item.batch.status.Approved? || item.batch.status.ExecutionPending?
      case DraftTab => item.batch.status.Draft?
      case ReviewTab => item.batch.status.Review?
      case CashlessTab => item.batch.status.CashlessCompleted?
      case _ => item.batch.status.Cancelled?
  }

  /** Besides the tab that shows all, a row is under exactly one tab, its status's, except that a
      placeholder payment is under none. */
  lemma RowsAreUnderOneTab(item: Item, tab: Tab)
    ensures MatchesWorkflow(item, tab) <==>
              || tab == AllTab
              || (item.ReadyItem? && tab == ReadyTab)
              || (item.BatchItem? && item.batch.status == Draft && tab == DraftTab)
              || (item.BatchItem? && item.batch.status == Review && tab == ReviewTab)
              || (item.BatchItem? && item.batch.status in {Approved, ExecutionPending} && tab == ApprovedTab)
              || (item.BatchItem? && item.batch.status == Paid && tab == PaidTab)
              || (item.BatchItem? && item.batch.status == CashlessCompleted && tab == CashlessTab)
              || (item.BatchItem? && item.batch.status == Cancelled && tab == CancelledTab)
  {
  }

  predicate OffersReady(vendor: string, readiness: Option<Readiness>) {
    && vendor != "" && readiness.Some?
    && (readiness.value.eligibleCredits > 0 || (readiness.value.eligibleRows > 0 && !readiness.value.hasLatestBatch))
  }

  function QueueItems(vendor: string, readiness: Option<Readiness>, batches: seq<Batch>): seq<Item> {
    (if OffersReady(vendor, readiness) then [ReadyItem(vendor)] else [])
      + seq(|batches|, i requires 0 <= i < |batches| => BatchItem(batches[i]))
  }

  /** The ready row is offered exactly for a chosen vendor with eligible credits, or with eligible rows
      and no batch yet. */
  lemma ReadyIsOfferedExactlyWhen(vendor: string, r: Readiness)
    ensures OffersReady(vendor, Some(r)) <==>
              vendor != "" && (r.eligibleCredits >= 1 || (r.eligibleRows >= 1 && !r.hasLatestBatch))
    ensures !OffersReady(vendor, None)
  {
  }

  /** `buildQueueItems`: pushes the ready row, then one row per batch. */
  method BuildQueueItems(vendor: string, readiness: Option<Readiness>, batches: seq<Batch>)
    returns (items: seq<Item>)
    ensures items == QueueItems(vendor, readiness, batches)
    ensures var ready := if OffersReady(vendor, readiness) then 1 else 0;
            && |items| == ready + |batches| && (ready == 1 ==> items[0] == ReadyItem(vendor))
            && forall i | 0 <= i < |batches| :: items[ready + i] == BatchItem(batches[i])
  {
    items := [];
    if OffersReady(vendor, readiness) { items := items + [ReadyItem(vendor)]; }
    var head := items;
    for i := 0 to |batches|
      invariant items == head + seq(i, j requires 0 <= j < i => BatchItem(batches[j]))
    {
      items := items + [BatchItem(batches[i])];
    }
  }

  /** Row ids are distinct when batch ids are. */
  lemma QueueIdsDistinct(vendor: string, readiness: Option<Readiness>, batches: seq<Batch>, i: nat, j: nat)
    requires forall a, b | 0 <= a < b < |batches| :: batches[a].id != batches[b].id
    requires i < j < |QueueItems(vendor, readiness, batches)|
    ensures QueueItems(vendor, readiness, batches)[i].Id() != QueueItems(vendor, readiness, batches)[j].Id()
  {
    var items := QueueItems(vendor, readiness, batches);
    var k := if OffersReady(vendor, readiness) then 1 else 0;
    assert items[j] == BatchItem(batches[j - k]);
    assert items[j].Id()[..6] == "batch:" && items[j].Id()[6..] == batches[j - k].id;
    if i >= k {
      assert items[i].Id()[6..] == batches[i - k].id;
    } else {
      assert items[i].Id()[..6] == "ready:";
    }
  }

  // ---------------------------------------------------------------------------------------
  // The page
  // ---------------------------------------------------------------------------------------

  /** An open dialog. `dialog` numbers the openings; a prepare dialog draws a fresh request id. */
  datatype Pending = Pending(
    dialog: nat, action: Action, itemId: string, ready: bool, vendorId: string, batchId: Option<string>,
    vendorFilter: string, requestId: Option<nat>, r1Payment: bool)

  datatype Form = Form(
    eftDate: string, eftTime: string, eftUtcOffset: string, eftAmount: string, reference: string, note: string,
    reason: string, confirmNoEft: bool, confirmCashless: bool)

  /** A mutation as sent to the backend. */
  datatype Mutation =
    | PrepareBatch(vendorId: string, requestId: nat)
    | MarkBatchReview(batchId: string)
    | MarkBatchPaid(
        batchId: string, declaredAt: string, eftAmountMinor: Option<nat>, reference: Option<string>, note: Option<string>)
    | CancelBatch(batchId: string)
    | CancelR1Review(batchId: string, reason: string)
    | CompleteR1Cashless(batchId: string, reason: string)

  datatype Progress = Calling | Refetching | Ended

  /** One run of `handleConfirmAction` that sent its mutation; `item` is the row it was checked
      against, `context` the context version it captured. */
  datatype Submission = Submission(target: Pending, item: Item, context: nat, mutation: Mutation, progress: Progress)

  /** The queries' data with the filters and the selection: what decides the selected row. */
  datatype Queue = Queue(
    batches: seq<Batch>,
    readiness: Option<Readiness>,
    loading: bool,
    queryFailed: bool,
    hidden: set<Item>,
    vendorFilter: string,
    selectedId: Option<string>)
  {
    function Vendor(): string { Trim(vendorFilter) }

    predicate Mismatched() { Vendor() != "" && exists i | 0 <= i < |batches| :: batches[i].vendorId != Vendor() }

    /** The queue is still loading or shows an error. */
    predicate Busy() { loading || queryFailed || Mismatched() }

    function Items(): seq<Item> { if Mismatched() then [] else QueueItems(Vendor(), readiness, batches) }

    function Selected(): Option<Item> {
      var visible := Visible(Items(), hidden);
      var chosen := if selectedId.Some? then FirstWithId(visible, selectedId.value) else None;
      if chosen.Some? then chosen else if visible == [] then None else Some(visible[0])
    }
  }

  datatype State = State(
    queue: Queue,
    pending: Option<Pending>,
    contextVersion: nat,
    submitting: bool,
    error: Option<string>,
    success: Option<string>,
    dialogs: nat,
    submissions: seq<Submission>)

  /** The rows left by the tabs, the search and the other filters, which only hide rows. */
  function Visible(items: seq<Item>, hidden: set<Item>): seq<Item> {
    if items == [] then []
    else (if items[0] in hidden then [] else [items[0]]) + Visible(items[1..], hidden)
  }

  function FirstWithId(items: seq<Item>, id: string): Option<Item> {
    if items == [] then None else if items[0].Id() == id then Some(items[0]) else FirstWithId(items[1..], id)
  }

  function OpenAction(s: State, action: Action): State {
    var selected := s.queue.Selected();
    if selected.None? || s.queue.Busy() || s.submitting || action !in SupportedActions(selected.value) then s
    else
      var item := selected.value;
      s.(error := None, success := None, dialogs := s.dialogs + 1,
         pending := Some(Pending(s.dialogs, action, item.Id(), item.ReadyItem?, item.VendorId(), item.BatchId(),
                                 s.queue.Vendor(), if action.Prepare? then Some(s.dialogs) else None, item.R1Payment())))
  }

  /** The re-validation before sending: the selected row is still the dialog's target. */
  predicate StillTargets(target: Pending, item: Item) {
    && target.itemId == item.Id() && target.ready == item.ReadyItem?
    && target.vendorId == item.VendorId() && target.batchId == item.BatchId()
    && target.action in SupportedActions(item)
  }

  predicate MayConfirm(q: Queue, target: Pending) {
    && q.Selected().Some? && !q.Busy() && target.vendorFilter == q.Vendor()
    && StillTargets(target, q.Selected().value)
  }

  predicate IsUtcOffset(t: string) {
    || t == "Z"
    || (|t| == 6 && t[0] in {'+', '-'} && t[3] == ':' && AllDigits(t[1..3]) && AllDigits(t[4..]))
  }

  /** The bank EFT's declared time: seconds are added to a time without them. */
  function DeclaredAt(form: Form): string {
    form.eftDate + "T" + form.eftTime + (if |form.eftTime| == 5 then ":00" else "") + Trim(form.eftUtcOffset)
  }

  /** `text.trim() || undefined`. */
  function Given(text: string): Option<string> { if Trim(text) == "" then None else Some(Trim(text)) }

  function PaidMutation(batch: string, form: Form, amount: Option<nat>): Mutation {
    MarkBatchPaid(batch, DeclaredAt(form), amount, Given(form.reference), Given(form.note))
  }

  function BuildPaid(batch: string, r1Payment: bool, form: Form): Result<Mutation, string> {
    if form.eftDate == "" || form.eftTime == "" || !IsUtcOffset(Trim(form.eftUtcOffset)) then
      Err("Enter the bank EFT date, time and explicit UTC offset.")
    else if !r1Payment then Ok(PaidMutation(batch, form, None))
    else match EftAmount.ParseEnteredEftMinor(form.eftAmount)
      case Ok(minor) => Ok(PaidMutation(batch, form, Some(minor)))
      case Err(Malformed) => Err("Enter the exact bank EFT amount with at most two decimal places.")
      case Err(_) => Err("Bank EFT amount must be positive and exact.")
  }

  /** The mutation the dialog's action sends, or the message of the validation that stops it. */
  function BuildMutation(target: Pending, form: Form): Result<Mutation, string> {
    var batch := if target.batchId.Some? then target.batchId.value else "";
    if target.action.Prepare? && target.requestId.Some? then Ok(PrepareBatch(target.vendorId, target.requestId.value))
    else if target.action.Prepare? || batch == "" then Err("Payment target is unavailable. Select the item again.")
    else match target.action
      case MarkReview => Ok(MarkBatchReview(batch))
      case MarkPaid => BuildPaid(batch, target.r1Payment, form)
      case Cancel => Ok(CancelBatch(batch))
      case CancelReview =>
        if Trim(form.reason) == "" || !form.confirmNoEft then
          Err("Written reason and no-EFT confirmation are required.")
        else Ok(CancelR1Review(batch, Trim(form.reason)))
      case _ =>
        if Trim(form.reason) == "" || !form.confirmNoEft || !form.confirmCashless then
          Err("Written reason, no-EFT and cashless confirmations are required.")
        else Ok(CompleteR1Cashless(batch, Trim(form.reason)))
  }

  function Send(s: State, item: Item, mutation: Mutation): State
    requires s.pending.Some?
  {
    s.(error := None, success := None, submitting := true,
       submissions := s.submissions + [Submission(s.pending.value, item, s.contextVersion, mutation, Calling)])
  }

  /** `handleConfirmAction` up to its first await. */
  function Confirm(s: State, form: Form): State {
    if s.pending.None? || s.submitting then s
    else
      var target := s.pending.value;
      if !MayConfirm(s.queue, target) then
        s.(pending := None, error := Some("Payment selection changed. Select the item again."))
      else match BuildMutation(target, form)
        case Err(message) => s.(error := Some(message), success := None)
        case Ok(mutation) => Send(s, s.queue.Selected().value, mutation)
  }

  function Move(s: State, i: nat, progress: Progress): State
    requires i < |s.submissions|
  {
    s.(submissions := s.submissions[i := s.submissions[i].(progress := progress)],
       submitting := if progress.Ended? then false else s.submitting)
  }

  /** The mutation's reply: a success message, or the failure's text. */
  function MutationReplied(s: State, i: nat, reply: Result<string, string>): State
    requires i < |s.submissions|
  {
    if s.submissions[i].context != s.contextVersion then Move(s, i, Ended)
    else match reply
      case Ok(message) => Move(s.(success := Some(message), pending := None), i, Refetching)
      case Err(message) => Move(s.(error := Some(message)), i, Ended)
  }

  function RefetchEnded(s: State, i: nat, failure: Option<string>): State
    requires i < |s.submissions|
  {
    Move(if failure.Some? && s.submissions[i].context == s.contextVersion then s.(error := failure) else s, i, Ended)
  }

  function SelectRow(s: State, id: string): State {
    if s.queue.Selected().Some? && s.queue.Selected().value.Id() == id then s
    else s.(contextVersion := s.contextVersion + 1, pending := None,
            queue := s.queue.(selectedId := Some(id)))
  }

  function ChangeVendorFilter(s: State, text: string): State {
    s.(contextVersion := s.contextVersion + 1, pending := None, error := None, success := None,
       queue := s.queue.(vendorFilter := text, selectedId := None))
  }

  // ---------------------------------------------------------------------------------------
  // Runs
  // ---------------------------------------------------------------------------------------

  datatype Event =
    | Loads(batches: seq<Batch>, readiness: Option<Readiness>, loading: bool, queryFailed: bool)
    | Filters(hidden: set<Item>)
    | FiltersVendor(text: string)
    | Selects(id: string)
    | Opens(action: Action)
    | Closes
    | Confirms(form: Form)
    | Replies(submission: nat, reply: Result<string, string>)
    | Refetched(submission: nat, failure: Option<string>)

  predicate Enabled(s: State, e: Event) {
    match e
    case Closes => !s.submitting
    case Replies(i, _) => i < |s.submissions| && s.submissions[i].progress.Calling?
    case Refetched(i, _) => i < |s.submissions| && s.submissions[i].progress.Refetching?
    case _ => true
  }

  function Step(s: State, e: Event): State {
    if !Enabled(s, e) then s else
    match e
    case Loads(batches, readiness, loading, failed) =>
      s.(queue := s.queue.(batches := batches, readiness := readiness, loading := loading, queryFailed := failed))
    case Filters(hidden) => s.(queue := s.queue.(hidden := hidden))
    case FiltersVendor(text) => ChangeVendorFilter(s, text)
    case Selects(id) => SelectRow(s, id)
    case Opens(action) => OpenAction(s, action)
    case Closes => s.(pending := None)
    case Confirms(form) => Confirm(s, form)
    case Replies(i, reply) => MutationReplied(s, i, reply)
    case Refetched(i, failure) => RefetchEnded(s, i, failure)
  }

  function Run(s: State, events: seq<Event>): State
    decreases |events|
  {
    if events == [] then s else Run(Step(s, events[0]), events[1..])
  }

  function Initial(vendor: string): State {
    State(Queue([], None, true, false, {}, vendor, None), None, 0, false, None, None, 0, [])
  }

  // ---------------------------------------------------------------------------------------
  // The invariant
  // ---------------------------------------------------------------------------------------

  /** The target was frozen by opening number `dialog`. */
  predicate Frozen(target: Pending, dialogs: nat) {
    && target.dialog < dialogs
    && target.requestId == (if target.action.Prepare? then Some(target.dialog) else None)
  }

  /** The mutation names the vendor, batch and request id of its target and nothing else. */
  predicate NamesTarget(m: Mutation, target: Pending) {
    match m
    case PrepareBatch(vendor, request) =>
      target.action.Prepare? && vendor == target.vendorId && target.requestId == Some(request)
    case MarkBatchReview(batch) => target.action.MarkReview? && target.batchId == Some(batch)
    case MarkBatchPaid(batch, _, amount, _, _) =>
      && target.action.MarkPaid? && target.batchId == Some(batch)
      && (amount.Some? <==> target.r1Payment)
      && (amount.Some? ==> 1 <= amount.value <= 9007199254740991)
    case CancelBatch(batch) => target.action.Cancel? && target.batchId == Some(batch)
    case CancelR1Review(batch, reason) =>
      target.action.CancelReview? && target.batchId == Some(batch) && reason != ""
    case CompleteR1Cashless(batch, reason) =>
      target.action.CompleteCashless? && target.batchId == Some(batch) && reason != ""
  }

  ghost predicate SubmissionWf(s: State, i: nat)
    requires i < |s.submissions|
  {
    var sub := s.submissions[i];
    && Frozen(sub.target, s.dialogs) && NamesTarget(sub.mutation, sub.target) && StillTargets(sub.target, sub.item)
    && (sub.target.vendorFilter != "" ==> sub.target.vendorId == sub.target.vendorFilter)
    && sub.context <= s.contextVersion
    && (!sub.progress.Ended? ==> s.submitting)
    && (sub.progress.Calling? && sub.context == s.contextVersion ==> s.pending == Some(sub.target))
  }

  ghost predicate Inv(s: State) {
    && (forall i | 0 <= i < |s.submissions| :: SubmissionWf(s, i))
    && (forall i, j | 0 <= i < j < |s.submissions| :: s.submissions[i].progress.Ended? || s.submissions[j].progress.Ended?)
    && (s.submitting ==> exists i :: 0 <= i < |s.submissions| && !s.submissions[i].progress.Ended?)
    && (forall i, j | 0 <= i < |s.submissions| && 0 <= j < |s.submissions|
          && s.submissions[i].target.dialog == s.submissions[j].target.dialog :: s.submissions[i].target == s.submissions[j].target)
    && (s.pending.Some? ==> Frozen(s.pending.value, s.dialogs))
    && (s.pending.Some? ==> forall i | 0 <= i < |s.submissions| && s.submissions[i].target.dialog == s.pending.value.dialog ::
          s.submissions[i].target == s.pending.value)
  }

  /** Only the dialog, the messages and the queue changed. */
  predicate SameSubmissions(s: State, t: State) {
    s.submissions == t.submissions && s.submitting == t.submitting && s.dialogs == t.dialogs
  }

  lemma QuietKeepsInv(s: State, t: State)
    requires Inv(s) && SameSubmissions(s, t) && s.contextVersion <= t.contextVersion
    requires t.pending == s.pending || t.pending.None?
    requires t.pending != s.pending ==> t.contextVersion > s.contextVersion || !s.submitting
    ensures Inv(t)
  {
    forall i | 0 <= i < |t.submissions| ensures SubmissionWf(t, i) { assert SubmissionWf(s, i); }
  }

  lemma OpenKeepsInv(s: State, action: Action)
    requires Inv(s)
    ensures Inv(OpenAction(s, action))
  {
    var t := OpenAction(s, action);
    forall i | 0 <= i < |t.submissions| ensures SubmissionWf(t, i) { assert SubmissionWf(s, i); }
    if t.pending != s.pending || t.dialogs != s.dialogs {
      forall i | 0 <= i < |s.submissions| ensures s.submissions[i].target.dialog < s.dialogs { assert SubmissionWf(s, i); }
    }
  }

  /** `m` is what the dialog asks for with this form: the frozen target, the trimmed texts, the exact
      amount typed, and every tick the action needs. */
  ghost predicate Asks(m: Mutation, target: Pending, form: Form) {
    match m
    case PrepareBatch(vendor, request) =>
      target.action == Prepare && vendor == target.vendorId && target.requestId == Some(request)
    case MarkBatchReview(batch) => target.action == MarkReview && target.batchId == Some(batch) && batch != ""
    case CancelBatch(batch) => target.action == Cancel && target.batchId == Some(batch) && batch != ""
    case MarkBatchPaid(batch, declaredAt, amount, reference, note) =>
      && target.action == MarkPaid && target.batchId == Some(batch) && batch != ""
      && AsksPaid(form, declaredAt, reference, note) && AsksAmount(target, form, amount)
    case CancelR1Review(batch, reason) =>
      && target.action == CancelReview && target.batchId == Some(batch) && batch != ""
      && reason == Trim(form.reason) && reason != "" && form.confirmNoEft
    case CompleteR1Cashless(batch, reason) =>
      && target.action == CompleteCashless && target.batchId == Some(batch) && batch != ""
      && reason == Trim(form.reason) && reason != "" && form.confirmNoEft && form.confirmCashless
  }

  /** For an R1 payment the exact amount typed, and none for any other. */
  ghost predicate AsksAmount(target: Pending, form: Form, amount: Option<nat>) {
    if target.r1Payment then amount.Some? && EftAmount.Denotes(form.eftAmount, amount.value) else amount == None
  }

  /** Date, time and an explicit offset are there, `Z` or a signed `hh:mm`; reference and note only
      when they are not blank. */
  ghost predicate AsksPaid(form: Form, declaredAt: string, reference: Option<string>, note: Option<string>) {
    var offset := Trim(form.eftUtcOffset);
    && form.eftDate != "" && form.eftTime != ""
    && (offset == "Z"
        || (&& |offset| == 6 && (offset[0] == '+' || offset[0] == '-') && IsDigit(offset[1]) && IsDigit(offset[2])
            && offset[3] == ':' && IsDigit(offset[4]) && IsDigit(offset[5])))
    && declaredAt == (if |form.eftTime| == 5 then form.eftDate + "T" + form.eftTime + ":00" + offset
                      else form.eftDate + "T" + form.eftTime + offset)
    && (reference == None <==> Trim(form.reference) == "") && (reference != None ==> reference == Some(Trim(form.reference)))
    && (note == None <==> Trim(form.note) == "") && (note != None ==> note == Some(Trim(form.note)))
  }

  lemma PaidIsAsked(form: Form, declaredAt: string, reference: Option<string>, note: Option<string>)
    ensures AsksPaid(form, declaredAt, reference, note) <==>
              && form.eftDate != "" && form.eftTime != "" && IsUtcOffset(Trim(form.eftUtcOffset))
              && declaredAt == DeclaredAt(form) && reference == Given(form.reference) && note == Given(form.note)
  {
    var offset := Trim(form.eftUtcOffset);
    if |offset| == 6 {
      assert AllDigits(offset[1..3]) <==> IsDigit(offset[1]) && IsDigit(offset[2]) by {
        assert offset[1..3][0] == offset[1] && offset[1..3][1] == offset[2];
      }
      assert AllDigits(offset[4..]) <==> IsDigit(offset[4]) && IsDigit(offset[5]) by {
        assert offset[4..][0] == offset[4] && offset[4..][1] == offset[5];
      }
    }
    var start := form.eftDate + "T" + form.eftTime;
    assert start + ":00" + offset == start + (":00" + offset) && start + "" + offset == start + offset;
  }

  lemma BuildsPaid(batch: string, target: Pending, form: Form, m: Mutation)
    ensures BuildPaid(batch, target.r1Payment, form) == Ok(m) <==>
              && m.MarkBatchPaid? && m.batchId == batch
              && AsksPaid(form, m.declaredAt, m.reference, m.note) && AsksAmount(target, form, m.eftAmountMinor)
  {
    if m.MarkBatchPaid? {
      PaidIsAsked(form, m.declaredAt, m.reference, m.note);
      if m.eftAmountMinor.Some? { EftAmount.ParsesExactly(form.eftAmount, m.eftAmountMinor.value); }
    }
  }

  lemma BuildsUnticked(target: Pending, form: Form, m: Mutation)
    requires target.action in {Prepare, MarkReview, Cancel}
    ensures BuildMutation(target, form) == Ok(m) <==> Asks(m, target, form)
  {
  }

  lemma BuildsTicked(target: Pending, form: Form, m: Mutation)
    requires target.action in {CancelReview, CompleteCashless}
    ensures BuildMutation(target, form) == Ok(m) <==> Asks(m, target, form)
  {
  }

  lemma BuildsPaidAction(target: Pending, form: Form, m: Mutation)
    requires target.action == MarkPaid
    ensures BuildMutation(target, form) == Ok(m) <==> Asks(m, target, form)
  {
    if target.batchId.Some? { BuildsPaid(target.batchId.value, target, form, m); }
  }

  /** A mutation is built exactly when the dialog asks for it. */
  lemma BuildsExactlyWhatIsAsked(target: Pending, form: Form, m: Mutation)
    ensures BuildMutation(target, form) == Ok(m) <==> Asks(m, target, form)
  {
    match target.action
    case MarkPaid => BuildsPaidAction(target, form, m);
    case CancelReview | CompleteCashless => BuildsTicked(target, form, m);
    case _ => BuildsUnticked(target, form, m);
  }

  lemma MutationNamesTarget(target: Pending, form: Form)
    ensures BuildMutation(target, form).Ok? ==> NamesTarget(BuildMutation(target, form).value, target)
  {
    EftAmount.ParsedIsSafe(form.eftAmount);
  }

  lemma QueueItemsBelong(vendor: string, readiness: Option<Readiness>, batches: seq<Batch>)
    requires forall i | 0 <= i < |batches| :: batches[i].vendorId == vendor
    ensures forall item | item in QueueItems(vendor, readiness, batches) :: item.VendorId() == vendor
  {
  }

  lemma SelectedIsItem(q: Queue)
    requires q.Selected().Some?
    ensures q.Selected().value in q.Items()
  {
    var visible := Visible(q.Items(), q.hidden);
    VisibleAreItems(q.Items(), q.hidden);
    if q.selectedId.Some? { FoundIsMember(visible, q.selectedId.value); }
    assert q.Selected().value in visible;
  }

  /** With a vendor filter in force the selected row of an unblocked queue is that vendor's. */
  lemma ItemsBelongToVendor(q: Queue)
    requires !q.Mismatched() && q.Vendor() != "" && q.Selected().Some?
    ensures q.Selected().value.VendorId() == q.Vendor()
  {
    SelectedIsItem(q);
    QueueItemsBelong(q.Vendor(), q.readiness, q.batches);
  }

  lemma {:induction false} VisibleAreItems(items: seq<Item>, hidden: set<Item>)
    ensures forall item | item in Visible(items, hidden) :: item in items
  {
    if items != [] { VisibleAreItems(items[1..], hidden); }
  }

  lemma {:induction false} FoundIsMember(items: seq<Item>, id: string)
    ensures FirstWithId(items, id).Some? ==> FirstWithId(items, id).value in items && FirstWithId(items, id).value.Id() == id
  {
    if items != [] { FoundIsMember(items[1..], id); }
  }

  lemma NothingRuns(s: State)
    requires Inv(s) && !s.submitting
    ensures forall i | 0 <= i < |s.submissions| :: s.submissions[i].progress.Ended?
  {
    forall i | 0 <= i < |s.submissions| ensures s.submissions[i].progress.Ended? { assert SubmissionWf(s, i); }
  }

  lemma SendKeepsInv(s: State, item: Item, mutation: Mutation)
    requires Inv(s) && s.pending.Some? && !s.submitting
    requires NamesTarget(mutation, s.pending.value) && StillTargets(s.pending.value, item)
    requires s.pending.value.vendorFilter != "" ==> s.pending.value.vendorId == s.pending.value.vendorFilter
    ensures Inv(Send(s, item, mutation))
  {
    var t := Send(s, item, mutation);
    NothingRuns(s);
    forall i | 0 <= i < |t.submissions| ensures SubmissionWf(t, i) { if i < |s.submissions| { assert SubmissionWf(s, i); } }
    assert !t.submissions[|s.submissions|].progress.Ended?;
  }

  lemma ConfirmKeepsInv(s: State, form: Form)
    requires Inv(s)
    ensures Inv(Confirm(s, form))
  {
    if s.pending.Some? && !s.submitting {
      var target := s.pending.value;
      if !MayConfirm(s.queue, target) || BuildMutation(target, form).Err? {
        QuietKeepsInv(s, Confirm(s, form));
      } else {
        MutationNamesTarget(target, form);
        if s.queue.Vendor() != "" { ItemsBelongToVendor(s.queue); }
        SendKeepsInv(s, s.queue.Selected().value, BuildMutation(target, form).value);
      }
    }
  }

  lemma EndKeepsInv(s: State, i: nat)
    requires Inv(s) && i < |s.submissions| && !s.submissions[i].progress.Ended?
    ensures Inv(Move(s, i, Ended))
  {
    var t := Move(s, i, Ended);
    forall j | 0 <= j < |t.submissions| ensures SubmissionWf(t, j) { assert SubmissionWf(s, j); }
  }

  lemma AcceptKeepsInv(s: State, i: nat, message: string)
    requires Inv(s) && i < |s.submissions| && s.submissions[i].progress.Calling?
    requires s.submissions[i].context == s.contextVersion
    ensures Inv(Move(s.(success := Some(message), pending := None), i, Refetching))
  {
    var t := Move(s.(success := Some(message), pending := None), i, Refetching);
    forall j | 0 <= j < |t.submissions| ensures SubmissionWf(t, j) { assert SubmissionWf(s, j); }
    assert !t.submissions[i].progress.Ended?;
  }

  lemma ReplyKeepsInv(s: State, i: nat, reply: Result<string, string>)
    requires Inv(s) && i < |s.submissions| && s.submissions[i].progress.Calling?
    ensures Inv(MutationReplied(s, i, reply))
  {
    if s.submissions[i].context != s.contextVersion {
      EndKeepsInv(s, i);
    } else if reply.Ok? {
      AcceptKeepsInv(s, i, reply.value);
    } else {
      QuietKeepsInv(s, s.(error := Some(reply.error)));
      EndKeepsInv(s.(error := Some(reply.error)), i);
    }
  }

  lemma RefetchKeepsInv(s: State, i: nat, failure: Option<string>)
    requires Inv(s) && i < |s.submissions| && s.submissions[i].progress.Refetching?
    ensures Inv(RefetchEnded(s, i, failure))
  {
    QuietKeepsInv(s, s.(error := failure));
    EndKeepsInv(s.(error := failure), i);
    EndKeepsInv(s, i);
  }

  lemma StepKeepsInv(s: State, e: Event)
    requires Inv(s)
    ensures Inv(Step(s, e))
  {
    if Enabled(s, e) {
      match e
      case Opens(action) => OpenKeepsInv(s, action);
      case Confirms(form) => ConfirmKeepsInv(s, form);
      case Replies(i, reply) => ReplyKeepsInv(s, i, reply);
      case Refetched(i, failure) => RefetchKeepsInv(s, i, failure);
      case _ => QuietKeepsInv(s, Step(s, e));
    }
  }

  lemma {:induction false} RunKeepsInv(s: State, events: seq<Event>)
    requires Inv(s)
    ensures Inv(Run(s, events))
    decreases |events|
  {
    if events != [] {
      StepKeepsInv(s, events[0]);
      RunKeepsInv(Step(s, events[0]), events[1..]);
    }
  }

  // ---------------------------------------------------------------------------------------
  // Which row is selected, and when a dialog opens
  // ---------------------------------------------------------------------------------------

  /** Row `k` is shown and is the first shown one, or the first with this id. */
  predicate FirstShown(q: Queue, k: int) {
    0 <= k < |q.Items()| && q.Items()[k] !in q.hidden && forall j | 0 <= j < k :: q.Items()[j] in q.hidden
  }

  predicate FirstShownWithId(q: Queue, k: int, id: string) {
    && 0 <= k < |q.Items()| && q.Items()[k] !in q.hidden && q.Items()[k].Id() == id
    && forall j | 0 <= j < k :: q.Items()[j] in q.hidden || q.Items()[j].Id() != id
  }

  lemma {:induction false} FirstVisible(items: seq<Item>, hidden: set<Item>) returns (k: nat)
    ensures k <= |items| && (k < |items| ==> items[k] !in hidden) && forall j | 0 <= j < k :: items[j] in hidden
    ensures if k < |items| then Visible(items, hidden) != [] && Visible(items, hidden)[0] == items[k] else Visible(items, hidden) == []
  {
    k := 0;
    if items != [] && items[0] in hidden {
      var rest := FirstVisible(items[1..], hidden);
      k := rest + 1;
      assert forall j | 1 <= j < |items| :: items[j] == items[1..][j - 1];
    }
  }

  lemma {:induction false} FirstVisibleWithId(items: seq<Item>, hidden: set<Item>, id: string) returns (k: nat)
    ensures k <= |items| && (k < |items| ==> items[k] !in hidden && items[k].Id() == id)
    ensures forall j | 0 <= j < k :: items[j] in hidden || items[j].Id() != id
    ensures FirstWithId(Visible(items, hidden), id) == if k < |items| then Some(items[k]) else None
  {
    k := 0;
    if items != [] {
      var rest := Visible(items[1..], hidden);
      var head := if items[0] in hidden then [] else [items[0]];
      assert Visible(items, hidden) == head + rest;
      assert items[0] in hidden ==> head + rest == rest;
      assert items[0] !in hidden ==> (head + rest)[1..] == rest;
      if items[0] in hidden || items[0].Id() != id {
        var next := FirstVisibleWithId(items[1..], hidden, id);
        k := next + 1;
        assert forall j | 1 <= j < |items| :: items[j] == items[1..][j - 1];
        assert FirstWithId(head + rest, id) == FirstWithId(rest, id);
      }
    }
  }

  /** The selected row is the first shown one with the chosen id, or else the first shown one; none
      exactly when all rows are hidden. */
  lemma SelectedExactly(q: Queue)
    ensures q.Selected().None? <==> forall i | 0 <= i < |q.Items()| :: q.Items()[i] in q.hidden
    ensures q.Selected().Some? ==>
              exists k :: 0 <= k < |q.Items()| && q.Items()[k] == q.Selected().value
                          && if q.selectedId.Some? && (exists j :: FirstShownWithId(q, j, q.selectedId.value))
                             then FirstShownWithId(q, k, q.selectedId.value) else FirstShown(q, k)
  {
    var items := q.Items();
    var first := FirstVisible(items, q.hidden);
    assert first < |items| ==> FirstShown(q, first);
    if q.selectedId.Some? {
      var chosen := FirstVisibleWithId(items, q.hidden, q.selectedId.value);
      assert chosen < |items| ==> FirstShownWithId(q, chosen, q.selectedId.value);
    }
  }

  /** A queue is ready when no query is loading or has failed and every batch is the filtered vendor's;
      with another vendor's batch in it, it shows no rows. */
  lemma BusyExactlyWhen(q: Queue)
    ensures !q.Busy() <==>
              && !q.loading && !q.queryFailed
              && (Trim(q.vendorFilter) == "" || forall i | 0 <= i < |q.batches| :: q.batches[i].vendorId == Trim(q.vendorFilter))
    ensures q.Items() ==
            if Trim(q.vendorFilter) == "" || forall i | 0 <= i < |q.batches| :: q.batches[i].vendorId == Trim(q.vendorFilter)
            then QueueItems(Trim(q.vendorFilter), q.readiness, q.batches) else []
  {
  }

  /** An action button opens a dialog exactly when a row is selected that supports the action, the
      queue is neither loading nor in error, and nothing is being submitted. */
  lemma OpensExactlyWhen(s: State, action: Action)
    ensures Step(s, Opens(action)).dialogs > s.dialogs <==>
              s.queue.Selected().Some? && !s.queue.Busy() && !s.submitting && action in SupportedActions(s.queue.Selected().value)
    ensures Step(s, Opens(action)).dialogs <= s.dialogs ==> Step(s, Opens(action)) == s
  {
  }

  /** And the dialog freezes the row, the filter and, to prepare a batch only, a fresh request id. */
  lemma OpenedDialogExactly(s: State, action: Action)
    requires Step(s, Opens(action)).dialogs > s.dialogs
    ensures var item, t := s.queue.Selected().value, Step(s, Opens(action));
            && t == s.(error := None, success := None, dialogs := s.dialogs + 1, pending := t.pending)
            && t.pending == Some(Pending(
                 s.dialogs, action,
                 if item.ReadyItem? then "ready:" + item.vendorId' else "batch:" + item.batch.id, item.ReadyItem?,
                 if item.ReadyItem? then item.vendorId' else item.batch.vendorId,
                 if item.ReadyItem? then None else Some(item.batch.id),
                 Trim(s.queue.vendorFilter), if action == Prepare then Some(s.dialogs) else None,
                 item.BatchItem? && item.batch.hasR1Offset))
  {
  }

  // ---------------------------------------------------------------------------------------
  // What a confirmation sends
  // ---------------------------------------------------------------------------------------

  /** The re-validation passes exactly for a queue that is neither loading nor in error, the filter of
      the opening, and a selected row that is still the frozen one and supports the action. */
  lemma RevalidatesExactlyWhen(q: Queue, target: Pending)
    ensures MayConfirm(q, target) <==>
              && q.Selected().Some? && !q.Busy() && target.vendorFilter == Trim(q.vendorFilter)
              && target.action in SupportedActions(q.Selected().value)
              && match q.Selected().value
                 case ReadyItem(vendor) =>
                   target.ready && target.itemId == "ready:" + vendor && target.vendorId == vendor && target.batchId == None
                 case BatchItem(batch) =>
                   && !target.ready && target.itemId == "batch:" + batch.id
                   && target.vendorId == batch.vendorId && target.batchId == Some(batch.id)
  {
  }

  lemma ConfirmSends(s: State, form: Form)
    ensures |Confirm(s, form).submissions| > |s.submissions| <==>
              && s.pending.Some? && !s.submitting && MayConfirm(s.queue, s.pending.value)
              && exists m :: Asks(m, s.pending.value, form)
    ensures |Confirm(s, form).submissions| > |s.submissions| ==>
              && Confirm(s, form).submissions[..|s.submissions|] == s.submissions
              && Asks(Confirm(s, form).submissions[|s.submissions|].mutation, s.pending.value, form)
  {
    if s.pending.Some? {
      forall m ensures BuildMutation(s.pending.value, form) == Ok(m) <==> Asks(m, s.pending.value, form) {
        BuildsExactlyWhatIsAsked(s.pending.value, form, m);
      }
    }
  }

  /** A step sends a mutation exactly when it confirms an open dialog, nothing is being submitted, the
      re-validation passes and the form asks for a mutation; and it sends the one asked for. */
  lemma SendsExactlyWhatIsAsked(s: State, e: Event)
    ensures var t := Step(s, e);
            && (|t.submissions| > |s.submissions| <==>
                  && e.Confirms? && s.pending.Some? && !s.submitting && MayConfirm(s.queue, s.pending.value)
                  && exists m :: Asks(m, s.pending.value, e.form))
            && (|t.submissions| > |s.submissions| ==>
                  && t.submissions[..|s.submissions|] == s.submissions
                  && Asks(t.submissions[|s.submissions|].mutation, s.pending.value, e.form)
                  && t.pending == s.pending && t.submitting && t.error == None && t.success == None)
  {
    if e.Confirms? { ConfirmSends(s, e.form); }
  }

  lemma PaidIsRefusedExactlyWhen(target: Pending, form: Form)
    requires target.batchId.Some?
    ensures BuildPaid(target.batchId.value, target.r1Payment, form).Err? <==>
              || form.eftDate == "" || form.eftTime == "" || !IsUtcOffset(Trim(form.eftUtcOffset))
              || (target.r1Payment && forall m: nat :: !EftAmount.Denotes(form.eftAmount, m))
  {
    var parsed := EftAmount.ParseEnteredEftMinor(form.eftAmount);
    forall m: nat ensures parsed == Ok(m) <==> EftAmount.Denotes(form.eftAmount, m) { EftAmount.ParsesExactly(form.eftAmount, m); }
    assert parsed.Ok? ==> EftAmount.Denotes(form.eftAmount, parsed.value);
  }

  /** Which forms are refused, action by action. */
  lemma RefusedExactlyWhen(target: Pending, form: Form)
    requires target.batchId.Some? && target.batchId.value != "" && !target.action.Prepare?
    ensures (forall m :: !Asks(m, target, form)) <==>
              match target.action
              case MarkPaid =>
                || form.eftDate == "" || form.eftTime == "" || !IsUtcOffset(Trim(form.eftUtcOffset))
                || (target.r1Payment && forall m: nat :: !EftAmount.Denotes(form.eftAmount, m))
              case CancelReview => Trim(form.reason) == "" || !form.confirmNoEft
              case CompleteCashless => Trim(form.reason) == "" || !form.confirmNoEft || !form.confirmCashless
              case _ => false
  {
    forall m ensures BuildMutation(target, form) == Ok(m) <==> Asks(m, target, form) { BuildsExactlyWhatIsAsked(target, form, m); }
    var built := BuildMutation(target, form);
    assert built.Ok? ==> Asks(built.value, target, form);
    if target.action == MarkPaid { PaidIsRefusedExactlyWhen(target, form); }
  }

  /** A prepare dialog is never refused, and no dialog without its batch or request id is accepted. */
  lemma MissingTargetsAreRefused(target: Pending, form: Form)
    ensures target.action == Prepare && target.requestId.Some? ==>
              Asks(PrepareBatch(target.vendorId, target.requestId.value), target, form)
    ensures target.action == Prepare && target.requestId.None? ==> forall m :: !Asks(m, target, form)
    ensures target.action != Prepare && (target.batchId.None? || target.batchId.value == "") ==> forall m :: !Asks(m, target, form)
  {
  }

  /** What a confirmation that sends nothing does instead: nothing without a dialog or while one is
      being submitted; a moved selection closes the dialog; a refused form keeps it, with a message. */
  lemma RefusalsExactly(s: State, form: Form)
    requires |Confirm(s, form).submissions| <= |s.submissions|
    ensures var t := Confirm(s, form);
            && (s.pending.None? || s.submitting ==> t == s)
            && (s.pending.Some? && !s.submitting && !MayConfirm(s.queue, s.pending.value) ==>
                  t == s.(pending := None, error := Some("Payment selection changed. Select the item again.")))
            && (s.pending.Some? && !s.submitting && MayConfirm(s.queue, s.pending.value) ==>
                  t == s.(error := t.error, success := None) && t.error.Some?)
  {
  }

  /** Submission `sub` was sent by event `e` in state `s`, as this event's form asked for it. */
  ghost predicate SentBy(s: State, e: Event, sub: Submission) {
    && e.Confirms? && s.pending == Some(sub.target) && !s.submitting && s.contextVersion == sub.context
    && s.queue.Selected() == Some(sub.item) && MayConfirm(s.queue, sub.target)
    && Asks(sub.mutation, sub.target, e.form)
  }

  /** The same submission, however far it has got. */
  predicate SameSubmission(a: Submission, b: Submission) { a == b.(progress := a.progress) }

  lemma StepKeepsSubmissions(s: State, e: Event)
    ensures |s.submissions| <= |Step(s, e).submissions|
    ensures forall i | 0 <= i < |s.submissions| :: SameSubmission(Step(s, e).submissions[i], s.submissions[i])
  {
  }

  lemma NewSubmissionIsSent(s: State, e: Event, i: nat)
    requires |s.submissions| <= i < |Step(s, e).submissions|
    ensures SentBy(s, e, Step(s, e).submissions[i])
  {
    SendsExactlyWhatIsAsked(s, e);
    assert i == |s.submissions|;
  }

  lemma {:induction false} RunKeepsSubmissions(s: State, events: seq<Event>, i: nat)
    requires i < |s.submissions|
    ensures i < |Run(s, events).submissions| && SameSubmission(Run(s, events).submissions[i], s.submissions[i])
    decreases |events|
  {
    if events != [] {
      StepKeepsSubmissions(s, events[0]);
      RunKeepsSubmissions(Step(s, events[0]), events[1..], i);
    }
  }

  lemma ProgressIsNoMatter(s: State, e: Event, a: Submission, b: Submission)
    requires SentBy(s, e, a) && SameSubmission(b, a)
    ensures SentBy(s, e, b)
  {
  }

  /** Every submission of a run was sent by one of its confirmations, with the amount, the texts and
      the ticks of that confirmation's form. */
  lemma {:induction false} SubmissionsSayWhatWasTyped(s: State, events: seq<Event>, i: nat) returns (k: nat)
    requires |s.submissions| <= i < |Run(s, events).submissions|
    ensures k < |events| && SentBy(Run(s, events[..k]), events[k], Run(s, events).submissions[i])
    decreases |events|
  {
    var s' := Step(s, events[0]);
    if i < |s'.submissions| {
      k := 0;
      NewSubmissionIsSent(s, events[0], i);
      RunKeepsSubmissions(s', events[1..], i);
      ProgressIsNoMatter(s, events[0], s'.submissions[i], Run(s, events).submissions[i]);
    } else {
      var m := SubmissionsSayWhatWasTyped(s', events[1..], i);
      k := m + 1;
      assert events[..k][1..] == events[1..][..m];
    }
  }

  // ---------------------------------------------------------------------------------------
  // What every run keeps
  // ---------------------------------------------------------------------------------------

  /** At most one mutation is in flight; each names the vendor, batch and request id its dialog
      froze, and under a vendor filter only that vendor's. */
  lemma AtMostOneFrozenMutation(vendor: string, events: seq<Event>, i: nat, j: nat)
    ensures var t := Run(Initial(vendor), events);
            && (i < |t.submissions| && j < |t.submissions| && t.submissions[i].progress.Calling? && t.submissions[j].progress.Calling? ==> i == j)
            && (i < |t.submissions| ==>
                  var sub := t.submissions[i];
                  NamesTarget(sub.mutation, sub.target)
                  && (sub.target.vendorFilter != "" ==> sub.target.vendorId == sub.target.vendorFilter))
  {
    RunKeepsInv(Initial(vendor), events);
    var t := Run(Initial(vendor), events);
    assert i < |t.submissions| ==> SubmissionWf(t, i);
  }

  /** Event `e` opens the dialog `target` in state `s`: it freezes the row selected at that moment,
      which supports the action, under the vendor filter and the dialog number of that moment. */
  predicate OpensTarget(s: State, e: Event, target: Pending) {
    && e.Opens? && e.action == target.action && Step(s, e).pending == Some(target)
    && s.queue.Selected().Some? && StillTargets(target, s.queue.Selected().value)
    && target.vendorFilter == s.queue.Vendor() && target.r1Payment == s.queue.Selected().value.R1Payment()
    && target.dialog == s.dialogs && Step(s, e).dialogs == s.dialogs + 1
  }

  predicate HasTarget(s: State, target: Pending) {
    s.pending == Some(target) || exists i | 0 <= i < |s.submissions| :: s.submissions[i].target == target
  }

  /** A step brings in a target only by opening it. */
  lemma TargetsComeFromOpening(s: State, e: Event, target: Pending)
    requires HasTarget(Step(s, e), target)
    ensures HasTarget(s, target) || OpensTarget(s, e, target)
  {
    if Enabled(s, e) && (e.Replies? || e.Refetched?) {
      assert forall j | 0 <= j < |s.submissions| :: Step(s, e).submissions[j].target == s.submissions[j].target;
    }
  }

  lemma {:induction false} TargetsWereOpened(s: State, events: seq<Event>, target: Pending) returns (k: nat)
    requires HasTarget(Run(s, events), target) && !HasTarget(s, target)
    ensures k < |events| && OpensTarget(Run(s, events[..k]), events[k], target)
    decreases |events|
  {
    if HasTarget(Step(s, events[0]), target) {
      k := 0;
      TargetsComeFromOpening(s, events[0], target);
    } else {
      var m := TargetsWereOpened(Step(s, events[0]), events[1..], target);
      k := m + 1;
      assert events[..k][1..] == events[1..][..m];
    }
  }

  /** Every mutation of a run names what an earlier event of the run froze: its dialog was opened on
      the row selected then, and vendor, batch and request id are the ones of that moment. */
  lemma MutationsUseTheOpenedTarget(vendor: string, events: seq<Event>, i: nat)
    requires i < |Run(Initial(vendor), events).submissions|
    ensures var sub := Run(Initial(vendor), events).submissions[i];
            && NamesTarget(sub.mutation, sub.target)
            && exists k :: 0 <= k < |events| && OpensTarget(Run(Initial(vendor), events[..k]), events[k], sub.target)
  {
    RunKeepsInv(Initial(vendor), events);
    assert SubmissionWf(Run(Initial(vendor), events), i);
    var k := TargetsWereOpened(Initial(vendor), events, Run(Initial(vendor), events).submissions[i].target);
  }

  /** Two prepare mutations carry the same request id exactly when they come from the same
      dialog, and then they are the same mutation: a retry reuses its id for the same vendor. */
  lemma RetriesReuseTheRequestId(vendor: string, events: seq<Event>, i: nat, j: nat)
    requires var t := Run(Initial(vendor), events);
             && i < |t.submissions| && j < |t.submissions|
             && t.submissions[i].mutation.PrepareBatch? && t.submissions[j].mutation.PrepareBatch?
    ensures var t := Run(Initial(vendor), events);
            && (t.submissions[i].mutation.requestId == t.submissions[j].mutation.requestId <==>
                  t.submissions[i].target.dialog == t.submissions[j].target.dialog)
            && (t.submissions[i].target.dialog == t.submissions[j].target.dialog ==>
                  t.submissions[i].mutation == t.submissions[j].mutation)
  {
    RunKeepsInv(Initial(vendor), events);
    assert SubmissionWf(Run(Initial(vendor), events), i) && SubmissionWf(Run(Initial(vendor), events), j);
  }

  /** A mutation is sent only by a confirmation, and only while the selected row is still the
      dialog's target and supports its action, in an unblocked, loaded queue. */
  lemma SendsOnlyToTheSelectedRow(s: State, e: Event)
    requires |Step(s, e).submissions| > |s.submissions|
    ensures e.Confirms? && s.pending.Some? && !s.submitting && MayConfirm(s.queue, s.pending.value)
    ensures var sub := Step(s, e).submissions[|s.submissions|];
            sub.target == s.pending.value && Some(sub.item) == s.queue.Selected() && sub.context == s.contextVersion
  {
  }

  lemma ContextsOnlyGrow(s: State, e: Event)
    ensures var t := Step(s, e);
            && t.contextVersion >= s.contextVersion && |t.submissions| >= |s.submissions|
            && (forall i | 0 <= i < |s.submissions| :: t.submissions[i].context == s.submissions[i].context)
  {
  }

  /** Neither message nor dialog differs. */
  predicate LooksTheSame(s: State, t: State) { s.error == t.error && s.success == t.success && s.pending == t.pending }

  /** Once a submission's context is over it stays over, and its reply or the failure of its refetch,
      however late, changes neither message nor dialog. */
  lemma {:induction false} OldContextsAreInert(s: State, events: seq<Event>, i: nat, reply: Result<string, string>, failure: Option<string>)
    requires i < |s.submissions| && s.submissions[i].context < s.contextVersion
    ensures var t := Run(s, events);
            && i < |t.submissions| && t.submissions[i].context < t.contextVersion
            && LooksTheSame(t, Step(t, Replies(i, reply))) && LooksTheSame(t, Step(t, Refetched(i, failure)))
    decreases |events|
  {
    if events != [] {
      ContextsOnlyGrow(s, events[0]);
      OldContextsAreInert(Step(s, events[0]), events[1..], i, reply, failure);
    }
  }

  /** A reply in its own context closes its own dialog and no other. */
  lemma RepliesCloseTheirOwnDialog(vendor: string, events: seq<Event>, i: nat, reply: Result<string, string>)
    requires var t := Run(Initial(vendor), events);
             Enabled(t, Replies(i, reply)) && t.submissions[i].context == t.contextVersion
    ensures var t := Run(Initial(vendor), events);
            && t.pending == Some(t.submissions[i].target)
            && Step(t, Replies(i, reply)).pending == (if reply.Ok? then None else t.pending)
  {
    RunKeepsInv(Initial(vendor), events);
    assert SubmissionWf(Run(Initial(vendor), events), i);
  }

  // ---------------------------------------------------------------------------------------
  // The page as an object
  // ---------------------------------------------------------------------------------------

  class PaymentPage {
    var queue: Queue
    var pendingAction: Option<Pending>
    var contextVersion: nat
    var submitting: bool
    var actionError: Option<string>
    var actionSuccess: Option<string>
    var dialogs: nat
    var submissions: seq<Submission>

    ghost function Now(): State
      reads this
    {
      State(queue, pendingAction, contextVersion, submitting, actionError, actionSuccess, dialogs, submissions)
    }

    /** The invariant of the runs. */
    ghost predicate Valid()
      reads this
    {
      Inv(Now())
    }

    /** No two mutations are in flight, and each names what its dialog froze. */
    ghost predicate OneMutationAtMost()
      reads this
    {
      && (forall i, j | 0 <= i < |submissions| && 0 <= j < |submissions| && submissions[i].progress.Calling? && submissions[j].progress.Calling? :: i == j)
      && (forall i | 0 <= i < |submissions| :: NamesTarget(submissions[i].mutation, submissions[i].target))
    }

    lemma ValidMeansOneMutation()
      requires Valid()
      ensures OneMutationAtMost()
    {
      forall i | 0 <= i < |submissions| ensures NamesTarget(submissions[i].mutation, submissions[i].target) {
        assert SubmissionWf(Now(), i);
      }
    }

    lemma ContextsAreNotAhead()
      requires Valid()
      ensures forall i | 0 <= i < |submissions| :: submissions[i].context <= contextVersion
    {
      forall i | 0 <= i < |submissions| ensures submissions[i].context <= contextVersion { assert SubmissionWf(Now(), i); }
    }

    constructor (vendor: string)
      ensures Valid() && OneMutationAtMost() && Now() == Initial(vendor)
    {
      queue, pendingAction := Queue([], None, true, false, {}, vendor, None), None;
      contextVersion, submitting, dialogs := 0, false, 0;
      actionError, actionSuccess, submissions := None, None, [];
    }

    /** The row the side panel shows, and whether the queue loads or shows an error. */
    method View() returns (selected: Option<Item>, busy: bool)
      ensures selected == queue.Selected() && busy == queue.Busy()
    {
      var vendor := Trim(queue.vendorFilter);
      var mismatched := vendor != "" && exists i | 0 <= i < |queue.batches| :: queue.batches[i].vendorId != vendor;
      var items := [];
      if !mismatched { items := BuildQueueItems(vendor, queue.readiness, queue.batches); }
      var visible := Visible(items, queue.hidden);
      selected := if queue.selectedId.Some? then FirstWithId(visible, queue.selectedId.value) else None;
      if selected.None? && visible != [] { selected := Some(visible[0]); }
      busy := queue.loading || queue.queryFailed || mismatched;
    }

    /** A dialog opens exactly for a supported action of the selected row in a settled queue, and
        freezes that row. */
    method OpenAction(action: Action)
      requires Valid()
      modifies this`pendingAction, this`actionError, this`actionSuccess, this`dialogs
      ensures Valid() && Now() == Step(old(Now()), Opens(action))
      ensures dialogs > old(dialogs) <==>
                queue.Selected().Some? && !queue.Busy() && !submitting && action in SupportedActions(queue.Selected().value)
      ensures dialogs > old(dialogs) ==>
                pendingAction.Some? && OpensTarget(old(Now()), Opens(action), pendingAction.value)
    {
      StepKeepsInv(Now(), Opens(action));
      OpensExactlyWhen(Now(), action);
      Open(action);
    }

    method Open(action: Action)
      modifies this`pendingAction, this`actionError, this`actionSuccess, this`dialogs
      ensures Now() == Step(old(Now()), Opens(action))
    {
      var selected, busy := View();
      if selected.None? || busy || submitting || action !in SupportedActions(selected.value) { return; }
      var item := selected.value;
      actionError, actionSuccess := None, None;
      var requestId := if action.Prepare? then Some(dialogs) else None;
      pendingAction := Some(Pending(dialogs, action, item.Id(), item.ReadyItem?, item.VendorId(), item.BatchId(),
                                    Trim(queue.vendorFilter), requestId, item.R1Payment()));
      dialogs := dialogs + 1;
    }

    /** `handleConfirmAction` up to its first await: it sends exactly what the dialog asks for with
        this form, when the re-validation passes and nothing is being submitted. */
    method HandleConfirmAction(form: Form)
      requires Valid()
      modifies this`pendingAction, this`actionError, this`actionSuccess, this`submitting, this`submissions
      ensures Valid() && OneMutationAtMost()
      ensures Now() == Step(old(Now()), Confirms(form))
      ensures |submissions| > |old(submissions)| <==>
                && old(pendingAction).Some? && !old(submitting) && MayConfirm(queue, old(pendingAction).value)
                && exists m :: Asks(m, old(pendingAction).value, form)
      ensures |submissions| > |old(submissions)| ==>
                && submitting && pendingAction == old(pendingAction)
                && Asks(submissions[|old(submissions)|].mutation, old(pendingAction).value, form)
    {
      StepKeepsInv(Now(), Confirms(form));
      SendsExactlyWhatIsAsked(Now(), Confirms(form));
      Confirm(form);
      ValidMeansOneMutation();
    }

    method Confirm(form: Form)
      modifies this`pendingAction, this`actionError, this`actionSuccess, this`submitting, this`submissions
      ensures Now() == Step(old(Now()), Confirms(form))
    {
      if pendingAction.None? || submitting { return; }
      var target := pendingAction.value;
      var selected, busy := View();
      if selected.None? || busy || target.vendorFilter != Trim(queue.vendorFilter) || !StillTargets(target, selected.value) {
        pendingAction := None;
        actionError := Some("Payment selection changed. Select the item again.");
        return;
      }
      submitting := true;
      actionError, actionSuccess := None, None;
      match BuildMutation(target, form) {
        case Ok(mutation) =>
          submissions := submissions + [Submission(target, selected.value, contextVersion, mutation, Calling)];
        case Err(message) =>
          actionError := Some(message);
          submitting := false;
      }
    }

    /** `handleConfirmAction` after the mutation's await: in its own context a success closes the dialog
        with a message, a failure keeps it with another. */
    method HandleReply(id: nat, reply: Result<string, string>)
      requires Valid() && Enabled(Now(), Replies(id, reply))
      modifies this`pendingAction, this`actionError, this`actionSuccess, this`submitting, this`submissions
      ensures Valid() && OneMutationAtMost()
      ensures Now() == Step(old(Now()), Replies(id, reply))
      ensures old(submissions[id].context) != contextVersion ==> LooksTheSame(old(Now()), Now())
      ensures old(submissions[id].context) == contextVersion && reply.Ok? ==>
                actionSuccess == Some(reply.value) && pendingAction == None && submissions[id].progress == Refetching
      ensures old(submissions[id].context) == contextVersion && reply.Err? ==>
                actionError == Some(reply.error) && pendingAction == old(pendingAction) && submissions[id].progress == Ended
      ensures old(submissions[id].context) != contextVersion ==> submissions[id].progress == Ended
      ensures submissions[id].progress == Ended ==> !submitting
    {
      StepKeepsInv(Now(), Replies(id, reply));
      Reply(id, reply);
      ValidMeansOneMutation();
    }

    method Reply(id: nat, reply: Result<string, string>)
      requires id < |submissions|
      modifies this`pendingAction, this`actionError, this`actionSuccess, this`submitting, this`submissions
      ensures Now() == MutationReplied(old(Now()), id, reply)
    {
      if submissions[id].context == contextVersion {
        match reply {
          case Ok(message) =>
            actionSuccess := Some(message);
            pendingAction := None;
            submissions := submissions[id := submissions[id].(progress := Refetching)];
            return;
          case Err(message) => actionError := Some(message);
        }
      }
      submissions := submissions[id := submissions[id].(progress := Ended)];
      submitting := false;
    }

    /** `handleConfirmAction` after the queue was fetched again. */
    method HandleRefetched(id: nat, failure: Option<string>)
      requires Valid() && Enabled(Now(), Refetched(id, failure))
      modifies this`actionError, this`submitting, this`submissions
      ensures Valid() && OneMutationAtMost()
      ensures Now() == Step(old(Now()), Refetched(id, failure))
      ensures old(submissions[id].context) != contextVersion ==> LooksTheSame(old(Now()), Now())
      ensures old(submissions[id].context) == contextVersion ==>
                actionError == (if failure.Some? then failure else old(actionError))
      ensures !submitting && submissions[id].progress == Ended
    {
      StepKeepsInv(Now(), Refetched(id, failure));
      if failure.Some? && submissions[id].context == contextVersion { actionError := failure; }
      submissions := submissions[id := submissions[id].(progress := Ended)];
      submitting := false;
      ValidMeansOneMutation();
    }

    method SelectRow(id: string)
      requires Valid()
      modifies this`contextVersion, this`pendingAction, this`queue
      ensures Valid() && Now() == Step(old(Now()), Selects(id))
      ensures contextVersion > old(contextVersion) <==> old(queue.Selected().None? || queue.Selected().value.Id() != id)
      ensures contextVersion > old(contextVersion) ==> queue.selectedId == Some(id)
      ensures queue.selectedId != old(queue.selectedId) ==>
                pendingAction.None? && forall i | 0 <= i < |submissions| :: submissions[i].context < contextVersion
    {
      StepKeepsInv(Now(), Selects(id));
      ContextsAreNotAhead();
      var selected, _ := View();
      if selected.Some? && selected.value.Id() == id { return; }
      contextVersion := contextVersion + 1;
      pendingAction := None;
      queue := queue.(selectedId := Some(id));
    }

    method ChangeVendorFilter(text: string)
      requires Valid()
      modifies this`contextVersion, this`queue, this`pendingAction, this`actionError, this`actionSuccess
      ensures Valid() && Now() == Step(old(Now()), FiltersVendor(text))
      ensures queue == old(queue).(vendorFilter := text, selectedId := None) && actionError == None && actionSuccess == None
      ensures pendingAction.None? && forall i | 0 <= i < |submissions| :: submissions[i].context < contextVersion
    {
      StepKeepsInv(Now(), FiltersVendor(text));
      ContextsAreNotAhead();
      contextVersion := contextVersion + 1;
      queue, pendingAction := queue.(vendorFilter := text, selectedId := None), None;
      actionError, actionSuccess := None, None;
    }
  }
}
