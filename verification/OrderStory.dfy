/** The operational story of one order: which of five states it is in, and what may be done. */
module OrderStory {
  import opened Options
  import opened Text

  // ---------------------------------------------------------------------------------------
  // Status tokens
  // ---------------------------------------------------------------------------------------

  /** Lower case of one character, as far as the outcome can hold ASCII: two capitals outside ASCII
      become ASCII letters. Any other character outside ASCII stays outside. */
  function LowerChar(c: char): string {
    if 'A' <= c <= 'Z' then [c - 'A' + 'a']
    else if c == '\U{212A}' then "k"
    else if c == '\U{0130}' then "i\U{0307}"
    else [c]
  }

  function Lower(s: string): string {
    if s == "" then "" else LowerChar(s[0]) + Lower(s[1..])
  }

  predicate IsTokenChar(c: char) { 'a' <= c <= 'z' || '0' <= c <= '9' }

  /** `replace(/[^a-z0-9]+/g, '_')`; `inRun` says the preceding character was replaced. */
  function Collapse(s: string, inRun: bool): string {
    if s == "" then ""
    else if IsTokenChar(s[0]) then [s[0]] + Collapse(s[1..], false)
    else (if inRun then "" else "_") + Collapse(s[1..], true)
  }

  function NormalizeToken(value: Option<string>): string {
    if value.None? then "" else Collapse(Lower(Trim(value.value)), false)
  }

  /** Token characters and single underscores only. */
  predicate IsToken(s: string) {
    && (forall i | 0 <= i < |s| :: IsTokenChar(s[i]) || s[i] == '_')
    && (forall i | 0 <= i < |s| - 1 :: s[i] == '_' ==> s[i + 1] != '_')
  }

  lemma {:induction false} CollapseIsToken(s: string, inRun: bool)
    ensures IsToken(Collapse(s, inRun))
    ensures inRun && Collapse(s, inRun) != "" ==> Collapse(s, inRun)[0] != '_'
  {
    if s != "" { CollapseIsToken(s[1..], !IsTokenChar(s[0])); }
  }

  lemma {:induction false} TokensCollapseToThemselves(s: string, inRun: bool)
    requires IsToken(s) && (inRun && s != "" ==> s[0] != '_')
    ensures Collapse(s, inRun) == s && Lower(s) == s
  {
    if s != "" {
      assert s == [s[0]] + s[1..];
      assert forall i | 0 <= i < |s[1..]| :: s[1..][i] == s[i + 1];
      TokensCollapseToThemselves(s[1..], s[0] == '_');
    }
  }

  /** Normalizing yields a token and is idempotent. */
  lemma NormalizeTokenIdempotent(value: Option<string>)
    ensures IsToken(NormalizeToken(value)) && NormalizeToken(Some(NormalizeToken(value))) == NormalizeToken(value)
  {
    var t := NormalizeToken(value);
    if value.Some? { CollapseIsToken(Lower(Trim(value.value)), false); }
    assert "" + t + "" == t;
    TrimPadded("", t, "");
    TokensCollapseToThemselves(t, false);
  }

  predicate AllTokenChars(s: string) { forall i | 0 <= i < |s| :: 'a' <= s[i] <= 'z' || '0' <= s[i] <= '9' }

  predicate NoTokenChars(s: string) { forall i | 0 <= i < |s| :: !('a' <= s[i] <= 'z' || '0' <= s[i] <= '9') }

  lemma {:induction false} CollapseConcat(a: string, b: string, inRun: bool)
    ensures Collapse(a + b, inRun) == Collapse(a, inRun) + Collapse(b, if a == "" then inRun else !IsTokenChar(a[|a| - 1]))
    decreases |a|
  {
    if a == "" {
      assert a + b == b;
    } else {
      assert (a + b)[1..] == a[1..] + b;
      CollapseConcat(a[1..], b, !IsTokenChar(a[0]));
    }
  }

  lemma {:induction false} WordsAreKept(word: string, inRun: bool)
    requires AllTokenChars(word)
    ensures Collapse(word, inRun) == word
  {
    if word != "" {
      assert word == [word[0]] + word[1..];
      WordsAreKept(word[1..], false);
    }
  }

  lemma {:induction false} GapsCollapse(gap: string, inRun: bool)
    requires NoTokenChars(gap)
    ensures Collapse(gap, inRun) == if gap == "" || inRun then "" else "_"
  {
    if gap != "" { GapsCollapse(gap[1..], true); }
  }

  /** What is collapsed: words of lower-case letters and digits are kept, each gap between, before or
      behind them becomes one underscore, and parts that do not split a gap are collapsed apart. */
  lemma CollapseExactly(word: string, gap: string, a: string, b: string)
    requires AllTokenChars(word) && NoTokenChars(gap) && gap != ""
    requires a == "" || b == "" || IsTokenChar(a[|a| - 1]) || IsTokenChar(b[0])
    ensures Collapse(word, false) == word && Collapse(gap, false) == "_"
    ensures Collapse(a + b, false) == Collapse(a, false) + Collapse(b, false)
  {
    WordsAreKept(word, false);
    GapsCollapse(gap, false);
    CollapseConcat(a, b, false);
  }

  /** Lower case, character by character; outside ASCII only the two capitals that reach it matter. */
  lemma {:induction false} LowerExactly(a: string, c: char, b: string)
    ensures Lower(a + b) == Lower(a) + Lower(b)
    ensures Lower([c]) == if 'A' <= c <= 'Z' then [(c as int + 32) as char]
                          else if c == '\U{212A}' then "k" else if c == '\U{0130}' then "i\U{0307}" else [c]
    decreases |a|
  {
    assert [c][1..] == "";
    if a == "" {
      assert a + b == b;
    } else {
      assert (a + b)[1..] == a[1..] + b;
      LowerExactly(a[1..], c, b);
    }
  }

  lemma {:induction false} LowerOfAscii(s: string, t: string)
    requires |s| == |t| && forall i | 0 <= i < |s| :: LowerChar(s[i]) == [t[i]]
    ensures Lower(s) == t
  {
    if s != "" {
      LowerOfAscii(s[1..], t[1..]);
      assert t == [t[0]] + t[1..];
    }
  }

  lemma CollapsedForExample()
    ensures Collapse("a b", false) == "a_b"
  {
    assert "a" + (" " + "b") == "a b";
    CollapseConcat("a", " " + "b", false);
    CollapseConcat(" ", "b", false);
    WordsAreKept("a", false);
    GapsCollapse(" ", false);
    WordsAreKept("b", true);
  }

  /** For example: a padded status of two words. */
  lemma NormalizedForExample()
    ensures NormalizeToken(Some(" A b ")) == "a_b" && NormalizeToken(None) == ""
  {
    assert " " + "A b" + " " == " A b ";
    TrimPadded(" ", "A b", " ");
    LowerOfAscii("A b", "a b");
    CollapsedForExample();
  }

  // ---------------------------------------------------------------------------------------
  // The story
  // ---------------------------------------------------------------------------------------

  /** `refundTerminal`: the allocation is marked not actionable because of a terminal refund;
      `refundTotalPositive`: the refund total parses to an amount above zero. */
  datatype Order = Order(
    id: string, date: string, shipmentUpdatedAt: Option<string>, fulfillmentActionAvailable: bool,
    refundTerminal: bool, allocationStatus: Option<string>, isCancelled: bool, isCancellationConflict: bool,
    cancelledAt: Option<string>, fulfillmentStatus: Option<string>, shippingStatus: Option<string>,
    trackingNumber: Option<string>, carrier: Option<string>,
    refundRecordCount: int, refundedLineItems: nat, refundedItems: nat,
    refundAttemptStatus: Option<string>, latestRefundAttemptStatus: Option<string>,
    refundSummaryStatus: Option<string>, refundSummaryResolvedAt: Option<string>, refundTotalPositive: bool)

  datatype StoryState = CancelledOrder | CancelledConflict | VendorBlocked | RefundCompleted | ActiveOrUnknown

  datatype Story = Story(
    state: StoryState, resolvedByRefund: bool, queueVisible: bool,
    canCreateShipment: bool, canReject: bool, canTransfer: bool, canPreviewRefund: bool)

  predicate Filled(text: Option<string>) { text.Some? && text.value != "" }

  predicate HasRefundEvidence(o: Order) {
    || o.refundRecordCount > 0 || o.refundedLineItems > 0 || o.refundedItems > 0
    || NormalizeToken(o.refundAttemptStatus) == "resolved" || NormalizeToken(o.latestRefundAttemptStatus) == "resolved"
    || NormalizeToken(o.refundSummaryStatus) == "resolved" || Filled(o.refundSummaryResolvedAt)
    || o.refundTotalPositive
  }

  predicate FullyCancelled(o: Order) { o.isCancelled || Filled(o.cancelledAt) }

  predicate HasConflict(o: Order) {
    || o.isCancellationConflict
    || (FullyCancelled(o) &&
        (|| HasRefundEvidence(o)
         || NormalizeToken(o.fulfillmentStatus) in {"fulfilled", "partially_fulfilled"}
         || NormalizeToken(o.shippingStatus) in {"delivered", "in_transit", "label_created", "shipped"}
         || (o.trackingNumber.Some? && Trim(o.trackingNumber.value) != "")
         || (o.carrier.Some? && Trim(o.carrier.value) != "")))
  }

  /** `getOperationalStory` without its labels. */
  function GetStory(o: Order): Story {
    if o.refundTerminal then Story(RefundCompleted, true, false, false, false, false, false)
    else if FullyCancelled(o) && HasConflict(o) then Story(CancelledConflict, false, false, false, false, false, false)
    else if FullyCancelled(o) then Story(CancelledOrder, false, false, false, false, false, false)
    else if NormalizeToken(o.allocationStatus) == "vendor_blocked" then
      Story(VendorBlocked, false, true, false, false, true, true)
    else Story(ActiveOrUnknown, false, false, true, true, false, false)
  }

  /** An order counts as cancelled by its flag or by a cancellation time. */
  lemma CancelledExactlyWhen(o: Order)
    ensures FullyCancelled(o) <==> o.isCancelled || (o.cancelledAt != None && o.cancelledAt != Some(""))
  {
  }

  /** The evidence of a refund. */
  lemma RefundEvidenceExactlyWhen(o: Order)
    ensures HasRefundEvidence(o) <==>
              || o.refundRecordCount >= 1 || o.refundedLineItems >= 1 || o.refundedItems >= 1 || o.refundTotalPositive
              || NormalizeToken(o.refundAttemptStatus) == "resolved" || NormalizeToken(o.latestRefundAttemptStatus) == "resolved"
              || NormalizeToken(o.refundSummaryStatus) == "resolved"
              || (o.refundSummaryResolvedAt != None && o.refundSummaryResolvedAt != Some(""))
  {
  }

  /** Of a cancelled order, the conflict is marked, or a refund, a fulfilment, a shipment, a tracking
      number or a carrier is on record; of another order only the mark counts. */
  lemma ConflictExactlyWhen(o: Order)
    ensures HasConflict(o) <==>
              || o.isCancellationConflict
              || (FullyCancelled(o) &&
                  (|| HasRefundEvidence(o)
                   || NormalizeToken(o.fulfillmentStatus) == "fulfilled" || NormalizeToken(o.fulfillmentStatus) == "partially_fulfilled"
                   || NormalizeToken(o.shippingStatus) == "delivered" || NormalizeToken(o.shippingStatus) == "in_transit"
                   || NormalizeToken(o.shippingStatus) == "label_created" || NormalizeToken(o.shippingStatus) == "shipped"
                   || (o.trackingNumber.Some? && Trim(o.trackingNumber.value) != "")
                   || (o.carrier.Some? && Trim(o.carrier.value) != "")))
  {
  }

  /** Which state an order is in, in order of precedence, and what each state offers. */
  lemma StoryExactly(o: Order)
    ensures var s := GetStory(o);
            && (s.state == RefundCompleted <==> o.refundTerminal)
            && (s.state == CancelledConflict <==> !o.refundTerminal && FullyCancelled(o) && HasConflict(o))
            && (s.state == CancelledOrder <==> !o.refundTerminal && FullyCancelled(o) && !HasConflict(o))
            && (s.state == VendorBlocked <==>
                  !o.refundTerminal && !FullyCancelled(o) && NormalizeToken(o.allocationStatus) == "vendor_blocked")
            && (s.state == ActiveOrUnknown <==>
                  !o.refundTerminal && !FullyCancelled(o) && NormalizeToken(o.allocationStatus) != "vendor_blocked")
            && (s.resolvedByRefund <==> s.state == RefundCompleted)
            && (s.queueVisible <==> s.state == VendorBlocked) && (s.canTransfer <==> s.state == VendorBlocked)
            && (s.canPreviewRefund <==> s.state == VendorBlocked)
            && (s.canCreateShipment <==> s.state == ActiveOrUnknown) && (s.canReject <==> s.state == ActiveOrUnknown)
  {
  }

  /** A shipment may be created exactly for an order that is neither refunded for good, nor
      cancelled, nor blocked by its vendor; whether a cancellation conflicts makes no difference, and
      admin actions and vendor actions are never offered together. */
  lemma ShipmentAllowedExactlyWhen(o: Order)
    ensures var s := GetStory(o);
            && (s.canCreateShipment <==>
                  !o.refundTerminal && !FullyCancelled(o) && NormalizeToken(o.allocationStatus) != "vendor_blocked")
            && s.canReject == s.canCreateShipment && s.canPreviewRefund == s.canTransfer == s.queueVisible
            && !(s.canCreateShipment && s.canTransfer)
            && (s.state.CancelledConflict? ==> FullyCancelled(o) && HasConflict(o))
    ensures forall b :: GetStory(o.(isCancellationConflict := b)).canCreateShipment == GetStory(o).canCreateShipment
  {
    forall b ensures GetStory(o.(isCancellationConflict := b)).canCreateShipment == GetStory(o).canCreateShipment {
      var p := o.(isCancellationConflict := b);
      assert FullyCancelled(p) == FullyCancelled(o);
    }
  }
}
