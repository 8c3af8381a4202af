/** Strings as the dashboard uses them: trimming and decimal digits. */
module Text {

  /** WhiteSpace and LineTerminator of ECMAScript: what `trim` strips and `\s` matches. */
  predicate IsWhitespace(c: char) {
    c in {'\t', '\n', '\U{000B}', '\U{000C}', '\r', ' ', '\U{00A0}', '\U{1680}',
          '\U{2028}', '\U{2029}', '\U{202F}', '\U{205F}', '\U{3000}', '\U{FEFF}'}
    || '\U{2000}' <= c <= '\U{200A}'
  }

  /** The same by code point. */
  lemma WhitespaceExactly(c: char)
    ensures IsWhitespace(c) <==>
              var n := c as int;
              || 9 <= n <= 13 || n == 32 || n == 160 || n == 5760 || 8192 <= n <= 8202 || n == 8232 || n == 8233
              || n == 8239 || n == 8287 || n == 12288 || n == 65279
  {
  }

  predicate IsDigit(c: char) { '0' <= c <= '9' }

  predicate AllWhitespace(s: string) { forall i | 0 <= i < |s| :: IsWhitespace(s[i]) }

  predicate AllDigits(s: string) { forall i | 0 <= i < |s| :: IsDigit(s[i]) }

  function TrimStart(s: string): string {
    if s != "" && IsWhitespace(s[0]) then TrimStart(s[1..]) else s
  }

  function TrimEnd(s: string): string {
    if s != "" && IsWhitespace(s[|s| - 1]) then TrimEnd(s[..|s| - 1]) else s
  }

  function Trim(s: string): string { TrimEnd(TrimStart(s)) }

  /** Neither end of `s` is white space. */
  predicate Tight(s: string) {
    s != "" ==> !IsWhitespace(s[0]) && !IsWhitespace(s[|s| - 1])
  }

  lemma {:induction false} TrimStartSplits(s: string) returns (lead: string)
    ensures AllWhitespace(lead) && s == lead + TrimStart(s)
    ensures TrimStart(s) != "" ==> !IsWhitespace(TrimStart(s)[0])
  {
    if s != "" && IsWhitespace(s[0]) {
      var rest := TrimStartSplits(s[1..]);
      lead := [s[0]] + rest;
    } else {
      lead := "";
    }
  }

  lemma {:induction false} TrimEndSplits(s: string) returns (trail: string)
    ensures AllWhitespace(trail) && s == TrimEnd(s) + trail
    ensures TrimEnd(s) != "" ==> !IsWhitespace(TrimEnd(s)[|TrimEnd(s)| - 1])
  {
    if s != "" && IsWhitespace(s[|s| - 1]) {
      var rest := TrimEndSplits(s[..|s| - 1]);
      trail := rest + [s[|s| - 1]];
    } else {
      trail := "";
    }
  }

  /** Trimming only removes white space, and leaves none at either end. */
  lemma TrimSplits(s: string) returns (lead: string, trail: string)
    ensures AllWhitespace(lead) && AllWhitespace(trail)
    ensures s == lead + Trim(s) + trail
    ensures Tight(Trim(s))
  {
    lead := TrimStartSplits(s);
    trail := TrimEndSplits(TrimStart(s));
    if Trim(s) != "" {
      assert TrimStart(s)[0] == Trim(s)[0];
    }
  }

  lemma {:induction false} TrimStartPadded(lead: string, s: string)
    requires AllWhitespace(lead)
    ensures TrimStart(lead + s) == TrimStart(s)
  {
    if lead == "" {
      assert lead + s == s;
    } else {
      assert (lead + s)[1..] == lead[1..] + s;
      TrimStartPadded(lead[1..], s);
    }
  }

  lemma {:induction false} TrimEndPadded(s: string, trail: string)
    requires AllWhitespace(trail)
    ensures TrimEnd(s + trail) == TrimEnd(s)
  {
    if trail == "" {
      assert s + trail == s;
    } else {
      var n := |trail| - 1;
      assert (s + trail)[..|s + trail| - 1] == s + trail[..n];
      assert (s + trail)[|s + trail| - 1] == trail[n];
      TrimEndPadded(s, trail[..n]);
    }
  }

  /** A tight text is what trimming any white-space padding of it returns. */
  lemma TrimPadded(lead: string, s: string, trail: string)
    requires AllWhitespace(lead) && AllWhitespace(trail) && Tight(s)
    ensures Trim(lead + s + trail) == s
  {
    assert lead + s + trail == lead + (s + trail);
    TrimStartPadded(lead, s + trail);
    if s == "" {
      assert s + trail == trail + "";
      TrimStartPadded(trail, "");
    } else {
      assert TrimStart(s + trail) == s + trail;
      TrimEndPadded(s, trail);
    }
  }

  lemma TrimIdempotent(s: string)
    ensures Trim(Trim(s)) == Trim(s)
  {
    var _, _ := TrimSplits(s);
    assert "" + Trim(s) + "" == Trim(s);
    TrimPadded("", Trim(s), "");
  }
}
