/** Scrubbing what is sent to error reporting: two global replacements on strings, lifted to
    value trees with a depth cap and a list of sensitive keys. */
module Sanitizer {
  import opened Options
  import opened Text

  const REDACTED := "[redacted]"
  const TRUNCATED := "[truncated]"
  const MAX_DEPTH := 8

  // ---------------------------------------------------------------------------------------
  // The two patterns
  // ---------------------------------------------------------------------------------------

  datatype Class = Local | Domain | Letter | Digit | Body

  predicate IsLetter(c: char) { 'a' <= c <= 'z' || 'A' <= c <= 'Z' }

  predicate In(k: Class, c: char) {
    match k
    case Local => IsLetter(c) || IsDigit(c) || c in {'.', '_', '%', '+', '-'}
    case Domain => IsLetter(c) || IsDigit(c) || c in {'.', '-'}
    case Letter => IsLetter(c)
    case Digit => IsDigit(c)
    case Body => IsDigit(c) || IsWhitespace(c) || c in {'(', ')', '.', '-'}
  }

  predicate All(k: Class, s: string, lo: int, hi: int) {
    0 <= lo && hi <= |s| && forall i | lo <= i < hi :: In(k, s[i])
  }

  datatype Pattern = Email | Phone

  /** `s[..e]` is local part, at sign, domain, dot, two or more letters. */
  predicate EmailShape(s: string, at: int, dot: int, e: int) {
    && 0 < at && at + 1 < dot && dot + 3 <= e <= |s|
    && All(Local, s, 0, at) && s[at] == '@' && All(Domain, s, at + 1, dot) && s[dot] == '.' && All(Letter, s, dot + 1, e)
  }

  /** `s[..e]` is an optional plus, a digit, seven or more body characters, a digit. */
  predicate PhoneShape(s: string, plus: int, e: int) {
    && 0 <= plus <= 1 && plus + 9 <= e <= |s|
    && (plus == 1 ==> s[0] == '+') && In(Digit, s[plus]) && All(Body, s, plus + 1, e - 1) && In(Digit, s[e - 1])
  }

  /** The first `e` characters of `s` belong to the pattern's language. */
  ghost predicate IsMatch(p: Pattern, s: string, e: int) {
    match p
    case Email => exists at, dot :: EmailShape(s, at, dot, e)
    case Phone => exists plus :: PhoneShape(s, plus, e)
  }

  /** No match anywhere in `s`. */
  ghost predicate Free(p: Pattern, s: string) {
    forall i, e | 0 <= i <= |s| :: !IsMatch(p, s[i..], e)
  }

  /** The characters of each class. */
  lemma ClassesExactly(c: char)
    ensures In(Letter, c) <==> 'A' <= c <= 'Z' || 'a' <= c <= 'z'
    ensures In(Digit, c) <==> '0' <= c <= '9'
    ensures In(Domain, c) <==> 'A' <= c <= 'Z' || 'a' <= c <= 'z' || '0' <= c <= '9' || c == '.' || c == '-'
    ensures In(Local, c) <==>
              'A' <= c <= 'Z' || 'a' <= c <= 'z' || '0' <= c <= '9' || c == '.' || c == '_' || c == '%' || c == '+' || c == '-'
    ensures In(Body, c) <==> '0' <= c <= '9' || IsWhitespace(c) || c == '(' || c == ')' || c == '.' || c == '-'
  {
  }

  /** An address is a local part, an at sign, a domain, a dot and at least two letters. */
  lemma EmailsExactly(s: string)
    ensures IsMatch(Email, s, |s|) <==>
              exists local, domain, top ::
                && s == local + "@" + domain + "." + top && local != "" && domain != "" && |top| >= 2
                && AllIn(Local, local) && AllIn(Domain, domain) && AllIn(Letter, top)
  {
    if IsMatch(Email, s, |s|) {
      var at, dot :| EmailShape(s, at, dot, |s|);
      var local, domain, top := s[..at], s[at + 1..dot], s[dot + 1..];
      assert s == local + "@" + domain + "." + top;
      assert AllIn(Local, local) && AllIn(Domain, domain) && AllIn(Letter, top);
    }
    if local, domain, top :| && s == local + "@" + domain + "." + top && local != "" && domain != "" && |top| >= 2
                             && AllIn(Local, local) && AllIn(Domain, domain) && AllIn(Letter, top) {
      EmailOfParts(local, domain, top);
    }
  }

  predicate AllIn(k: Class, s: string) { forall i | 0 <= i < |s| :: In(k, s[i]) }

  lemma EmailOfParts(local: string, domain: string, top: string)
    requires local != "" && domain != "" && |top| >= 2
    requires AllIn(Local, local) && AllIn(Domain, domain) && AllIn(Letter, top)
    ensures var s := local + "@" + domain + "." + top; IsMatch(Email, s, |s|)
  {
    var s, at, dot := local + "@" + domain + "." + top, |local|, |local| + 1 + |domain|;
    assert forall i | 0 <= i < at :: s[i] == local[i];
    assert forall i | at + 1 <= i < dot :: s[i] == domain[i - at - 1];
    assert forall i | dot + 1 <= i < |s| :: s[i] == top[i - dot - 1];
    assert EmailShape(s, at, dot, |s|);
  }

  ghost predicate PhoneParts(s: string, sign: string, first: char, body: string, last: char) {
    && s == sign + [first] + body + [last] && (sign == "" || sign == "+")
    && '0' <= first <= '9' && '0' <= last <= '9' && |body| >= 7 && AllIn(Body, body)
  }

  lemma PhoneHasParts(s: string, plus: int)
    requires PhoneShape(s, plus, |s|)
    ensures PhoneParts(s, s[..plus], s[plus], s[plus + 1..|s| - 1], s[|s| - 1])
  {
    assert s == s[..plus] + [s[plus]] + s[plus + 1..|s| - 1] + [s[|s| - 1]];
    assert s[..plus] == if plus == 0 then "" else "+";
  }

  lemma PhoneOfParts(s: string, sign: string, first: char, body: string, last: char)
    requires PhoneParts(s, sign, first, body, last)
    ensures PhoneShape(s, |sign|, |s|)
  {
    assert forall i | 0 <= i < |body| :: s[|sign| + 1 + i] == body[i];
    forall i | |sign| + 1 <= i < |s| - 1 ensures In(Body, s[i]) { assert s[i] == body[i - |sign| - 1]; }
  }

  /** A phone number is an optional plus, a digit, at least seven body characters and a digit. */
  lemma PhonesExactly(s: string)
    ensures IsMatch(Phone, s, |s|) <==> exists sign, first, body, last :: PhoneParts(s, sign, first, body, last)
  {
    if plus :| PhoneShape(s, plus, |s|) { PhoneHasParts(s, plus); }
    if sign, first, body, last :| PhoneParts(s, sign, first, body, last) { PhoneOfParts(s, sign, first, body, last); }
  }

  // ---------------------------------------------------------------------------------------
  // Greedy matching with backtracking
  // ---------------------------------------------------------------------------------------

  /** Where the run of class `k` that starts at `i` ends. */
  function Span(k: Class, s: string, i: nat): (e: nat)
    requires i <= |s|
    ensures i <= e <= |s| && All(k, s, i, e) && (e < |s| ==> !In(k, s[e]))
    decreases |s| - i
  {
    if i < |s| && In(k, s[i]) then Span(k, s, i + 1) else i
  }

  /** Gives back domain characters until a dot with two letters follows. */
  function BackToDot(s: string, lo: nat, j: int): Option<nat>
    requires j <= |s|
    decreases j
  {
    if j < lo then None
    else if j < |s| && s[j] == '.' && Span(Letter, s, j + 1) >= j + 3 then Some(Span(Letter, s, j + 1))
    else BackToDot(s, lo, j - 1)
  }

  /** Gives back body characters until a digit follows. */
  function BackToDigit(s: string, lo: nat, j: int): Option<nat>
    requires j <= |s|
    decreases j
  {
    if j < lo then None
    else if j < |s| && In(Digit, s[j]) then Some(j + 1)
    else BackToDigit(s, lo, j - 1)
  }

  /** The end of the match the engine finds at the start of `s`, if any. */
  function Greedy(p: Pattern, s: string): Option<nat> {
    match p
    case Email =>
      var at := Span(Local, s, 0);
      if 0 < at < |s| && s[at] == '@' then BackToDot(s, at + 2, Span(Domain, s, at + 1)) else None
    case Phone =>
      var plus := if s != "" && s[0] == '+' then 1 else 0;
      if plus < |s| && In(Digit, s[plus]) then BackToDigit(s, plus + 8, Span(Body, s, plus + 1)) else None
  }

  lemma {:induction false} SpanIsLongest(k: Class, s: string, i: nat, e: int)
    requires i <= e <= |s| && All(k, s, i, e)
    ensures e <= Span(k, s, i)
    decreases |s| - i
  {
    if i < e { SpanIsLongest(k, s, i + 1, e); }
  }

  /** `s[dot..e]` is a dot and two or more letters. */
  predicate DotTail(s: string, dot: int, e: int) {
    0 <= dot && dot + 3 <= e <= |s| && s[dot] == '.' && All(Letter, s, dot + 1, e)
  }

  predicate EndsInDigit(s: string, e: int) { 0 < e <= |s| && In(Digit, s[e - 1]) }

  lemma TailsStopAtDots(s: string, dot: int, e: int, j: int)
    requires DotTail(s, dot, e) && dot <= j < |s| && s[j] == '.'
    ensures dot < j ==> e <= j
    ensures dot == j ==> j + 3 <= e <= Span(Letter, s, j + 1)
  {
    if dot == j { SpanIsLongest(Letter, s, j + 1, e); }
  }

  /** The dot found is the last usable one. */
  lemma {:induction false} BackToDotFinds(s: string, lo: nat, j: int)
    requires j <= |s|
    ensures var r := BackToDot(s, lo, j);
            && (r.Some? ==> exists dot :: lo <= dot <= j && DotTail(s, dot, r.value))
            && (forall dot, e | lo <= dot <= j && DotTail(s, dot, e) :: r.Some? && e <= r.value)
    decreases j
  {
    if j >= lo {
      if j < |s| && s[j] == '.' {
        forall dot, e | lo <= dot <= j && DotTail(s, dot, e)
          ensures (dot < j ==> e <= j) && (dot == j ==> j + 3 <= e <= Span(Letter, s, j + 1))
        {
          TailsStopAtDots(s, dot, e, j);
        }
        assert Span(Letter, s, j + 1) >= j + 3 ==> DotTail(s, j, Span(Letter, s, j + 1));
      }
      BackToDotFinds(s, lo, j - 1);
    }
  }

  lemma {:induction false} BackToDigitFinds(s: string, lo: nat, j: int)
    requires j <= |s|
    ensures var r := BackToDigit(s, lo, j);
            && (r.Some? ==> lo < r.value <= j + 1 && EndsInDigit(s, r.value))
            && (forall e | lo < e <= j + 1 && EndsInDigit(s, e) :: r.Some? && e <= r.value)
    decreases j
  {
    if j >= lo { BackToDigitFinds(s, lo, j - 1); }
  }

  lemma EmailIsLongest(s: string)
    ensures Greedy(Email, s).Some? ==> IsMatch(Email, s, Greedy(Email, s).value)
    ensures forall e | IsMatch(Email, s, e) :: Greedy(Email, s).Some? && e <= Greedy(Email, s).value
  {
    var at := Span(Local, s, 0);
    forall at', dot, e | EmailShape(s, at', dot, e) ensures at' == at { SpanIsLongest(Local, s, 0, at'); }
    if 0 < at < |s| && s[at] == '@' {
      var end := Span(Domain, s, at + 1);
      BackToDotFinds(s, at + 2, end);
      var r := BackToDot(s, at + 2, end);
      if r.Some? {
        var dot :| at + 2 <= dot <= end && DotTail(s, dot, r.value);
        assert EmailShape(s, at, dot, r.value);
      }
      forall at', dot, e | EmailShape(s, at', dot, e) ensures r.Some? && e <= r.value {
        SpanIsLongest(Domain, s, at + 1, dot);
        assert DotTail(s, dot, e);
      }
    }
  }

  lemma PhoneIsLongest(s: string)
    ensures Greedy(Phone, s).Some? ==> IsMatch(Phone, s, Greedy(Phone, s).value)
    ensures forall e | IsMatch(Phone, s, e) :: Greedy(Phone, s).Some? && e <= Greedy(Phone, s).value
  {
    var plus := if s != "" && s[0] == '+' then 1 else 0;
    if plus < |s| && In(Digit, s[plus]) {
      var end := Span(Body, s, plus + 1);
      BackToDigitFinds(s, plus + 8, end);
      var r := BackToDigit(s, plus + 8, end);
      if r.Some? { assert PhoneShape(s, plus, r.value); }
      forall plus', e | PhoneShape(s, plus', e) ensures r.Some? && e <= r.value {
        assert plus' == plus;
        SpanIsLongest(Body, s, plus + 1, e - 1);
        assert EndsInDigit(s, e);
      }
    }
  }

  /** Backtracking finds a match exactly when the language has one at this point, and the longest. */
  lemma GreedyIsLongest(p: Pattern, s: string)
    ensures Greedy(p, s).Some? ==> IsMatch(p, s, Greedy(p, s).value)
    ensures forall e | IsMatch(p, s, e) :: Greedy(p, s).Some? && e <= Greedy(p, s).value
  {
    match p
    case Email => EmailIsLongest(s);
    case Phone => PhoneIsLongest(s);
  }

  // ---------------------------------------------------------------------------------------
  // Global replacement
  // ---------------------------------------------------------------------------------------

  /** `s.replace(pattern, '[redacted]')` with the global flag. */
  function Replace(p: Pattern, s: string): string
    decreases |s|
  {
    if s == "" then ""
    else
      var r := Greedy(p, s);
      if r.Some? && 0 < r.value <= |s| then REDACTED + Replace(p, s[r.value..])
      else [s[0]] + Replace(p, s[1..])
  }

  function RedactString(s: string): string { Replace(Phone, Replace(Email, s)) }

  /** Whether there is a match depends on the matched characters alone. */
  lemma MatchIsLocal(p: Pattern, s: string, t: string, e: int)
    requires IsMatch(p, s, e) && e <= |t| && s[..e] == t[..e]
    ensures IsMatch(p, t, e)
  {
    forall i | 0 <= i < e ensures s[i] == t[i] { assert s[..e][i] == t[..e][i]; }
    match p
    case Email =>
      var at, dot :| EmailShape(s, at, dot, e);
      assert EmailShape(t, at, dot, e);
    case Phone =>
      var plus :| PhoneShape(s, plus, e);
      assert PhoneShape(t, plus, e);
  }

  /** No match holds a bracket, and every match holds an at sign or a digit. */
  lemma MatchAlphabet(p: Pattern, s: string, e: int)
    requires IsMatch(p, s, e)
    ensures 0 < e <= |s| && (forall i | 0 <= i < e :: s[i] != '[' && s[i] != ']')
    ensures exists i :: 0 <= i < e && (s[i] == '@' || IsDigit(s[i]))
  {
    match p
    case Email =>
      var at, dot :| EmailShape(s, at, dot, e);
      assert s[at] == '@';
    case Phone =>
      var plus :| PhoneShape(s, plus, e);
      assert IsDigit(s[plus]);
  }

  /** One step of the scan, in terms of the language. */
  lemma ReplaceStep(p: Pattern, s: string) returns (n: nat)
    requires s != ""
    ensures n > 0 ==> IsMatch(p, s, n) && n <= |s| && Replace(p, s) == REDACTED + Replace(p, s[n..])
    ensures n > 0 ==> Replace(p, s)[0] == '['
    ensures n == 0 ==> Replace(p, s) == [s[0]] + Replace(p, s[1..])
    ensures forall e | IsMatch(p, s, e) :: 0 < e <= n
  {
    GreedyIsLongest(p, s);
    n := if Greedy(p, s).Some? then Greedy(p, s).value else 0;
    forall e | IsMatch(p, s, e) ensures 0 < e <= n { MatchAlphabet(p, s, e); }
  }

  predicate NoBrackets(s: string, e: int) { 0 <= e <= |s| && forall i | 0 <= i < e :: s[i] != '[' && s[i] != ']' }

  lemma PlainPrefixOfCons(s: string, rest: string, e: int)
    requires s != "" && e > 0 && NoBrackets([s[0]] + rest, e)
    ensures NoBrackets(rest, e - 1)
    ensures e - 1 <= |s[1..]| && rest[..e - 1] == s[1..][..e - 1] ==> e <= |s| && ([s[0]] + rest)[..e] == s[..e]
  {
    assert forall i | 0 <= i < e - 1 :: rest[i] == ([s[0]] + rest)[i + 1];
    assert ([s[0]] + rest)[..e] == [s[0]] + rest[..e - 1];
    assert e <= |s| ==> s[..e] == [s[0]] + s[1..][..e - 1];
  }

  /** Before its first bracket the output is the input. */
  lemma {:induction false} PlainPrefixKept(p: Pattern, s: string, e: int)
    requires NoBrackets(Replace(p, s), e)
    ensures e <= |s| && Replace(p, s)[..e] == s[..e]
    decreases |s|
  {
    if e > 0 {
      var n := ReplaceStep(p, s);
      if n == 0 {
        PlainPrefixOfCons(s, Replace(p, s[1..]), e);
        PlainPrefixKept(p, s[1..], e - 1);
      }
    }
  }

  lemma SuffixesAreFree(p: Pattern, s: string, n: nat)
    requires Free(p, s) && n <= |s|
    ensures Free(p, s[n..])
  {
    forall i, e | 0 <= i <= |s[n..]| ensures !IsMatch(p, s[n..][i..], e) { assert s[n..][i..] == s[n + i..]; }
  }

  lemma MarkerSuffix(rest: string, i: nat)
    requires i < |REDACTED|
    ensures var t := (REDACTED + rest)[i..];
            |t| > 9 - i && t[9 - i] == ']' && (i == 0 ==> t[0] == '[') && (i > 0 ==> forall k | 0 <= k < 9 - i :: IsLetter(t[k]))
  {
    var t := (REDACTED + rest)[i..];
    assert forall k | 0 <= k < |REDACTED| - i :: t[k] == REDACTED[i + k];
  }

  /** Neither pattern has a match that starts inside an inserted marker. */
  lemma MarkerHidesNothing(q: Pattern, rest: string, i: nat, e: int)
    requires i < |REDACTED|
    ensures !IsMatch(q, (REDACTED + rest)[i..], e)
  {
    MarkerSuffix(rest, i);
    if IsMatch(q, (REDACTED + rest)[i..], e) { MatchAlphabet(q, (REDACTED + rest)[i..], e); }
  }

  lemma FreeAfterMarker(q: Pattern, rest: string)
    requires Free(q, rest)
    ensures Free(q, REDACTED + rest)
  {
    var t := REDACTED + rest;
    forall i, e | 0 <= i <= |t| ensures !IsMatch(q, t[i..], e) {
      if i < |REDACTED| { MarkerHidesNothing(q, rest, i, e); }
      else { assert t[i..] == rest[i - |REDACTED|..]; }
    }
  }

  lemma FreeCons(q: Pattern, c: char, rest: string)
    requires Free(q, rest) && forall e :: !IsMatch(q, [c] + rest, e)
    ensures Free(q, [c] + rest)
  {
    var t := [c] + rest;
    forall i, e | 0 <= i <= |t| ensures !IsMatch(q, t[i..], e) {
      if i == 0 { assert t[0..] == t; }
      else { assert t[i..] == rest[i - 1..]; }
    }
  }

  /** A match at the start of the output was already one at the start of the input. */
  lemma NoNewMatchAtStart(p: Pattern, q: Pattern, s: string, e: int)
    requires IsMatch(q, Replace(p, s), e)
    ensures IsMatch(q, s, e)
  {
    MatchAlphabet(q, Replace(p, s), e);
    PlainPrefixKept(p, s, e);
    MatchIsLocal(q, Replace(p, s), s, e);
  }

  /** Replacing a pattern leaves no match of it and creates no match of the other. */
  lemma {:induction false} ReplaceFrees(p: Pattern, q: Pattern, s: string)
    requires p == q || Free(q, s)
    ensures Free(q, Replace(p, s))
    decreases |s|
  {
    if s == "" {
      forall i, e | 0 <= i <= 0 ensures !IsMatch(q, ""[i..], e) { if IsMatch(q, "", e) { MatchAlphabet(q, "", e); } }
    } else {
      var n := ReplaceStep(p, s);
      var k := if n > 0 then n else 1;
      if p != q {
        SuffixesAreFree(q, s, k);
        assert s[0..] == s;
      }
      ReplaceFrees(p, q, s[k..]);
      if n > 0 {
        FreeAfterMarker(q, Replace(p, s[n..]));
      } else {
        forall e ensures !IsMatch(q, Replace(p, s), e) {
          if IsMatch(q, Replace(p, s), e) { NoNewMatchAtStart(p, q, s, e); }
        }
        FreeCons(q, s[0], Replace(p, s[1..]));
      }
    }
  }

  lemma {:induction false} FreeIsKept(p: Pattern, s: string)
    requires Free(p, s)
    ensures Replace(p, s) == s
    decreases |s|
  {
    if s != "" {
      var n := ReplaceStep(p, s);
      assert s[0..] == s;
      SuffixesAreFree(p, s, 1);
      FreeIsKept(p, s[1..]);
    }
  }

  /** The longest match at the start of `s` has length `n`. */
  ghost predicate LongestMatch(p: Pattern, s: string, n: nat) { IsMatch(p, s, n) && forall e | IsMatch(p, s, e) :: e <= n }

  /** Replacement, from the left: the longest match at this point becomes one marker and the scan goes
      on behind it. */
  lemma LongestMatchIsReplaced(p: Pattern, s: string, n: nat)
    requires LongestMatch(p, s, n)
    ensures 0 < n <= |s| && Replace(p, s) == REDACTED + Replace(p, s[n..])
  {
    MatchAlphabet(p, s, n);
    var k := ReplaceStep(p, s);
  }

  /** And a character at which no match starts is kept. The two determine replacement. */
  lemma UnmatchedIsKept(p: Pattern, s: string)
    requires s != "" && forall e :: !IsMatch(p, s, e)
    ensures Replace(p, s) == [s[0]] + Replace(p, s[1..])
  {
    var k := ReplaceStep(p, s);
  }

  /** A string survives redaction unchanged exactly when it holds neither an e-mail address nor a
      phone number; and what redaction returns is such a string. */
  lemma RedactionFixpoints(s: string)
    ensures Free(Email, RedactString(s)) && Free(Phone, RedactString(s))
    ensures RedactString(s) == s <==> Free(Email, s) && Free(Phone, s)
  {
    var r := Replace(Email, s);
    ReplaceFrees(Email, Email, s);
    ReplaceFrees(Phone, Phone, r);
    ReplaceFrees(Phone, Email, r);
    if Free(Email, s) && Free(Phone, s) {
      FreeIsKept(Email, s);
      FreeIsKept(Phone, s);
    }
  }

  lemma RedactStringIdempotent(s: string)
    ensures RedactString(RedactString(s)) == RedactString(s)
  {
    RedactionFixpoints(s);
    RedactionFixpoints(RedactString(s));
  }

  /** A whole match becomes one marker. */
  lemma WholeMatchBecomesMarker(p: Pattern, s: string)
    requires IsMatch(p, s, |s|)
    ensures Replace(p, s) == REDACTED
  {
    GreedyIsLongest(p, s);
    MatchAlphabet(p, s, |s|);
    MatchAlphabet(p, s, Greedy(p, s).value);
    assert s[|s|..] == "";
  }

  /** And so does its redaction: an address is gone before phone numbers are looked for in it, and
      no address hides in a phone number. */
  lemma WholeMatchIsRedacted(p: Pattern, s: string)
    requires IsMatch(p, s, |s|)
    ensures RedactString(s) == "[redacted]"
  {
    WholeMatchBecomesMarker(p, s);
    MarkerIsFree(Phone);
    if p == Email {
      FreeIsKept(Phone, REDACTED);
    } else {
      PhonesHoldNoEmail(s);
      FreeIsKept(Email, s);
    }
  }

  lemma MarkerIsFree(q: Pattern)
    ensures Free(q, REDACTED)
  {
    ReplaceFrees(q, q, "");
    FreeAfterMarker(q, "");
    assert REDACTED + "" == REDACTED;
  }

  lemma PhonesHoldNoEmail(s: string)
    requires IsMatch(Phone, s, |s|)
    ensures Free(Email, s)
  {
    var plus :| PhoneShape(s, plus, |s|);
    forall i, e | 0 <= i <= |s| ensures !IsMatch(Email, s[i..], e) {
      if at, dot :| EmailShape(s[i..], at, dot, e) { assert s[i..][at] == s[i + at] == '@'; }
    }
  }

  /** What follows a bracket has no say in the matches before it. */
  lemma MatchesEndAtBrackets(p: Pattern, s: string, c: char, t: string, e: int)
    requires c == '[' || c == ']'
    ensures IsMatch(p, s + [c] + t, e) <==> IsMatch(p, s, e)
  {
    var whole := s + [c] + t;
    if IsMatch(p, whole, e) {
      MatchAlphabet(p, whole, e);
      assert whole[|s|] == c;
      assert whole[..e] == s[..e];
      MatchIsLocal(p, whole, s, e);
    }
    if IsMatch(p, s, e) {
      MatchAlphabet(p, s, e);
      assert whole[..e] == s[..e];
      MatchIsLocal(p, s, whole, e);
    }
  }

  lemma SplitsAtBracketStart(p: Pattern, c: char, t: string)
    requires c == '[' || c == ']'
    ensures Replace(p, [c] + t) == [c] + Replace(p, t)
  {
    var n := ReplaceStep(p, [c] + t);
    if n > 0 { MatchAlphabet(p, [c] + t, n); }
    assert ([c] + t)[1..] == t;
  }

  /** The scan takes the same first step with and without what follows a bracket. */
  lemma SameFirstStep(p: Pattern, s: string, c: char, t: string) returns (k: nat, head: string)
    requires (c == '[' || c == ']') && s != ""
    ensures 0 < k <= |s|
    ensures Replace(p, s) == head + Replace(p, s[k..])
    ensures Replace(p, s + [c] + t) == head + Replace(p, s[k..] + [c] + t)
  {
    var n := ReplaceStep(p, s + [c] + t);
    var m := ReplaceStep(p, s);
    MatchesEndAtBrackets(p, s, c, t, n);
    MatchesEndAtBrackets(p, s, c, t, m);
    k, head := if m > 0 then m else 1, if m > 0 then REDACTED else [s[0]];
    SuffixOfSplit(s, c, t, k);
  }

  lemma SuffixOfSplit(s: string, c: char, t: string, k: nat)
    requires k <= |s|
    ensures (s + [c] + t)[k..] == s[k..] + [c] + t
  {
  }

  lemma Glue(head: string, a: string, c: char, b: string)
    ensures head + (a + [c] + b) == (head + a) + [c] + b
  {
  }

  /** A bracket splits the text into parts that are replaced independently, so text between
      matches is kept and every match is replaced where it stands. */
  lemma {:induction false} ReplaceSplitsAtBrackets(p: Pattern, s: string, c: char, t: string)
    requires c == '[' || c == ']'
    ensures Replace(p, s + [c] + t) == Replace(p, s) + [c] + Replace(p, t)
    decreases |s|
  {
    if s == "" {
      assert s + [c] + t == [c] + t;
      SplitsAtBracketStart(p, c, t);
    } else {
      var k, head := SameFirstStep(p, s, c, t);
      ReplaceSplitsAtBrackets(p, s[k..], c, t);
      Glue(head, Replace(p, s[k..]), c, Replace(p, t));
    }
  }

  lemma RedactionSplitsAtBrackets(s: string, c: char, t: string)
    requires c == '[' || c == ']'
    ensures RedactString(s + [c] + t) == RedactString(s) + [c] + RedactString(t)
  {
    ReplaceSplitsAtBrackets(Email, s, c, t);
    ReplaceSplitsAtBrackets(Phone, Replace(Email, s), c, Replace(Email, t));
  }

  // ---------------------------------------------------------------------------------------
  // Value trees
  // ---------------------------------------------------------------------------------------

  datatype Entry = Entry(key: string, value: Value)

  /** An object is its own enumerable entries in order; `Opaque` is a function, symbol or bigint. */
  datatype Value =
    | Null | Undefined | NaN
    | Bool(flag: bool)
    | Num(number: real)
    | Str(text: string)
    | Arr(items: seq<Value>)
    | Obj(entries: seq<Entry>)
    | Opaque(id: nat, truthy: bool)

  predicate Truthy(v: Value) {
    match v
    case Null | Undefined | NaN => false
    case Bool(flag) => flag
    case Num(number) => number != 0.0
    case Str(text) => text != ""
    case Opaque(_, truthy) => truthy
    case _ => true
  }

  /** The falsy values; an opaque one is falsy only as the bigint zero. */
  lemma FalsyExactly(v: Value)
    ensures !Truthy(v) <==>
              v in {Null, Undefined, NaN, Bool(false), Num(0.0), Str("")} || (v.Opaque? && !v.truthy)
  {
  }

  function Lower(c: char): char { if 'A' <= c <= 'Z' then c - 'A' + 'a' else c }

  predicate MentionsAt(key: string, word: string, i: nat) {
    i + |word| <= |key| && forall j | 0 <= j < |word| :: Lower(key[i + j]) == word[j]
  }

  predicate Mentions(key: string, word: string) {
    exists i | 0 <= i <= |key| :: MentionsAt(key, word, i)
  }

  /** The same letters, each in either case; `word` is in lower case. */
  predicate SameLetters(s: string, word: string) {
    |s| == |word| && forall j | 0 <= j < |word| :: s[j] == word[j] || ('A' <= s[j] <= 'Z' && s[j] as int + 32 == word[j] as int)
  }

  predicate NoCapitals(word: string) { forall j | 0 <= j < |word| :: !('A' <= word[j] <= 'Z') }

  lemma MentionsAtExactly(key: string, word: string, i: nat)
    requires NoCapitals(word)
    ensures MentionsAt(key, word, i) <==> i + |word| <= |key| && SameLetters(key[i..i + |word|], word)
  {
    if i + |word| <= |key| {
      forall j | 0 <= j < |word|
        ensures Lower(key[i + j]) == word[j] <==>
                var c := key[i..i + |word|][j]; c == word[j] || ('A' <= c <= 'Z' && c as int + 32 == word[j] as int)
      {
        assert key[i..i + |word|][j] == key[i + j];
      }
    }
  }

  lemma MiddleSlice(before: string, middle: string, after: string)
    ensures (before + middle + after)[|before|..|before| + |middle|] == middle
  {
  }

  lemma Resplit(key: string, i: nat, n: nat)
    requires i + n <= |key|
    ensures key == key[..i] + key[i..i + n] + key[i + n..]
  {
  }

  /** A key mentions a word exactly when it holds it somewhere, whole, each letter in either case. */
  lemma MentionsExactly(key: string, word: string)
    requires NoCapitals(word)
    ensures Mentions(key, word) <==> exists before, middle, after :: key == before + middle + after && SameLetters(middle, word)
  {
    if i :| 0 <= i <= |key| && MentionsAt(key, word, i) {
      MentionsAtExactly(key, word, i);
      Resplit(key, i, |word|);
    }
    if before, middle, after :| key == before + middle + after && SameLetters(middle, word) {
      MiddleSlice(before, middle, after);
      MentionsAtExactly(key, word, |before|);
    }
  }

  /** The alternatives of the key pattern, an optional separator written out: first those that no
      other alternative covers. */
  const DECIDING_WORDS: seq<string> := [
    "authorization", "cookie", "csrf", "password", "token", "api_key", "api-key", "apikey",
    "secret", "email", "phone", "address"]

  const COVERED_WORDS: seq<string> := [
    "x-csrf-token", "access_token", "access-token", "accesstoken", "refresh_token", "refresh-token", "refreshtoken",
    "client_secret", "client-secret", "clientsecret"]

  const SENSITIVE_WORDS := DECIDING_WORDS + COVERED_WORDS

  predicate Sensitive(key: string) { exists w | w in SENSITIVE_WORDS :: Mentions(key, w) }

  lemma MentionsPart(key: string, word: string, off: nat, part: string)
    requires Mentions(key, word) && off + |part| <= |word| && word[off..off + |part|] == part
    ensures Mentions(key, part)
  {
    var i :| 0 <= i <= |key| && MentionsAt(key, word, i);
    forall j | 0 <= j < |part| ensures Lower(key[i + off + j]) == part[j] { assert part[j] == word[off + j]; }
    assert MentionsAt(key, part, i + off);
  }

  lemma TokensAreCovered(key: string, i: nat)
    requires 0 < i < 7 && Mentions(key, COVERED_WORDS[i])
    ensures Mentions(key, "token")
  {
    if i < 3 { MentionsPart(key, COVERED_WORDS[i], 7, "token"); }
    else if i == 3 { MentionsPart(key, "accesstoken", 6, "token"); }
    else if i < 6 { MentionsPart(key, COVERED_WORDS[i], 8, "token"); }
    else { MentionsPart(key, "refreshtoken", 7, "token"); }
  }

  lemma SecretsAreCovered(key: string, i: nat)
    requires 7 <= i < |COVERED_WORDS| && Mentions(key, COVERED_WORDS[i])
    ensures Mentions(key, "secret")
  {
    if i < 9 { MentionsPart(key, COVERED_WORDS[i], 7, "secret"); }
    else { MentionsPart(key, "clientsecret", 6, "secret"); }
  }

  lemma Covered(key: string, i: nat)
    requires i < |COVERED_WORDS| && Mentions(key, COVERED_WORDS[i])
    ensures Mentions(key, "csrf") || Mentions(key, "token") || Mentions(key, "secret")
  {
    if i == 0 { MentionsPart(key, "x-csrf-token", 2, "csrf"); }
    else if i < 7 { TokensAreCovered(key, i); }
    else { SecretsAreCovered(key, i); }
  }

  lemma DecidingWordsDecide(key: string)
    ensures Sensitive(key) <==> exists i | 0 <= i < |DECIDING_WORDS| :: Mentions(key, DECIDING_WORDS[i])
  {
    if Sensitive(key) {
      var w :| w in SENSITIVE_WORDS && Mentions(key, w);
      var i :| 0 <= i < |SENSITIVE_WORDS| && SENSITIVE_WORDS[i] == w;
      if i < |DECIDING_WORDS| {
        assert Mentions(key, DECIDING_WORDS[i]);
      } else {
        Covered(key, i - |DECIDING_WORDS|);
        assert DECIDING_WORDS[2] == "csrf" && DECIDING_WORDS[4] == "token" && DECIDING_WORDS[8] == "secret";
      }
    }
    if i :| 0 <= i < |DECIDING_WORDS| && Mentions(key, DECIDING_WORDS[i]) { assert SENSITIVE_WORDS[i] == DECIDING_WORDS[i]; }
  }

  /** The key pattern accepts exactly the keys that mention one of the deciding words: the session
      token, refresh token, client secret and CSRF header alternatives add nothing. */
  lemma SensitiveKeysExactly(key: string)
    ensures Sensitive(key) <==>
              exists w | w in ["authorization", "cookie", "csrf", "password", "token", "api_key", "api-key", "apikey",
                               "secret", "email", "phone", "address"] :: Mentions(key, w)
  {
    DecidingWordsDecide(key);
    if i :| 0 <= i < |DECIDING_WORDS| && Mentions(key, DECIDING_WORDS[i]) { assert DECIDING_WORDS[i] in DECIDING_WORDS; }
  }

  /** A key stays sensitive whatever surrounds it and in whatever case it is written. */
  lemma SensitiveInAnyContext(before: string, key: string, after: string, other: string)
    requires Sensitive(key) && |other| == |key| && forall i | 0 <= i < |key| :: Lower(other[i]) == Lower(key[i])
    ensures Sensitive(before + other + after)
  {
    var w :| w in SENSITIVE_WORDS && Mentions(key, w);
    var i :| 0 <= i <= |key| && MentionsAt(key, w, i);
    assert MentionsAt(before + other + after, w, |before| + i);
  }

  function Sanitize(v: Value, depth: nat): Value
    decreases v
  {
    if depth > MAX_DEPTH then Str(TRUNCATED)
    else match v
      case Str(text) => Str(RedactString(text))
      case Arr(items) => Arr(seq(|items|, i requires 0 <= i < |items| => Sanitize(items[i], depth + 1)))
      case Obj(entries) => Obj(seq(|entries|, i requires 0 <= i < |entries| => SanitizeEntry(entries[i], depth)))
      case _ => v
  }

  function SanitizeEntry(e: Entry, depth: nat): Entry
    requires depth <= MAX_DEPTH
    decreases e
  {
    if Sensitive(e.key) then Entry(e.key, if Truthy(e.value) then Str(REDACTED) else e.value)
    else Entry(e.key, Sanitize(e.value, depth + 1))
  }

  /** One level: texts are redacted, arrays and objects keep their shape and keys, the value under a
      sensitive key becomes the marker unless it is falsy, other values go one level down, and
      everything else is kept; beyond the cap of eight only the truncation marker is left. */
  lemma OneLevelExactly(v: Value, depth: nat)
    ensures depth > 8 ==> Sanitize(v, depth) == Str("[truncated]")
    ensures depth <= 8 && v.Str? ==> Sanitize(v, depth) == Str(Replace(Phone, Replace(Email, v.text)))
    ensures depth <= 8 && v.Arr? ==>
              var w := Sanitize(v, depth);
              w.Arr? && |w.items| == |v.items| && forall i | 0 <= i < |v.items| :: w.items[i] == Sanitize(v.items[i], depth + 1)
    ensures depth <= 8 && v.Obj? ==>
              var w := Sanitize(v, depth);
              && w.Obj? && |w.entries| == |v.entries|
              && forall i | 0 <= i < |v.entries| ::
                   w.entries[i] == Entry(v.entries[i].key,
                                         if !Sensitive(v.entries[i].key) then Sanitize(v.entries[i].value, depth + 1)
                                         else if Truthy(v.entries[i].value) then Str("[redacted]") else v.entries[i].value)
    ensures depth <= 8 && !v.Str? && !v.Arr? && !v.Obj? ==> Sanitize(v, depth) == v
  {
  }

  /** Nothing left to scrub: no e-mail address or phone number in any text, no truthy value under a
      sensitive key except the marker, and only the truncation marker beyond the depth cap. */
  ghost predicate Clean(v: Value, depth: nat)
    decreases v
  {
    if depth > MAX_DEPTH then v == Str(TRUNCATED)
    else match v
      case Str(text) => Free(Email, text) && Free(Phone, text)
      case Arr(items) => forall i | 0 <= i < |items| :: Clean(items[i], depth + 1)
      case Obj(entries) => forall i | 0 <= i < |entries| :: CleanEntry(entries[i], depth)
      case _ => true
  }

  ghost predicate CleanEntry(e: Entry, depth: nat)
    decreases e
  {
    if Sensitive(e.key) then Truthy(e.value) ==> e.value == Str(REDACTED)
    else Clean(e.value, depth + 1)
  }

  lemma {:induction false} SanitizedIsClean(v: Value, depth: nat)
    ensures Clean(Sanitize(v, depth), depth)
    decreases v
  {
    if depth <= MAX_DEPTH {
      match v
      case Str(text) => RedactionFixpoints(text);
      case Arr(items) => forall i | 0 <= i < |items| { SanitizedIsClean(items[i], depth + 1); }
      case Obj(entries) =>
        forall i | 0 <= i < |entries| ensures CleanEntry(SanitizeEntry(entries[i], depth), depth) {
          SanitizedIsClean(entries[i].value, depth + 1);
        }
      case _ =>
    }
  }

  /** A value survives sanitizing unchanged exactly when it is clean. */
  lemma {:induction false} FixpointsAreClean(v: Value, depth: nat)
    ensures Sanitize(v, depth) == v <==> Clean(v, depth)
    decreases v
  {
    SanitizedIsClean(v, depth);
    if Clean(v, depth) && depth <= MAX_DEPTH {
      match v
      case Str(text) => RedactionFixpoints(text);
      case Arr(items) =>
        forall i | 0 <= i < |items| ensures Sanitize(items[i], depth + 1) == items[i] { FixpointsAreClean(items[i], depth + 1); }
        assert Sanitize(v, depth).items == items;
      case Obj(entries) =>
        forall i | 0 <= i < |entries| ensures SanitizeEntry(entries[i], depth) == entries[i] {
          assert CleanEntry(entries[i], depth);
          FixpointsAreClean(entries[i].value, depth + 1);
        }
        assert Sanitize(v, depth).entries == entries;
      case _ =>
    }
  }

  lemma SanitizeIdempotent(v: Value, depth: nat)
    ensures Sanitize(Sanitize(v, depth), depth) == Sanitize(v, depth)
  {
    SanitizedIsClean(v, depth);
    FixpointsAreClean(Sanitize(v, depth), depth);
  }

  /** Containers nest at most `h` deep. */
  ghost predicate Fits(v: Value, h: int)
    decreases v
  {
    match v
    case Arr(items) => h > 0 && forall i | 0 <= i < |items| :: Fits(items[i], h - 1)
    case Obj(entries) => h > 0 && forall i | 0 <= i < |entries| :: Fits(entries[i].value, h - 1)
    case _ => h >= 0
  }

  /** The output is no higher than the depth cap leaves room for, whatever the input's height. */
  lemma {:induction false} HeightIsCapped(v: Value, depth: nat)
    requires depth <= 9
    ensures Fits(Sanitize(v, depth), 9 - depth)
    decreases v
  {
    if depth <= MAX_DEPTH {
      match v
      case Arr(items) => forall i | 0 <= i < |items| { HeightIsCapped(items[i], depth + 1); }
      case Obj(entries) => forall i | 0 <= i < |entries| { HeightIsCapped(entries[i].value, depth + 1); }
      case _ =>
    }
  }

  /** Nor is it ever higher than the input. */
  lemma {:induction false} HeightNeverGrows(v: Value, depth: nat, h: nat)
    requires Fits(v, h)
    ensures Fits(Sanitize(v, depth), h)
    decreases v
  {
    if depth <= MAX_DEPTH {
      match v
      case Arr(items) => forall i | 0 <= i < |items| { HeightNeverGrows(items[i], depth + 1, h - 1); }
      case Obj(entries) => forall i | 0 <= i < |entries| { HeightNeverGrows(entries[i].value, depth + 1, h - 1); }
      case _ =>
    }
  }

  /** The value reached by child positions. */
  function At(v: Value, path: seq<nat>): Option<Value>
    decreases |path|
  {
    if path == [] then Some(v)
    else match v
      case Arr(items) => if path[0] < |items| then At(items[path[0]], path[1..]) else None
      case Obj(entries) => if path[0] < |entries| then At(entries[path[0]].value, path[1..]) else None
      case _ => None
  }

  /** The keys along a path, in order. */
  function Keys(v: Value, path: seq<nat>): seq<string>
    decreases |path|
  {
    if path == [] then []
    else match v
      case Arr(items) => if path[0] < |items| then Keys(items[path[0]], path[1..]) else []
      case Obj(entries) =>
        if path[0] < |entries| then [entries[path[0]].key] + Keys(entries[path[0]].value, path[1..]) else []
      case _ => []
  }

  /** Off the sensitive keys nothing moves and nothing is lost: every position within the cap holds
      the sanitized form of what it held, under the same keys, and positions at the cap hold the
      truncation marker. */
  lemma {:induction false} PositionsAreKept(v: Value, depth: nat, path: seq<nat>)
    requires depth + |path| <= 9
    requires forall k | k in Keys(v, path) :: !Sensitive(k)
    ensures At(Sanitize(v, depth), path) ==
            (if At(v, path).Some? then Some(Sanitize(At(v, path).value, depth + |path|)) else None)
    ensures At(v, path).Some? && depth + |path| == 9 ==> At(Sanitize(v, depth), path) == Some(Str("[truncated]"))
    ensures Keys(Sanitize(v, depth), path) == Keys(v, path)
    decreases |path|
  {
    if path != [] {
      match v
      case Arr(items) => if path[0] < |items| { PositionsAreKept(items[path[0]], depth + 1, path[1..]); }
      case Obj(entries) =>
        if path[0] < |entries| {
          assert entries[path[0]].key in Keys(v, path);
          assert SanitizeEntry(entries[path[0]], depth).key == entries[path[0]].key;
          PositionsAreKept(entries[path[0]].value, depth + 1, path[1..]);
        }
      case _ =>
    }
  }

  /** Under a sensitive key, wherever it stands, the output holds the marker or a falsy value. */
  lemma NoSecretSurvives(v: Value, depth: nat, path: seq<nat>, i: nat)
    requires At(Sanitize(v, depth), path).Some?
    requires var w := At(Sanitize(v, depth), path).value;
             w.Obj? && i < |w.entries| && Sensitive(w.entries[i].key)
    ensures var w := At(Sanitize(v, depth), path).value;
            Truthy(w.entries[i].value) ==> w.entries[i].value == Str("[redacted]")
  {
    SanitizedIsClean(v, depth);
    CleanEverywhere(Sanitize(v, depth), depth, path);
  }

  lemma {:induction false} CleanEverywhere(v: Value, depth: nat, path: seq<nat>)
    requires Clean(v, depth) && At(v, path).Some?
    ensures var w := At(v, path).value;
            w.Obj? ==> forall i | 0 <= i < |w.entries| && Sensitive(w.entries[i].key) ::
                         Truthy(w.entries[i].value) ==> w.entries[i].value == Str(REDACTED)
    decreases |path|
  {
    if path == [] {
      assert v.Obj? ==> forall i | 0 <= i < |v.entries| :: CleanEntry(v.entries[i], depth);
    } else if v.Arr? {
      CleanEverywhere(v.items[path[0]], depth + 1, path[1..]);
    } else {
      var e := v.entries[path[0]];
      assert CleanEntry(e, depth);
      if !Sensitive(e.key) { CleanEverywhere(e.value, depth + 1, path[1..]); }
    }
  }
}
