/** The regular expression `/(\d{1,2})\/(\d{1,2})/` with which both the
    parser and the week normaliser find a `month/day` token in a label. */
module DateTokens {
  import opened Wrappers
  import opened Strings

  /** One match: the month group and the day group. */
  datatype Token = Token(month: string, day: string)

  predicate ValidToken(t: Token) {
    1 <= |t.month| <= 2 && 1 <= |t.day| <= 2 && IsDigits(t.month) && IsDigits(t.day)
  }

  /** The text the whole match covers, `M/D`. */
  function TokenText(t: Token): string {
    t.month + "/" + t.day
  }

  /** The day group starting at `q`: two digits when there are two. */
  function DayAt(s: string, q: nat): string
    requires q < |s|
  {
    if q + 1 < |s| && IsDigit(s[q + 1]) then s[q..q + 2] else s[q..q + 1]
  }

  /** The match that starts at position `p`. The month group tries two
      digits first and falls back to one, so it takes two exactly when a
      `/` follows them. */
  function TokenAt(s: string, p: nat): Option<Token> {
    if p + 3 < |s| && IsDigit(s[p]) && IsDigit(s[p + 1]) && s[p + 2] == '/' && IsDigit(s[p + 3]) then
      Some(Token(s[p..p + 2], DayAt(s, p + 3)))
    else if p + 2 < |s| && IsDigit(s[p]) && s[p + 1] == '/' && IsDigit(s[p + 2]) then
      Some(Token(s[p..p + 1], DayAt(s, p + 2)))
    else None
  }

  /** The leftmost match at or after position `p`. */
  function FirstTokenFrom(s: string, p: nat): (r: Option<Token>)
    ensures r.Some? ==> ValidToken(r.value) && Contains(s, TokenText(r.value))
    decreases |s| - p
  {
    if p >= |s| then None
    else if TokenAt(s, p).Some? then
      TokenAtFound(s, p);
      TokenAt(s, p)
    else FirstTokenFrom(s, p + 1)
  }

  /** `s.match(/(\d{1,2})\/(\d{1,2})/)`. */
  function FirstToken(s: string): Option<Token> {
    FirstTokenFrom(s, 0)
  }

  lemma {:induction false} ContainsAt(s: string, t: string, p: nat)
    requires p + |t| <= |s| && s[p..p + |t|] == t
    ensures Contains(s, t)
    decreases p
  {
    if p > 0 {
      assert s[1..][p - 1..p - 1 + |t|] == s[p..p + |t|];
      ContainsAt(s[1..], t, p - 1);
    }
  }

  lemma TokenAtFound(s: string, p: nat)
    requires TokenAt(s, p).Some?
    ensures ValidToken(TokenAt(s, p).value)
    ensures Contains(s, TokenText(TokenAt(s, p).value))
  {
    if p + 3 < |s| && IsDigit(s[p]) && IsDigit(s[p + 1]) && s[p + 2] == '/' && IsDigit(s[p + 3]) {
      TokenFound(s, p, 2);
    } else {
      TokenFound(s, p, 1);
    }
  }

  /** A month group of `m` digits, a slash and a digit make a token found
      in the text. */
  lemma TokenFound(s: string, p: nat, m: nat)
    requires 1 <= m <= 2 && p + m + 1 < |s|
    requires IsDigits(s[p..p + m]) && s[p + m] == '/' && IsDigit(s[p + m + 1])
    ensures ValidToken(Token(s[p..p + m], DayAt(s, p + m + 1)))
    ensures Contains(s, TokenText(Token(s[p..p + m], DayAt(s, p + m + 1))))
  {
    var q := p + m + 1;
    var M, D := s[p..p + m], DayAt(s, q);
    assert ValidToken(Token(M, D)) by {
      DayAtFacts(s, q);
    }
    assert Contains(s, TokenText(Token(M, D))) by {
      assert |M| == m;
      DayAtFacts(s, q);
      TextAt(s, p, M, D);
      ContainsAt(s, M + "/" + D, p);
    }
  }

  /** The day group is one or two digits of the text. */
  lemma DayAtFacts(s: string, q: nat)
    requires q < |s| && IsDigit(s[q])
    ensures 1 <= |DayAt(s, q)| <= 2 && IsDigits(DayAt(s, q))
    ensures q + |DayAt(s, q)| <= |s| && s[q..q + |DayAt(s, q)|] == DayAt(s, q)
  {
  }

  /** Month, slash and day side by side in a text make its `M/D`. */
  lemma TextAt(s: string, p: nat, M: string, D: string)
    requires p + |M| + 1 + |D| <= |s|
    requires s[p..p + |M|] == M && s[p + |M|] == '/' && s[p + |M| + 1..p + |M| + 1 + |D|] == D
    ensures s[p..p + |M| + 1 + |D|] == M + "/" + D
  {
    var t := s[p..p + |M| + 1 + |D|];
    forall i | 0 <= i < |t|
      ensures t[i] == (M + "/" + D)[i]
    {
      if i < |M| {
        assert t[i] == s[p..p + |M|][i];
      } else if i > |M| {
        assert t[i] == s[p + |M| + 1..p + |M| + 1 + |D|][i - |M| - 1];
      }
    }
  }

  /** Positions that hold no digit start no match. */
  lemma {:induction false} SkipNonDigits(s: string, p: nat, q: nat)
    requires p <= q <= |s|
    requires forall i :: p <= i < q ==> !IsDigit(s[i])
    ensures FirstTokenFrom(s, p) == FirstTokenFrom(s, q)
    decreases q - p
  {
    if p < q {
      SkipNonDigits(s, p + 1, q);
    }
  }

  /** A label without a `/` carries no token. */
  lemma {:induction false} NoSlashNoToken(s: string, p: nat)
    requires forall i :: 0 <= i < |s| ==> s[i] != '/'
    ensures FirstTokenFrom(s, p) == None
    decreases |s| - p
  {
    if p < |s| {
      NoSlashNoToken(s, p + 1);
    }
  }

  /** The canonical label `"Week of M/D"` carries exactly the token `M/D`
      when M and D have at most two digits. */
  lemma TokenOfWeekOf(m: nat, d: nat)
    requires m < 100 && d < 100
    ensures FirstToken("Week of " + NatText(m) + "/" + NatText(d)) == Some(Token(NatText(m), NatText(d)))
  {
    ShortNatToken(m, d);
    WeekOfNoDigits();
    TokenAfterText("Week of ", NatText(m), NatText(d));
  }

  lemma ShortNatToken(m: nat, d: nat)
    requires m < 100 && d < 100
    ensures ValidToken(Token(NatText(m), NatText(d)))
  {
    NatTextLength(m);
    NatTextLength(d);
  }

  lemma WeekOfNoDigits()
    ensures forall i :: 0 <= i < |"Week of "| ==> !IsDigit("Week of "[i])
  {
  }

  /** After a text without digits, the first token is the `M/D` that
      follows it. */
  lemma TokenAfterText(pre: string, M: string, D: string)
    requires forall i :: 0 <= i < |pre| ==> !IsDigit(pre[i])
    requires ValidToken(Token(M, D))
    ensures FirstToken(pre + M + "/" + D) == Some(Token(M, D))
  {
    var s := pre + M + "/" + D;
    assert forall i :: 0 <= i < |pre| ==> s[i] == pre[i];
    SkipNonDigits(s, 0, |pre|);
    assert s[|pre|..] == M + "/" + D;
    TokenAtText(s, |pre|, M, D);
  }

  /** A position where `M/D` ends the text holds the token `M/D`. */
  lemma TokenAtText(s: string, p: nat, M: string, D: string)
    requires ValidToken(Token(M, D))
    requires p <= |s| && s[p..] == M + "/" + D
    ensures TokenAt(s, p) == Some(Token(M, D))
  {
    var q := p + |M| + 1;
    SuffixParts(s, p, M, D);
    DayAtText(s, q, D);
    MonthAt(s, p, M, DayAt(s, q));
  }

  /** The pieces of a text ending in `M/D`. */
  lemma SuffixParts(s: string, p: nat, M: string, D: string)
    requires p <= |s| && s[p..] == M + "/" + D
    ensures p + |M| + 1 + |D| == |s|
    ensures s[p..p + |M|] == M && s[p + |M|] == '/' && s[p + |M| + 1..] == D
  {
    var t := s[p..];
    assert t[..|M|] == M;
    assert t[|M|] == '/';
    assert t[|M| + 1..] == D;
  }

  /** A month group followed by a slash and a digit starts the token. */
  lemma MonthAt(s: string, p: nat, M: string, D: string)
    requires 1 <= |M| <= 2 && IsDigits(M) && p + |M| + 1 < |s|
    requires s[p..p + |M|] == M && s[p + |M|] == '/' && IsDigit(s[p + |M| + 1])
    requires D == DayAt(s, p + |M| + 1)
    ensures TokenAt(s, p) == Some(Token(M, D))
  {
    assert s[p] == M[0];
    if |M| == 2 {
      assert s[p + 1] == M[1];
    } else {
      assert !IsDigit(s[p + 1]);
    }
  }

  /** A day group that ends the text is read whole. */
  lemma DayAtText(s: string, q: nat, D: string)
    requires 1 <= |D| <= 2 && IsDigits(D)
    requires q <= |s| && s[q..] == D
    ensures DayAt(s, q) == D
  {
    assert s[q] == D[0];
    if |D| == 2 {
      assert s[q + 1] == D[1];
      assert s[q..q + 2] == D;
    } else {
      assert s[q..q + 1] == D;
    }
  }
}
