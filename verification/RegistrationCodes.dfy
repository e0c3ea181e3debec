/** Single-use registration codes: minting, lookup, re-issue, revocation, consumption. */
module RegistrationCodes {
  import opened Options
  import opened Text

  // ----- the text of a code ---------------------------------------------------------------

  /** What every lookup applies to the code a client sends. */
  function Normalize(code: string): string {
    Without(Upper(Strip(code)), ' ')
  }

  /** What is stored for a code supplied by the caller: short dashed codes are normalized, others
      are kept as given. */
  function StoredToken(code: string): string {
    var stripped := Strip(code);
    if |stripped| <= 13 && '-' in stripped then Without(Upper(stripped), ' ') else stripped
  }

  predicate IsHex(c: char) {
    IsDigit(c) || 'a' <= c <= 'f'
  }

  /** The server's own token from 18 random hex digits. */
  function MintToken(raw: string): string
    requires |raw| == 18
  {
    var up := Upper(raw);
    "REG-" + up[0..6] + "-" + up[6..12] + "-" + up[12..18]
  }

  predicate NoLower(s: string) {
    forall i :: 0 <= i < |s| ==> !('a' <= s[i] <= 'z')
  }

  lemma {:induction false} WithoutShape(s: string, c: char)
    ensures c !in Without(s, c)
    ensures |Without(s, c)| <= |s| && (Without(s, c) == s <==> c !in s)
    ensures forall x :: x in Without(s, c) ==> x in s
    ensures s != "" && s[0] != c ==> Without(s, c) != "" && Without(s, c)[0] == s[0]
  {
    if s != "" {
      WithoutShape(s[1..], c);
      assert s == [s[0]] + s[1..];
    }
  }

  lemma {:induction false} WithoutLast(s: string, c: char)
    requires s != "" && s[|s| - 1] != c
    ensures var r := Without(s, c); r != "" && r[|r| - 1] == s[|s| - 1]
  {
    if |s| > 1 {
      WithoutLast(s[1..], c);
    }
  }

  lemma UpperFixes(s: string)
    ensures Upper(s) == s <==> NoLower(s)
  {
    if NoLower(s) {
      assert forall i :: 0 <= i < |s| ==> Upper(s)[i] == s[i];
    } else {
      var i :| 0 <= i < |s| && 'a' <= s[i] <= 'z';
      assert Upper(s)[i] != s[i];
    }
  }

  lemma UpperHasNoLower(s: string)
    ensures NoLower(Upper(s)) && (IsTrimmed(Upper(s)) <==> IsTrimmed(s))
    ensures ' ' in Upper(s) <==> ' ' in s
  {
    assert forall i :: 0 <= i < |s| ==> (Upper(s)[i] == ' ' <==> s[i] == ' ');
    if ' ' in s {
      var i :| 0 <= i < |s| && s[i] == ' ';
      assert Upper(s)[i] == ' ';
    }
  }

  /** The texts that lookup leaves alone. */
  predicate IsNormal(s: string) {
    IsTrimmed(s) && NoLower(s) && ' ' !in s
  }

  lemma NormalizeGivesNormal(code: string)
    ensures IsNormal(Normalize(code))
  {
    var up := Upper(Strip(code));
    StripIsTrimmed(code);
    UpperHasNoLower(Strip(code));
    WithoutShape(up, ' ');
    if up != "" {
      WithoutLast(up, ' ');
    }
    assert forall i :: 0 <= i < |Normalize(code)| ==> Normalize(code)[i] in up;
  }

  lemma NormalizeFixes(s: string)
    ensures Normalize(s) == s <==> IsNormal(s)
  {
    if IsNormal(s) {
      StripFixesTrimmed(s);
      UpperFixes(s);
      WithoutShape(s, ' ');
    } else {
      NormalizeGivesNormal(s);
    }
  }

  /** Lookup does not see letter case or outer whitespace, */
  lemma LookupIgnoresCaseAndPadding(code: string)
    ensures Normalize(Lower(code)) == Normalize(code) && Normalize(Strip(code)) == Normalize(code)
  {
    StripOfLower(code);
    assert Upper(Lower(Strip(code))) == Upper(Strip(code));
    StripIsTrimmed(code);
    StripFixesTrimmed(Strip(code));
  }

  /** nor the spaces between the parts of a code. */
  lemma LookupIgnoresSpaces(a: string, b: string)
    requires a != "" && b != "" && IsTrimmed(a) && IsTrimmed(b)
    ensures Normalize(a + " " + b) == Normalize(a) + Normalize(b) == Normalize(a + b)
  {
    StripFixesTrimmed(a);
    StripFixesTrimmed(b);
    StripFixesTrimmed(a + b);
    StripFixesTrimmed(a + " " + b);
    assert Upper(a + " " + b) == Upper(a) + " " + Upper(b) && Upper(a + b) == Upper(a) + Upper(b);
    WithoutSplits(Upper(a), Upper(b), ' ');
    WithoutSplits(Upper(a) + " ", Upper(b), ' ');
    WithoutSplits(Upper(a), " ", ' ');
    assert Without(" ", ' ') == "";
  }

  /** A token minted by the server is untouched by lookup normalization, so the client finds it
      whatever case it types; it can never be one of the 13-character HMAC codes. */
  lemma MintedTokenIsNormal(raw: string)
    requires |raw| == 18 && forall i :: 0 <= i < 18 ==> IsHex(raw[i])
    ensures Normalize(MintToken(raw)) == MintToken(raw)
    ensures Normalize(Lower(MintToken(raw))) == MintToken(raw)
    ensures |MintToken(raw)| != 13
  {
    var t, up := MintToken(raw), Upper(raw);
    assert |t| == 24;
    forall i | 0 <= i < |t|
      ensures IsDigit(t[i]) || 'A' <= t[i] <= 'Z' || t[i] == '-'
    {
      assert 4 <= i < 10 ==> t[i] == up[i - 4];
      assert 11 <= i < 17 ==> t[i] == up[i - 5];
      assert 18 <= i < 24 ==> t[i] == up[i - 6];
    }
    NormalizeFixes(t);
    assert Upper(Lower(t)) == t;
    LowerKeepsSpace(t);
    StripFixesTrimmed(Lower(t));
    StripFixesTrimmed(t);
    WithoutShape(t, ' ');
  }

  /** A supplied code is found again under the very text that was supplied exactly when it is a
      short dashed code, or holds neither lower-case letters nor inner spaces. */
  lemma SuppliedCodeIsFoundIff(code: string)
    ensures Normalize(code) == StoredToken(code)
            <==> (|Strip(code)| <= 13 && '-' in Strip(code)) || (NoLower(Strip(code)) && ' ' !in Strip(code))
  {
    var s := Strip(code);
    StripIsTrimmed(code);
    StripFixesTrimmed(s);
    assert Normalize(s) == Normalize(code);
    NormalizeFixes(s);
  }

  // ----- rows -----------------------------------------------------------------------------

  datatype Row = Row(used: bool, revoked: bool, expiresAt: int, email: Option<string>, pricingTier: Option<string>,
                     tierLevel: Option<int>, apiKey: Option<string>)

  /** The table, keyed by its unique column. */
  type Table = map<string, Row>

  datatype Terms = Terms(expiresAt: int, email: Option<string>, pricingTier: Option<string>, tierLevel: Option<int>,
                         apiKey: Option<string>)

  function Fresh(t: Terms): Row {
    Row(false, false, t.expiresAt, t.email, t.pricingTier, t.tierLevel, t.apiKey)
  }

  predicate Consumable(row: Row, now: int) {
    !row.used && !row.revoked && row.expiresAt > now
  }

  /** Pending issuances of one email and tier. */
  predicate IsPendingFor(row: Row, email: string, tier: string, level: Option<int>, now: int) {
    row.email == Some(email) && row.pricingTier == Some(tier) && row.tierLevel == level && Consumable(row, now)
  }

  function RevokedPending(rows: Table, email: string, tier: string, level: Option<int>, now: int): Table {
    map code | code in rows ::
      if IsPendingFor(rows[code], email, tier, level, now) then rows[code].(revoked := true) else rows[code]
  }

  // ----- operations -----------------------------------------------------------------------

  datatype Operation =
    /** `token` is what is stored: a minted token, or StoredToken of a supplied code. */
    | Insert(token: string, terms: Terms)
    | Refresh(code: string, terms: Terms)
    | RevokePending(email: string, tier: string, level: Option<int>)
    | Consume(code: string)
    /** Re-issue of the deterministic code of an email and tier. */
    | Issue(code: string, email: string, tier: string, level: Option<int>, expiresAt: int, apiKey: string)

  /** The table after the operation and whether it succeeded. */
  function Apply(rows: Table, op: Operation, now: int): (Table, bool) {
    match op
    case Insert(token, terms) =>
      if token in rows then (rows, false) else (rows[token := Fresh(terms)], true)
    case Refresh(code, terms) =>
      var token := Normalize(code);
      if token in rows then (rows[token := Fresh(terms)], true) else (rows, false)
    case RevokePending(email, tier, level) =>
      (RevokedPending(rows, email, tier, level, now), true)
    case Consume(code) =>
      var token := Normalize(code);
      if token in rows && Consumable(rows[token], now) then (rows[token := rows[token].(used := true)], true)
      else (rows, false)
    case Issue(code, email, tier, level, expiresAt, apiKey) =>
      var terms := Terms(expiresAt, Some(email), Some(tier), level, Some(apiKey));
      var revoked := RevokedPending(rows, email, tier, level, now);
      if Normalize(code) in rows then
        if rows[Normalize(code)].used then (rows, false) else (revoked[Normalize(code) := Fresh(terms)], true)
      else if StoredToken(code) in rows then (rows, false)
      else (revoked[StoredToken(code) := Fresh(terms)], true)
  }

  /** The registration_codes table. A failed call is rolled back. */
  class CodeStore {
    var rows: Table

    constructor ()
      ensures rows == map[]
    {
      rows := map[];
    }

    method CreateRegistrationCode(code: string, raw: string, terms: Terms) returns (token: Option<string>)
      requires |raw| == 18
      modifies this
      ensures var t := if code == "" then Normalize(MintToken(raw)) else StoredToken(code);
              rows == Apply(old(rows), Insert(t, terms), 0).0
              && token == if Apply(old(rows), Insert(t, terms), 0).1 then Some(t) else None
    {
      var t: string;
      if code != "" {
        var stripped := Strip(code);
        t := if |stripped| <= 13 && '-' in stripped then Without(Upper(stripped), ' ') else stripped;
      } else {
        t := Without(Upper(Strip(MintToken(raw))), ' ');
      }
      if t in rows {
        return None;
      }
      rows := rows[t := Row(false, false, terms.expiresAt, terms.email, terms.pricingTier, terms.tierLevel, terms.apiKey)];
      return Some(t);
    }

    method GetRegistrationCode(code: string) returns (row: Option<Row>)
      ensures row == if Normalize(code) in rows then Some(rows[Normalize(code)]) else None
    {
      var token := Without(Upper(Strip(code)), ' ');
      return if token in rows then Some(rows[token]) else None;
    }

    method RefreshRegistrationCodeIssuance(code: string, terms: Terms) returns (ok: bool)
      modifies this
      ensures rows == Apply(old(rows), Refresh(code, terms), 0).0
      ensures ok == Apply(old(rows), Refresh(code, terms), 0).1
    {
      var token := Normalize(code);
      if token !in rows {
        return false;
      }
      var row := rows[token].(expiresAt := terms.expiresAt, email := terms.email, pricingTier := terms.pricingTier,
                              tierLevel := terms.tierLevel, apiKey := terms.apiKey);
      row := row.(revoked := false);
      row := row.(used := false);
      rows := rows[token := row];
      return true;
    }

    method RevokePendingIssuances(email: string, tier: string, level: Option<int>, now: int)
      modifies this
      ensures rows == RevokedPending(old(rows), email, tier, level, now)
    {
      var pending := set code | code in rows && IsPendingFor(rows[code], email, tier, level, now);
      ghost var before := rows;
      while pending != {}
        invariant rows.Keys == before.Keys && pending <= rows.Keys
        invariant forall code :: code in pending ==> IsPendingFor(before[code], email, tier, level, now)
        invariant forall code :: code in before ==>
                    rows[code] == if IsPendingFor(before[code], email, tier, level, now) && code !in pending
                                  then before[code].(revoked := true) else before[code]
        decreases |pending|
      {
        var code :| code in pending;
        rows := rows[code := rows[code].(revoked := true)];
        pending := pending - {code};
      }
    }

    method TryConsumeRegistrationCode(code: string, now: int) returns (ok: bool)
      modifies this
      ensures rows == Apply(old(rows), Consume(code), now).0
      ensures ok == Apply(old(rows), Consume(code), now).1
    {
      var token := Without(Upper(Strip(code)), ' ');
      if token !in rows || rows[token].used || rows[token].revoked || rows[token].expiresAt <= now {
        return false;
      }
      rows := rows[token := rows[token].(used := true)];
      return true;
    }

    method IssueForEmailTier(code: string, email: string, tier: string, level: Option<int>, expiresAt: int,
                             apiKey: string, now: int) returns (ok: bool)
      requires code != ""
      modifies this
      ensures rows == Apply(old(rows), Issue(code, email, tier, level, expiresAt, apiKey), now).0
      ensures ok == Apply(old(rows), Issue(code, email, tier, level, expiresAt, apiKey), now).1
    {
      var committed := rows;
      var terms := Terms(expiresAt, Some(email), Some(tier), level, Some(apiKey));
      RevokePendingIssuances(email, tier, level, now);
      var existing := GetRegistrationCode(code);
      if existing.Some? {
        if existing.value.used {
          rows := committed;
          return false;
        }
        var refreshed := RefreshRegistrationCodeIssuance(code, terms);
        return true;
      }
      var token := CreateRegistrationCode(code, seq(18, _ => '0'), terms);
      if token == None {
        rows := committed;
        return false;
      }
      return true;
    }
  }

  /** What a pending issuance is: this email, tier and level, unused, not revoked, still running. Such
      rows are revoked together and no other row changes. */
  lemma RevokesExactlyPending(rows: Table, email: string, tier: string, level: Option<int>, now: int, code: string)
    requires code in rows
    ensures var row, rows' := rows[code], RevokedPending(rows, email, tier, level, now);
            rows'.Keys == rows.Keys
            && rows'[code] ==
                 if row.email == Some(email) && row.pricingTier == Some(tier) && row.tierLevel == level
                    && !row.used && !row.revoked && row.expiresAt > now
                 then row.(revoked := true) else row
  {
  }

  /** An open row with these terms. */
  predicate IsOpen(row: Row, t: Terms) {
    !row.used && !row.revoked && row.expiresAt == t.expiresAt && row.email == t.email
    && row.pricingTier == t.pricingTier && row.tierLevel == t.tierLevel && row.apiKey == t.apiKey
  }

  /** When each call succeeds and what it leaves: an insert needs a new token, a refresh a stored one,
      a consumption an unused, unrevoked and unexpired one. */
  lemma OutcomesAre(rows: Table, token: string, code: string, t: Terms, now: int)
    ensures var (rows', ok) := Apply(rows, Insert(token, t), now);
            (ok <==> token !in rows) && (ok ==> rows'.Keys == rows.Keys + {token} && IsOpen(rows'[token], t))
            && (forall c :: c in rows ==> c in rows' && rows'[c] == rows[c])
    ensures var (rows', ok) := Apply(rows, Refresh(code, t), now);
            (ok <==> Normalize(code) in rows) && rows'.Keys == rows.Keys && (ok ==> IsOpen(rows'[Normalize(code)], t))
            && (forall c :: c in rows && c != Normalize(code) ==> rows'[c] == rows[c])
    ensures var (rows', ok) := Apply(rows, Consume(code), now);
            (ok <==> Normalize(code) in rows
                     && !rows[Normalize(code)].used && !rows[Normalize(code)].revoked && rows[Normalize(code)].expiresAt > now)
            && rows'.Keys == rows.Keys && (ok ==> rows'[Normalize(code)] == rows[Normalize(code)].(used := true))
            && (!ok ==> rows' == rows) && (forall c :: c in rows && c != Normalize(code) ==> rows'[c] == rows[c])
  {
  }

  /** Issuing a code in lookup form fails exactly when it was used before, and then changes nothing;
      otherwise the code is open again under the new terms and every other pending one of that email,
      tier and level is revoked. */
  lemma IssueOutcome(rows: Table, code: string, email: string, tier: string, level: Option<int>, expiresAt: int,
                     apiKey: string, now: int)
    requires Normalize(code) == code && StoredToken(code) == code
    ensures var (rows', ok) := Apply(rows, Issue(code, email, tier, level, expiresAt, apiKey), now);
            (ok <==> !(code in rows && rows[code].used)) && (!ok ==> rows' == rows)
            && (ok ==> rows'.Keys == rows.Keys + {code}
                       && IsOpen(rows'[code], Terms(expiresAt, Some(email), Some(tier), level, Some(apiKey)))
                       && forall c :: c in rows && c != code ==> rows'[c] == RevokedPending(rows, email, tier, level, now)[c])
  {
  }

  /** The codes of the service, two groups of six upper-case letters or digits, are in that form. */
  lemma ServiceCodesAreInLookupForm(code: string)
    requires |code| == 13 && code[6] == '-'
    requires forall i :: 0 <= i < 13 && i != 6 ==> IsDigit(code[i]) || 'A' <= code[i] <= 'Z'
    ensures Normalize(code) == code && StoredToken(code) == code
  {
    assert code[0] != ' ' && code[12] != ' ';
    NormalizeFixes(code);
    SuppliedCodeIsFoundIff(code);
    StripFixesTrimmed(code);
    assert '-' in code;
  }

  // ----- runs -----------------------------------------------------------------------------

  datatype Call = Call(op: Operation, now: int)

  function Run(calls: seq<Call>): Table {
    if calls == [] then map[]
    else Apply(Run(calls[..|calls| - 1]), calls[|calls| - 1].op, calls[|calls| - 1].now).0
  }

  ghost predicate Succeeds(before: seq<Call>, call: Call) {
    Apply(Run(before), call.op, call.now).1
  }

  /** Successful consumptions of one stored token during the run. */
  ghost function Consumptions(calls: seq<Call>, token: string): nat {
    if calls == [] then 0
    else
      var before, last := calls[..|calls| - 1], calls[|calls| - 1];
      Consumptions(before, token)
      + if last.op.Consume? && Normalize(last.op.code) == token && Succeeds(before, last) then 1 else 0
  }

  /** Bare refreshes of its row. */
  ghost function Refreshes(calls: seq<Call>, token: string): nat {
    if calls == [] then 0
    else
      var before, last := calls[..|calls| - 1], calls[|calls| - 1];
      Refreshes(before, token)
      + if last.op.Refresh? && Normalize(last.op.code) == token && Succeeds(before, last) then 1 else 0
  }

  predicate IsUsed(rows: Table, token: string) {
    token in rows && rows[token].used
  }

  /** Effect of one operation on whether a token counts as used. */
  lemma UsedAfter(rows: Table, op: Operation, now: int, token: string)
    ensures var (rows', ok) := Apply(rows, op, now);
            var hit := ok && (op.Consume? || op.Refresh?) && Normalize(op.code) == token;
            && (token in rows ==> token in rows')
            && (hit ==> token in rows && (op.Consume? ==> !IsUsed(rows, token)))
            && IsUsed(rows', token) == if hit then op.Consume? else IsUsed(rows, token)
  {
  }

  /** A code is consumed at most once more than its row was refreshed. */
  lemma {:induction false} ConsumedAtMostOncePerIssue(calls: seq<Call>, token: string)
    ensures Consumptions(calls, token) <= Refreshes(calls, token) + if IsUsed(Run(calls), token) then 1 else 0
  {
    if calls != [] {
      var before, last := calls[..|calls| - 1], calls[|calls| - 1];
      ConsumedAtMostOncePerIssue(before, token);
      UsedAfter(Run(before), last.op, last.now, token);
    }
  }

  /** When rows are re-issued only through the service, which refuses used codes, a code that was
      ever consumed stays used: it is consumed exactly as often as it is marked used, so at most once. */
  lemma {:induction false} ConsumedOnceThroughTheService(calls: seq<Call>, token: string)
    requires forall i :: 0 <= i < |calls| ==> !calls[i].op.Refresh?
    ensures Consumptions(calls, token) == if IsUsed(Run(calls), token) then 1 else 0
  {
    if calls != [] {
      var before, last := calls[..|calls| - 1], calls[|calls| - 1];
      ConsumedOnceThroughTheService(before, token);
      UsedAfter(Run(before), last.op, last.now, token);
      assert !last.op.Refresh?;
    }
  }

  /** Used, revoked or expired. */
  predicate Dead(rows: Table, token: string, now: int) {
    token in rows && (rows[token].used || rows[token].revoked || rows[token].expiresAt <= now)
  }

  /** The operation re-opens this very row. */
  predicate Reissues(op: Operation, token: string) {
    (op.Refresh? || op.Issue?) && Normalize(op.code) == token
  }

  lemma DeadStaysDead(rows: Table, op: Operation, now: int, now': int, token: string)
    requires Dead(rows, token, now) && now <= now' && !Reissues(op, token)
    ensures Dead(Apply(rows, op, now').0, token, now')
    ensures op.Consume? && Normalize(op.code) == token ==> !Apply(rows, op, now').1
  {
  }

  function EndTime(calls: seq<Call>, start: int): int {
    if calls == [] then start else calls[|calls| - 1].now
  }

  /** Calls made from `start` on, the clock never going back, none re-opening the token's row. */
  ghost predicate NotReissued(calls: seq<Call>, token: string, start: int) {
    calls != [] ==>
      var front, last := calls[..|calls| - 1], calls[|calls| - 1];
      NotReissued(front, token, start) && last.now >= EndTime(front, start) && !Reissues(last.op, token)
  }

  lemma RunSnoc(calls: seq<Call>, call: Call, token: string)
    ensures Run(calls + [call]) == Apply(Run(calls), call.op, call.now).0
    ensures Consumptions(calls + [call], token) == Consumptions(calls, token)
            + if call.op.Consume? && Normalize(call.op.code) == token && Succeeds(calls, call) then 1 else 0
  {
    assert (calls + [call])[..|calls|] == calls;
  }

  /** From the moment a code is dead, no later call consumes it until its row is re-issued. */
  lemma {:induction false} DeadCodesStayDead(before: seq<Call>, after: seq<Call>, token: string, now: int)
    requires Dead(Run(before), token, now) && NotReissued(after, token, now)
    ensures Consumptions(before + after, token) == Consumptions(before, token)
    ensures Dead(Run(before + after), token, EndTime(after, now))
  {
    if after == [] {
      assert before + after == before;
    } else {
      var front, last := after[..|after| - 1], after[|after| - 1];
      DeadCodesStayDead(before, front, token, now);
      RunSnoc(before + front, last, token);
      DeadStaysDead(Run(before + front), last.op, EndTime(front, now), last.now, token);
      assert before + after == before + front + [last];
    }
  }

  /** A server-minted code can be consumed by whoever types it back, in any case, before it expires. */
  lemma MintedCodeWorksOnce(rows: Table, raw: string, terms: Terms, now: int)
    requires |raw| == 18 && forall i :: 0 <= i < 18 ==> IsHex(raw[i])
    requires MintToken(raw) !in rows && terms.expiresAt > now
    ensures var (rows', ok) := Apply(rows, Insert(Normalize(MintToken(raw)), terms), now);
            var (rows'', found) := Apply(rows', Consume(Lower(MintToken(raw))), now);
            ok && found && !Apply(rows'', Consume(MintToken(raw)), now).1
  {
    MintedTokenIsNormal(raw);
  }
}
