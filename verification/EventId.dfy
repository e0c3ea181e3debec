/** Guest-access event ids: canonical key, equivalence and the SQL prefilter. */
module EventId {
  import opened Options
  import opened Text

  /** The digit string of `evt`, an optional `-` or `_`, then digits only; case does not matter. */
  function EvtNumber(t: string): Option<string> {
    if |t| < 3 || Lower(t[..3]) != "evt" then None
    else if IsDigits(t[3..]) then Some(t[3..])
    else if |t| > 3 && t[3] in "-_" && IsDigits(t[4..]) then Some(t[4..])
    else None
  }

  function Canonical(value: Option<string>): Option<string> {
    if value == None then None
    else
      var t := Strip(value.value);
      if t == "" then None
      else if EvtNumber(t).Some? then EvtNumber(t)
      else if IsDigits(t) then Some(t)
      else Some(Lower(t))
  }

  predicate Equivalent(a: Option<string>, b: Option<string>) {
    Canonical(a) == Canonical(b)
  }

  /** The lower-case column values that the database prefilter accepts for a key. */
  function SqlInValues(canon: string): set<string> {
    if canon == "" then {}
    else if IsDigits(canon) then {canon, "evt-" + canon, "evt_" + canon, "evt" + canon}
    else {canon}
  }

  lemma EvtNumberOfLower(t: string)
    ensures EvtNumber(Lower(t)) == EvtNumber(t)
  {
    var l := Lower(t);
    if |t| >= 3 {
      assert Lower(l[..3]) == Lower(t[..3]);
      DigitsOfLower(t[3..]);
      assert l[3..] == Lower(t[3..]);
      if |t| > 3 {
        DigitsOfLower(t[4..]);
        assert l[4..] == Lower(t[4..]);
      }
    }
  }

  lemma DigitsOfLower(s: string)
    ensures IsDigits(Lower(s)) <==> IsDigits(s)
    ensures IsDigits(s) ==> Lower(s) == s
  {
    forall i | 0 <= i < |s|
      ensures IsDigit(Lower(s)[i]) <==> IsDigit(s[i])
    {
    }
    if IsDigits(Lower(s)) {
      forall i | 0 <= i < |s| ensures IsDigit(s[i]) {
        assert IsDigit(Lower(s)[i]);
      }
    }
  }

  /** Every key is a fixed point: non-empty, trimmed, lower-case and, unless a digit
      string, not of the EVT-number form. */
  lemma CanonicalKeyShape(value: Option<string>)
    requires Canonical(value).Some?
    ensures var c := Canonical(value).value;
            c != "" && IsTrimmed(c) && Lower(c) == c && EvtNumber(c) == None
            && Canonical(Some(c)) == Some(c)
  {
    var t := Strip(value.value);
    var c := Canonical(value).value;
    StripIsTrimmed(value.value);
    if EvtNumber(t).Some? || IsDigits(t) {
      assert IsDigits(c);
      assert IsDigit(c[0]) && IsDigit(c[|c| - 1]);
      DigitsOfLower(c);
      assert |c| >= 3 ==> Lower(c[..3])[0] == c[0];
    } else {
      LowerKeepsSpace(t);
      LowerTwice(t);
      EvtNumberOfLower(t);
      DigitsOfLower(t);
    }
    StripFixesTrimmed(c);
  }

  /** The three prefixed spellings are the only lower-case strings of EVT-number form. */
  lemma PrefixedForms(l: string, c: string)
    requires Lower(l) == l && IsDigits(c)
    ensures EvtNumber(l) == Some(c) <==> l in {"evt-" + c, "evt_" + c, "evt" + c}
  {
    if EvtNumber(l) == Some(c) {
      assert l[..3] == "evt" by {
        assert forall i :: 0 <= i < 3 ==> Lower(l[..3])[i] == Lower(l)[i];
      }
      assert l == l[..3] + l[3..];
      if !IsDigits(l[3..]) {
        assert l == l[..4] + l[4..] && l[..4] == l[..3] + [l[3]];
        assert l[..4] == "evt-" || l[..4] == "evt_";
      }
    }
    if l in {"evt-" + c, "evt_" + c, "evt" + c} {
      assert l[..3] == "evt" && Lower("evt") == "evt";
      assert l[3..] == c || l[4..] == c;
      assert l[3..] == c || !IsDigit(l[3..][0]);
    }
  }

  lemma DigitsHaveNoPrefix(c: string)
    requires IsDigits(c)
    ensures EvtNumber(c) == None && IsTrimmed(c)
  {
    assert IsDigit(c[|c| - 1]) && IsDigit(c[0]);
    assert |c| >= 3 ==> Lower(c[..3])[0] == c[0];
  }

  /** What the key of an already trimmed id is, in terms of its lower-case form. */
  lemma KeyOfTrimmed(v: string)
    requires IsTrimmed(v) && v != ""
    ensures Canonical(Some(v)) == if EvtNumber(Lower(v)).Some? then EvtNumber(Lower(v)) else Some(Lower(v))
  {
    StripFixesTrimmed(v);
    EvtNumberOfLower(v);
    DigitsOfLower(v);
  }

  lemma PrefilterDigitKey(v: string, c: string)
    requires IsDigits(c)
    ensures Lower(v) in SqlInValues(c) <==> Canonical(Some(v)) == Some(c) && IsTrimmed(v)
  {
    var l := Lower(v);
    LowerKeepsSpace(v);
    LowerTwice(v);
    PrefixedForms(l, c);
    DigitsHaveNoPrefix(c);
    if l in SqlInValues(c) {
      assert l[|l| - 1] == c[|c| - 1] && IsDigit(c[|c| - 1]);
      assert l[0] == c[0] || l[0] == 'e';
      assert IsDigit(c[0]);
      KeyOfTrimmed(v);
    } else if IsTrimmed(v) && v != "" {
      KeyOfTrimmed(v);
    }
  }

  lemma PrefilterOtherKey(v: string, c: string)
    requires c != "" && !IsDigits(c) && IsTrimmed(c) && EvtNumber(c) == None
    ensures Lower(v) in SqlInValues(c) <==> Canonical(Some(v)) == Some(c) && IsTrimmed(v)
  {
    LowerKeepsSpace(v);
    if IsTrimmed(v) && v != "" {
      KeyOfTrimmed(v);
      assert EvtNumber(Lower(v)).Some? ==> IsDigits(EvtNumber(Lower(v)).value);
    }
  }

  /** The prefilter keeps a stored value exactly when its key is the wanted one and the
      stored value carries no outer whitespace (the SQL side lowers but never trims). */
  lemma PrefilterExact(v: string, w: Option<string>)
    requires Canonical(w).Some?
    ensures Lower(v) in SqlInValues(Canonical(w).value)
            <==> Canonical(Some(v)) == Canonical(w) && IsTrimmed(v)
  {
    var c := Canonical(w).value;
    CanonicalKeyShape(w);
    if IsDigits(c) {
      PrefilterDigitKey(v, c);
    } else {
      PrefilterOtherKey(v, c);
    }
  }

  /** Two ids that survive the trim are equivalent exactly when the prefilter of the one
      accepts the other. */
  lemma PrefilterAgreesWithEquivalence(a: string, b: string)
    requires Canonical(Some(a)).Some? && IsTrimmed(b)
    ensures Equivalent(Some(b), Some(a)) <==> Lower(b) in SqlInValues(Canonical(Some(a)).value)
  {
    PrefilterExact(b, Some(a));
  }

  /** The spellings of a number n as an event id, in lower case. */
  function SpellingsOf(n: string): set<string> {
    {n, "evt" + n, "evt-" + n, "evt_" + n}
  }

  /** Written out: an id has the key n exactly when, trimmed and in any case, it is one of the four
      spellings of n; every other id is its own key, trimmed and in lower case; a blank one has none. */
  lemma KeysAre(v: string, n: string)
    ensures Canonical(None) == None && (Canonical(Some(v)) == None <==> Strip(v) == "")
    ensures IsDigits(n) ==> (Canonical(Some(v)) == Some(n) <==> Lower(Strip(v)) in SpellingsOf(n))
    ensures Strip(v) != "" && (forall d :: IsDigits(d) ==> Lower(Strip(v)) !in SpellingsOf(d)) ==>
              Canonical(Some(v)) == Some(Lower(Strip(v)))
  {
    var t := Strip(v);
    StripIsTrimmed(v);
    StripFixesTrimmed(t);
    if t != "" {
      KeyOfTrimmed(t);
      LowerTwice(t);
      if IsDigits(n) {
        PrefixedForms(Lower(t), n);
        DigitsHaveNoPrefix(n);
      }
      if EvtNumber(Lower(t)).Some? {
        var d := EvtNumber(Lower(t)).value;
        PrefixedForms(Lower(t), d);
        assert Lower(t) in SpellingsOf(d);
      }
    }
  }
}
