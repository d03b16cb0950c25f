/** The team context in a match title: the first `(red) vs (blue)` in it, as the pattern
    `/\(([^)]+)\) vs \(([^)]+)\)/` finds it, written as a plain left-to-right scan. */
module TeamTitle {
  import opened Wrappers
  import opened Text

  /** The two captured team names. */
  datatype TeamNames = TeamNames(red: string, blue: string)

  /** What stands between the two names: the closing ')' of the first group up to the
      opening '(' of the second. */
  const Separator: string := ") vs ("

  /** Position of the first ')' at or after `from`, or |s| when there is none. */
  function CloseAt(s: string, from: nat): (r: nat)
    requires from <= |s|
    ensures from <= r <= |s|
    ensures r < |s| ==> s[r] == ')'
    ensures forall k :: from <= k < r ==> s[k] != ')'
    decreases |s| - from
  {
    if from == |s| || s[from] == ')' then from else CloseAt(s, from + 1)
  }

  /** The match of the pattern starting exactly at position `p`, if any. A `[^)]+` group
      cannot hold ')' and must be followed by one, so it always runs up to the first ')'. */
  function MatchAt(s: string, p: nat): Option<TeamNames> {
    if p < |s| && s[p] == '(' then
      var q := CloseAt(s, p + 1);
      if q > p + 1 && q + |Separator| <= |s| && s[q..q + |Separator|] == Separator then
        var e := CloseAt(s, q + |Separator|);
        if e > q + |Separator| && e < |s| then Some(TeamNames(s[p + 1..q], s[q + |Separator|..e]))
        else None
      else None
    else None
  }

  /** The declarative reading of the pattern: at `p`, `s` holds '(', then `red`, then
      ") vs (", then `blue`, then ')', with both names non-empty and free of ')'. */
  ghost predicate PatternAt(s: string, p: nat, t: TeamNames) {
    var q := p + 1 + |t.red|;
    var e := q + |Separator| + |t.blue|;
    && |t.red| > 0 && |t.blue| > 0
    && ')' !in t.red && ')' !in t.blue
    && e < |s|
    && s[p] == '(' && s[p + 1..q] == t.red && s[q..q + |Separator|] == Separator
    && s[q + |Separator|..e] == t.blue && s[e] == ')'
  }

  /** `CloseAt` finds the first ')': any ')' preceded only by other characters is it. */
  lemma CloseAtIs(s: string, from: nat, r: nat)
    requires from <= r < |s| && s[r] == ')'
    requires forall k :: from <= k < r ==> s[k] != ')'
    ensures CloseAt(s, from) == r
  {
  }

  /** Whatever the scan at `p` returns is an instance of the pattern there. */
  lemma MatchAtSound(s: string, p: nat, t: TeamNames)
    requires MatchAt(s, p) == Some(t)
    ensures PatternAt(s, p, t)
  {
    var q := CloseAt(s, p + 1);
    assert t.red == s[p + 1..q];
    forall k | 0 <= k < |t.red| ensures t.red[k] != ')' {
      assert t.red[k] == s[p + 1 + k];
    }
    var e := CloseAt(s, q + |Separator|);
    assert t.blue == s[q + |Separator|..e];
    forall k | 0 <= k < |t.blue| ensures t.blue[k] != ')' {
      assert t.blue[k] == s[q + |Separator| + k];
    }
  }

  /** Every instance of the pattern at `p` is what the scan at `p` returns. */
  lemma MatchAtComplete(s: string, p: nat, t: TeamNames)
    requires PatternAt(s, p, t)
    ensures MatchAt(s, p) == Some(t)
  {
    var n := |Separator|;
    var q := p + 1 + |t.red|;
    var e := q + n + |t.blue|;
    forall k | p + 1 <= k < q ensures s[k] != ')' {
      assert s[k] == s[p + 1..q][k - p - 1];
    }
    assert s[q] == s[q..q + n][0];
    CloseAtIs(s, p + 1, q);
    forall k | q + n <= k < e ensures s[k] != ')' {
      assert s[k] == s[q + n..e][k - q - n];
    }
    CloseAtIs(s, q + n, e);
  }

  /** The scan at `p` finds exactly the names that the pattern describes there. */
  lemma MatchAtSpec(s: string, p: nat, t: TeamNames)
    ensures MatchAt(s, p) == Some(t) <==> PatternAt(s, p, t)
  {
    if MatchAt(s, p) == Some(t) {
      MatchAtSound(s, p, t);
    }
    if PatternAt(s, p, t) {
      MatchAtComplete(s, p, t);
    }
  }

  /** The first match at or after position `p`. */
  function FindFrom(s: string, p: nat): Option<TeamNames>
    decreases |s| - p
  {
    if p >= |s| then None
    else match MatchAt(s, p)
      case Some(t) => Some(t)
      case None => FindFrom(s, p + 1)
  }

  lemma {:induction false} FindFromSpec(s: string, p: nat)
    ensures FindFrom(s, p).None? ==> forall q: nat :: p <= q ==> MatchAt(s, q).None?
    ensures FindFrom(s, p).Some? ==> exists q: nat :: (p <= q && MatchAt(s, q) == FindFrom(s, p)
      && forall q': nat :: p <= q' < q ==> MatchAt(s, q').None?)
    decreases |s| - p
  {
    if p >= |s| {
      forall q: nat | p <= q ensures MatchAt(s, q).None? {
      }
    } else if MatchAt(s, p).Some? {
      assert FindFrom(s, p) == MatchAt(s, p);
      assert forall q': nat :: p <= q' < p ==> MatchAt(s, q').None?;
    } else {
      FindFromSpec(s, p + 1);
      assert FindFrom(s, p) == FindFrom(s, p + 1);
      if FindFrom(s, p + 1).None? {
        forall q: nat | p <= q ensures MatchAt(s, q).None? {
          if q > p {
            assert p + 1 <= q;
          }
        }
      } else {
        var q: nat :| p + 1 <= q && MatchAt(s, q) == FindFrom(s, p + 1)
          && forall q': nat :: p + 1 <= q' < q ==> MatchAt(s, q').None?;
        forall q': nat | p <= q' < q ensures MatchAt(s, q').None? {
          if q' > p {
            assert p + 1 <= q' < q;
          }
        }
      }
    }
  }

  /** `title.match(...)`: the names captured by the first match, if there is one. */
  function ParseTeams(title: string): (r: Option<TeamNames>)
    ensures r.None? ==> forall p: nat, t :: !PatternAt(title, p, t)
    ensures r.Some? ==> exists p: nat :: (PatternAt(title, p, r.value)
      && forall p': nat, t' :: p' < p ==> !PatternAt(title, p', t'))
  {
    FindFromSpec(title, 0);
    var r := FindFrom(title, 0);
    assert r.None? ==> forall p: nat, t :: !PatternAt(title, p, t) by {
      forall p: nat, t | r.None? ensures !PatternAt(title, p, t) {
        MatchAtSpec(title, p, t);
      }
    }
    assert r.Some? ==> exists p: nat :: (PatternAt(title, p, r.value)
      && forall p': nat, t' :: p' < p ==> !PatternAt(title, p', t')) by {
      if r.Some? {
        var p: nat :| MatchAt(title, p) == r && forall q': nat :: q' < p ==> MatchAt(title, q').None?;
        MatchAtSpec(title, p, r.value);
        forall p': nat, t' | p' < p ensures !PatternAt(title, p', t') {
          MatchAtSpec(title, p', t');
        }
      }
    }
    r
  }

  /** `redSearch` and `blueSearch`: the captured names lower-cased, or nothing at all when the
      title has no team context. Present names are never empty, so testing their truthiness is
      testing their presence. */
  function SearchTerms(title: string): (r: Option<TeamNames>)
    ensures r.Some? <==> ParseTeams(title).Some?
    ensures r.Some? ==> r.value == TeamNames(Lower(ParseTeams(title).value.red), Lower(ParseTeams(title).value.blue))
    ensures r.Some? ==> |r.value.red| > 0 && |r.value.blue| > 0
  {
    match ParseTeams(title)
    case None => None
    case Some(t) => Some(TeamNames(Lower(t.red), Lower(t.blue)))
  }
}
