/** The match identifier taken from the request URL: `url.split('/').pop()`. */
module MatchUrl {

  /** `s.split('/')`: the pieces between separators, in order; there is always at least one. */
  function Split(s: string): (parts: seq<string>)
    ensures |parts| >= 1
    ensures forall k :: 0 <= k < |parts| ==> '/' !in parts[k]
    decreases |s|
  {
    if s == [] then [[]]
    else
      var rest := Split(s[1..]);
      if s[0] == '/' then [[]] + rest
      else [[s[0]] + rest[0]] + rest[1..]
  }

  /** `parts.join('/')`. */
  function Join(parts: seq<string>): string
    requires |parts| >= 1
  {
    if |parts| == 1 then parts[0] else parts[0] + "/" + Join(parts[1..])
  }

  /** Splitting loses nothing: joining the pieces back gives the original text. */
  lemma {:induction false} JoinSplit(s: string)
    ensures Join(Split(s)) == s
    decreases |s|
  {
    if s != [] {
      var rest := Split(s[1..]);
      JoinSplit(s[1..]);
      if s[0] == '/' {
        assert Split(s) == [[]] + rest;
        assert Split(s)[1..] == rest;
      } else {
        var parts := [[s[0]] + rest[0]] + rest[1..];
        assert Split(s) == parts;
        if |rest| == 1 {
          assert s == [s[0]] + s[1..];
        } else {
          assert parts[1..] == rest[1..];
          assert Join(rest) == rest[0] + "/" + Join(rest[1..]);
          assert s == [s[0]] + s[1..];
        }
      }
    }
  }

  /** There is a single piece exactly when the text holds no '/'. */
  lemma {:induction false} SplitOne(s: string)
    ensures |Split(s)| == 1 <==> '/' !in s
    decreases |s|
  {
    if s != [] {
      SplitOne(s[1..]);
      assert s == [s[0]] + s[1..];
    }
  }

  /** The last piece of `Split(s)` is the suffix of `s` after its last '/'. */
  lemma {:induction false} LastPieceIsSuffix(s: string)
    ensures var parts := Split(s); var last := parts[|parts| - 1];
      |last| <= |s| && s[|s| - |last|..] == last &&
      (|last| < |s| ==> s[|s| - |last| - 1] == '/')
    decreases |s|
  {
    if s != [] {
      var t := s[1..];
      var rest := Split(t);
      LastPieceIsSuffix(t);
      SplitOne(t);
      var parts := Split(s);
      var last := parts[|parts| - 1];
      var tail := rest[|rest| - 1];
      if s[0] == '/' || |rest| > 1 {
        assert last == tail;
        if |tail| == |t| {
          // the last piece of t is all of t, so t holds no '/' and s[0] is the separator
          assert t[|t| - |tail|..] == t;
          assert s[0] == '/';
        }
        assert s[|s| - |last|..] == t[|t| - |tail|..];
        if |tail| < |t| {
          assert s[|s| - |last| - 1] == t[|t| - |tail| - 1];
        }
      } else {
        assert parts == [[s[0]] + rest[0]];
        assert t[|t| - |tail|..] == t;
        assert last == s;
      }
    }
  }

  /** `url.split('/').pop()`: the text after the last '/', the whole text when it has none,
      and empty when it ends in '/'. */
  function MatchId(url: string): (id: string)
    ensures '/' !in id
    ensures |id| <= |url| && url[|url| - |id|..] == id
    ensures |id| < |url| ==> url[|url| - |id| - 1] == '/'
  {
    LastPieceIsSuffix(url);
    var parts := Split(url);
    parts[|parts| - 1]
  }
}
