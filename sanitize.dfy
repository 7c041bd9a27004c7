/** pkg/utils/sanitize.go: the AS-path pattern sanitiser that guards the
    `show bgp ... regexp` commands. Strings are sequences of characters, one
    character per byte of the Go string. */
module Sanitize {
  import opened Wrappers
  import opened Errs

  /** Longest accepted pattern, in bytes. */
  const MaxASPathLength := 30

  /** Members of the character class `[0-9_]`. */
  predicate IsPathChar(c: char) { '0' <= c <= '9' || c == '_' }

  /** Whole-string membership in the language of `[0-9_]+\$?`. */
  predicate InPathLanguage(t: string) {
    || (|t| >= 1 && forall i :: 0 <= i < |t| ==> IsPathChar(t[i]))
    || (|t| >= 2 && t[|t| - 1] == '$' && forall i :: 0 <= i < |t| - 1 ==> IsPathChar(t[i]))
  }

  /** `regexp.MatchString` with the unanchored pattern `[0-9_]+\$?`: some
      non-empty substring of `s` is in the language. */
  predicate MatchString(s: string) {
    exists i, j :: 0 <= i < j <= |s| && InPathLanguage(s[i..j])
  }

  /** `s` holds a digit or an underscore somewhere. */
  predicate HasPathChar(s: string) {
    exists k :: 0 <= k < |s| && IsPathChar(s[k])
  }

  /** Because the expression is not anchored, a match exists exactly when
      one digit or underscore occurs anywhere in the input. */
  lemma MatchIffPathChar(s: string)
    ensures MatchString(s) <==> HasPathChar(s)
  {
    if MatchString(s) {
      var i, j :| 0 <= i < j <= |s| && InPathLanguage(s[i..j]);
      assert IsPathChar(s[i..j][0]);
    }
    if HasPathChar(s) {
      var k :| 0 <= k < |s| && IsPathChar(s[k]);
      assert s[k..k + 1] == [s[k]];
      assert InPathLanguage(s[k..k + 1]);
    }
  }

  /** SanitizeASPathRegex: reject empty, over-long and non-matching patterns,
      then anchor the pattern with a leading `_` and, unless it already ends
      in `_` or `$`, a trailing `$`. */
  function SanitizeASPathRegex(aspath: string): (r: Result<string, Error>)
    ensures r.Failure? ==> r.error in {ASPathEmpty, ASPathTooLong, ASPathMalformed}
    ensures r.Success? ==> |r.value| >= 1 && r.value[0] == '_'
    ensures r.Success? ==> r.value[|r.value| - 1] in {'_', '$'}
    ensures r.Success? ==> |aspath| <= |r.value| <= |aspath| + 2
  {
    if |aspath| == 0 then Failure(ASPathEmpty)
    else if |aspath| > MaxASPathLength then Failure(ASPathTooLong)
    else if !MatchString(aspath) then Failure(ASPathMalformed)
    else
      var anchored := if aspath[0] != '_' then "_" + aspath else aspath;
      var last := anchored[|anchored| - 1];
      Success(if last != '_' && last != '$' then anchored + "$" else anchored)
  }

  /** The error cases, each stated in terms of the input alone, in the order
      the checks run: emptiness first, then length, then the expression. */
  lemma {:induction false} SanitizeErrors(aspath: string)
    ensures SanitizeASPathRegex(aspath) == Failure(ASPathEmpty) <==> |aspath| == 0
    ensures SanitizeASPathRegex(aspath) == Failure(ASPathTooLong) <==> |aspath| > MaxASPathLength
    ensures SanitizeASPathRegex(aspath) == Failure(ASPathMalformed)
        <==> 1 <= |aspath| <= MaxASPathLength && !HasPathChar(aspath)
    ensures SanitizeASPathRegex(aspath).Success?
        <==> 1 <= |aspath| <= MaxASPathLength && HasPathChar(aspath)
  {
    MatchIffPathChar(aspath);
  }

  /** On success the input survives intact: a `_` is put in front exactly
      when it does not start with one, and a `$` is put behind exactly when
      it ends in neither `_` nor `$`. */
  lemma {:induction false} SanitizeKeepsInput(aspath: string)
    requires SanitizeASPathRegex(aspath).Success?
    ensures SanitizeASPathRegex(aspath).value ==
              (if aspath[0] != '_' then "_" else "") + aspath +
              (if aspath[|aspath| - 1] != '_' && aspath[|aspath| - 1] != '$' then "$" else "")
  {
    var pre := if aspath[0] != '_' then "_" else "";
    var anchored := pre + aspath;
    assert anchored[|anchored| - 1] == aspath[|aspath| - 1];
  }

  /** Sanitising an accepted pattern a second time changes nothing, as long
      as the anchored result still fits the length limit. */
  lemma {:induction false} SanitizeIdempotent(aspath: string)
    requires SanitizeASPathRegex(aspath).Success?
    requires |SanitizeASPathRegex(aspath).value| <= MaxASPathLength
    ensures SanitizeASPathRegex(SanitizeASPathRegex(aspath).value) == SanitizeASPathRegex(aspath)
  {
    var r := SanitizeASPathRegex(aspath).value;
    SanitizeErrors(aspath);
    var k :| 0 <= k < |aspath| && IsPathChar(aspath[k]);
    var off := if aspath[0] != '_' then 1 else 0;
    assert r[off + k] == aspath[k];
    assert HasPathChar(r);
    MatchIffPathChar(r);
  }

  /** An already anchored pattern is unchanged. */
  lemma SanitizeAnchoredExample()
    ensures SanitizeASPathRegex("_65000_") == Success("_65000_")
  {
    assert InPathLanguage("_65000_"[0..1]);
  }

  /** A bare AS number gains a leading `_` and a trailing `$`. */
  lemma SanitizeBareExample()
    ensures SanitizeASPathRegex("65000") == Success("_65000$")
  {
    assert InPathLanguage("65000"[0..1]);
    assert "_" + "65000" == "_65000";
    assert "_65000" + "$" == "_65000$";
  }

  /** A `$`-terminated number gains only the leading `_`. */
  lemma SanitizeDollarExample()
    ensures SanitizeASPathRegex("65000$") == Success("_65000$")
  {
    assert InPathLanguage("65000$"[0..1]);
    assert "_" + "65000$" == "_65000$";
  }

  /** Because the expression is unanchored, text with shell metacharacters
      passes as long as it holds one digit. */
  lemma SanitizeInjectionExample()
    ensures SanitizeASPathRegex("65000; rm -rf") == Success("_65000; rm -rf$")
  {
    assert InPathLanguage("65000; rm -rf"[0..1]);
    assert "_" + "65000; rm -rf" == "_65000; rm -rf";
    assert "_65000; rm -rf" + "$" == "_65000; rm -rf$";
  }

  /** Text with neither a digit nor an underscore is malformed. */
  lemma SanitizeMalformedExample()
    ensures SanitizeASPathRegex("abc") == Failure(ASPathMalformed)
  {
    MatchIffPathChar("abc");
    assert !IsPathChar("abc"[0]) && !IsPathChar("abc"[1]) && !IsPathChar("abc"[2]);
  }
}
