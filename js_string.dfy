/**
 * `String.prototype.replace` called with a string pattern, as ECMAScript
 * defines it: only the FIRST occurrence of the pattern is replaced, and the
 * replacement text goes through the GetSubstitution abstract operation, in
 * which `$$`, `$&`, `` $` `` and `$'` are patterns.  A string pattern captures
 * nothing, so `$1`…`$99` and `$<` stay literal.
 *
 * Positions are counted in Dafny characters (code points) rather than UTF-16
 * code units; this changes nothing in the result of `replace` for the ASCII
 * placeholders matched here.
 */
module JsString {
  import opened Wrappers

  /** `pat` occurs in `s` starting at position `i`. */
  predicate MatchAt(s: string, pat: string, i: nat) {
    i + |pat| <= |s| && s[i..i + |pat|] == pat
  }

  /** `pat` occurs nowhere in `s`. */
  predicate Absent(s: string, pat: string) {
    forall i :: 0 <= i <= |s| ==> !MatchAt(s, pat, i)
  }

  /** `s.indexOf(pat)`: the first position at which `pat` occurs. */
  function IndexOf(s: string, pat: string): (r: Option<nat>)
    ensures r.Some? ==> MatchAt(s, pat, r.value)
    ensures r.Some? ==> forall j: nat :: j < r.value ==> !MatchAt(s, pat, j)
    ensures r.None? <==> Absent(s, pat)
  {
    IndexOfFrom(s, pat, 0)
  }

  /** The first position at or after `k` at which `pat` occurs. */
  function IndexOfFrom(s: string, pat: string, k: nat): (r: Option<nat>)
    ensures r.Some? ==> k <= r.value && MatchAt(s, pat, r.value)
    ensures r.Some? ==> forall j: nat :: k <= j < r.value ==> !MatchAt(s, pat, j)
    ensures r.None? ==> forall j: nat :: k <= j ==> !MatchAt(s, pat, j)
    decreases |s| - k
  {
    if k + |pat| > |s| then None
    else if s[k..k + |pat|] == pat then Some(k)
    else IndexOfFrom(s, pat, k + 1)
  }

  /**
   * GetSubstitution for a match without captures: `matched` is the matched
   * text, `before` and `after` the parts of the subject around it.
   */
  function Substitution(rep: string, matched: string, before: string, after: string): string
    decreases |rep|
  {
    if |rep| == 0 then ""
    else if rep[0] == '$' && |rep| >= 2 && rep[1] == '$' then "$" + Substitution(rep[2..], matched, before, after)
    else if rep[0] == '$' && |rep| >= 2 && rep[1] == '&' then matched + Substitution(rep[2..], matched, before, after)
    else if rep[0] == '$' && |rep| >= 2 && rep[1] == '`' then before + Substitution(rep[2..], matched, before, after)
    else if rep[0] == '$' && |rep| >= 2 && rep[1] == '\'' then after + Substitution(rep[2..], matched, before, after)
    else [rep[0]] + Substitution(rep[1..], matched, before, after)
  }

  /** `rep` holds none of the four replacement patterns, so GetSubstitution leaves it as it is. */
  predicate NoReplacementPattern(rep: string) {
    forall i :: 0 <= i < |rep| - 1 && rep[i] == '$' ==> rep[i + 1] !in "$&`'"
  }

  /** `s.replace(pat, rep)` for a string `pat`. */
  function Replace(s: string, pat: string, rep: string): string {
    match IndexOf(s, pat)
    case None => s
    case Some(i) => s[..i] + Substitution(rep, pat, s[..i], s[i + |pat|..]) + s[i + |pat|..]
  }

  /** Without a replacement pattern the replacement text is inserted as it is. */
  lemma {:induction false} SubstitutionIsLiteral(rep: string, matched: string, before: string, after: string)
    requires NoReplacementPattern(rep)
    ensures Substitution(rep, matched, before, after) == rep
  {
    if |rep| > 0 {
      var tail := rep[1..];
      if |rep| >= 2 && rep[0] == '$' {
        assert rep[1] !in "$&`'";
      }
      assert NoReplacementPattern(tail) by {
        forall i | 0 <= i < |tail| - 1 && tail[i] == '$'
          ensures tail[i + 1] !in "$&`'"
        {
          assert rep[i + 1] == tail[i] && rep[i + 2] == tail[i + 1];
        }
      }
      SubstitutionIsLiteral(tail, matched, before, after);
      assert rep == [rep[0]] + tail;
    }
  }

  /**
   * A `$&` in the replacement text, not preceded by a pattern-forming `$`,
   * stands for the matched text.
   */
  lemma {:induction false} SubstitutionOfMatch(a: string, b: string, matched: string, before: string, after: string)
    requires NoReplacementPattern(a) && (|a| == 0 || a[|a| - 1] != '$') && NoReplacementPattern(b)
    ensures Substitution(a + "$&" + b, matched, before, after) == a + matched + b
  {
    if |a| == 0 {
      assert a + "$&" + b == "$&" + b;
      SubstitutionOfAmpersand(b, matched, before, after);
      SubstitutionIsLiteral(b, matched, before, after);
    } else {
      var tail := a[1..];
      var rep := a + "$&" + b;
      assert rep[0] == a[0] && rep[1..] == tail + "$&" + b;
      if a[0] == '$' {
        assert |a| >= 2 && a[1] !in "$&`'";
        assert rep[1] == a[1];
      }
      SubstitutionOfPlain(rep, matched, before, after);
      assert NoReplacementPattern(tail) by {
        forall i | 0 <= i < |tail| - 1 && tail[i] == '$'
          ensures tail[i + 1] !in "$&`'"
        {
          assert a[i + 1] == tail[i] && a[i + 2] == tail[i + 1];
        }
      }
      SubstitutionOfMatch(tail, b, matched, before, after);
      assert a == [a[0]] + tail;
    }
  }

  /** `$&` at the front of the replacement text inserts the matched text. */
  lemma SubstitutionOfAmpersand(b: string, matched: string, before: string, after: string)
    ensures Substitution("$&" + b, matched, before, after) == matched + Substitution(b, matched, before, after)
  {
    var rep := "$&" + b;
    assert rep[0] == '$' && rep[1] == '&' && rep[2..] == b;
  }

  /** A first character that does not start a pattern is copied. */
  lemma SubstitutionOfPlain(rep: string, matched: string, before: string, after: string)
    requires |rep| > 0 && (rep[0] != '$' || |rep| < 2 || rep[1] !in "$&`'")
    ensures Substitution(rep, matched, before, after) == [rep[0]] + Substitution(rep[1..], matched, before, after)
  {}

  /** A string without `$` holds no replacement pattern. */
  lemma NoDollarNoPattern(rep: string)
    requires '$' !in rep
    ensures NoReplacementPattern(rep)
  {
    forall i | 0 <= i < |rep|
      ensures rep[i] != '$'
    {
      assert rep[i] in rep;
    }
  }

  /** With no occurrence of the pattern, `replace` returns the subject unchanged. */
  lemma ReplaceAbsent(s: string, pat: string, rep: string)
    requires Absent(s, pat)
    ensures Replace(s, pat, rep) == s
  {}

  /**
   * When the first occurrence of `pat` in `x + pat + y` is the one after `x`
   * and `rep` holds no replacement pattern, `replace` swaps exactly that
   * occurrence for `rep`.
   */
  lemma ReplaceFirst(x: string, pat: string, y: string, rep: string)
    requires forall j: nat :: j < |x| ==> !MatchAt(x + pat + y, pat, j)
    requires NoReplacementPattern(rep)
    ensures Replace(x + pat + y, pat, rep) == x + rep + y
  {
    var s := x + pat + y;
    assert MatchAt(s, pat, |x|) by {
      assert s[|x|..|x| + |pat|] == pat;
    }
    var i := IndexOf(s, pat).value;
    assert i == |x|;
    assert s[..i] == x;
    assert s[i + |pat|..] == y;
    SubstitutionIsLiteral(rep, pat, x, y);
  }

  /** A subject that starts with the pattern has its first occurrence at the start. */
  lemma ReplaceAtStart(pat: string, rest: string, rep: string)
    ensures Replace(pat + rest, pat, rep) == Substitution(rep, pat, [], rest) + rest
  {
    IndexOfAtStart(pat, rest);
    var s := pat + rest;
    assert s[..0] == [] && s[|pat|..] == rest;
  }

  lemma IndexOfAtStart(pat: string, rest: string)
    ensures IndexOf(pat + rest, pat) == Some(0)
  {
    assert (pat + rest)[0..|pat|] == pat;
  }

  /**
   * A template placeholder: `{`, a name without braces, `}`.  Because the
   * opening brace occurs only at its start, no occurrence of one can overlap
   * another occurrence of itself.
   */
  predicate IsPlaceholder(pat: string) {
    |pat| >= 2 && pat[0] == '{' && pat[|pat| - 1] == '}' &&
    forall i :: 0 < i < |pat| ==> pat[i] != '{'
  }

  /** A string without the placeholder's opening brace cannot contain the placeholder. */
  lemma AbsentWithoutBrace(s: string, pat: string)
    requires IsPlaceholder(pat) && '{' !in s
    ensures Absent(s, pat)
  {
    forall i | 0 <= i <= |s|
      ensures !MatchAt(s, pat, i)
    {
      if i + |pat| <= |s| {
        assert s[i..i + |pat|][0] == s[i];
        assert s[i] in s;
      }
    }
  }

  /**
   * If `x` does not contain the placeholder, then in `x + pat + y` the first
   * occurrence of `pat` is the one right after `x`.
   */
  lemma FirstAfterPrefix(x: string, pat: string, y: string)
    requires IsPlaceholder(pat) && Absent(x, pat)
    ensures forall j: nat :: j < |x| ==> !MatchAt(x + pat + y, pat, j)
  {
    var s := x + pat + y;
    forall j: nat | j < |x|
      ensures !MatchAt(s, pat, j)
    {
      if j + |pat| <= |s| {
        if j + |pat| <= |x| {
          assert s[j..j + |pat|] == x[j..j + |pat|];
          assert !MatchAt(x, pat, j);
        } else {
          var d := |x| - j;
          assert s[j..j + |pat|][d] == s[|x|] == pat[0] == '{';
          assert pat[d] != '{';
        }
      }
    }
  }

  /**
   * Joining two strings that do not contain a placeholder creates no
   * occurrence across the seam, provided the occurrence would need the
   * opening brace in `a` or the closing brace in `b`, and one is missing, or
   * provided `b` starts with a character the placeholder has nowhere after
   * its brace.
   */
  lemma AbsentAppend(a: string, b: string, pat: string)
    requires IsPlaceholder(pat) && Absent(a, pat) && Absent(b, pat)
    requires '{' !in a || '}' !in b || (|b| > 0 && b[0] !in pat[1..])
    ensures Absent(a + b, pat)
  {
    var s := a + b;
    forall i | 0 <= i <= |s|
      ensures !MatchAt(s, pat, i)
    {
      if i + |pat| <= |s| {
        var m := s[i..i + |pat|];
        if i + |pat| <= |a| {
          assert m == a[i..i + |pat|];
          assert !MatchAt(a, pat, i);
        } else if i >= |a| {
          assert m == b[i - |a|..i - |a| + |pat|];
          assert !MatchAt(b, pat, i - |a|);
        } else {
          var d := |a| - i;
          assert m[0] == a[i] && a[i] in a;
          assert m[|pat| - 1] == b[i + |pat| - 1 - |a|] && b[i + |pat| - 1 - |a|] in b;
          assert m[d] == b[0] && pat[d] == pat[1..][d - 1];
        }
      }
    }
  }
}
