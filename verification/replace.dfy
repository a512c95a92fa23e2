/**
 `String.prototype.replace(searchValue, replaceValue)` with a string
 `searchValue` and a string `replaceValue` (section 22.1.3.19 of ECMA-262,
 2024 edition): only the leftmost occurrence is replaced, and the replacement
 text goes through GetSubstitution (section 22.1.3.19.1).
 */
module Replace {
  import opened Wrappers
  import opened Strings

  /**
   GetSubstitution with no capture groups: `$$` gives `$`, `` $` `` the text
   before the match, `$&` the match and `$'` the text after it. `$n` and `$<`
   name captures that a string pattern never has, so they stay literal, which
   is what copying the `$` alone and carrying on gives too.
   */
  function Substitution(template: string, matched: string, str: string, position: nat): (r: string)
    requires position + |matched| <= |str|
    decreases |template|
    ensures '$' !in template ==> r == template
  {
    if |template| == 0 then ""
    else if template[0] == '$' && |template| >= 2 && template[1] == '$' then
      "$" + Substitution(template[2..], matched, str, position)
    else if template[0] == '$' && |template| >= 2 && template[1] == '`' then
      str[..position] + Substitution(template[2..], matched, str, position)
    else if template[0] == '$' && |template| >= 2 && template[1] == '&' then
      matched + Substitution(template[2..], matched, str, position)
    else if template[0] == '$' && |template| >= 2 && template[1] == '\'' then
      str[position + |matched|..] + Substitution(template[2..], matched, str, position)
    else
      [template[0]] + Substitution(template[1..], matched, str, position)
  }

  /** `s.replace(pat, rep)`. */
  function ReplaceFirst(s: string, pat: string, rep: string): (r: string)
    ensures !Occurs(s, pat) ==> r == s
  {
    match IndexOf(s, pat)
    case None => s
    case Some(p) => s[..p] + Substitution(rep, pat, s, p) + s[p + |pat|..]
  }

  /**
   A pattern whose first character appears nowhere else in it (both
   placeholder tokens are of this kind) cannot overlap a copy of itself.
   */
  predicate Unbordered(pat: string) {
    |pat| > 0 && pat[0] !in pat[1..]
  }

  /** In `a + pat + b` with no `pat` inside `a`, the first match is the one right after `a`. */
  lemma FirstMatchAfter(a: string, pat: string, b: string)
    requires Unbordered(pat)
    requires !Occurs(a, pat)
    ensures IsFirstMatch(a + pat + b, pat, |a|)
  {
    var s := a + pat + b;
    assert s[|a|..|a| + |pat|] == pat;
    forall i: nat | i < |a|
      ensures !MatchesAt(s, pat, i)
    {
      if i + |pat| <= |a| {
        assert a[i..i + |pat|] == s[i..i + |pat|];
        assert !MatchesAt(a, pat, i);
      }
    }
  }

  /**
   Replacing in `a + pat + b`, where `a` holds no `pat`, splices the expanded
   replacement between `a` and `b`; any later `pat` inside `b` is left alone.
   */
  lemma ReplaceFirstSplices(a: string, pat: string, b: string, rep: string)
    requires Unbordered(pat)
    requires !Occurs(a, pat)
    ensures ReplaceFirst(a + pat + b, pat, rep) == a + Substitution(rep, pat, a + pat + b, |a|) + b
  {
    var s := a + pat + b;
    FirstMatchAfter(a, pat, b);
    IndexOfFindsFirstMatch(s, pat, |a|);
    assert s[..|a|] == a;
    assert s[|a| + |pat|..] == b;
  }

  /** With no `$` in the replacement, the splice is literal. */
  lemma ReplaceFirstLiteral(a: string, pat: string, b: string, rep: string)
    requires Unbordered(pat)
    requires !Occurs(a, pat)
    requires '$' !in rep
    ensures ReplaceFirst(a + pat + b, pat, rep) == a + rep + b
  {
    ReplaceFirstSplices(a, pat, b, rep);
  }

  /** Shifting a match past a prefix keeps it a match, and no other match is gained. */
  lemma MatchesAtShift(a: string, s: string, pat: string, i: nat)
    ensures MatchesAt(a + s, pat, |a| + i) <==> MatchesAt(s, pat, i)
  {
    if i + |pat| <= |s| {
      assert (a + s)[|a| + i..|a| + i + |pat|] == s[i..i + |pat|];
    }
  }

  /** A prefix without the pattern's first character holds no match start. */
  lemma NoMatchInPrefix(a: string, s: string, pat: string, i: nat)
    requires |pat| > 0
    requires pat[0] !in a
    requires i < |a|
    ensures !MatchesAt(a + s, pat, i)
  {
  }

  /** A string without the pattern's first character does not contain the pattern. */
  lemma NoMatchWithoutFirstChar(a: string, pat: string)
    requires |pat| > 0
    requires pat[0] !in a
    ensures !Occurs(a, pat)
  {
  }

  /** Searching `a + s` finds the match of `s`, shifted by `|a|`. */
  lemma IndexOfBehindPrefix(a: string, s: string, pat: string)
    requires |pat| > 0
    requires pat[0] !in a
    ensures IndexOf(a + s, pat) == (if IndexOf(s, pat).Some? then Some(|a| + IndexOf(s, pat).value) else None)
  {
    var t := a + s;
    match IndexOf(s, pat)
    case None =>
      forall j: nat | j <= |t|
        ensures !MatchesAt(t, pat, j)
      {
        if j < |a| {
          NoMatchInPrefix(a, s, pat, j);
        } else {
          MatchesAtShift(a, s, pat, j - |a|);
        }
      }
    case Some(p) =>
      MatchesAtShift(a, s, pat, p);
      forall i: nat | i < |a| + p
        ensures !MatchesAt(t, pat, i)
      {
        if i < |a| {
          NoMatchInPrefix(a, s, pat, i);
        } else {
          MatchesAtShift(a, s, pat, i - |a|);
        }
      }
      IndexOfFindsFirstMatch(t, pat, |a| + p);
  }

  /** With no `$` in the replacement, replacing at a known first match is a literal splice. */
  lemma ReplaceFirstAt(s: string, pat: string, rep: string, p: nat)
    requires IndexOf(s, pat) == Some(p)
    requires '$' !in rep
    ensures ReplaceFirst(s, pat, rep) == s[..p] + rep + s[p + |pat|..]
  {
  }

  lemma SpliceBehindPrefix(a: string, s: string, pat: string, rep: string, p: nat)
    requires p + |pat| <= |s|
    ensures (a + s)[..|a| + p] + rep + (a + s)[|a| + p + |pat|..] == a + (s[..p] + rep + s[p + |pat|..])
  {
    assert (a + s)[..|a| + p] == a + s[..p];
    assert (a + s)[|a| + p + |pat|..] == s[p + |pat|..];
  }

  /**
   A prefix that does not contain the pattern's first character is neither
   searched into nor changed: replacement acts on the rest only.
   */
  lemma ReplaceFirstBehindPrefix(a: string, s: string, pat: string, rep: string)
    requires |pat| > 0
    requires pat[0] !in a
    requires '$' !in rep
    ensures ReplaceFirst(a + s, pat, rep) == a + ReplaceFirst(s, pat, rep)
  {
    IndexOfBehindPrefix(a, s, pat);
    var r := IndexOf(s, pat);
    if r.Some? {
      var p := r.value;
      calc {
        ReplaceFirst(a + s, pat, rep);
        { ReplaceFirstAt(a + s, pat, rep, |a| + p); }
        (a + s)[..|a| + p] + rep + (a + s)[|a| + p + |pat|..];
        { SpliceBehindPrefix(a, s, pat, rep, p); }
        a + (s[..p] + rep + s[p + |pat|..]);
        { ReplaceFirstAt(s, pat, rep, p); }
        a + ReplaceFirst(s, pat, rep);
      }
    }
  }

  /** A first character other than `$` is copied, and substitution carries on after it. */
  lemma SubstitutionPlainHead(c: char, rest: string, matched: string, str: string, position: nat)
    requires position + |matched| <= |str|
    requires c != '$'
    ensures Substitution([c] + rest, matched, str, position) == [c] + Substitution(rest, matched, str, position)
  {
    var t := [c] + rest;
    assert t[0] == c && t[1..] == rest;
  }

  /** Text without `$` at the front of a replacement is copied as it is. */
  lemma {:induction false} SubstitutionPlainPrefix(x: string, t: string, matched: string, str: string, position: nat)
    requires position + |matched| <= |str|
    requires '$' !in x
    ensures Substitution(x + t, matched, str, position) == x + Substitution(t, matched, str, position)
  {
    if |x| > 0 {
      var rest := Substitution(t, matched, str, position);
      assert x + t == [x[0]] + (x[1..] + t);
      assert '$' !in x[1..];
      calc {
        Substitution(x + t, matched, str, position);
        { SubstitutionPlainHead(x[0], x[1..] + t, matched, str, position); }
        [x[0]] + Substitution(x[1..] + t, matched, str, position);
        { SubstitutionPlainPrefix(x[1..], t, matched, str, position); }
        [x[0]] + (x[1..] + rest);
        { assert x == [x[0]] + x[1..]; }
        x + rest;
      }
    } else {
      assert x + t == t;
    }
  }

  lemma SubstitutionOfMatch(y: string, matched: string, str: string, position: nat)
    requires position + |matched| <= |str|
    requires '$' !in y
    ensures Substitution("$&" + y, matched, str, position) == matched + y
  {
    var t := "$&" + y;
    assert t[0] == '$' && t[1] == '&' && t[2..] == y;
  }

  lemma SubstitutionReinsertsMatch(x: string, y: string, matched: string, str: string, position: nat)
    requires position + |matched| <= |str|
    requires '$' !in x && '$' !in y
    ensures Substitution(x + "$&" + y, matched, str, position) == x + matched + y
  {
    assert x + "$&" + y == x + ("$&" + y);
    SubstitutionPlainPrefix(x, "$&" + y, matched, str, position);
    SubstitutionOfMatch(y, matched, str, position);
  }

  /**
   `$&` in the replacement re-inserts the matched text: replacing `{user}` by
   `x$&y` splices `x{user}y`, not the literal `x$&y`.
   */
  lemma DollarAmpersandReinsertsMatch(a: string, pat: string, b: string, x: string, y: string)
    requires Unbordered(pat)
    requires !Occurs(a, pat)
    requires '$' !in x && '$' !in y
    ensures ReplaceFirst(a + pat + b, pat, x + "$&" + y) == a + (x + pat + y) + b
  {
    var s := a + pat + b;
    ReplaceFirstSplices(a, pat, b, x + "$&" + y);
    SubstitutionReinsertsMatch(x, y, pat, s, |a|);
  }

  /** `$$` gives one `$`, `` $` `` the text before the match and `$'` the text after it. */
  lemma SubstitutionOfDollarPatterns(y: string, matched: string, str: string, position: nat)
    requires position + |matched| <= |str|
    requires '$' !in y
    ensures Substitution("$$" + y, matched, str, position) == "$" + y
    ensures Substitution("$`" + y, matched, str, position) == str[..position] + y
    ensures Substitution("$'" + y, matched, str, position) == str[position + |matched|..] + y
  {
    var d, g, q := "$$" + y, "$`" + y, "$'" + y;
    assert d[0] == '$' && d[1] == '$' && d[2..] == y;
    assert g[0] == '$' && g[1] == '`' && g[2..] == y;
    assert q[0] == '$' && q[1] == '\'' && q[2..] == y;
  }

  /**
   The other three substitution patterns, spliced in place of the first match
   of `pat` in `a + pat + b`: `$$` inserts a single `$`, `` $` `` inserts a
   copy of `a` and `$'` inserts a copy of `b`.
   */
  lemma DollarPatternsExpand(a: string, pat: string, b: string, y: string)
    requires Unbordered(pat)
    requires !Occurs(a, pat)
    requires '$' !in y
    ensures ReplaceFirst(a + pat + b, pat, "$$" + y) == a + ("$" + y) + b
    ensures ReplaceFirst(a + pat + b, pat, "$`" + y) == a + (a + y) + b
    ensures ReplaceFirst(a + pat + b, pat, "$'" + y) == a + (b + y) + b
  {
    var s := a + pat + b;
    assert s[..|a|] == a;
    assert s[|a| + |pat|..] == b;
    SubstitutionOfDollarPatterns(y, pat, s, |a|);
    ReplaceFirstSplices(a, pat, b, "$$" + y);
    ReplaceFirstSplices(a, pat, b, "$`" + y);
    ReplaceFirstSplices(a, pat, b, "$'" + y);
  }

  /**
   A `$` that starts none of `$$`, `` $` ``, `$&` or `$'` (a `$5` or `$<`
   naming a capture a string pattern never has, or a `$` at the very end) is
   kept as it is.
   */
  lemma SubstitutionKeepsLoneDollar(c: char, y: string, matched: string, str: string, position: nat)
    requires position + |matched| <= |str|
    requires '$' !in y
    ensures c !in "$`&'" ==> Substitution(['$', c] + y, matched, str, position) == ['$', c] + y
    ensures Substitution("$", matched, str, position) == "$"
  {
    var t := ['$', c] + y;
    assert t[1..] == [c] + y && t[2..] == y;
    assert '$' !in [c] + y <== c != '$';
    assert "$"[1..] == "";
  }
}
