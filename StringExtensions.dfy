/**
 * `ReplaceDictionary` (SqlData/StringExtensions.cs) and the .NET replace-all it is built on,
 * with the facts the SQL builders need: how a replace-all treats the first occurrence of the
 * pattern, that it leaves a string without one alone, and how a sequence of replacements acts on a
 * template made of literal text and `{Placeholder}` keys.
 */
module StringExtensions {

  /** `pat` occurs in `s` starting at index `i`. */
  predicate OccursAt(s: string, pat: string, i: int)
  {
    0 <= i <= |s| && pat <= s[i..]
  }

  /**
   * `String.Replace(pat, rep)` / `StringBuilder.Replace(pat, rep)`: ordinal comparison, scanning
   * left to right; each occurrence found is replaced and the scan resumes after it, so the inserted
   * text is never rescanned. .NET throws on an empty pattern, hence the precondition.
   */
  function ReplaceAll(s: string, pat: string, rep: string): string
    requires pat != ""
    decreases |s|
  {
    if s == [] then []
    else if pat <= s then rep + ReplaceAll(s[|pat|..], pat, rep)
    else [s[0]] + ReplaceAll(s[1..], pat, rep)
  }

  /** An occurrence in the tail of a string is an occurrence one position later in the string. */
  lemma OccursAtTail(s: string, pat: string, j: nat)
    requires s != []
    ensures OccursAt(s[1..], pat, j) <==> OccursAt(s, pat, j + 1)
  {
    if j <= |s[1..]| {
      assert s[1..][j..] == s[j + 1..];
    }
  }

  /** Without an occurrence of the pattern, a replace-all returns its input. */
  lemma {:induction false} ReplaceAllNoOccurrence(s: string, pat: string, rep: string)
    requires pat != ""
    requires forall i :: !OccursAt(s, pat, i)
    ensures ReplaceAll(s, pat, rep) == s
  {
    if s != [] {
      assert !OccursAt(s, pat, 0);
      forall i ensures !OccursAt(s[1..], pat, i) {
        if i >= 0 {
          OccursAtTail(s, pat, i);
        }
      }
      ReplaceAllNoOccurrence(s[1..], pat, rep);
    }
  }

  /**
   * The first occurrence of the pattern is replaced, the text before it is kept, and the scan
   * goes on after it: every occurrence the scan meets is rewritten.
   */
  lemma {:induction false} ReplaceAllFirstOccurrence(s: string, pat: string, rep: string, i: nat)
    requires pat != ""
    requires OccursAt(s, pat, i)
    requires forall j :: 0 <= j < i ==> !OccursAt(s, pat, j)
    ensures ReplaceAll(s, pat, rep) == s[..i] + rep + ReplaceAll(s[i + |pat|..], pat, rep)
  {
    if i == 0 {
      assert pat <= s;
      assert s[..0] + rep == rep;
    } else {
      var t := s[1..];
      ReplaceAllKeepsHead(s, pat, rep);
      forall j | 0 <= j < i - 1 ensures !OccursAt(t, pat, j) {
        OccursAtTail(s, pat, j);
      }
      OccursAtTail(s, pat, i - 1);
      ReplaceAllFirstOccurrence(t, pat, rep, i - 1);
      HeadAndTail(s, i, |pat|);
      var after := ReplaceAll(s[i + |pat|..], pat, rep);
      assert [s[0]] + (t[..i - 1] + rep + after) == ([s[0]] + t[..i - 1]) + rep + after;
    }
  }

  /** Where the pattern does not start, the first character is kept and the scan moves on one. */
  lemma ReplaceAllKeepsHead(s: string, pat: string, rep: string)
    requires pat != "" && !OccursAt(s, pat, 0) && s != []
    ensures ReplaceAll(s, pat, rep) == [s[0]] + ReplaceAll(s[1..], pat, rep)
  {
    assert !(pat <= s);
  }

  lemma HeadAndTail(s: string, i: nat, n: nat)
    requires 0 < i && i + n <= |s|
    ensures s[1..][i - 1 + n..] == s[i + n..]
    ensures [s[0]] + s[1..][..i - 1] == s[..i]
  {
  }

  /** Replacing a pattern by itself changes nothing. */
  lemma {:induction false} ReplaceAllSelf(s: string, pat: string)
    requires pat != ""
    ensures ReplaceAll(s, pat, pat) == s
    decreases |s|
  {
    if s != [] {
      if pat <= s {
        var t := s[|pat|..];
        assert ReplaceAll(s, pat, pat) == pat + ReplaceAll(t, pat, pat);
        ReplaceAllSelf(t, pat);
        assert s == pat + t;
      } else {
        var t := s[1..];
        assert ReplaceAll(s, pat, pat) == [s[0]] + ReplaceAll(t, pat, pat);
        ReplaceAllSelf(t, pat);
        assert s == [s[0]] + t;
      }
    }
  }

  /**
   * A pattern that is a proper prefix of a longer `@name` is rewritten inside it too: replacing
   * `@User` in `@UserId` turns it into the replacement followed by `Id`.
   */
  lemma ReplaceAllRewritesLongerName(name: string, suffix: string, rep: string)
    ensures ReplaceAll("@" + name + suffix, "@" + name, rep) == rep + ReplaceAll(suffix, "@" + name, rep)
  {
    var s := "@" + name + suffix;
    assert ("@" + name) <= s;
    assert s[|"@" + name|..] == suffix;
  }

  /** Every key of a dictionary is non-empty, as `StringBuilder.Replace` demands. */
  predicate KeysNonEmpty(dictionary: seq<(string, string)>)
  {
    forall k :: 0 <= k < |dictionary| ==> dictionary[k].0 != ""
  }

  /** Replace-all of each entry in enumeration order, each acting on the previous step's output. */
  function ReplaceSequentially(s: string, dictionary: seq<(string, string)>): string
    requires KeysNonEmpty(dictionary)
    decreases |dictionary|
  {
    if dictionary == [] then s
    else ReplaceSequentially(ReplaceAll(s, dictionary[0].0, dictionary[0].1), dictionary[1..])
  }

  /** One more entry at the end of the dictionary is one more replace-all on the result. */
  lemma {:induction false} ReplaceSequentiallySnoc(s: string, dictionary: seq<(string, string)>, e: (string, string))
    requires KeysNonEmpty(dictionary) && e.0 != ""
    ensures KeysNonEmpty(dictionary + [e])
    ensures ReplaceSequentially(s, dictionary + [e]) == ReplaceAll(ReplaceSequentially(s, dictionary), e.0, e.1)
    decreases |dictionary|
  {
    if dictionary != [] {
      assert (dictionary + [e])[1..] == dictionary[1..] + [e];
      ReplaceSequentiallySnoc(ReplaceAll(s, dictionary[0].0, dictionary[0].1), dictionary[1..], e);
    } else {
      assert (dictionary + [e])[1..] == [];
    }
  }

  /**
   * `s.ReplaceDictionary(dictionary)`: a StringBuilder over `s` rewritten by `Replace(key, value)`
   * for each entry in turn.
   */
  method ReplaceDictionary(s: string, dictionary: seq<(string, string)>) returns (r: string)
    requires KeysNonEmpty(dictionary)
    ensures r == ReplaceSequentially(s, dictionary)
  {
    var sb := s;
    var i := 0;
    while i < |dictionary|
      invariant 0 <= i <= |dictionary|
      invariant ReplaceSequentially(sb, dictionary[i..]) == ReplaceSequentially(s, dictionary)
    {
      assert dictionary[i..][1..] == dictionary[i + 1..];
      sb := ReplaceAll(sb, dictionary[i].0, dictionary[i].1);
      i := i + 1;
    }
    r := sb;
  }

  /** An empty dictionary leaves the text unchanged. */
  lemma ReplaceDictionaryEmpty(s: string)
    ensures ReplaceSequentially(s, []) == s
  {
  }

  /**
   * A key that does not occur in the text when its turn comes leaves that step unchanged: the
   * result is that of the dictionary without the entry.
   */
  lemma ReplaceSequentiallySkipsAbsentKey(s: string, e: (string, string), rest: seq<(string, string)>)
    requires e.0 != "" && KeysNonEmpty(rest)
    requires forall i :: !OccursAt(s, e.0, i)
    ensures KeysNonEmpty([e] + rest)
    ensures ReplaceSequentially(s, [e] + rest) == ReplaceSequentially(s, rest)
  {
    ReplaceAllNoOccurrence(s, e.0, e.1);
    assert ([e] + rest)[1..] == rest;
  }

  // ---------------------------------------------------------------------------------------------
  // Templates: literal text without '{' interleaved with `{Placeholder}` keys.

  /** A placeholder key: `{`, a name with no brace in it, `}`. */
  predicate IsPlaceholder(k: string)
  {
    && |k| >= 2 && k[0] == '{' && k[|k| - 1] == '}'
    && forall i :: 0 < i < |k| - 1 ==> k[i] != '{' && k[i] != '}'
  }

  /** A template piece is a placeholder or text in which no placeholder can start. */
  predicate IsPiece(p: string)
  {
    IsPlaceholder(p) || '{' !in p
  }

  function Concat(ps: seq<string>): string
  {
    if ps == [] then "" else ps[0] + Concat(ps[1..])
  }

  /** Every piece equal to `key` replaced by `val`. */
  function Subst(ps: seq<string>, key: string, val: string): (r: seq<string>)
    ensures |r| == |ps|
  {
    seq(|ps|, i requires 0 <= i < |ps| => if ps[i] == key then val else ps[i])
  }

  /** Piece-level substitution of each entry in turn. */
  function SubstAll(ps: seq<string>, dictionary: seq<(string, string)>): (r: seq<string>)
    ensures |r| == |ps|
    decreases |dictionary|
  {
    if dictionary == [] then ps else SubstAll(Subst(ps, dictionary[0].0, dictionary[0].1), dictionary[1..])
  }

  lemma {:induction false} LeadingTextKept(a: string, rest: string, pat: string, rep: string)
    requires pat != "" && pat[0] == '{' && '{' !in a
    ensures ReplaceAll(a + rest, pat, rep) == a + ReplaceAll(rest, pat, rep)
    decreases |a|
  {
    if a != [] {
      var s := a + rest;
      assert s[0] == a[0] && a[0] in a;
      assert !(pat <= s);
      assert s[1..] == a[1..] + rest;
      assert ReplaceAll(s, pat, rep) == [a[0]] + ReplaceAll(a[1..] + rest, pat, rep);
      LeadingTextKept(a[1..], rest, pat, rep);
      assert [a[0]] + (a[1..] + ReplaceAll(rest, pat, rep)) == ([a[0]] + a[1..]) + ReplaceAll(rest, pat, rep);
      assert '{' !in a[1..] by {
        forall i | 0 <= i < |a[1..]| ensures a[1..][i] != '{' {
          assert a[1..][i] == a[i + 1] && a[i + 1] in a;
        }
      }
      assert a == [a[0]] + a[1..];
    } else {
      assert a + rest == rest;
    }
  }

  lemma LeadingKeyReplaced(pat: string, rest: string, rep: string)
    requires pat != ""
    ensures ReplaceAll(pat + rest, pat, rep) == rep + ReplaceAll(rest, pat, rep)
  {
    assert pat <= pat + rest;
    assert (pat + rest)[|pat|..] == rest;
  }

  /** Two different placeholders: the second is never a prefix of the first followed by anything. */
  lemma PlaceholderNotPrefix(p: string, pat: string, rest: string)
    requires IsPlaceholder(p) && IsPlaceholder(pat) && p != pat
    ensures !(pat <= p + rest)
  {
    if |pat| < |p| {
      assert (p + rest)[|pat| - 1] == p[|pat| - 1] != pat[|pat| - 1];
    } else if |pat| == |p| {
      assert (p + rest)[..|p|] == p;
    } else {
      assert (p + rest)[|p| - 1] == p[|p| - 1] != pat[|p| - 1];
    }
  }

  /** A placeholder other than the pattern is kept whole, and the scan resumes after it. */
  lemma LeadingPlaceholderKept(p: string, rest: string, pat: string, rep: string)
    requires IsPlaceholder(p) && IsPlaceholder(pat) && p != pat
    ensures ReplaceAll(p + rest, pat, rep) == p + ReplaceAll(rest, pat, rep)
  {
    PlaceholderNotPrefix(p, pat, rest);
    assert p + rest == [p[0]] + (p[1..] + rest);
    assert '{' !in p[1..] by {
      forall i | 0 <= i < |p[1..]| ensures p[1..][i] != '{' {
        assert p[1..][i] == p[i + 1];
      }
    }
    LeadingTextKept(p[1..], rest, pat, rep);
    assert p == [p[0]] + p[1..];
  }

  /** Substitution on a non-empty list: the first piece, then the rest. */
  lemma SubstCons(ps: seq<string>, pat: string, rep: string)
    requires ps != []
    ensures Subst(ps, pat, rep)[0] == if ps[0] == pat then rep else ps[0]
    ensures Subst(ps, pat, rep)[1..] == Subst(ps[1..], pat, rep)
  {
  }

  /** A replace-all of a placeholder over a template acts piece by piece. */
  lemma {:induction false} ReplaceAllTemplate(ps: seq<string>, pat: string, rep: string)
    requires IsPlaceholder(pat)
    requires forall i :: 0 <= i < |ps| ==> IsPiece(ps[i])
    ensures ReplaceAll(Concat(ps), pat, rep) == Concat(Subst(ps, pat, rep))
  {
    if ps != [] {
      var p, rest := ps[0], Concat(ps[1..]);
      assert Concat(ps) == p + rest;
      ReplaceAllTemplate(ps[1..], pat, rep);
      SubstCons(ps, pat, rep);
      var tail := ReplaceAll(rest, pat, rep);
      assert Concat(Subst(ps, pat, rep)) == (if p == pat then rep else p) + tail;
      if p == pat {
        LeadingKeyReplaced(pat, rest, rep);
      } else if '{' !in p {
        LeadingTextKept(p, rest, pat, rep);
      } else {
        LeadingPlaceholderKept(p, rest, pat, rep);
      }
    }
  }

  /** Every key a placeholder and every value a piece: a dictionary that keeps templates templates. */
  predicate TemplateDictionary(dictionary: seq<(string, string)>)
  {
    forall k :: 0 <= k < |dictionary| ==> IsPlaceholder(dictionary[k].0) && IsPiece(dictionary[k].1)
  }

  /**
   * Sequential replacement over a template is sequential substitution of its pieces: each key is
   * replaced wherever it stands as a piece, including where an earlier value put it.
   */
  lemma {:induction false} ReplaceSequentiallyTemplate(ps: seq<string>, dictionary: seq<(string, string)>)
    requires TemplateDictionary(dictionary)
    requires forall i :: 0 <= i < |ps| ==> IsPiece(ps[i])
    ensures KeysNonEmpty(dictionary)
    ensures ReplaceSequentially(Concat(ps), dictionary) == Concat(SubstAll(ps, dictionary))
    decreases |dictionary|
  {
    if dictionary != [] {
      var e := dictionary[0];
      ReplaceAllTemplate(ps, e.0, e.1);
      ReplaceSequentiallyTemplate(Subst(ps, e.0, e.1), dictionary[1..]);
    }
  }

  /** Text in which no template key can start. */
  predicate NoBrace(s: string)
  {
    '{' !in s
  }

  lemma ConcatAppend(a: seq<string>, b: seq<string>)
    ensures Concat(a + b) == Concat(a) + Concat(b)
  {
    if a == [] {
      assert a + b == b;
    } else {
      assert (a + b)[1..] == a[1..] + b;
      ConcatAppend(a[1..], b);
    }
  }

  /** Appending a run of five strings at once or one at a time gives the same text. */
  lemma AppendFive(x: string, a: string, b: string, c: string, d: string, e: string)
    ensures x + (a + b + c + d + e) == x + a + b + c + d + e
  {
  }

  lemma NoBraceIsPiece(s: string)
    requires NoBrace(s)
    ensures IsPiece(s) && !IsPlaceholder(s)
  {
    if |s| > 0 {
      assert s[0] in s;
    }
  }

  /** Text without a brace is none of the template keys. */
  lemma NoBraceNotKey(s: string, key: string)
    requires NoBrace(s) && |key| > 0 && key[0] == '{'
    ensures s != key
  {
    assert key[0] in key;
  }

  lemma SubstAllTwo(ps: seq<string>, e1: (string, string), e2: (string, string))
    ensures SubstAll(ps, [e1, e2]) == Subst(Subst(ps, e1.0, e1.1), e2.0, e2.1)
  {
    var d := [e1, e2];
    assert d[1..] == [e2];
    assert [e2][1..] == [];
    calc {
      SubstAll(ps, d);
      SubstAll(Subst(ps, e1.0, e1.1), [e2]);
      SubstAll(Subst(Subst(ps, e1.0, e1.1), e2.0, e2.1), []);
    }
  }

  lemma ConcatFive(a: string, b: string, c: string, d: string, e: string)
    ensures Concat([a, b, c, d, e]) == a + b + c + d + e
  {
    var p5, p4, p3, p2, p1 := [a, b, c, d, e], [b, c, d, e], [c, d, e], [d, e], [e];
    assert p5[1..] == p4 && p4[1..] == p3 && p3[1..] == p2 && p2[1..] == p1 && p1[1..] == [];
    assert Concat(p1) == e;
    assert Concat(p2) == d + e;
    assert Concat(p3) == c + (d + e);
    assert Concat(p4) == b + (c + (d + e));
  }
}
