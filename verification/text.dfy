/** String operations of the JavaScript runtime that the watcher relies on:
    `includes`, `replace` with a string pattern (first occurrence), global
    `replace`/`replaceAll` (every occurrence, optionally ASCII case-insensitive),
    `split` on one character, and the backslash doubling that turns a Windows
    path into the source text of a regular expression. */
module Text {

  datatype Option<+T> = None | Some(value: T)

  /** ASCII case folding: the model's reading of the `i` flag of a regular expression. */
  function Lower(c: char): char
  {
    if 'A' <= c <= 'Z' then (c as int + 32) as char else c
  }

  predicate SameChar(a: char, b: char, ignoreCase: bool)
  {
    a == b || (ignoreCase && Lower(a) == Lower(b))
  }

  /** `pat` occurs in `s` starting at index `i`. */
  predicate MatchAt(s: string, i: int, pat: string, ignoreCase: bool)
  {
    0 <= i && i + |pat| <= |s| &&
    forall j | 0 <= j < |pat| :: SameChar(s[i + j], pat[j], ignoreCase)
  }

  /** `pat` occurs somewhere in `s`. */
  predicate Occurs(pat: string, s: string, ignoreCase: bool)
  {
    exists i | 0 <= i <= |s| - |pat| :: MatchAt(s, i, pat, ignoreCase)
  }

  /** `s.includes(t)`: a case-sensitive substring test. */
  predicate Contains(s: string, t: string)
  {
    Occurs(t, s, false)
  }

  /** A global replace of the literal `pat` by `rep`, scanning left to right and
      resuming after each replaced occurrence. An empty pattern matches before
      every character and at the end, as an empty regular expression does. */
  function ReplaceAll(s: string, pat: string, rep: string, ignoreCase: bool): string
    decreases |s|
  {
    if pat == [] then
      (if s == [] then rep else rep + [s[0]] + ReplaceAll(s[1..], pat, rep, ignoreCase))
    else if s == [] then []
    else if MatchAt(s, 0, pat, ignoreCase) then rep + ReplaceAll(s[|pat|..], pat, rep, ignoreCase)
    else [s[0]] + ReplaceAll(s[1..], pat, rep, ignoreCase)
  }

  /** `s.replace(pat, rep)` with a string pattern: only the first occurrence,
      case-sensitive; an empty pattern inserts `rep` at the front. */
  function ReplaceFirst(s: string, pat: string, rep: string): string
    decreases |s|
  {
    if MatchAt(s, 0, pat, false) then rep + s[|pat|..]
    else if s == [] then s
    else [s[0]] + ReplaceFirst(s[1..], pat, rep)
  }

  /** `s.replaceAll('\\', '\\\\')`: doubles every backslash. */
  function Escape(s: string): string
  {
    ReplaceAll(s, "\\", "\\\\", false)
  }

  /** `s.replaceAll('\\\\', '\\')`: collapses each pair of backslashes. It is also
      the text a regular expression built from `s` matches, as long as `s` has no
      regular-expression syntax other than doubled backslashes. */
  function Unescape(s: string): string
  {
    ReplaceAll(s, "\\\\", "\\", false)
  }

  /** `s.split(sep)` for a one-character separator. */
  function Split(s: string, sep: char): (fields: seq<string>)
    ensures |fields| >= 1
  {
    if s == [] then [""]
    else if s[0] == sep then [""] + Split(s[1..], sep)
    else
      var rest := Split(s[1..], sep);
      [[s[0]] + rest[0]] + rest[1..]
  }

  // ---------------------------------------------------------------------------
  // Lemmas

  lemma MatchAtShift(s: string, k: int, i: int, pat: string, ignoreCase: bool)
    requires 0 <= k <= |s| && 0 <= i
    ensures MatchAt(s[k..], i, pat, ignoreCase) <==> MatchAt(s, i + k, pat, ignoreCase)
  {
    if i + |pat| <= |s| - k {
      if MatchAt(s[k..], i, pat, ignoreCase) {
        forall j | 0 <= j < |pat| ensures SameChar(s[i + k + j], pat[j], ignoreCase) {
          assert s[k..][i + j] == s[i + k + j];
        }
      }
      if MatchAt(s, i + k, pat, ignoreCase) {
        forall j | 0 <= j < |pat| ensures SameChar(s[k..][i + j], pat[j], ignoreCase) {
          assert s[k..][i + j] == s[i + k + j];
        }
      }
    }
  }

  /** A string in which the pattern does not occur is left unchanged. */
  lemma {:induction false} ReplaceAllAbsent(s: string, pat: string, rep: string, ignoreCase: bool)
    requires |pat| > 0 && !Occurs(pat, s, ignoreCase)
    ensures ReplaceAll(s, pat, rep, ignoreCase) == s
    decreases |s|
  {
    if s != [] {
      assert !MatchAt(s, 0, pat, ignoreCase);
      forall i | 0 <= i <= |s[1..]| - |pat| ensures !MatchAt(s[1..], i, pat, ignoreCase) {
        MatchAtShift(s, 1, i, pat, ignoreCase);
      }
      ReplaceAllAbsent(s[1..], pat, rep, ignoreCase);
    }
  }

  /** A pattern never occurs in a string shorter than itself. */
  lemma ShortHasNoOccurrence(s: string, pat: string, ignoreCase: bool)
    requires |s| < |pat|
    ensures !Occurs(pat, s, ignoreCase)
  {
  }

  /** A prefix none of whose characters can start the pattern is copied through. */
  lemma {:induction false} ReplaceAllPlainPrefix(a: string, b: string, pat: string, rep: string, ignoreCase: bool)
    requires |pat| > 0
    requires forall i | 0 <= i < |a| :: !SameChar(a[i], pat[0], ignoreCase)
    ensures ReplaceAll(a + b, pat, rep, ignoreCase) == a + ReplaceAll(b, pat, rep, ignoreCase)
    decreases |a|
  {
    if a != [] {
      var s := a + b;
      assert !MatchAt(s, 0, pat, ignoreCase) by { assert !SameChar(s[0 + 0], pat[0], ignoreCase); }
      assert s[1..] == a[1..] + b;
      ReplaceAllPlainPrefix(a[1..], b, pat, rep, ignoreCase);
      calc {
        ReplaceAll(s, pat, rep, ignoreCase);
        [s[0]] + ReplaceAll(s[1..], pat, rep, ignoreCase);
        [a[0]] + (a[1..] + ReplaceAll(b, pat, rep, ignoreCase));
        { assert [a[0]] + a[1..] == a; }
        a + ReplaceAll(b, pat, rep, ignoreCase);
      }
    } else {
      assert a + b == b;
    }
  }

  /** An occurrence at the front is replaced and the scan resumes after it. */
  lemma ReplaceAllLeading(a: string, b: string, pat: string, rep: string, ignoreCase: bool)
    requires |pat| > 0 && |a| == |pat| && MatchAt(a, 0, pat, ignoreCase)
    ensures ReplaceAll(a + b, pat, rep, ignoreCase) == rep + ReplaceAll(b, pat, rep, ignoreCase)
  {
    var s := a + b;
    assert MatchAt(s, 0, pat, ignoreCase) by {
      forall j | 0 <= j < |pat| ensures s[j] == a[j] { }
    }
    assert s[|pat|..] == b;
  }

  /** Every pattern matches itself, in either mode. */
  lemma MatchesItself(pat: string, ignoreCase: bool)
    ensures MatchAt(pat, 0, pat, ignoreCase)
  {
  }

  /** Replacing the text of the pattern at the front of a string and nothing after it. */
  lemma ReplaceAllOnlyLeading(pat: string, rest: string, rep: string, ignoreCase: bool)
    requires |pat| > 0 && !Occurs(pat, rest, ignoreCase)
    ensures ReplaceAll(pat + rest, pat, rep, ignoreCase) == rep + rest
  {
    MatchesItself(pat, ignoreCase);
    ReplaceAllLeading(pat, rest, pat, rep, ignoreCase);
    ReplaceAllAbsent(rest, pat, rep, ignoreCase);
  }

  /** Replacing one character by another leaves none of the first. */
  lemma {:induction false} ReplaceAllCharGone(s: string, c: char, d: char)
    requires c != d
    ensures c !in ReplaceAll(s, [c], [d], false)
    decreases |s|
  {
    if s != [] {
      ReplaceAllCharGone(s[1..], c, d);
    }
  }

  /** Replacing never brings in a character that neither the text nor the replacement holds. */
  lemma {:induction false} ReplaceAllKeepsAbsentChar(s: string, pat: string, rep: string, ignoreCase: bool, c: char)
    requires c !in s && c !in rep
    ensures c !in ReplaceAll(s, pat, rep, ignoreCase)
    decreases |s|
  {
    if s != [] {
      if pat != [] && MatchAt(s, 0, pat, ignoreCase) {
        assert forall k | 0 <= k < |s[|pat|..]| :: s[|pat|..][k] in s;
        ReplaceAllKeepsAbsentChar(s[|pat|..], pat, rep, ignoreCase, c);
      } else {
        assert forall k | 0 <= k < |s[1..]| :: s[1..][k] in s;
        ReplaceAllKeepsAbsentChar(s[1..], pat, rep, ignoreCase, c);
      }
    }
  }

  lemma EscapeCons(c: string)
    requires c != []
    ensures Escape(c) == (if c[0] == '\\' then "\\\\" else [c[0]]) + Escape(c[1..])
  {
    if c[0] == '\\' {
      assert MatchAt(c, 0, "\\", false);
      assert c[|"\\"|..] == c[1..];
    } else {
      assert !SameChar(c[0 + 0], "\\"[0], false);
      assert !MatchAt(c, 0, "\\", false);
    }
  }

  /** Collapsing the doubled backslashes of an escaped path gives the path back. */
  lemma {:induction false} UnescapeEscape(c: string, rest: string)
    ensures Unescape(Escape(c) + rest) == c + Unescape(rest)
    decreases |c|
  {
    if c == [] {
      assert Escape(c) == [];
      assert Escape(c) + rest == rest;
    } else {
      EscapeCons(c);
      var s := Escape(c) + rest;
      if c[0] == '\\' {
        assert s == "\\\\" + (Escape(c[1..]) + rest);
        ReplaceAllLeading("\\\\", Escape(c[1..]) + rest, "\\\\", "\\", false);
      } else {
        assert s == [c[0]] + (Escape(c[1..]) + rest);
        ReplaceAllPlainPrefix([c[0]], Escape(c[1..]) + rest, "\\\\", "\\", false);
      }
      UnescapeEscape(c[1..], rest);
    }
  }

  /** A string without a backslash is its own unescaping. */
  lemma UnescapePlain(a: string)
    requires '\\' !in a
    ensures Unescape(a) == a
  {
    ReplaceAllPlainPrefix(a, [], "\\\\", "\\", false);
    assert a + [] == a;
  }

  /** Unescaping a doubled backslash that follows a backslash-free prefix. */
  lemma UnescapeDoubled(a: string, b: string)
    requires '\\' !in a
    ensures Unescape(a + "\\\\" + b) == a + "\\" + Unescape(b)
  {
    assert a + "\\\\" + b == a + ("\\\\" + b);
    ReplaceAllPlainPrefix(a, "\\\\" + b, "\\\\", "\\", false);
    ReplaceAllLeading("\\\\", b, "\\\\", "\\", false);
  }

  /** The regular expression `Escape(root) + '\\\\' + name` matches exactly `root + '\' + name`. */
  lemma UnescapeJoin(root: string, name: string)
    requires '\\' !in name
    ensures Unescape(Escape(root) + "\\\\" + name) == root + "\\" + name
  {
    assert Escape(root) + "\\\\" + name == Escape(root) + ("\\\\" + name);
    UnescapeEscape(root, "\\\\" + name);
    UnescapeDoubled([], name);
    assert [] + "\\\\" + name == "\\\\" + name;
    UnescapePlain(name);
  }

  /** Escaping then unescaping is the identity. */
  lemma EscapeRoundTrip(c: string)
    ensures Unescape(Escape(c)) == c
  {
    UnescapeEscape(c, []);
    assert Escape(c) + [] == Escape(c);
  }

  /** `replace` with a string pattern substitutes the first occurrence. */
  lemma {:induction false} ReplaceFirstAt(a: string, pat: string, rep: string, b: string)
    requires |pat| > 0 && pat[0] !in a
    ensures ReplaceFirst(a + pat + b, pat, rep) == a + rep + b
    decreases |a|
  {
    var s := a + pat + b;
    if a == [] {
      assert s == pat + b;
      assert MatchAt(s, 0, pat, false);
      assert s[|pat|..] == b;
    } else {
      assert !MatchAt(s, 0, pat, false) by { assert s[0] == a[0]; }
      assert s[1..] == a[1..] + pat + b;
      ReplaceFirstAt(a[1..], pat, rep, b);
    }
  }

  /** `replace` leaves a string without an occurrence of the pattern unchanged. */
  lemma {:induction false} ReplaceFirstAbsent(s: string, pat: string, rep: string)
    requires !Occurs(pat, s, false)
    ensures ReplaceFirst(s, pat, rep) == s
    decreases |s|
  {
    if s != [] {
      assert !MatchAt(s, 0, pat, false);
      forall i | 0 <= i <= |s[1..]| - |pat| ensures !MatchAt(s[1..], i, pat, false) {
        MatchAtShift(s, 1, i, pat, false);
      }
      ReplaceFirstAbsent(s[1..], pat, rep);
    }
  }

  /** A string without the separator is a single field. */
  lemma {:induction false} SplitPlain(a: string, sep: char)
    requires sep !in a
    ensures Split(a, sep) == [a]
    decreases |a|
  {
    if a != [] {
      SplitPlain(a[1..], sep);
      assert [a[0]] + a[1..] == a;
    }
  }

  /** The text before the first separator is the first field. */
  lemma {:induction false} SplitAt(a: string, sep: char, b: string)
    requires sep !in a
    ensures Split(a + [sep] + b, sep) == [a] + Split(b, sep)
    decreases |a|
  {
    var s := a + [sep] + b;
    if a == [] {
      assert s[1..] == b;
    } else {
      assert s[1..] == a[1..] + [sep] + b;
      SplitAt(a[1..], sep, b);
      assert [a[0]] + a[1..] == a;
    }
  }

  /** A case-sensitive match is an equal slice. */
  lemma MatchAtSlice(s: string, i: int, pat: string)
    requires 0 <= i && i + |pat| <= |s|
    ensures MatchAt(s, i, pat, false) <==> s[i..i + |pat|] == pat
  {
    if MatchAt(s, i, pat, false) {
      forall j | 0 <= j < |pat| ensures s[i..i + |pat|][j] == pat[j] {
        assert SameChar(s[i + j], pat[j], false);
      }
    }
  }

  /** A concatenated pattern matches where its two parts match one after the other. */
  lemma MatchAtAppend(s: string, i: int, x: string, y: string, ignoreCase: bool)
    ensures MatchAt(s, i, x + y, ignoreCase) <==> MatchAt(s, i, x, ignoreCase) && MatchAt(s, i + |x|, y, ignoreCase)
  {
    if MatchAt(s, i, x + y, ignoreCase) {
      forall j | 0 <= j < |x| ensures SameChar(s[i + j], x[j], ignoreCase) {
        assert (x + y)[j] == x[j];
      }
      forall j | 0 <= j < |y| ensures SameChar(s[i + |x| + j], y[j], ignoreCase) {
        assert (x + y)[|x| + j] == y[j];
        assert SameChar(s[i + (|x| + j)], (x + y)[|x| + j], ignoreCase);
      }
    }
    if MatchAt(s, i, x, ignoreCase) && MatchAt(s, i + |x|, y, ignoreCase) {
      forall j | 0 <= j < |x + y| ensures SameChar(s[i + j], (x + y)[j], ignoreCase) {
        if j < |x| {
        } else {
          assert SameChar(s[i + |x| + (j - |x|)], y[j - |x|], ignoreCase);
        }
      }
    }
  }
}
