/** Python's built-in string operations used by the sdu helpers, with the
    semantics CPython gives them: `str.strip()` with no argument, `str.replace`
    (every occurrence, non-overlapping, left to right), `str.split(sep)` with
    a one-character separator and `sep.join(parts)`. */
module PyStrings {

  /** The characters for which `str.isspace()` is true, i.e. what a bare
      `str.strip()` removes. */
  predicate IsSpace(c: char) {
    c == ' ' || ('\t' <= c <= '\r') || ('\U{1c}' <= c <= '\U{1f}')
    || c == '\U{85}' || c == '\U{a0}' || c == '\U{1680}'
    || ('\U{2000}' <= c <= '\U{200a}') || c == '\U{2028}' || c == '\U{2029}'
    || c == '\U{202f}' || c == '\U{205f}' || c == '\U{3000}'
  }

  /** `s.lstrip()`: drops the leading whitespace and nothing else. */
  function StripStart(s: string): (r: string)
    ensures |r| <= |s| && r == s[|s| - |r|..]
    ensures forall i :: 0 <= i < |s| - |r| ==> IsSpace(s[i])
    ensures r != [] ==> !IsSpace(r[0])
    decreases |s|
  {
    if s != [] && IsSpace(s[0]) then StripStart(s[1..]) else s
  }

  /** `s.rstrip()`: drops the trailing whitespace and nothing else. */
  function StripEnd(s: string): (r: string)
    ensures |r| <= |s| && r == s[..|r|]
    ensures forall i :: |r| <= i < |s| ==> IsSpace(s[i])
    ensures r != [] ==> !IsSpace(r[|r| - 1])
    decreases |s|
  {
    if s != [] && IsSpace(s[|s| - 1]) then StripEnd(s[..|s| - 1]) else s
  }

  /** `s.strip()`: whitespace cut off on both sides. */
  function Strip(s: string): (r: string)
    ensures |r| <= |s|
    ensures r != [] ==> !IsSpace(r[0]) && !IsSpace(r[|r| - 1])
  {
    StripEnd(StripStart(s))
  }

  /** `Strip(s)` is the infix of `s` after the leading whitespace that
      `StripStart` cuts off; everything cut off on either side is
      whitespace. */
  lemma StripInfix(s: string)
    ensures |s| - |StripStart(s)| + |Strip(s)| <= |s|
    ensures s[|s| - |StripStart(s)|..][..|Strip(s)|] == Strip(s)
    ensures forall k :: 0 <= k < |s| - |StripStart(s)| ==> IsSpace(s[k])
    ensures forall k :: |s| - |StripStart(s)| + |Strip(s)| <= k < |s| ==> IsSpace(s[k])
  {
    var t := StripStart(s);
    assert t == s[|s| - |t|..];
    assert forall k :: |s| - |t| + |Strip(s)| <= k < |s| ==> s[k] == t[k - (|s| - |t|)];
  }

  lemma {:induction false} StripStartFixed(s: string)
    requires s == [] || !IsSpace(s[0])
    ensures StripStart(s) == s
  {
  }

  lemma {:induction false} StripEndFixed(s: string)
    requires s == [] || !IsSpace(s[|s| - 1])
    ensures StripEnd(s) == s
  {
  }

  /** Stripping twice is stripping once. */
  lemma StripIdempotent(s: string)
    ensures Strip(Strip(s)) == Strip(s)
  {
    var r := Strip(s);
    StripStartFixed(r);
    StripEndFixed(r);
  }

  /** `sub in s` for strings. */
  predicate Occurs(sub: string, s: string) {
    exists i :: 0 <= i <= |s| && sub <= s[i..]
  }

  /** `s.replace(pat, rep)`: scans left to right, replacing each occurrence of
      `pat` and resuming after it. An empty `pat` matches before every
      character and at the end, as in Python (`"ab".replace("", "-") == "-a-b-"`). */
  function Replace(s: string, pat: string, rep: string): string
    decreases |s|
  {
    if |pat| == 0 then
      if s == [] then rep else rep + [s[0]] + Replace(s[1..], pat, rep)
    else if s == [] then []
    else if pat <= s then rep + Replace(s[|pat|..], pat, rep)
    else [s[0]] + Replace(s[1..], pat, rep)
  }

  /** Character-for-character substitution: an independent description of
      replacing one character by another. */
  function Subst(s: string, c: char, d: char): (r: string)
    ensures |r| == |s|
    ensures forall i :: 0 <= i < |s| ==> r[i] == (if s[i] == c then d else s[i])
  {
    seq(|s|, i requires 0 <= i < |s| => if s[i] == c then d else s[i])
  }

  /** Replacing a one-character string by another is the pointwise substitution. */
  lemma {:induction false} ReplaceCharIsSubst(s: string, c: char, d: char)
    ensures Replace(s, [c], [d]) == Subst(s, c, d)
    decreases |s|
  {
    if s != [] {
      ReplaceCharIsSubst(s[1..], c, d);
      if [c] <= s {
        assert s[1..] == s[|[c]|..];
      }
      assert Subst(s, c, d) == [if s[0] == c then d else s[0]] + Subst(s[1..], c, d);
    }
  }

  /** After replacing every `c` by a string free of `c`, no `c` is left. */
  lemma {:induction false} ReplaceRemovesChar(s: string, c: char, rep: string)
    requires c !in rep
    ensures c !in Replace(s, [c], rep)
    decreases |s|
  {
    if s != [] {
      ReplaceRemovesChar(s[1..], c, rep);
      if [c] <= s {
        assert s[1..] == s[|[c]|..];
      }
    }
  }

  /** Replacing introduces no character that is neither in `s` nor in `rep`. */
  lemma {:induction false} ReplaceNoNewChar(s: string, pat: string, rep: string, c: char)
    requires c !in s && c !in rep
    ensures c !in Replace(s, pat, rep)
    decreases |s|
  {
    if s != [] {
      if |pat| == 0 {
        ReplaceNoNewChar(s[1..], pat, rep, c);
      } else if pat <= s {
        assert c !in s[|pat|..] by {
          forall k | 0 <= k < |s| - |pat| ensures s[|pat|..][k] != c {
            assert s[|pat|..][k] == s[|pat| + k];
          }
        }
        ReplaceNoNewChar(s[|pat|..], pat, rep, c);
      } else {
        ReplaceNoNewChar(s[1..], pat, rep, c);
      }
    }
  }

  /** A non-empty `pat` that does not occur in `s` leaves `s` unchanged. */
  lemma {:induction false} ReplaceAbsent(s: string, pat: string, rep: string)
    requires |pat| > 0 && !Occurs(pat, s)
    ensures Replace(s, pat, rep) == s
    decreases |s|
  {
    if s != [] {
      assert s[0..] == s;
      forall i | 0 <= i <= |s[1..]| ensures !(pat <= s[1..][i..]) {
        assert s[1..][i..] == s[i + 1..];
      }
      ReplaceAbsent(s[1..], pat, rep);
    }
  }

  /** The empty string occurs in every string. */
  lemma OccursEmpty(s: string)
    ensures Occurs("", s)
  {
    assert "" <= s[0..];
  }

  /** A character that is not in `s` does not occur in it as a one-character string. */
  lemma CharNotOccurs(c: char, s: string)
    requires c !in s
    ensures !Occurs([c], s)
  {
    forall i | 0 <= i <= |s| ensures !([c] <= s[i..]) {
      if i < |s| {
        assert s[i..][0] == s[i];
      }
    }
  }

  /** A leading occurrence of a non-empty `pat` becomes `rep`. */
  lemma ReplaceLeading(pat: string, rest: string, rep: string)
    requires |pat| > 0
    ensures Replace(pat + rest, pat, rep) == rep + Replace(rest, pat, rep)
  {
    assert (pat + rest)[|pat|..] == rest;
  }

  /** `sep.join(parts)`. */
  function Join(parts: seq<string>, sep: char): string {
    if parts == [] then []
    else if |parts| == 1 then parts[0]
    else parts[0] + [sep] + Join(parts[1..], sep)
  }

  /** `s.split(sep)`: the maximal `sep`-free runs, `[""]` for the empty string. */
  function Split(s: string, sep: char): (parts: seq<string>)
    ensures |parts| >= 1
    decreases |s|
  {
    if s == [] then [[]]
    else
      var rest := Split(s[1..], sep);
      if s[0] == sep then [[]] + rest
      else [[s[0]] + rest[0]] + rest[1..]
  }

  /** Joining what `split` produced gives back the string. */
  lemma {:induction false} JoinSplit(s: string, sep: char)
    ensures Join(Split(s, sep), sep) == s
    decreases |s|
  {
    if s != [] {
      var t := s[1..];
      assert s == [s[0]] + t;
      JoinSplit(t, sep);
      if s[0] == sep {
        SplitSep(t, sep);
        JoinEmptyFirst(Split(t, sep), sep);
      } else {
        SplitCons(s[0], t, sep);
        JoinFirstCons(s[0], Split(t, sep), sep);
      }
    }
  }

  /** An empty first part joins to a leading separator. */
  lemma JoinEmptyFirst(rest: seq<string>, sep: char)
    requires |rest| >= 1
    ensures Join([[]] + rest, sep) == [sep] + Join(rest, sep)
  {
    var ps := [[]] + rest;
    assert ps[0] == [] && ps[1..] == rest;
    assert [] + [sep] == [sep];
  }

  /** A character put in front of the first part is in front of the join. */
  lemma JoinFirstCons(c: char, rest: seq<string>, sep: char)
    requires |rest| >= 1
    ensures Join([[c] + rest[0]] + rest[1..], sep) == [c] + Join(rest, sep)
  {
    var ps := [[c] + rest[0]] + rest[1..];
    assert ps[0] == [c] + rest[0] && ps[1..] == rest[1..];
    if |rest| > 1 {
      var tail := Join(rest[1..], sep);
      assert Join(ps, sep) == [c] + rest[0] + [sep] + tail;
      assert Join(rest, sep) == rest[0] + [sep] + tail;
      assert [c] + rest[0] + [sep] + tail == [c] + (rest[0] + [sep] + tail);
    }
  }

  /** Splitting text that starts with a non-separator extends the first part. */
  lemma SplitCons(c: char, t: string, sep: char)
    requires c != sep
    ensures Split([c] + t, sep) == [[c] + Split(t, sep)[0]] + Split(t, sep)[1..]
  {
    assert ([c] + t)[1..] == t;
  }

  /** A part free of the separator, then the separator: that part comes first. */
  lemma {:induction false} SplitPrefix(a: string, r: string, sep: char)
    requires sep !in a
    ensures Split(a + [sep] + r, sep) == [a] + Split(r, sep)
    decreases |a|
  {
    if a == [] {
      assert a + [sep] + r == [sep] + r;
      SplitSep(r, sep);
    } else {
      var t := a[1..] + [sep] + r;
      assert a + [sep] + r == [a[0]] + t;
      SplitPrefix(a[1..], r, sep);
      SplitCons(a[0], t, sep);
      assert [a[0]] + a[1..] == a;
    }
  }

  /** Splitting text that starts with the separator opens with an empty part. */
  lemma SplitSep(t: string, sep: char)
    ensures Split([sep] + t, sep) == [[]] + Split(t, sep)
  {
    assert ([sep] + t)[1..] == t;
  }

  /** Moving the first character of the first part out of the join. */
  lemma JoinFirstChar(parts: seq<string>, sep: char)
    requires |parts| >= 2 && parts[0] != []
    ensures Join(parts, sep) == [parts[0][0]] + Join([parts[0][1..]] + parts[1..], sep)
  {
    var p := parts[0];
    var shorter := [p[1..]] + parts[1..];
    var rest := Join(parts[1..], sep);
    assert shorter[0] == p[1..] && shorter[1..] == parts[1..];
    assert Join(shorter, sep) == p[1..] + [sep] + rest;
    assert p == [p[0]] + p[1..];
  }

  /** Dropping the first character of the first part keeps every part free of
      the separator. */
  lemma NoSepShorter(parts: seq<string>, sep: char)
    requires |parts| >= 1 && parts[0] != []
    requires forall i :: 0 <= i < |parts| ==> sep !in parts[i]
    ensures forall i :: 0 <= i < |[parts[0][1..]] + parts[1..]| ==> sep !in ([parts[0][1..]] + parts[1..])[i]
  {
    var p := parts[0];
    var shorter := [p[1..]] + parts[1..];
    forall i | 0 <= i < |shorter| ensures sep !in shorter[i] {
      if i == 0 {
        assert forall k :: 0 <= k < |p[1..]| ==> p[1..][k] == p[k + 1];
      } else {
        assert shorter[i] == parts[i];
      }
    }
  }

  /** Splitting a join of `sep`-free parts gives back the parts. */
  lemma {:induction false} SplitJoin(parts: seq<string>, sep: char)
    requires |parts| >= 1
    requires forall i :: 0 <= i < |parts| ==> sep !in parts[i]
    ensures Split(Join(parts, sep), sep) == parts
    decreases |parts|, |parts[0]|
  {
    if |parts| == 1 {
      SplitNoSep(parts[0], sep);
    } else if parts[0] == [] {
      assert Join(parts, sep) == [sep] + Join(parts[1..], sep);
      SplitJoin(parts[1..], sep);
      SplitSep(Join(parts[1..], sep), sep);
      assert parts == [[]] + parts[1..];
    } else {
      var p := parts[0];
      var shorter := [p[1..]] + parts[1..];
      NoSepShorter(parts, sep);
      SplitJoin(shorter, sep);
      JoinFirstChar(parts, sep);
      SplitCons(p[0], Join(shorter, sep), sep);
      assert shorter[0] == p[1..] && shorter[1..] == parts[1..];
      assert p == [p[0]] + p[1..];
      assert parts == [p] + parts[1..];
    }
  }

  /** The part before the first separator, then the split of what follows it. */
  lemma {:induction false} SplitAt(s: string, sep: char, k: nat)
    requires k < |s| && s[k] == sep && sep !in s[..k]
    ensures Split(s, sep) == [s[..k]] + Split(s[k + 1..], sep)
    decreases k
  {
    if k > 0 {
      var t := s[1..];
      assert t[..k - 1] == s[..k][1..];
      SplitAt(t, sep, k - 1);
      assert t[k - 1 + 1..] == s[k + 1..];
      assert s[..k] == [s[0]] + t[..k - 1];
    }
  }

  lemma {:induction false} SplitNoSep(s: string, sep: char)
    requires sep !in s
    ensures Split(s, sep) == [s]
    decreases |s|
  {
    if s != [] {
      SplitNoSep(s[1..], sep);
      assert [s[0]] + s[1..] == s;
    }
  }

  /** Joining two non-empty lists of parts with one separator in between. */
  lemma {:induction false} JoinAppend(xs: seq<string>, ys: seq<string>, sep: char)
    requires xs != [] && ys != []
    ensures Join(xs + ys, sep) == Join(xs, sep) + [sep] + Join(ys, sep)
    decreases |xs|
  {
    if |xs| == 1 {
      assert (xs + ys)[1..] == ys;
    } else {
      assert (xs + ys)[1..] == xs[1..] + ys;
      JoinAppend(xs[1..], ys, sep);
    }
  }

  /** A character in none of the parts, other than the separator, is not in the join. */
  lemma {:induction false} JoinNoChar(parts: seq<string>, sep: char, c: char)
    requires c != sep
    requires forall i :: 0 <= i < |parts| ==> c !in parts[i]
    ensures c !in Join(parts, sep)
    decreases |parts|
  {
    if |parts| > 1 {
      JoinNoChar(parts[1..], sep, c);
    }
  }

  /** A character that is not in the string is in none of its split parts. */
  lemma {:induction false} SplitNoChar(s: string, sep: char, c: char)
    requires c !in s
    ensures forall i :: 0 <= i < |Split(s, sep)| ==> c !in Split(s, sep)[i]
    decreases |s|
  {
    if s != [] {
      SplitNoChar(s[1..], sep, c);
    }
  }
}
