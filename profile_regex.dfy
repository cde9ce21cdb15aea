/** The one regular expression the path preprocessor uses:
    `([A-Z]:/Users/.*)` searched with `re.finditer` under `re.IGNORECASE |
    re.MULTILINE`. The pattern is unanchored and `.` stops at a newline, so
    each match runs from a drive letter followed by `:/Users/` to the end of
    its line, and the scan resumes there. */
module ProfileRegex {
  import opened PyStrings

  predicate IsAsciiLetter(c: char) {
    'A' <= c <= 'Z' || 'a' <= c <= 'z'
  }

  /** ASCII lower case, the folding `re.IGNORECASE` applies to these letters. */
  function Lower(c: char): char {
    if 'A' <= c <= 'Z' then (c as int + 32) as char else c
  }

  /** The fixed part `[A-Z]:/Users/` of the pattern matches at position `p`. */
  predicate ProfileAt(t: string, p: nat) {
    p + 9 <= |t|
    && IsAsciiLetter(t[p]) && t[p + 1] == ':' && t[p + 2] == '/'
    && Lower(t[p + 3]) == 'u' && Lower(t[p + 4]) == 's' && Lower(t[p + 5]) == 'e'
    && Lower(t[p + 6]) == 'r' && Lower(t[p + 7]) == 's' && t[p + 8] == '/'
  }

  /** Where `.*` starting at `p` stops: the next newline, or the end. */
  function LineEnd(t: string, p: nat): (e: nat)
    requires p <= |t|
    ensures p <= e <= |t|
    ensures e < |t| ==> t[e] == '\n'
    ensures forall k :: p <= k < e ==> t[k] != '\n'
    decreases |t| - p
  {
    if p == |t| || t[p] == '\n' then p else LineEnd(t, p + 1)
  }

  /** The matched texts of `re.finditer` when the search starts at `p`. */
  function MatchesFrom(t: string, p: nat): seq<string>
    requires p <= |t|
    decreases |t| - p
  {
    if p == |t| then []
    else if ProfileAt(t, p) then
      var e := LineEnd(t, p);
      [t[p..e]] + MatchesFrom(t, e)
    else MatchesFrom(t, p + 1)
  }

  /** `[m.group() for m in re.finditer(pattern, t, flags)]`. */
  function FindAll(t: string): seq<string> {
    MatchesFrom(t, 0)
  }

  /** Every match starts with the pattern's fixed part and holds no newline. */
  lemma {:induction false} MatchesFromShape(t: string, p: nat)
    requires p <= |t|
    ensures forall i :: 0 <= i < |MatchesFrom(t, p)| ==>
              ProfileAt(MatchesFrom(t, p)[i], 0) && '\n' !in MatchesFrom(t, p)[i]
    decreases |t| - p
  {
    if p < |t| {
      if ProfileAt(t, p) {
        var e := LineEnd(t, p);
        MatchesFromShape(t, e);
        var m := t[p..e];
        assert forall k :: 0 <= k < 9 ==> m[k] == t[p + k];
        assert forall k :: 0 <= k < |m| ==> m[k] == t[p + k];
      } else {
        MatchesFromShape(t, p + 1);
      }
    }
  }

  lemma FindAllShape(t: string)
    ensures forall i :: 0 <= i < |FindAll(t)| ==> ProfileAt(FindAll(t)[i], 0) && '\n' !in FindAll(t)[i]
  {
    MatchesFromShape(t, 0);
  }

  /** A match is no longer than the text searched from `p`. */
  lemma {:induction false} MatchesFromLength(t: string, p: nat)
    requires p <= |t|
    ensures forall i :: 0 <= i < |MatchesFrom(t, p)| ==> |MatchesFrom(t, p)[i]| <= |t| - p
    decreases |t| - p
  {
    if p < |t| {
      if ProfileAt(t, p) {
        MatchesFromLength(t, LineEnd(t, p));
      } else {
        MatchesFromLength(t, p + 1);
      }
    }
  }

  /** A character absent from the text is absent from every match. */
  lemma {:induction false} MatchesFromNoChar(t: string, p: nat, c: char)
    requires p <= |t| && c !in t
    ensures forall i :: 0 <= i < |MatchesFrom(t, p)| ==> c !in MatchesFrom(t, p)[i]
    decreases |t| - p
  {
    if p < |t| {
      if ProfileAt(t, p) {
        var e := LineEnd(t, p);
        MatchesFromNoChar(t, e, c);
        assert forall k :: 0 <= k < e - p ==> t[p..e][k] == t[p + k];
      } else {
        MatchesFromNoChar(t, p + 1, c);
      }
    }
  }

  /** Prefixing text shifts positions but finds the same matches. */
  lemma {:induction false} MatchesFromShift(x: string, r: string, q: nat)
    requires q <= |r|
    ensures MatchesFrom(x + r, |x| + q) == MatchesFrom(r, q)
    decreases |r| - q
  {
    var t := x + r;
    if q < |r| {
      assert ProfileAt(t, |x| + q) == ProfileAt(r, q) by {
        assert forall k :: q <= k < |r| ==> t[|x| + k] == r[k];
      }
      if ProfileAt(r, q) {
        var e := LineEnd(r, q);
        LineEndShift(x, r, q);
        assert t[|x| + q..|x| + e] == r[q..e] by {
          assert forall k :: q <= k < e ==> t[|x| + k] == r[k];
        }
        MatchesFromShift(x, r, e);
        assert MatchesFrom(t, |x| + q) == [r[q..e]] + MatchesFrom(t, |x| + e);
      } else {
        MatchesFromShift(x, r, q + 1);
        assert MatchesFrom(t, |x| + q) == MatchesFrom(t, |x| + q + 1);
      }
    }
  }

  lemma {:induction false} LineEndShift(x: string, r: string, q: nat)
    requires q <= |r|
    ensures LineEnd(x + r, |x| + q) == |x| + LineEnd(r, q)
    decreases |r| - q
  {
    if q < |r| {
      assert (x + r)[|x| + q] == r[q];
      LineEndShift(x, r, q + 1);
    }
  }

  /** A line without newline followed by a newline and more text: the matches
      of the line (from `p` on), then those of the rest. */
  lemma {:induction false} MatchesFromLine(e: string, r: string, p: nat)
    requires p <= |e| && '\n' !in e
    ensures MatchesFrom(e + "\n" + r, p) == MatchesFrom(e, p) + FindAll(r)
    decreases |e| - p
  {
    var t := e + "\n" + r;
    assert t == (e + "\n") + r;
    if p == |e| {
      assert t[p] == '\n';
      assert !ProfileAt(t, p);
      MatchesFromShift(e + "\n", r, 0);
    } else {
      assert forall k :: p <= k < |e| ==> t[k] == e[k];
      if ProfileAt(e, p) {
        assert ProfileAt(t, p);
        LineEndAt(t, p, |e|);
        LineEndAt(e, p, |e|);
        assert t[p..|e|] == e[p..|e|];
        MatchesFromLine(e, r, |e|);
      } else {
        assert !ProfileAt(t, p) by {
          if p + 9 > |e| {
            assert t[|e|] == '\n';
          }
        }
        MatchesFromLine(e, r, p + 1);
      }
    }
  }

  /** `LineEnd` finds the first newline (or the end). */
  lemma {:induction false} LineEndAt(t: string, p: nat, e: nat)
    requires p <= e <= |t|
    requires e == |t| || t[e] == '\n'
    requires forall k :: p <= k < e ==> t[k] != '\n'
    ensures LineEnd(t, p) == e
    decreases e - p
  {
    if p < e {
      LineEndAt(t, p + 1, e);
    }
  }

  /** A line on its own that starts with the fixed part is one whole match. */
  lemma FindAllProfile(e: string)
    requires ProfileAt(e, 0) && '\n' !in e
    ensures FindAll(e) == [e]
  {
    LineEndAt(e, 0, |e|);
    assert e[0..|e|] == e;
    assert MatchesFrom(e, |e|) == [];
  }

  /** The matches of each line, line by line. */
  function LineMatches(lines: seq<string>): seq<string> {
    if lines == [] then [] else FindAll(lines[0]) + LineMatches(lines[1..])
  }

  /** Searching the lines joined by newlines finds the matches of each line,
      in order: no match spans two lines. */
  lemma {:induction false} FindAllJoin(lines: seq<string>)
    requires forall i :: 0 <= i < |lines| ==> '\n' !in lines[i]
    ensures FindAll(Join(lines, '\n')) == LineMatches(lines)
    decreases |lines|
  {
    if |lines| == 1 {
      assert LineMatches(lines) == FindAll(lines[0]) + LineMatches([]);
    } else if |lines| > 1 {
      FindAllJoin(lines[1..]);
      MatchesFromLine(lines[0], Join(lines[1..], '\n'), 0);
    }
  }
}
