/** Normalising lists of directory paths: `preprocess_paths` turns each entry
    into a unix-style path (trimmed, `./x` made absolute, the home directory
    written `~`, backslashes turned into slashes, `X:/Users/<name>/` written
    `~/`); `postprocess_paths` turns such paths back into paths of the running
    system (`~` expanded, wildcards globbed) and keeps the directories;
    `process_paths` checks its argument and chains the two. */
module Paths {
  import opened PyValues
  import opened PyStrings
  import opened ProfileRegex

  /** What the functions read from the running system: whether it is Windows
      (`os.name == "nt"`), the `HOME` and `USERPROFILE` variables, and the
      file system through `os.path.abspath`, `os.path.isdir` and `glob.glob`. */
  datatype Env = Env(
    isWindows: bool,
    home: string,
    userProfile: string,
    abspath: string -> string,
    isdir: string -> bool,
    glob: string -> seq<string>)

  const PathsTypeMessage := "Paths must be specified as a list or tuple"
  const NotFoundMessage := "Directory was not found on system: "

  // ---------------------------------------------------------------------------
  // preprocess_paths

  /** The first loop of `preprocess_paths` on one entry. */
  function Normalize(env: Env, entry: string): string {
    Replace(CollapseHome(env, Absolute(env, Strip(entry))), "\\", "/")
  }

  /** A trimmed entry starting with `.` (other than `.` itself) made absolute. */
  function Absolute(env: Env, d: string): string {
    if "." <= d && |d| > 1 then env.abspath(d) else d
  }

  /** Off Windows, an entry not starting with `~` has every occurrence of the
      home directory replaced by `~`. */
  function CollapseHome(env: Env, d: string): string {
    if !("~" <= d) && !env.isWindows then Replace(d, env.home, "~") else d
  }

  function Normalized(env: Env, paths: seq<string>): (r: seq<string>)
    ensures |r| == |paths|
    ensures forall i :: 0 <= i < |paths| ==> r[i] == Normalize(env, paths[i])
  {
    seq(|paths|, i requires 0 <= i < |paths| => Normalize(env, paths[i]))
  }

  /** `path.split("/")[2::]`, its first part set to `"~"`, joined by `/`: the
      drive and `Users` parts dropped and the user name replaced by `~`. */
  function Rewrite(m: string): string
    requires |Split(m, '/')| >= 3
  {
    var parts := Split(m, '/')[2..];
    Join(parts[0 := "~"], '/')
  }

  /** `result.index(x)`: the first position holding `x`. */
  function IndexOf(xs: seq<string>, x: string): (i: nat)
    requires x in xs
    ensures i < |xs| && xs[i] == x && x !in xs[..i]
  {
    if xs[0] == x then 0
    else
      var i := IndexOf(xs[1..], x);
      assert xs[..i + 1] == [xs[0]] + xs[1..][..i];
      i + 1
  }

  /** The first position holding `x` is the one before which `x` does not occur. */
  lemma {:induction false} IndexOfFirst(xs: seq<string>, x: string, j: nat)
    requires j < |xs| && xs[j] == x && x !in xs[..j]
    ensures IndexOf(xs, x) == j
    decreases j
  {
    if j > 0 {
      assert xs[..j][0] == xs[0];
      assert xs[1..][..j - 1] == xs[..j][1..];
      IndexOfFirst(xs[1..], x, j - 1);
    }
  }

  /** Every match splits on `/` into at least the drive, `Users` and a name. */
  predicate ProfileMatches(matches: seq<string>) {
    forall m :: m in matches ==> |Split(m, '/')| >= 3
  }

  /** The second loop of `preprocess_paths`: each match, in turn, replaces the
      first entry equal to it by its rewriting; a match equal to no entry makes
      `list.index` raise. */
  function RewritePass(result: seq<string>, matches: seq<string>): Result<seq<string>>
    requires ProfileMatches(matches)
    decreases |matches|
  {
    if matches == [] then Ok(result)
    else
      var m := matches[0];
      if m !in result then Err(NotInListError(m))
      else RewritePass(result[IndexOf(result, m) := Rewrite(m)], matches[1..])
  }

  /** A text starting with the fixed part `X:/Users/` splits on `/` into
      `X:`, `Users` and the parts of what follows. */
  lemma ProfileSplit(m: string)
    requires ProfileAt(m, 0)
    ensures Split(m, '/') == [m[..2], m[3..8]] + Split(m[9..], '/')
  {
    assert '/' !in m[..2] by {
      assert m[..2] == [m[0], m[1]];
    }
    assert '/' !in m[3..8] by {
      assert m[3] != '/' && m[4] != '/' && m[5] != '/' && m[6] != '/' && m[7] != '/';
      assert m[3..8] == [m[3], m[4], m[5], m[6], m[7]];
    }
    SplitTwice(m, '/', 2, 8);
  }

  /** Splitting at the first two separators. */
  lemma SplitTwice(m: string, sep: char, i: nat, j: nat)
    requires i < j < |m| && m[i] == sep && m[j] == sep
    requires sep !in m[..i] && sep !in m[i + 1..j]
    ensures Split(m, sep) == [m[..i], m[i + 1..j]] + Split(m[j + 1..], sep)
  {
    var a, b, r := m[..i], m[i + 1..j], m[j + 1..];
    assert m == a + [sep] + (b + [sep] + r);
    SplitPrefix(a, b + [sep] + r, sep);
    SplitPrefix(b, r, sep);
    assert [a] + ([b] + Split(r, sep)) == [a, b] + Split(r, sep);
  }

  lemma MatchesAreProfiles(t: string)
    ensures ProfileMatches(FindAll(t))
  {
    FindAllShape(t);
    forall m | m in FindAll(t) ensures |Split(m, '/')| >= 3 {
      ProfileSplit(m);
    }
  }

  /** What `preprocess_paths(paths)` returns or raises. */
  function Preprocess(env: Env, paths: seq<string>): Result<seq<string>> {
    var ns := Normalized(env, paths);
    MatchesAreProfiles(Join(ns, '\n'));
    RewritePass(ns, FindAll(Join(ns, '\n')))
  }

  /** The first loop of `preprocess_paths`: normalises the entries in place. */
  method NormalizeEntries(env: Env, paths: seq<string>) returns (result: seq<string>)
    ensures result == Normalized(env, paths)
  {
    result := paths;
    for index := 0 to |result|
      invariant |result| == |paths|
      invariant forall k :: 0 <= k < index ==> result[k] == Normalize(env, paths[k])
      invariant forall k :: index <= k < |paths| ==> result[k] == paths[k]
    {
      var directory := NormalizeEntry(env, result[index]);
      result := result[index := directory];
    }
  }

  /** The body of the first loop of `preprocess_paths`. */
  method NormalizeEntry(env: Env, entry: string) returns (directory: string)
    ensures directory == Normalize(env, entry)
  {
    directory := Strip(entry);
    if "." <= directory && |directory| > 1 {
      directory := env.abspath(directory);
    }
    ghost var absolute := directory;
    if !("~" <= directory) {
      if !env.isWindows {
        directory := Replace(directory, env.home, "~");
      }
    }
    assert directory == CollapseHome(env, absolute);
    directory := Replace(directory, "\\", "/");
  }

  /** `preprocess_paths`: rewrites a copy of the entries in place, entry by
      entry, then once per match of the drive-letter pattern. */
  method PreprocessPaths(env: Env, paths: seq<string>) returns (r: Result<seq<string>>)
    ensures r == Preprocess(env, paths)
  {
    var result := NormalizeEntries(env, paths);
    var matches := FindAll(Join(result, '\n'));
    MatchesAreProfiles(Join(result, '\n'));
    for k := 0 to |matches|
      invariant RewritePass(result, matches[k..]) == Preprocess(env, paths)
    {
      assert matches[k..][1..] == matches[k + 1..];
      var path := matches[k];
      if path !in result {
        return Err(NotInListError(path));
      }
      var pathIndex := IndexOf(result, path);
      var parts := Split(path, '/')[2..];
      parts := parts[0 := "~"];
      result := result[pathIndex := Join(parts, '/')];
    }
    return Ok(result);
  }

  // ---------------------------------------------------------------------------
  // Properties of preprocess_paths

  /** One entry per input entry, none holding a backslash. */
  lemma PreprocessShape(env: Env, paths: seq<string>)
    requires Preprocess(env, paths).Ok?
    ensures |Preprocess(env, paths).value| == |paths|
    ensures forall i :: 0 <= i < |paths| ==> '\\' !in Preprocess(env, paths).value[i]
  {
    var ns := Normalized(env, paths);
    forall i | 0 <= i < |ns| ensures '\\' !in ns[i] {
      NormalizeNoBackslash(env, paths[i]);
    }
    var t := Join(ns, '\n');
    JoinNoChar(ns, '\n', '\\');
    MatchesFromNoChar(t, 0, '\\');
    MatchesAreProfiles(t);
    RewritePassShape(ns, FindAll(t));
  }

  lemma NormalizeNoBackslash(env: Env, entry: string)
    ensures '\\' !in Normalize(env, entry)
  {
    ReplaceRemovesChar(CollapseHome(env, Absolute(env, Strip(entry))), '\\', "/");
  }

  lemma RewriteNoChar(m: string, c: char)
    requires |Split(m, '/')| >= 3 && c !in m && c != '/' && c != '~'
    ensures c !in Rewrite(m)
  {
    SplitNoChar(m, '/', c);
    var parts := Split(m, '/')[2..][0 := "~"];
    forall i | 0 <= i < |parts| ensures c !in parts[i] {
      if i > 0 {
        assert parts[i] == Split(m, '/')[i + 2];
      }
    }
    JoinNoChar(parts, '/', c);
  }

  lemma {:induction false} RewritePassShape(result: seq<string>, matches: seq<string>)
    requires ProfileMatches(matches)
    requires forall i :: 0 <= i < |result| ==> '\\' !in result[i]
    requires forall i :: 0 <= i < |matches| ==> '\\' !in matches[i]
    requires RewritePass(result, matches).Ok?
    ensures |RewritePass(result, matches).value| == |result|
    ensures forall i :: 0 <= i < |result| ==> '\\' !in RewritePass(result, matches).value[i]
    decreases |matches|
  {
    if matches != [] {
      var m := matches[0];
      RewriteNoChar(m, '\\');
      var next := result[IndexOf(result, m) := Rewrite(m)];
      assert forall i :: 0 <= i < |matches[1..]| ==> matches[1..][i] == matches[i + 1];
      RewritePassShape(next, matches[1..]);
    }
  }

  /** An entry `X:/Users/<name>/<rest>` (the letter and `Users` in either
      case) becomes `~/<rest>`. */
  lemma RewriteProfile(m: string, name: string, rest: string)
    requires ProfileAt(m, 0) && m[9..] == name + "/" + rest && '/' !in name
    ensures |Split(m, '/')| >= 3 && Rewrite(m) == "~/" + rest
  {
    var tail := Split(rest, '/');
    assert Split(m, '/') == [m[..2], m[3..8]] + ([name] + tail) by {
      ProfileSplit(m);
      var t := m[9..];
      assert t[..|name|] == name;
      SplitAt(t, '/', |name|);
      assert t[|name| + 1..] == rest;
    }
    var parts := Split(m, '/')[2..][0 := "~"];
    assert parts == ["~"] + tail;
    assert Join(parts, '/') == "~" + "/" + rest by {
      JoinAppend(["~"], tail, '/');
      JoinSplit(rest, '/');
    }
    assert "~" + "/" + rest == "~/" + rest;
  }

  /** `X:/Users/<name>` with nothing after the name becomes `~`. */
  lemma RewriteProfileName(m: string)
    requires ProfileAt(m, 0) && '/' !in m[9..]
    ensures |Split(m, '/')| >= 3 && Rewrite(m) == "~"
  {
    ProfileSplit(m);
    SplitNoSep(m[9..], '/');
    assert Split(m, '/')[2..][0 := "~"] == ["~"];
  }

  /** Every rewriting starts with `~`, so it never equals a match. */
  lemma RewriteStartsWithTilde(m: string)
    requires |Split(m, '/')| >= 3
    ensures |Rewrite(m)| > 0 && Rewrite(m)[0] == '~'
  {
    var parts := Split(m, '/')[2..][0 := "~"];
    if |parts| > 1 {
      JoinAppend([parts[0]], parts[1..], '/');
      assert [parts[0]] + parts[1..] == parts;
    }
  }

  /** An entry after the second loop when every match is a whole entry. */
  function RewriteEntry(n: string): string {
    if ProfileAt(n, 0) then
      ProfileSplit(n);
      Rewrite(n)
    else n
  }

  function RewriteEntries(ns: seq<string>): (r: seq<string>)
    ensures |r| == |ns|
    ensures forall i :: 0 <= i < |ns| ==> r[i] == RewriteEntry(ns[i])
  {
    seq(|ns|, i requires 0 <= i < |ns| => RewriteEntry(ns[i]))
  }

  /** Every normalised entry is one line that either is a whole match of the
      drive-letter pattern or holds no match at all. */
  predicate WholeEntryMatches(ns: seq<string>) {
    forall i :: 0 <= i < |ns| ==> '\n' !in ns[i] && (ProfileAt(ns[i], 0) || FindAll(ns[i]) == [])
  }

  /** The only error `preprocess_paths` raises is `list.index`'s. */
  lemma PreprocessError(env: Env, paths: seq<string>)
    requires Preprocess(env, paths).Err?
    ensures Preprocess(env, paths).error.NotInListError?
  {
    var ns := Normalized(env, paths);
    MatchesAreProfiles(Join(ns, '\n'));
    RewritePassError(ns, FindAll(Join(ns, '\n')));
  }

  lemma {:induction false} RewritePassError(result: seq<string>, matches: seq<string>)
    requires ProfileMatches(matches) && RewritePass(result, matches).Err?
    ensures RewritePass(result, matches).error.NotInListError?
    decreases |matches|
  {
    if matches[0] in result {
      RewritePassError(result[IndexOf(result, matches[0]) := Rewrite(matches[0])], matches[1..]);
    }
  }

  /** When every match is a whole entry, `preprocess_paths` rewrites exactly
      the drive-letter profile entries and leaves the others as normalised. */
  lemma PreprocessProfiles(env: Env, paths: seq<string>)
    requires WholeEntryMatches(Normalized(env, paths))
    ensures Preprocess(env, paths) == Ok(RewriteEntries(Normalized(env, paths)))
  {
    var ns := Normalized(env, paths);
    FindAllJoin(ns);
    assert ns[0..] == ns;
    assert RewriteEntries(ns)[..0] + ns[0..] == ns;
    RewritePassWhole(ns, 0, ns);
  }

  lemma {:induction false} RewritePassWhole(ns: seq<string>, j: nat, cur: seq<string>)
    requires j <= |ns| && WholeEntryMatches(ns)
    requires cur == RewriteEntries(ns)[..j] + ns[j..]
    ensures ProfileMatches(LineMatches(ns[j..]))
    ensures RewritePass(cur, LineMatches(ns[j..])) == Ok(RewriteEntries(ns))
    decreases |ns| - j
  {
    if j == |ns| {
      assert ns[j..] == [];
      assert cur == RewriteEntries(ns);
      assert LineMatches(ns[j..]) == [];
    } else {
      var n := ns[j];
      var rest := LineMatches(ns[j + 1..]);
      var next := RewriteEntries(ns)[..j + 1] + ns[j + 1..];
      assert LineMatches(ns[j..]) == FindAll(n) + rest by {
        assert ns[j..][1..] == ns[j + 1..];
      }
      assert ProfileMatches(rest) && RewritePass(next, rest) == Ok(RewriteEntries(ns)) by {
        RewritePassWhole(ns, j + 1, next);
      }
      if ProfileAt(n, 0) {
        assert ProfileMatches(FindAll(n) + rest)
            && RewritePass(cur, FindAll(n) + rest) == RewritePass(next, rest) by {
          RewriteWholeStep(ns, j, cur, rest);
        }
      } else {
        assert FindAll(n) + rest == rest by {
          assert FindAll(n) == [];
        }
        assert next == cur by {
          UpdateAt(ns, j);
          assert cur[j] == n && RewriteEntry(n) == n;
          assert cur[j := n] == cur;
        }
      }
    }
  }

  /** One step of the pass over a profile entry: its one match is found at
      its own index and replaced by the entry's rewriting. */
  lemma RewriteWholeStep(ns: seq<string>, j: nat, cur: seq<string>, rest: seq<string>)
    requires j < |ns| && ProfileAt(ns[j], 0) && '\n' !in ns[j] && ProfileMatches(rest)
    requires cur == RewriteEntries(ns)[..j] + ns[j..]
    ensures ProfileMatches(FindAll(ns[j]) + rest)
    ensures RewritePass(cur, FindAll(ns[j]) + rest)
         == RewritePass(RewriteEntries(ns)[..j + 1] + ns[j + 1..], rest)
  {
    var n := ns[j];
    FindAllProfile(n);
    ProfileSplit(n);
    ProfileMatchesCons(n, rest);
    assert IndexOf(cur, n) == j by {
      RewrittenBefore(ns, j);
      IndexOfFirst(cur, n, j);
    }
    UpdateAt(ns, j);
    assert ([n] + rest)[1..] == rest;
  }

  lemma UpdateAt(ns: seq<string>, j: nat)
    requires j < |ns|
    ensures (RewriteEntries(ns)[..j] + ns[j..])[j := RewriteEntry(ns[j])]
         == RewriteEntries(ns)[..j + 1] + ns[j + 1..]
  {
  }

  lemma ProfileMatchesCons(n: string, rest: seq<string>)
    requires |Split(n, '/')| >= 3 && ProfileMatches(rest)
    ensures ProfileMatches([n] + rest)
  {
  }

  /** A profile entry equals none of the entries before it once those are
      rewritten: rewritten ones start with `~`, the others are no profiles. */
  lemma RewrittenBefore(ns: seq<string>, j: nat)
    requires j < |ns| && ProfileAt(ns[j], 0)
    ensures ns[j] !in RewriteEntries(ns)[..j]
  {
    forall i | 0 <= i < j ensures RewriteEntries(ns)[i] != ns[j] {
      if ProfileAt(ns[i], 0) {
        ProfileSplit(ns[i]);
        RewriteStartsWithTilde(ns[i]);
      }
    }
  }

  /** A match of the joined entries that equals no normalised entry makes
      `preprocess_paths` raise the `ValueError` of `list.index`, whatever the
      other entries and matches. */
  lemma PreprocessUnlistedMatch(env: Env, paths: seq<string>, k: nat)
    requires k < |FindAll(Join(Normalized(env, paths), '\n'))|
    requires FindAll(Join(Normalized(env, paths), '\n'))[k] !in Normalized(env, paths)
    ensures Preprocess(env, paths).Err? && Preprocess(env, paths).error.NotInListError?
  {
    var ns := Normalized(env, paths);
    var matches := FindAll(Join(ns, '\n'));
    MatchesAreProfiles(Join(ns, '\n'));
    FindAllShape(Join(ns, '\n'));
    RewritePassUnlisted(ns, matches, k);
    PreprocessError(env, paths);
  }

  /** The pass fails once it reaches a match missing from the list: the
      entries it rewrites on the way start with `~`, which no match does. */
  lemma {:induction false} RewritePassUnlisted(result: seq<string>, matches: seq<string>, k: nat)
    requires ProfileMatches(matches) && k < |matches|
    requires forall i :: 0 <= i < |matches| ==> ProfileAt(matches[i], 0)
    requires matches[k] !in result
    ensures RewritePass(result, matches).Err?
    decreases k
  {
    var m := matches[0];
    if m in result {
      var next := result[IndexOf(result, m) := Rewrite(m)];
      assert k > 0;
      assert matches[k] !in next by {
        RewriteStartsWithTilde(m);
        assert matches[k][0] != '~';
      }
      assert matches[1..][k - 1] == matches[k];
      RewritePassUnlisted(next, matches[1..], k - 1);
    }
  }

  /** A single entry holding a match that does not start the entry: the
      match is no entry of the list, so `list.index` raises with it. */
  lemma PreprocessMidEntry(env: Env, entry: string)
    requires !ProfileAt(Normalize(env, entry), 0) && FindAll(Normalize(env, entry)) != []
    ensures Preprocess(env, [entry]) == Err(NotInListError(FindAll(Normalize(env, entry))[0]))
  {
    var n := Normalize(env, entry);
    var ns := Normalized(env, [entry]);
    assert ns == [n];
    assert Join(ns, '\n') == n;
    assert FindAll(n) == MatchesFrom(n, 1);
    MatchesFromLength(n, 1);
    assert FindAll(n)[0] !in ns;
  }

  /** A bare `.` is left alone (unless the home directory occurs in it). */
  lemma PreprocessDot(env: Env)
    requires env.isWindows || !Occurs(env.home, ".")
    ensures Preprocess(env, ["."]) == Ok(["."])
  {
    StripStartFixed(".");
    StripEndFixed(".");
    assert Strip(".") == ".";
    if !env.isWindows {
      OccursEmpty(".");
      ReplaceAbsent(".", env.home, "~");
    }
    CharNotOccurs('\\', ".");
    ReplaceAbsent(".", "\\", "/");
    assert Normalize(env, ".") == ".";
    var ns := Normalized(env, ["."]);
    assert ns == ["."];
    assert FindAll(".") == [] by {
      assert !ProfileAt(".", 0);
      assert MatchesFrom(".", 1) == [];
    }
  }

  /** A stripped entry `.x...` becomes its absolute path, when that has no
      backslash and the home-directory step does not apply to it. */
  lemma NormalizeRelative(env: Env, entry: string)
    requires "." <= Strip(entry) && |Strip(entry)| > 1
    requires '\\' !in env.abspath(Strip(entry))
    requires env.isWindows || "~" <= env.abspath(Strip(entry)) || !Occurs(env.home, env.abspath(Strip(entry)))
    ensures Normalize(env, entry) == env.abspath(Strip(entry))
  {
    var a := env.abspath(Strip(entry));
    if !env.isWindows && !("~" <= a) {
      OccursEmpty(a);
      ReplaceAbsent(a, env.home, "~");
    }
    CharNotOccurs('\\', a);
    ReplaceAbsent(a, "\\", "/");
  }

  /** Outside Windows, an entry starting with the home directory has it
      replaced by `~`. */
  lemma NormalizeHome(env: Env, entry: string, rest: string)
    requires !env.isWindows && Strip(entry) == env.home + rest
    requires |env.home| > 0 && env.home[0] != '.' && env.home[0] != '~'
    requires !Occurs(env.home, rest) && '\\' !in env.home + rest
    ensures Normalize(env, entry) == "~" + rest
  {
    var d := env.home + rest;
    assert !("." <= d) && !("~" <= d) by {
      assert d[0] == env.home[0];
    }
    assert Replace(d, env.home, "~") == "~" + rest by {
      ReplaceLeading(env.home, rest, "~");
      ReplaceAbsent(rest, env.home, "~");
    }
    assert Replace("~" + rest, "\\", "/") == "~" + rest by {
      assert '\\' !in rest by {
        assert forall k :: 0 <= k < |rest| ==> rest[k] == d[|env.home| + k];
      }
      CharNotOccurs('\\', "~" + rest);
      ReplaceAbsent("~" + rest, "\\", "/");
    }
  }

  /** An entry starting with `~` skips the home-directory step. */
  lemma NormalizeTilde(env: Env, entry: string)
    requires "~" <= Strip(entry) && '\\' !in Strip(entry)
    ensures Normalize(env, entry) == Strip(entry)
  {
    var d := Strip(entry);
    assert d[0] == '~';
    CharNotOccurs('\\', d);
    ReplaceAbsent(d, "\\", "/");
  }

  // ---------------------------------------------------------------------------
  // postprocess_paths

  /** `os.curdir`. */
  const CurDir := "."

  /** An entry after the rewriting steps of `postprocess_paths`: trimmed,
      slashes turned into backslashes on Windows, a lone `.` made absolute
      (indexing `directory[1]` raises `IndexError` there), `./x` and `.\x`
      rebuilt from `os.curdir`, and every `~` replaced by the home directory
      (`USERPROFILE` on Windows, `HOME` elsewhere). */
  function Localize(env: Env, entry: string): string {
    var d := Strip(entry);
    var d1 := if env.isWindows then Replace(d, "/", "\\") else d;
    ExpandHome(env, FromCurDir(env, d1))
  }

  /** The `os.curdir` step of `postprocess_paths`: `./x` and `.\x` rebuilt
      from `os.curdir`, a lone `.` made absolute. */
  function FromCurDir(env: Env, d: string): string {
    if "." <= d then
      if |d| >= 2 then
        if d[1] == '/' || d[1] == '\\' then CurDir + d[1..] else d
      else env.abspath(".")
    else d
  }

  /** The `~` step of `postprocess_paths`: every `~` replaced by the home
      directory. */
  function ExpandHome(env: Env, d: string): string {
    if '~' in d then Replace(d, "~", if env.isWindows then env.userProfile else env.home)
    else d
  }

  /** The entry holds a wildcard character and is globbed. */
  predicate IsPattern(d: string) {
    '*' in d || '[' in d
  }

  /** The elements of `xs` that are directories, in order. */
  function DirsOnly(env: Env, xs: seq<string>): (r: seq<string>)
    ensures |r| <= |xs|
    decreases |xs|
  {
    if xs == [] then []
    else
      var init := xs[..|xs| - 1];
      var x := xs[|xs| - 1];
      assert xs == init + [x];
      DirsOnly(env, init) + (if env.isdir(x) then [x] else [])
  }

  /** The matches kept are exactly those that are directories. */
  lemma {:induction false} DirsOnlyMembers(env: Env, xs: seq<string>)
    ensures forall x :: x in DirsOnly(env, xs) <==> x in xs && env.isdir(x)
    decreases |xs|
  {
    if xs != [] {
      var init := xs[..|xs| - 1];
      assert xs == init + [xs[|xs| - 1]];
      DirsOnlyMembers(env, init);
    }
  }

  /** What one localised entry adds to the result of `postprocess_paths`, or
      the error it raises. As written, the strict check raises for an entry
      that IS a directory and silently drops one that is not. */
  function Include(env: Env, silent: bool, d: string): Result<seq<string>> {
    if IsPattern(d) then Ok(DirsOnly(env, env.glob(Strip(d))))
    else if !silent && env.isdir(d) then Err(NotADirectoryError(NotFoundMessage + d))
    else if env.isdir(d) then Ok([d])
    else Ok([])
  }

  /** What one entry adds to the result of `postprocess_paths`, or the error
      it raises. */
  function Contribution(env: Env, silent: bool, entry: string): Result<seq<string>> {
    Include(env, silent, Localize(env, entry))
  }

  function Contributions(env: Env, silent: bool, paths: seq<string>): (r: seq<Result<seq<string>>>)
    ensures |r| == |paths|
  {
    seq(|paths|, i requires 0 <= i < |paths| => Contribution(env, silent, paths[i]))
  }

  /** What `postprocess_paths(paths, include_files, silent)` returns or raises:
      the entries' contributions in order, or the first error. */
  function Postprocess(env: Env, silent: bool, paths: seq<string>): Result<seq<string>> {
    ConcatAll(Contributions(env, silent, paths))
  }

  /** The rewriting steps at the head of the loop of `postprocess_paths`. */
  method LocalizeEntry(env: Env, entry: string) returns (directory: string)
    ensures directory == Localize(env, entry)
  {
    directory := Strip(entry);
    if env.isWindows {
      directory := Replace(directory, "/", "\\");
    }
    ghost var d1 := directory;
    if "." <= directory {
      if |directory| >= 2 {
        if directory[1] == '/' || directory[1] == '\\' {
          directory := CurDir + directory[1..];
        }
      } else {
        directory := env.abspath(".");
      }
    }
    assert directory == FromCurDir(env, d1);
    ghost var d2 := directory;
    if '~' in directory {
      if env.isWindows {
        directory := Replace(directory, "~", env.userProfile);
      } else {
        directory := Replace(directory, "~", env.home);
      }
    }
    assert directory == ExpandHome(env, d2);
  }

  lemma DirsOnlyStep(env: Env, xs: seq<string>, j: nat)
    requires j < |xs|
    ensures DirsOnly(env, xs[..j + 1]) == DirsOnly(env, xs[..j]) + (if env.isdir(xs[j]) then [xs[j]] else [])
  {
    assert xs[..j + 1][..j] == xs[..j];
  }

  /** The inner loop of `postprocess_paths` over the glob's matches: appends
      those that are directories. */
  method AppendDirs(env: Env, result: seq<string>, wildcardPaths: seq<string>)
    returns (r: seq<string>)
    ensures r == result + DirsOnly(env, wildcardPaths)
  {
    r := result;
    assert result + DirsOnly(env, wildcardPaths[..0]) == result + [] == result;
    for j := 0 to |wildcardPaths|
      invariant r == result + DirsOnly(env, wildcardPaths[..j])
    {
      var path := wildcardPaths[j];
      ghost var done := DirsOnly(env, wildcardPaths[..j]);
      DirsOnlyStep(env, wildcardPaths, j);
      if env.isdir(path) {
        r := r + [path];
        assert r == result + (done + [path]);
      } else {
        assert done + [] == done;
      }
    }
    assert wildcardPaths[..|wildcardPaths|] == wildcardPaths;
  }

  /** The rest of the loop of `postprocess_paths` for a localised entry: the
      glob's directories or the entry itself appended, or the strict check's
      error. */
  method IncludeEntry(env: Env, silent: bool, result: seq<string>, directory: string)
    returns (r: Result<seq<string>>)
    ensures r == Extend(result, Include(env, silent, directory))
  {
    if '*' in directory || '[' in directory {
      var wildcardPaths := env.glob(Strip(directory));
      var appended := AppendDirs(env, result, wildcardPaths);
      return Ok(appended);
    }
    if !silent {
      if env.isdir(directory) {
        return Err(NotADirectoryError(NotFoundMessage + directory));
      }
    }
    if env.isdir(directory) {
      return Ok(result + [directory]);
    }
    assert result + [] == result;
    return Ok(result);
  }

  /** One entry of the loop of `postprocess_paths`. */
  lemma PostprocessStep(env: Env, silent: bool, paths: seq<string>, i: nat, done: seq<string>)
    requires i < |paths| && ConcatAll(Contributions(env, silent, paths)[..i]) == Ok(done)
    ensures Extend(done, Include(env, silent, Localize(env, paths[i]))).Ok? ==>
              ConcatAll(Contributions(env, silent, paths)[..i + 1]) == Extend(done, Include(env, silent, Localize(env, paths[i])))
    ensures Extend(done, Include(env, silent, Localize(env, paths[i]))).Err? ==>
              Postprocess(env, silent, paths) == Extend(done, Include(env, silent, Localize(env, paths[i])))
  {
    var parts := Contributions(env, silent, paths);
    assert parts[i] == Include(env, silent, Localize(env, paths[i]));
    ConcatAllStep(parts, i, done);
  }

  /** `postprocess_paths`: appends each entry's directories to a list.
      `include_files` is accepted and never read. */
  method PostprocessPaths(env: Env, paths: seq<string>, includeFiles: bool, silent: bool)
    returns (r: Result<seq<string>>)
    ensures r == Postprocess(env, silent, paths)
  {
    ghost var parts := Contributions(env, silent, paths);
    var result: seq<string> := [];
    for i := 0 to |paths|
      invariant ConcatAll(parts[..i]) == Ok(result)
    {
      var directory := LocalizeEntry(env, paths[i]);
      var next := IncludeEntry(env, silent, result, directory);
      PostprocessStep(env, silent, paths, i, result);
      if next.Err? {
        return next;
      }
      result := next.value;
    }
    assert parts[..|paths|] == parts;
    return Ok(result);
  }

  // ---------------------------------------------------------------------------
  // Properties of postprocess_paths

  /** One entry contributes existing directories only. */
  lemma IncludeDirs(env: Env, silent: bool, d: string)
    requires Include(env, silent, d).Ok?
    ensures forall x :: x in Include(env, silent, d).value ==> env.isdir(x)
  {
    if IsPattern(d) {
      DirsOnlyMembers(env, env.glob(Strip(d)));
    }
  }

  /** Everything `postprocess_paths` returns is a directory. */
  lemma PostprocessDirs(env: Env, silent: bool, paths: seq<string>)
    requires Postprocess(env, silent, paths).Ok?
    ensures forall x :: x in Postprocess(env, silent, paths).value ==> env.isdir(x)
  {
    var parts := Contributions(env, silent, paths);
    forall x | x in Postprocess(env, silent, paths).value ensures env.isdir(x) {
      ConcatAllIn(parts, x);
      var i :| 0 <= i < |parts| && parts[i].Ok? && x in parts[i].value;
      assert parts[i] == Include(env, silent, Localize(env, paths[i]));
      IncludeDirs(env, silent, Localize(env, paths[i]));
    }
  }

  /** In silent mode `postprocess_paths` never raises. */
  lemma PostprocessSilent(env: Env, paths: seq<string>)
    ensures Postprocess(env, true, paths).Ok?
  {
    var parts := Contributions(env, true, paths);
    forall i | 0 <= i < |parts| ensures parts[i].Ok? {
      assert parts[i] == Include(env, true, Localize(env, paths[i]));
    }
    ConcatAllFails(parts);
  }

  /** A plain (non-wildcard) entry of `postprocess_paths`, once localised. */
  predicate PlainDir(env: Env, entry: string) {
    !IsPattern(Localize(env, entry)) && env.isdir(Localize(env, entry))
  }

  /** As written, strict mode raises exactly when some plain entry IS an
      existing directory. */
  lemma PostprocessStrictFails(env: Env, paths: seq<string>)
    ensures Postprocess(env, false, paths).Err?
        <==> exists i :: 0 <= i < |paths| && PlainDir(env, paths[i])
  {
    var parts := Contributions(env, false, paths);
    ConcatAllFails(parts);
    forall i | 0 <= i < |parts| ensures parts[i].Err? <==> PlainDir(env, paths[i]) {
      assert parts[i] == Include(env, false, Localize(env, paths[i]));
    }
  }

  /** As written: strict mode raises "not found" for a directory that exists... */
  lemma StrictRaisesForExisting(env: Env, entry: string)
    requires PlainDir(env, entry)
    ensures Postprocess(env, false, [entry])
         == Err(NotADirectoryError(NotFoundMessage + Localize(env, entry)))
  {
    assert Contributions(env, false, [entry]) == [Contribution(env, false, entry)];
    assert Contributions(env, false, [entry])[1..] == [];
  }

  /** ...and silently drops one that does not. */
  lemma StrictDropsMissing(env: Env, entry: string)
    requires !IsPattern(Localize(env, entry)) && !env.isdir(Localize(env, entry))
    ensures Postprocess(env, false, [entry]) == Ok([])
  {
    var parts := Contributions(env, false, [entry]);
    assert parts[0] == Ok([]);
    assert parts[1..] == [];
    var none: seq<string> := [];
    assert ConcatAll(parts) == Ok(none + none);
    assert none + none == none;
  }

  /** What one entry contributes when the strict check raises for a plain
      entry that is NOT a directory, as its message says. */
  function IntendedContribution(env: Env, silent: bool, entry: string): Result<seq<string>> {
    var d := Localize(env, entry);
    if IsPattern(d) then Ok(DirsOnly(env, env.glob(Strip(d))))
    else if env.isdir(d) then Ok([d])
    else if !silent then Err(NotADirectoryError(NotFoundMessage + d))
    else Ok([])
  }

  function IntendedContributions(env: Env, silent: bool, paths: seq<string>): (r: seq<Result<seq<string>>>)
    ensures |r| == |paths|
    ensures forall i :: 0 <= i < |paths| ==> r[i] == IntendedContribution(env, silent, paths[i])
  {
    seq(|paths|, i requires 0 <= i < |paths| => IntendedContribution(env, silent, paths[i]))
  }

  /** `postprocess_paths` with the strict check the other way round. */
  function PostprocessIntended(env: Env, silent: bool, paths: seq<string>): Result<seq<string>> {
    ConcatAll(IntendedContributions(env, silent, paths))
  }

  /** Corrected, strict mode raises exactly when some plain entry is not an
      existing directory. */
  lemma IntendedStrictFails(env: Env, paths: seq<string>)
    ensures PostprocessIntended(env, false, paths).Err?
        <==> exists i :: 0 <= i < |paths|
               && !IsPattern(Localize(env, paths[i])) && !env.isdir(Localize(env, paths[i]))
  {
    var parts := IntendedContributions(env, false, paths);
    ConcatAllFails(parts);
    forall i | 0 <= i < |parts|
      ensures parts[i].Err? <==> !IsPattern(Localize(env, paths[i])) && !env.isdir(Localize(env, paths[i]))
    {
      assert parts[i] == IntendedContribution(env, false, paths[i]);
    }
  }

  /** In silent mode the check is never reached, so the corrected and the
      written function agree. */
  lemma IntendedSilentAgrees(env: Env, paths: seq<string>)
    ensures PostprocessIntended(env, true, paths) == Postprocess(env, true, paths)
  {
    var intended := IntendedContributions(env, true, paths);
    var written := Contributions(env, true, paths);
    forall i | 0 <= i < |paths| ensures intended[i] == written[i] {
      assert intended[i] == IntendedContribution(env, true, paths[i]);
      assert written[i] == Include(env, true, Localize(env, paths[i]));
    }
    assert intended == written;
  }

  /** Corrected, a strict call that does not raise returns what a silent call
      returns: the check only decides whether to raise. */
  lemma IntendedStrictAgrees(env: Env, paths: seq<string>)
    requires PostprocessIntended(env, false, paths).Ok?
    ensures PostprocessIntended(env, false, paths) == Postprocess(env, true, paths)
  {
    var strict := IntendedContributions(env, false, paths);
    var silent := Contributions(env, true, paths);
    ConcatAllFails(strict);
    forall i | 0 <= i < |paths| ensures strict[i] == silent[i] {
      assert strict[i] == IntendedContribution(env, false, paths[i]);
      assert silent[i] == Contribution(env, true, paths[i]);
      IntendedStrictEntry(env, paths[i]);
    }
    assert strict == silent;
  }

  /** An entry the intended strict check accepts contributes what the silent
      mode contributes. */
  lemma IntendedStrictEntry(env: Env, entry: string)
    requires IntendedContribution(env, false, entry).Ok?
    ensures IntendedContribution(env, false, entry) == Contribution(env, true, entry)
  {
  }

  /** A lone `.` becomes the absolute current directory. */
  lemma LocalizeDot(env: Env)
    requires '~' !in env.abspath(".")
    ensures Localize(env, ".") == env.abspath(".")
  {
    assert Strip(".") == "." by {
      assert !IsSpace('.');
      assert StripStart(".") == ".";
    }
    CharNotOccurs('/', ".");
    ReplaceAbsent(".", "/", "\\");
  }

  /** Off Windows, an entry `./x` or `.x` without `~` comes out as trimmed:
      `os.curdir + directory[1:]` rebuilds the very same text. */
  lemma LocalizeDotted(env: Env, entry: string)
    requires !env.isWindows && "." <= Strip(entry) && |Strip(entry)| >= 2 && '~' !in Strip(entry)
    ensures Localize(env, entry) == Strip(entry)
  {
    var d := Strip(entry);
    assert CurDir + d[1..] == d;
  }

  /** No `~` is left once it has been expanded to a home directory free of `~`. */
  lemma LocalizeNoTilde(env: Env, entry: string)
    requires '~' !in (if env.isWindows then env.userProfile else env.home)
    requires '~' !in env.abspath(".")
    ensures '~' !in Localize(env, entry)
  {
    var d := Strip(entry);
    var d1 := if env.isWindows then Replace(d, "/", "\\") else d;
    var d2 := FromCurDir(env, d1);
    if '~' in d2 {
      ReplaceRemovesChar(d2, '~', if env.isWindows then env.userProfile else env.home);
    }
  }

  /** On Windows no `/` is left when neither `USERPROFILE` nor the current
      directory holds one. */
  lemma LocalizeWindows(env: Env, entry: string)
    requires env.isWindows && '/' !in env.userProfile && '/' !in env.abspath(".")
    ensures '/' !in Localize(env, entry)
  {
    var d := Strip(entry);
    var d1 := Replace(d, "/", "\\");
    ReplaceRemovesChar(d, '/', "\\");
    var d2 := FromCurDir(env, d1);
    assert '/' !in d2 by {
      if "." <= d1 && |d1| >= 2 && (d1[1] == '/' || d1[1] == '\\') {
        assert forall k :: 1 <= k < |d1| ==> d1[1..][k - 1] == d1[k];
      }
    }
    if '~' in d2 {
      ReplaceNoNewChar(d2, "~", env.userProfile, '/');
    }
  }

  // ---------------------------------------------------------------------------
  // process_paths

  /** What `process_paths(paths)` returns or raises: a list or a tuple is
      preprocessed, then postprocessed in silent mode. */
  function Process(env: Env, paths: PySeq<string>): Result<seq<string>> {
    if paths.PyStr? then Err(ValueError(PathsTypeMessage))
    else
      match Preprocess(env, paths.items)
      case Err(e) => Err(e)
      case Ok(ns) => Postprocess(env, true, ns)
  }

  /** `process_paths`. */
  method ProcessPaths(env: Env, paths: PySeq<string>) returns (r: Result<seq<string>>)
    ensures r == Process(env, paths)
  {
    if !paths.PyList? && !paths.PyTuple? {
      return Err(ValueError(PathsTypeMessage));
    }
    var pre := PreprocessPaths(env, paths.items);
    if pre.Err? {
      return Err(pre.error);
    }
    r := PostprocessPaths(env, pre.value, false, true);
  }

  /** `process_paths` raises only for a string argument or when the regex
      finds a match that is no whole entry; never `NotADirectoryError`. */
  lemma ProcessFails(env: Env, paths: PySeq<string>)
    ensures Process(env, paths).Err? <==> paths.PyStr? || Preprocess(env, paths.items).Err?
    ensures Process(env, paths).Err? ==>
              Process(env, paths).error == ValueError(PathsTypeMessage)
              || Process(env, paths).error.NotInListError?
  {
    if !paths.PyStr? && Preprocess(env, paths.items).Ok? {
      PostprocessSilent(env, Preprocess(env, paths.items).value);
    }
    if !paths.PyStr? && Preprocess(env, paths.items).Err? {
      PreprocessError(env, paths.items);
    }
  }

  /** Everything `process_paths` returns is a directory. */
  lemma ProcessDirs(env: Env, paths: PySeq<string>)
    requires Process(env, paths).Ok?
    ensures forall x :: x in Process(env, paths).value ==> env.isdir(x)
  {
    var ns := Preprocess(env, paths.items).value;
    PostprocessDirs(env, true, ns);
  }
}
