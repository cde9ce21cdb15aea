/** The Python-level values the sdu helpers receive and the exceptions they
    raise, as Dafny datatypes. */
module PyValues {

  /** The exceptions the modelled functions raise. */
  datatype PyError =
    | ValueError(message: string)          // raised explicitly, with this message
    | NotInListError(item: string)         // the ValueError `list.index(item)` raises
    | NotADirectoryError(message: string)

  /** A call that either returns a value or raises. */
  datatype Result<T> = Ok(value: T) | Err(error: PyError)

  /** An argument whose Python type the callee inspects: a `list`, a `tuple`,
      or a `str` (the non-sequence value the callers and tests pass by mistake). */
  datatype PySeq<T> =
    | PyList(items: seq<T>)
    | PyTuple(items: seq<T>)
    | PyStr(text: string)

  /** Iterating a string yields its characters as one-character strings. */
  function Chars(s: string): (r: seq<string>)
    ensures |r| == |s|
    ensures forall i :: 0 <= i < |s| ==> r[i] == [s[i]]
  {
    seq(|s|, i requires 0 <= i < |s| => [s[i]])
  }

  /** `for x in a`: the strings a for-loop over `a` visits. */
  function Iterate(a: PySeq<string>): (r: seq<string>)
    ensures !a.PyStr? ==> r == a.items
    ensures a.PyStr? ==> |r| == |a.text|
  {
    match a
    case PyList(xs) => xs
    case PyTuple(xs) => xs
    case PyStr(s) => Chars(s)
  }

  /** Python truthiness of a list, tuple or string: it is non-empty. */
  predicate Truthy(a: PySeq<string>) {
    |Iterate(a)| > 0
  }

  // ---------------------------------------------------------------------------
  // Concatenating sequences produced by calls that may raise

  /** The values of `parts` concatenated in order, or the first error among
      them: what appending the results of successive calls to a string or a
      list does when a call may raise. */
  function ConcatAll<T>(parts: seq<Result<seq<T>>>): Result<seq<T>> {
    if parts == [] then Ok([])
    else
      match parts[0]
      case Err(e) => Err(e)
      case Ok(first) =>
        match ConcatAll(parts[1..])
        case Err(e) => Err(e)
        case Ok(rest) => Ok(first + rest)
  }

  /** Appending one more result: its error, or its value after the others. */
  lemma {:induction false} ConcatAllAppend<T>(parts: seq<Result<seq<T>>>, p: Result<seq<T>>)
    requires ConcatAll(parts).Ok?
    ensures p.Err? ==> ConcatAll(parts + [p]) == Err(p.error)
    ensures p.Ok? ==> ConcatAll(parts + [p]) == Ok(ConcatAll(parts).value + p.value)
    decreases |parts|
  {
    if parts == [] {
      assert parts + [p] == [p];
      assert [p][1..] == [];
      if p.Ok? {
        assert ConcatAll([p]) == Ok(p.value + []);
        assert p.value + [] == [] + p.value;
      }
    } else {
      assert (parts + [p])[0] == parts[0];
      assert (parts + [p])[1..] == parts[1..] + [p];
      ConcatAllAppend(parts[1..], p);
      if p.Ok? {
        var first := parts[0].value;
        var mid := ConcatAll(parts[1..]).value;
        assert ConcatAll(parts + [p]) == Ok(first + (mid + p.value));
        assert first + (mid + p.value) == (first + mid) + p.value;
      }
    }
  }

  /** An error among the first `k` results is the error of the whole. */
  lemma {:induction false} ConcatAllPrefixErr<T>(parts: seq<Result<seq<T>>>, k: nat)
    requires k <= |parts| && ConcatAll(parts[..k]).Err?
    ensures ConcatAll(parts) == ConcatAll(parts[..k])
    decreases k
  {
    assert parts[..k][0] == parts[0];
    assert parts[..k][1..] == parts[1..][..k - 1];
    if parts[0].Ok? {
      ConcatAllPrefixErr(parts[1..], k - 1);
    }
  }

  /** The concatenation fails exactly when one of the results is an error. */
  lemma {:induction false} ConcatAllFails<T>(parts: seq<Result<seq<T>>>)
    ensures ConcatAll(parts).Err? <==> exists i :: 0 <= i < |parts| && parts[i].Err?
    decreases |parts|
  {
    if parts != [] {
      ConcatAllFails(parts[1..]);
      if exists i :: 0 <= i < |parts[1..]| && parts[1..][i].Err? {
        var i :| 0 <= i < |parts[1..]| && parts[1..][i].Err?;
        assert parts[i + 1] == parts[1..][i];
      }
      if exists i :: 0 <= i < |parts| && parts[i].Err? {
        var i :| 0 <= i < |parts| && parts[i].Err?;
        if i > 0 {
          assert parts[1..][i - 1] == parts[i];
        }
      }
    }
  }

  /** The `k`-th value sits between the values before it and those after it. */
  lemma {:induction false} ConcatAllAt<T>(parts: seq<Result<seq<T>>>, k: nat)
    requires k < |parts| && ConcatAll(parts).Ok?
    ensures ConcatAll(parts[..k]).Ok? && parts[k].Ok? && ConcatAll(parts[k + 1..]).Ok?
    ensures ConcatAll(parts).value
            == ConcatAll(parts[..k]).value + parts[k].value + ConcatAll(parts[k + 1..]).value
    decreases k
  {
    if k == 0 {
      assert parts[..0] == [];
      assert parts[1..] == parts[k + 1..];
      assert ConcatAll(parts).value == [] + parts[0].value + ConcatAll(parts[1..]).value;
    } else {
      ConcatAllAt(parts[1..], k - 1);
      assert parts[1..][k - 1] == parts[k];
      assert parts[1..][k - 1 + 1..] == parts[k + 1..];
      assert parts[..k][0] == parts[0];
      assert parts[..k][1..] == parts[1..][..k - 1];
      var first := parts[0].value;
      var before := ConcatAll(parts[1..][..k - 1]).value;
      var after := ConcatAll(parts[k + 1..]).value;
      assert ConcatAll(parts).value == first + (before + parts[k].value + after);
      assert ConcatAll(parts[..k]).value == first + before;
    }
  }

  /** Every element of the concatenation comes from one of the parts. */
  lemma {:induction false} ConcatAllIn<T>(parts: seq<Result<seq<T>>>, x: T)
    requires ConcatAll(parts).Ok? && x in ConcatAll(parts).value
    ensures exists i :: 0 <= i < |parts| && parts[i].Ok? && x in parts[i].value
    decreases |parts|
  {
    if x !in parts[0].value {
      ConcatAllIn(parts[1..], x);
      var i :| 0 <= i < |parts[1..]| && parts[1..][i].Ok? && x in parts[1..][i].value;
      assert parts[i + 1] == parts[1..][i];
    }
  }

  /** `prefix` followed by what `r` holds, or `r`'s error. */
  function Extend<T>(prefix: seq<T>, r: Result<seq<T>>): Result<seq<T>> {
    if r.Ok? then Ok(prefix + r.value) else r
  }

  /** One step of a loop that concatenates the parts in order and stops at the
      first error: extending the concatenation of the first `i` parts by part
      `i` gives that of the first `i + 1`, or the error of the whole. */
  lemma ConcatAllStep<T>(parts: seq<Result<seq<T>>>, i: nat, done: seq<T>)
    requires i < |parts| && ConcatAll(parts[..i]) == Ok(done)
    ensures Extend(done, parts[i]).Ok? ==> ConcatAll(parts[..i + 1]) == Extend(done, parts[i])
    ensures Extend(done, parts[i]).Err? ==> ConcatAll(parts) == Extend(done, parts[i])
  {
    ConcatAllAppend(parts[..i], parts[i]);
    assert parts[..i + 1] == parts[..i] + [parts[i]];
    if parts[i].Err? {
      ConcatAllPrefixErr(parts, i + 1);
    }
  }
}
