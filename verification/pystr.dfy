/**
 The Python string operations the request handler relies on: `sep in s`,
 `s.startswith(p)`, `s.endswith(p)`, `s.split(sep)` with an explicit separator
 and `sep.join(parts)`. Strings are sequences of characters; nothing here
 depends on an encoding.
 */
module PyStr {

  /** `sep` occurs in `s` starting at index `i`. */
  predicate OccursAt(s: string, sep: string, i: int) {
    0 <= i && i + |sep| <= |s| && s[i..i + |sep|] == sep
  }

  /** Python's `sep in s`. */
  predicate Contains(s: string, sep: string) {
    exists i | 0 <= i <= |s| :: OccursAt(s, sep, i)
  }

  /** Python's `s.startswith(prefix)`. */
  predicate StartsWith(s: string, prefix: string) {
    |prefix| <= |s| && s[..|prefix|] == prefix
  }

  /** Python's `s.endswith(suffix)`. */
  predicate EndsWith(s: string, suffix: string) {
    |suffix| <= |s| && s[|s| - |suffix|..] == suffix
  }

  /** An occurrence inside the suffix `s[m..]` is an occurrence in `s`, shifted by `m`, and back. */
  lemma OccursInSuffix(s: string, sep: string, m: nat, j: int)
    requires m <= |s|
    ensures OccursAt(s[m..], sep, j) <==> 0 <= j && OccursAt(s, sep, m + j)
  {
    if 0 <= j && j + |sep| <= |s| - m {
      assert s[m..][j..j + |sep|] == s[m + j..m + j + |sep|];
    }
  }

  /** An occurrence at index 0 is the same thing as a prefix. */
  lemma OccursAtStart(s: string, sep: string)
    ensures OccursAt(s, sep, 0) <==> StartsWith(s, sep)
  {
  }

  /**
   When `s` does not start with `sep`, `sep` occurs in `s` exactly when it
   occurs in `s` without its first character.
   */
  lemma ContainsPastFirst(s: string, sep: string)
    requires s != [] && !StartsWith(s, sep)
    ensures Contains(s, sep) <==> Contains(s[1..], sep)
  {
    if Contains(s, sep) {
      var j :| 0 <= j <= |s| && OccursAt(s, sep, j);
      OccursAtStart(s, sep);
      OccursInSuffix(s, sep, 1, j - 1);
      assert OccursAt(s[1..], sep, j - 1);
    }
    if Contains(s[1..], sep) {
      var j :| 0 <= j <= |s| - 1 && OccursAt(s[1..], sep, j);
      OccursInSuffix(s, sep, 1, j);
      assert OccursAt(s, sep, j + 1);
    }
  }

  /** Python's `sep.join(parts)`: the parts in order with `sep` between neighbours. */
  function Join(parts: seq<string>, sep: string): string
    decreases |parts|
  {
    if |parts| == 0 then ""
    else if |parts| == 1 then parts[0]
    else parts[0] + sep + Join(parts[1..], sep)
  }

  /**
   Python's `s.split(sep)` for a non-empty separator, as the left-to-right scan
   it performs: where `sep` starts, the current piece ends and the scan resumes
   after `sep`; any other character extends the current piece. There is always
   at least one piece.
   */
  function Split(s: string, sep: string): (parts: seq<string>)
    requires sep != ""
    ensures |parts| >= 1
    decreases |s|
  {
    if StartsWith(s, sep) then [""] + Split(s[|sep|..], sep)
    else if s == [] then [""]
    else
      var rest := Split(s[1..], sep);
      [[s[0]] + rest[0]] + rest[1..]
  }

  /** The last element of a non-empty sequence (Python's `xs[-1]`). */
  function Last<T>(xs: seq<T>): T
    requires |xs| >= 1
  {
    xs[|xs| - 1]
  }

  /** Putting a character in front of the first piece puts it in front of the joined text. */
  lemma JoinExtendFirst(c: char, parts: seq<string>, sep: string)
    requires |parts| >= 1
    ensures Join([[c] + parts[0]] + parts[1..], sep) == [c] + Join(parts, sep)
  {
    var ext := [[c] + parts[0]] + parts[1..];
    assert ext[1..] == parts[1..];
  }

  /** Joining the pieces of `s.split(sep)` back with `sep` gives `s` again. */
  lemma {:induction false} SplitJoin(s: string, sep: string)
    requires sep != ""
    ensures Join(Split(s, sep), sep) == s
    decreases |s|
  {
    if StartsWith(s, sep) {
      var t := s[|sep|..];
      SplitJoin(t, sep);
      assert ([""] + Split(t, sep))[1..] == Split(t, sep);
      assert s == sep + t;
    } else if s != [] {
      SplitJoin(s[1..], sep);
      JoinExtendFirst(s[0], Split(s[1..], sep), sep);
      assert s == [s[0]] + s[1..];
    }
  }

  /** `s.split(sep)` has a single piece, `s` itself, exactly when `sep` does not occur in `s`. */
  lemma {:induction false} SplitSinglePiece(s: string, sep: string)
    requires sep != ""
    ensures |Split(s, sep)| == 1 <==> !Contains(s, sep)
    ensures !Contains(s, sep) ==> Split(s, sep) == [s]
    decreases |s|
  {
    if StartsWith(s, sep) {
      OccursAtStart(s, sep);
      assert OccursAt(s, sep, 0);
    } else if s == [] {
      assert !OccursAt(s, sep, 0);
    } else {
      ContainsPastFirst(s, sep);
      SplitSinglePiece(s[1..], sep);
      assert s == [s[0]] + s[1..];
    }
  }

  /** The first piece of `s.split(sep)` is a prefix of `s`. */
  lemma {:induction false} SplitFirstIsPrefix(s: string, sep: string)
    requires sep != ""
    ensures StartsWith(s, Split(s, sep)[0])
    decreases |s|
  {
    if !StartsWith(s, sep) && s != [] {
      SplitFirstIsPrefix(s[1..], sep);
      var p := Split(s[1..], sep)[0];
      assert s[..|p| + 1] == [s[0]] + s[1..][..|p|];
    }
  }

  /** A prefix of `s` that starts with `sep` makes `s` start with `sep`. */
  lemma PrefixStart(s: string, p: string, sep: string)
    requires StartsWith(s, p)
    requires StartsWith(p, sep)
    ensures StartsWith(s, sep)
  {
    assert s[..|sep|] == p[..|sep|];
  }

  /** No piece returned by `Split` contains the separator. */
  lemma {:induction false} SplitPiecesFree(s: string, sep: string)
    requires sep != ""
    ensures forall k :: 0 <= k < |Split(s, sep)| ==> !Contains(Split(s, sep)[k], sep)
    decreases |s|
  {
    if StartsWith(s, sep) {
      var t := s[|sep|..];
      SplitPiecesFree(t, sep);
      assert !OccursAt("", sep, 0);
      assert forall k :: 1 <= k < |Split(s, sep)| ==> Split(s, sep)[k] == Split(t, sep)[k - 1];
    } else if s == [] {
      assert !OccursAt("", sep, 0);
    } else {
      var rest := Split(s[1..], sep);
      SplitPiecesFree(s[1..], sep);
      var first := [s[0]] + rest[0];
      assert first[1..] == rest[0];
      SplitFirstIsPrefix(s, sep);
      if StartsWith(first, sep) {
        PrefixStart(s, first, sep);
      }
      ContainsPastFirst(first, sep);
      assert forall k :: 1 <= k < |Split(s, sep)| ==> Split(s, sep)[k] == rest[k];
    }
  }

  /** A suffix of a suffix of `s` is a suffix of `s`. */
  lemma EndsWithTrans(s: string, m: nat, suffix: string)
    requires m <= |s|
    requires EndsWith(s[m..], suffix)
    ensures EndsWith(s, suffix)
  {
    assert s[m..][|s| - m - |suffix|..] == s[|s| - |suffix|..];
  }

  /**
   When `sep` occurs in `s`, `s` ends with `sep` followed by the last piece of
   `Split(s, sep)`.
   */
  lemma {:induction false} SplitLastAfterSep(s: string, sep: string)
    requires sep != ""
    requires Contains(s, sep)
    ensures EndsWith(s, sep + Last(Split(s, sep)))
    decreases |s|
  {
    if StartsWith(s, sep) {
      var t := s[|sep|..];
      assert Last(Split(s, sep)) == Last(Split(t, sep));
      if Contains(t, sep) {
        SplitLastAfterSep(t, sep);
        EndsWithTrans(s, |sep|, sep + Last(Split(t, sep)));
      } else {
        SplitSinglePiece(t, sep);
        assert s == sep + t;
      }
    } else {
      ContainsPastFirst(s, sep);
      var rest := Split(s[1..], sep);
      SplitSinglePiece(s[1..], sep);
      assert Last(Split(s, sep)) == Last(rest);
      SplitLastAfterSep(s[1..], sep);
      EndsWithTrans(s, 1, sep + Last(rest));
    }
  }
}
