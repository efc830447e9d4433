/**
 Python's argument-less `str.split()`, used by the handler to count the words
 of the joined transcript (backend/app.py:62,65). Runs of whitespace act as a
 single separator and leading or trailing whitespace yields no empty words.
 */
module Words {
  import opened PyStr

  /**
   Python's `str.isspace()` on one character: the ASCII separators, the
   information separators U+001C..U+001F, and the Unicode space characters.
   */
  predicate IsSpace(c: char) {
    || c == '\t' || c == '\n' || c == '\U{B}' || c == '\U{C}' || c == '\r'
    || ('\U{1C}' <= c <= '\U{1F}') || c == ' ' || c == '\U{85}' || c == '\U{A0}'
    || c == '\U{1680}' || ('\U{2000}' <= c <= '\U{200A}') || c == '\U{2028}'
    || c == '\U{2029}' || c == '\U{202F}' || c == '\U{205F}' || c == '\U{3000}'
  }

  /** `w` holds no whitespace character. */
  predicate NoSpace(w: string) {
    forall k :: 0 <= k < |w| ==> !IsSpace(w[k])
  }

  /** The length of the longest prefix of `s` that holds no whitespace. */
  function WordLen(s: string): (n: nat)
    ensures n <= |s|
    ensures NoSpace(s[..n])
    ensures n < |s| ==> IsSpace(s[n])
    decreases |s|
  {
    if s == [] || IsSpace(s[0]) then 0 else 1 + WordLen(s[1..])
  }

  /**
   Python's `s.split()`: the maximal runs of non-whitespace characters of `s`,
   in order. Every word is non-empty and free of whitespace.
   */
  function Words(s: string): (ws: seq<string>)
    ensures forall k :: 0 <= k < |ws| ==> ws[k] != "" && NoSpace(ws[k])
    decreases |s|
  {
    if s == [] then []
    else if IsSpace(s[0]) then Words(s[1..])
    else
      var n := WordLen(s);
      [s[..n]] + Words(s[n..])
  }

  /** Python's `len(s.split())`. */
  function WordCount(s: string): nat {
    |Words(s)|
  }

  /** The characters of `s` that are not whitespace, in order. */
  function NonSpace(s: string): string
    decreases |s|
  {
    if s == [] then []
    else (if IsSpace(s[0]) then [] else [s[0]]) + NonSpace(s[1..])
  }

  /** Dropping whitespace distributes over concatenation. */
  lemma {:induction false} NonSpaceAppend(a: string, b: string)
    ensures NonSpace(a + b) == NonSpace(a) + NonSpace(b)
    decreases |a|
  {
    if a == [] {
      assert a + b == b;
    } else {
      assert (a + b)[0] == a[0];
      assert (a + b)[1..] == a[1..] + b;
      NonSpaceAppend(a[1..], b);
    }
  }

  /** Dropping whitespace from a word leaves the word. */
  lemma {:induction false} NonSpaceOfWord(w: string)
    requires NoSpace(w)
    ensures NonSpace(w) == w
    decreases |w|
  {
    if w != [] {
      NonSpaceOfWord(w[1..]);
    }
  }

  /**
   The words are exactly the non-whitespace characters of `s`, cut into runs:
   laid end to end (`"".join(s.split())`) they give `s` with its whitespace
   removed.
   */
  lemma {:induction false} WordsCoverText(s: string)
    ensures Join(Words(s), "") == NonSpace(s)
    decreases |s|
  {
    if s == [] {
    } else if IsSpace(s[0]) {
      WordsCoverText(s[1..]);
    } else {
      var n := WordLen(s);
      assert s == s[..n] + s[n..];
      NonSpaceAppend(s[..n], s[n..]);
      NonSpaceOfWord(s[..n]);
      WordsCoverText(s[n..]);
      assert ([s[..n]] + Words(s[n..]))[1..] == Words(s[n..]);
    }
  }

  /**
   A word of `s` starts at index `i`: a non-whitespace character at the start
   of `s` or right after whitespace.
   */
  predicate RunStart(s: string, i: int) {
    0 <= i < |s| && !IsSpace(s[i]) && (i == 0 || IsSpace(s[i - 1]))
  }

  /** The number of indices from `i` on at which a word starts. */
  function RunStartsFrom(s: string, i: nat): nat
    requires i <= |s|
    decreases |s| - i
  {
    if i == |s| then 0 else (if RunStart(s, i) then 1 else 0) + RunStartsFrom(s, i + 1)
  }

  /** The number of maximal runs of non-whitespace in `s`, counted by where they start. */
  function RunStarts(s: string): nat {
    RunStartsFrom(s, 0)
  }

  /**
   Counting in the suffix `s[m..]` agrees with counting in `s` from index `i`
   on, provided the character before `s[m..]` cannot hide a run start at `m`.
   */
  lemma {:induction false} RunStartsShift(s: string, m: nat, i: nat)
    requires m <= i <= |s|
    requires m < i || m == 0 || IsSpace(s[m - 1])
    ensures RunStartsFrom(s, i) == RunStartsFrom(s[m..], i - m)
    decreases |s| - i
  {
    if i < |s| {
      assert RunStart(s, i) <==> RunStart(s[m..], i - m);
      RunStartsShift(s, m, i + 1);
    }
  }

  /** Inside a whitespace-free prefix no word starts after index 0. */
  lemma {:induction false} RunStartsInsideWord(s: string, i: nat, n: nat)
    requires 1 <= i <= n <= |s|
    requires NoSpace(s[..n])
    ensures RunStartsFrom(s, i) == RunStartsFrom(s, n)
    decreases n - i
  {
    if i < n {
      assert s[..n][i - 1] == s[i - 1];
      RunStartsInsideWord(s, i + 1, n);
    }
  }

  /**
   `len(s.split())` is the number of places where a run of non-whitespace
   begins, counted independently of how `Words` cuts the text.
   */
  lemma {:induction false} WordCountIsRunStarts(s: string)
    ensures WordCount(s) == RunStarts(s)
    decreases |s|
  {
    if s == [] {
    } else if IsSpace(s[0]) {
      WordCountIsRunStarts(s[1..]);
      RunStartsShift(s, 1, 1);
    } else {
      var n := WordLen(s);
      WordCountIsRunStarts(s[n..]);
      if n == |s| {
        RunStartsInsideWord(s, 1, n);
        assert s[n..] == [];
      } else {
        RunStartsInsideWord(s, 1, n);
        assert !RunStart(s, n);
        RunStartsShift(s, n, n + 1);
        assert !RunStart(s[n..], 0);
      }
    }
  }

  /** The whitespace-free prefix of `a + b` stops inside `a` unless all of `a` is whitespace-free. */
  lemma {:induction false} WordLenAppend(a: string, b: string)
    ensures WordLen(a + b) == if WordLen(a) < |a| then WordLen(a) else |a| + WordLen(b)
    decreases |a|
  {
    if a == [] {
      assert a + b == b;
    } else {
      assert (a + b)[0] == a[0];
      if !IsSpace(a[0]) {
        assert (a + b)[1..] == a[1..] + b;
        WordLenAppend(a[1..], b);
      }
    }
  }

  /**
   Whitespace between two texts never merges or splits a word: the words of
   `a + [c] + b`, for a whitespace character `c`, are the words of `a` followed
   by the words of `b`.
   */
  lemma {:induction false} WordsAcrossSpace(a: string, c: char, b: string)
    requires IsSpace(c)
    ensures Words(a + [c] + b) == Words(a) + Words(b)
    decreases |a|
  {
    var s := a + [c] + b;
    if a == [] {
      assert s[1..] == b;
    } else if IsSpace(a[0]) {
      assert s[1..] == a[1..] + [c] + b;
      WordsAcrossSpace(a[1..], c, b);
    } else {
      WordsAcrossSpace(a[WordLen(a)..], c, b);
      WordLenAtSpace(c, b);
      WordsAcrossSpaceStep(a, c, b);
    }
  }

  /** A whitespace character ends a word immediately. */
  lemma WordLenAtSpace(c: char, b: string)
    requires IsSpace(c)
    ensures WordLen([c] + b) == 0
  {
  }

  /** A text that starts with a word splits into that word and the words of the rest. */
  lemma WordsFirstWord(s: string)
    requires s != [] && !IsSpace(s[0])
    ensures Words(s) == [s[..WordLen(s)]] + Words(s[WordLen(s)..])
  {
  }

  /** A word of `a` followed by whitespace ends where it ends in `a`. */
  lemma WordLenBeforeSpace(a: string, c: char, b: string)
    requires WordLen([c] + b) == 0
    ensures WordLen(a + [c] + b) == WordLen(a)
  {
    assert a + [c] + b == a + ([c] + b);
    WordLenAppend(a, [c] + b);
  }

  /** Cutting `a + [c] + b` at an index inside `a`. */
  lemma CutInside(a: string, c: char, b: string, n: nat)
    requires n <= |a|
    ensures (a + [c] + b)[..n] == a[..n]
    ensures (a + [c] + b)[n..] == a[n..] + [c] + b
  {
  }

  /** The step of `WordsAcrossSpace` for a text that starts with a word. */
  lemma WordsAcrossSpaceStep(a: string, c: char, b: string)
    requires a != [] && !IsSpace(a[0]) && WordLen([c] + b) == 0
    requires Words(a[WordLen(a)..] + [c] + b) == Words(a[WordLen(a)..]) + Words(b)
    ensures Words(a + [c] + b) == Words(a) + Words(b)
  {
    var s := a + [c] + b;
    var n := WordLen(a);
    WordLenBeforeSpace(a, c, b);
    CutInside(a, c, b, n);
    WordsFirstWord(s);
    WordsFirstWord(a);
    AppendAssoc([a[..n]], Words(a[n..]), Words(b));
  }

  /** Sequence concatenation is associative. */
  lemma AppendAssoc<T>(x: seq<T>, y: seq<T>, z: seq<T>)
    ensures x + (y + z) == (x + y) + z
  {
  }

  /** A whitespace-free prefix of a whitespace-free text reaches its end. */
  lemma {:induction false} WordLenOfWord(w: string)
    requires NoSpace(w)
    ensures WordLen(w) == |w|
    decreases |w|
  {
    if w != [] {
      assert NoSpace(w[1..]) by {
        forall k | 0 <= k < |w| - 1 ensures !IsSpace(w[1..][k]) {
          assert w[1..][k] == w[k + 1];
        }
      }
      WordLenOfWord(w[1..]);
    }
  }

  /**
   A non-empty text without whitespace is a single word. With `Words("") == []`
   and `WordsAcrossSpace`, this fixes `s.split()` on every text: its words are
   exactly the maximal runs of non-whitespace.
   */
  lemma WordsOfWord(w: string)
    requires w != "" && NoSpace(w)
    ensures Words(w) == [w]
  {
    WordLenOfWord(w);
    assert w[..|w|] == w;
    assert w[|w|..] == [];
  }

  /** `"ab c".split()` is `["ab", "c"]`: a run is never cut short. */
  lemma WordsExample()
    ensures Words("ab c") == ["ab", "c"]
  {
    WordsAcrossSpace("ab", ' ', "c");
    WordsOfWord("ab");
    WordsOfWord("c");
    assert "ab" + [' '] + "c" == "ab c";
  }

  /** The words of each text in turn. */
  function WordsOfEach(texts: seq<string>): seq<string>
    decreases |texts|
  {
    if texts == [] then [] else Words(texts[0]) + WordsOfEach(texts[1..])
  }

  /** The sum of the word counts of the texts. */
  function SumWordCounts(texts: seq<string>): nat
    decreases |texts|
  {
    if texts == [] then 0 else WordCount(texts[0]) + SumWordCounts(texts[1..])
  }

  /** The words of `" ".join(texts)` are the words of each text, in order. */
  lemma {:induction false} WordsOfJoin(texts: seq<string>)
    ensures Words(Join(texts, " ")) == WordsOfEach(texts)
    decreases |texts|
  {
    if |texts| == 0 {
    } else if |texts| == 1 {
      assert texts[1..] == [];
    } else {
      WordsAcrossSpace(texts[0], ' ', Join(texts[1..], " "));
      WordsOfJoin(texts[1..]);
    }
  }

  /** Counting the words of each text adds up to counting them all at once. */
  lemma {:induction false} WordsOfEachCount(texts: seq<string>)
    ensures |WordsOfEach(texts)| == SumWordCounts(texts)
    decreases |texts|
  {
    if texts != [] {
      WordsOfEachCount(texts[1..]);
    }
  }

  /**
   `len(" ".join(texts).split())` equals the sum of `len(t.split())` over the
   texts: the count the handler compares with its threshold is additive.
   */
  lemma WordCountOfJoin(texts: seq<string>)
    ensures WordCount(Join(texts, " ")) == SumWordCounts(texts)
  {
    WordsOfJoin(texts);
    WordsOfEachCount(texts);
  }
}
