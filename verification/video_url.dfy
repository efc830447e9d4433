/**
 Extraction of the video identifier from the URL a client submits
 (backend/app.py:42). The handler does not parse query parameters: it keeps
 whatever follows the last `v=` in the URL, so `...?v=abc&list=x` yields
 `abc&list=x` and `...&dev=1` yields `1`.
 */
module VideoUrl {
  import opened Wrappers
  import opened PyStr

  /** The marker the handler looks for in the URL. */
  const Marker: string := "v="

  /**
   `video_url.split('v=')[-1] if 'v=' in video_url else None`.
   There is an identifier exactly when the URL contains `v=`; it is the suffix
   after the last `v=`, so the URL ends with `v=` followed by it and it contains
   no `v=` of its own.
   */
  function ExtractVideoId(url: string): (r: Option<string>)
    ensures r.Some? <==> Contains(url, Marker)
    ensures r.Some? ==> EndsWith(url, Marker + r.value)
    ensures r.Some? ==> !Contains(r.value, Marker)
  {
    if Contains(url, Marker) then
      var parts := Split(url, Marker);
      SplitLastAfterSep(url, Marker);
      SplitPiecesFree(url, Marker);
      Some(Last(parts))
    else
      None
  }

  /** `v=` cannot overlap itself: two occurrences are at least two characters apart. */
  lemma MarkersApart(s: string, i: int, j: int)
    requires OccursAt(s, Marker, i) && OccursAt(s, Marker, j) && i < j
    ensures i + 2 <= j
  {
    assert s[i + 1] == s[i..i + 2][1] == '=';
    assert s[j] == s[j..j + 2][0] == 'v';
    assert j != i + 1;
  }

  /**
   The identifier follows the LAST occurrence of `v=` in the URL: every
   occurrence starts at or before the one that precedes the identifier.
   */
  lemma {:induction false} VideoIdFollowsLastMarker(url: string, j: int)
    requires ExtractVideoId(url).Some?
    requires OccursAt(url, Marker, j)
    ensures j <= |url| - |ExtractVideoId(url).value| - |Marker|
  {
    var id := ExtractVideoId(url).value;
    var p := |url| - |id| - 2;
    assert url[p..] == Marker + id;
    assert OccursAt(url, Marker, p) by {
      assert url[p..p + 2] == url[p..][..2];
    }
    assert url[p + 2..] == id;
    assert !OccursAt(id, Marker, j - p - 2);
    OccursInSuffix(url, Marker, p + 2, j - p - 2);
    if p < j {
      MarkersApart(url, p, j);
    }
  }

  /**
   An independent characterisation: if `v=` occurs at `i` and the rest of the
   URL after it holds no further `v=`, the identifier is exactly that rest.
   */
  lemma {:induction false} VideoIdUnique(url: string, i: int)
    requires OccursAt(url, Marker, i)
    requires !Contains(url[i + 2..], Marker)
    ensures ExtractVideoId(url) == Some(url[i + 2..])
  {
    assert Contains(url, Marker);
    var id := ExtractVideoId(url).value;
    var p := |url| - |id| - 2;
    VideoIdFollowsLastMarker(url, i);
    assert url[p..] == Marker + id;
    assert OccursAt(url, Marker, p) by {
      assert url[p..p + 2] == url[p..][..2];
    }
    assert !OccursAt(url[i + 2..], Marker, p - i - 2);
    OccursInSuffix(url, Marker, i + 2, p - i - 2);
    if i < p {
      MarkersApart(url, i, p);
    }
    assert p == i;
    assert url[i + 2..] == url[p..][2..] == id;
  }

  /** A plain watch URL yields the identifier after `v=`. */
  lemma VideoIdExampleWatch()
    ensures ExtractVideoId("https://x/watch?v=ABC123") == Some("ABC123")
  {
    var url := "https://x/watch?v=ABC123";
    assert url[16..18] == Marker;
    assert url[18..] == "ABC123";
    NoMarker("ABC123");
    VideoIdUnique(url, 16);
  }

  /** Later query parameters stay in the identifier: no query parsing happens. */
  lemma VideoIdExampleTrailingParameter()
    ensures ExtractVideoId("https://y/watch?v=abc&list=x") == Some("abc&list=x")
  {
    var url := "https://y/watch?v=abc&list=x";
    assert url[16..18] == Marker;
    assert url[18..] == "abc&list=x";
    NoMarker("abc&list=x");
    VideoIdUnique(url, 16);
  }

  /** Any parameter whose name ends in `v` supplies the marker. */
  lemma VideoIdExampleOtherParameter()
    ensures ExtractVideoId("https://y/watch?list=x&dev=1") == Some("1")
  {
    var url := "https://y/watch?list=x&dev=1";
    assert url[25..27] == Marker;
    assert url[27..] == "1";
    NoMarker("1");
    VideoIdUnique(url, 25);
  }

  /** A short link carries no `v=` and yields no identifier. */
  lemma VideoIdExampleShortLink()
    ensures ExtractVideoId("https://youtu.be/ABC123") == None
  {
    NoMarker("https://youtu.be/ABC123");
  }

  /** A string in which no `v` is directly followed by `=` does not contain `v=`. */
  lemma NoMarker(s: string)
    requires forall k :: 0 <= k < |s| - 1 ==> s[k] != 'v' || s[k + 1] != '='
    ensures !Contains(s, Marker)
  {
    forall i | 0 <= i <= |s|
      ensures !OccursAt(s, Marker, i)
    {
      if i + 2 <= |s| {
        assert s[i..i + 2] == [s[i], s[i + 1]];
      }
    }
  }
}
