/**
 * `extract_playlist_id`: the two regular expressions `[?&]list=([a-zA-Z0-9_-]+)`
 * and `playlist\?list=([a-zA-Z0-9_-]+)`, tried in that order with `re.search`,
 * written as leftmost scans followed by a greedy run of identifier characters.
 */
module PlaylistId {
  import opened Wrappers

  /** The character class `[a-zA-Z0-9_-]`. */
  predicate IdChar(c: char) {
    'a' <= c <= 'z' || 'A' <= c <= 'Z' || '0' <= c <= '9' || c == '_' || c == '-'
  }

  /** A playlist reference: a non-empty run of identifier characters. */
  predicate IsId(s: string) {
    |s| > 0 && forall i :: 0 <= i < |s| ==> IdChar(s[i])
  }

  /** The first pattern, `[?&]list=` followed by at least one identifier character, matches at `i`. */
  predicate ListMatchAt(url: string, i: nat) {
    i + 6 < |url| && (url[i] == '?' || url[i] == '&') && url[i + 1..i + 6] == "list=" && IdChar(url[i + 6])
  }

  /** The second pattern, `playlist?list=` followed by at least one identifier character, matches at `i`. */
  predicate PlaylistMatchAt(url: string, i: nat) {
    i + 14 < |url| && url[i..i + 14] == "playlist?list=" && IdChar(url[i + 14])
  }

  /** The greedy group `([a-zA-Z0-9_-]+)`: the longest run of identifier characters from `from` on. */
  function RunFrom(url: string, from: nat): (r: string)
    requires from <= |url|
    ensures from + |r| <= |url| && r == url[from..from + |r|]
    ensures forall k :: 0 <= k < |r| ==> IdChar(r[k])
    ensures from + |r| == |url| || !IdChar(url[from + |r|])
    decreases |url| - from
  {
    if from < |url| && IdChar(url[from]) then [url[from]] + RunFrom(url, from + 1) else ""
  }

  /** A run of identifier characters followed by a non-identifier character (or the end) is the run. */
  lemma {:induction false} RunFromIs(url: string, from: nat, id: string, rest: string)
    requires from <= |url| && url[from..] == id + rest
    requires forall k :: 0 <= k < |id| ==> IdChar(id[k])
    requires rest == [] || !IdChar(rest[0])
    ensures RunFrom(url, from) == id
    decreases |id|
  {
    if |id| == 0 {
      assert from < |url| ==> url[from] == rest[0];
    } else {
      assert url[from] == id[0];
      assert url[from + 1..] == id[1..] + rest;
      RunFromIs(url, from + 1, id[1..], rest);
    }
  }

  /** `re.search` with the first pattern: the leftmost match at or after `from`. */
  function SearchList(url: string, from: nat): (r: Option<nat>)
    requires from <= |url|
    ensures r.Some? ==> from <= r.value && ListMatchAt(url, r.value)
    ensures r.Some? ==> forall j :: from <= j < r.value ==> !ListMatchAt(url, j)
    ensures r.None? ==> forall j :: from <= j ==> !ListMatchAt(url, j)
    decreases |url| - from
  {
    if from == |url| then None
    else if ListMatchAt(url, from) then Some(from)
    else SearchList(url, from + 1)
  }

  /** `re.search` with the second pattern: the leftmost match at or after `from`. */
  function SearchPlaylist(url: string, from: nat): (r: Option<nat>)
    requires from <= |url|
    ensures r.Some? ==> from <= r.value && PlaylistMatchAt(url, r.value)
    ensures r.Some? ==> forall j :: from <= j < r.value ==> !PlaylistMatchAt(url, j)
    ensures r.None? ==> forall j :: from <= j ==> !PlaylistMatchAt(url, j)
    decreases |url| - from
  {
    if from == |url| then None
    else if PlaylistMatchAt(url, from) then Some(from)
    else SearchPlaylist(url, from + 1)
  }

  /** `extract_playlist_id`: the group of the first pattern that matches, else `None`. */
  function Extract(url: string): Option<string> {
    match SearchList(url, 0)
    case Some(i) => Some(RunFrom(url, i + 6))
    case None =>
      match SearchPlaylist(url, 0)
      case Some(i) => Some(RunFrom(url, i + 14))
      case None => None
  }

  /** Wherever the second pattern matches, the first matches too (at its `?`). */
  lemma PlaylistMatchIsListMatch(url: string, i: nat)
    requires PlaylistMatchAt(url, i)
    ensures ListMatchAt(url, i + 8)
  {
    assert url[i + 8] == "playlist?list="[8];
    assert url[i + 9..i + 14] == "playlist?list="[9..14];
  }

  /** The second pattern is never the one that answers: the first has matched whenever it would. */
  lemma SecondPatternSubsumed(url: string)
    ensures SearchList(url, 0).None? ==> SearchPlaylist(url, 0).None?
  {
    var r := SearchPlaylist(url, 0);
    if r.Some? {
      PlaylistMatchIsListMatch(url, r.value);
    }
  }

  /** The result is the maximal identifier run right after the leftmost `?list=` or `&list=` that has one. */
  lemma ExtractLeftmost(url: string, i: nat)
    requires ListMatchAt(url, i)
    requires forall j :: 0 <= j < i ==> !ListMatchAt(url, j)
    ensures Extract(url) == Some(RunFrom(url, i + 6))
    ensures IsId(RunFrom(url, i + 6))
  {
    var r := SearchList(url, 0);
    assert r.Some? && r.value == i;
  }

  /** No playlist id is found exactly when no `?list=` or `&list=` is followed by an identifier character. */
  lemma ExtractNone(url: string)
    ensures Extract(url).None? <==> forall i :: !ListMatchAt(url, i)
  {
    SecondPatternSubsumed(url);
    var r := SearchList(url, 0);
    if r.Some? {
      assert ListMatchAt(url, r.value);
    }
  }

  /** Whatever is returned is a non-empty string of identifier characters taken from the URL. */
  lemma ExtractIsId(url: string)
    ensures Extract(url).Some? ==> IsId(Extract(url).value)
  {
    SecondPatternSubsumed(url);
    var r := SearchList(url, 0);
    if r.Some? {
      ExtractLeftmost(url, r.value);
    }
  }

  /** A bare playlist id, without any `list=` parameter, is not recognised. */
  lemma BareIdRejected(id: string)
    requires IsId(id)
    ensures Extract(id) == None
  {
    forall i: nat ensures !ListMatchAt(id, i) {
      if i < |id| {
        assert IdChar(id[i]);
      }
    }
    ExtractNone(id);
  }

  /**
   * A URL whose query starts with `list=<id>` yields `<id>`, for instance
   * `https://www.youtube.com/playlist?list=<id>` or `...?list=<id>&index=3`.
   */
  /** In such a URL the first pattern matches at the separator and nowhere before it. */
  lemma QueryMatch(prefix: string, sep: char, id: string, rest: string)
    requires '?' !in prefix && '&' !in prefix
    requires sep == '?' || sep == '&'
    requires IsId(id)
    ensures var url := prefix + [sep] + "list=" + id + rest;
      && ListMatchAt(url, |prefix|)
      && (forall j :: 0 <= j < |prefix| ==> !ListMatchAt(url, j))
      && url[|prefix| + 6..] == id + rest
  {
    var url := prefix + [sep] + "list=" + id + rest;
    var i := |prefix|;
    assert url[i..] == [sep] + "list=" + id + rest;
    assert url[i + 1..i + 6] == "list=";
    assert url[i + 6] == id[0];
    forall j | 0 <= j < i ensures !ListMatchAt(url, j) {
      assert url[j] == prefix[j];
    }
    assert url[i + 6..] == id + rest;
  }

  lemma ExtractFromQuery(prefix: string, sep: char, id: string, rest: string)
    requires '?' !in prefix && '&' !in prefix
    requires sep == '?' || sep == '&'
    requires IsId(id)
    requires rest == [] || !IdChar(rest[0])
    ensures Extract(prefix + [sep] + "list=" + id + rest) == Some(id)
  {
    var url := prefix + [sep] + "list=" + id + rest;
    var i := |prefix|;
    QueryMatch(prefix, sep, id, rest);
    ExtractLeftmost(url, i);
    RunFromIs(url, i + 6, id, rest);
  }
}
