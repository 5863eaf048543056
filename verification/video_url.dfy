/**
 * The link normaliser of `handleLoadVideo` in client/src/pages/room.tsx:
 * YouTube watch and short links become embed links; anything else is kept.
 */
module VideoUrl {
  import opened Wrappers
  import opened Text

  const WatchKey: string := "youtube.com/watch?v="
  const ShortKey: string := "youtu.be/"
  const EmbedPrefix: string := "https://www.youtube.com/embed/"

  /** The usual forms of a watch link and a short link. */
  const WatchPrefix: string := "https://www.youtube.com/watch?v="
  const ShortPrefix: string := "https://youtu.be/"

  /** `url.split(key)[1]?.split(stop)[0]`. */
  function IdAfter(url: string, key: string, stop: string): Option<string>
    requires |key| > 0 && |stop| > 0
  {
    match SplitSecond(url, key)
    case None => None
    case Some(after) => Some(SplitHead(after, stop))
  }

  /** `if (videoId) finalUrl = embed + videoId`: an empty or missing id keeps `url`. */
  function EmbedOr(url: string, id: Option<string>): string {
    if id.Some? && id.value != "" then EmbedPrefix + id.value else url
  }

  /**
   * The URL `handleLoadVideo` sets and emits for a non-empty input. Only a
   * link containing a watch or short key is rewritten, and then only to an
   * embed link with a non-empty id.
   */
  function Normalize(url: string): (r: string)
    ensures !Contains(url, WatchKey) && !Contains(url, ShortKey) ==> r == url
    ensures r != url ==> |r| > |EmbedPrefix| && r[..|EmbedPrefix|] == EmbedPrefix
    ensures Contains(url, WatchKey) && IdAfter(url, "v=", "&") in {None, Some("")} ==> r == url
    ensures !Contains(url, WatchKey) && Contains(url, ShortKey) && IdAfter(url, ShortKey, "?") in {None, Some("")} ==>
              r == url
  {
    if Contains(url, WatchKey) then EmbedOr(url, IdAfter(url, "v=", "&"))
    else if Contains(url, ShortKey) then EmbedOr(url, IdAfter(url, ShortKey, "?"))
    else url
  }

  /** The characters of a YouTube video id. */
  predicate IsIdChar(c: char) {
    ('a' <= c <= 'z') || ('A' <= c <= 'Z') || ('0' <= c <= '9') || c == '_' || c == '-'
  }

  /**
   * Cutting `id + rest` at `key` and then at `stop` gives back `id` when
   * neither occurs in `id` and `rest` is empty or starts with `stop`.
   */
  lemma CutAtStop(id: string, rest: string, key: string, stop: char)
    requires |key| > 0 && stop !in key
    requires !Contains(id, key) && forall i :: 0 <= i < |id| ==> id[i] != stop
    requires rest == [] || rest[0] == stop
    ensures SplitHead(SplitHead(id + rest, key), [stop]) == id
  {
    NoOccurrenceAcross(id, rest, key);
    IndexOfShift(id, rest, key);
    var h := SplitHead(id + rest, key);
    var k := IndexOf(rest, key);
    var t := if k < 0 then rest else rest[..k];
    assert h == id + t by {
      if k >= 0 {
        assert (id + rest)[..|id| + k] == id + rest[..k];
      }
    }
    AbsentCharExcludes(id, [stop], stop);
    SplitHeadStopsAt(id, t, [stop]);
  }

  /** The first occurrence of `pat` in `a + pat + b` is right after `a` when `a` lacks `pat`'s first character. */
  lemma FirstAfter(a: string, pat: string, b: string)
    requires |pat| > 0
    requires forall i :: 0 <= i < |a| ==> a[i] != pat[0]
    ensures IndexOf(a + pat + b, pat) == |a|
    ensures SplitSecond(a + pat + b, pat) == Some(SplitHead(b, pat))
  {
    assert a + pat + b == a + (pat + b);
    NoStartInside(a, pat + b, pat);
    IndexOfShift(a, pat + b, pat);
    assert (pat + b)[0..|pat|] == pat;
    assert OccursAt(pat + b, pat, 0);
    assert (a + pat + b)[|a| + |pat|..] == b;
  }

  /** A link holding the watch key becomes the embed link of what its first `v=` introduces, up to `&`. */
  lemma WatchCase(url: string, id: string)
    requires Contains(url, WatchKey) && id != []
    requires SplitSecond(url, "v=").Some? && SplitHead(SplitSecond(url, "v=").value, "&") == id
    ensures Normalize(url) == EmbedPrefix + id
  {
  }

  /** A link holding the short key but not the watch key becomes the embed link of what follows the key, up to `?`. */
  lemma ShortCase(url: string, id: string)
    requires !Contains(url, WatchKey) && Contains(url, ShortKey) && id != []
    requires SplitSecond(url, ShortKey).Some? && SplitHead(SplitSecond(url, ShortKey).value, "?") == id
    ensures Normalize(url) == EmbedPrefix + id
  {
  }

  /** A watch link holds the watch key, and its first `v=` is the one ending the prefix. */
  lemma WatchPrefixSplit(tail: string)
    ensures Contains(WatchPrefix + tail, WatchKey)
    ensures SplitSecond(WatchPrefix + tail, "v=") == Some(SplitHead(tail, "v="))
  {
    WatchPrefixHoldsKey(tail);
    var a := "https://www.youtube.com/watch?";
    WatchHeadLacksV();
    assert WatchPrefix == a + "v=";
    assert WatchPrefix + tail == a + "v=" + tail;
    FirstAfter(a, "v=", tail);
  }

  /** No `v` comes before the `v=` of a watch link. */
  lemma WatchHeadLacksV()
    ensures forall i :: 0 <= i < |"https://www.youtube.com/watch?"| ==> "https://www.youtube.com/watch?"[i] != 'v'
  {
    var scheme, host, path := "https://", "www.youtube.com/", "watch?";
    assert forall i :: 0 <= i < |scheme| ==> scheme[i] != 'v';
    assert forall i :: 0 <= i < |host| ==> host[i] != 'v';
    assert forall i :: 0 <= i < |path| ==> path[i] != 'v';
    AbsentFromBoth(scheme, host, 'v');
    AbsentFromBoth(scheme + host, path, 'v');
    assert scheme + host + path == "https://www.youtube.com/watch?";
  }

  lemma WatchPrefixHoldsKey(tail: string)
    ensures Contains(WatchPrefix + tail, WatchKey)
  {
    var url := WatchPrefix + tail;
    assert url[12..32] == WatchPrefix[12..32];
    assert WatchPrefix[12..32] == WatchKey;
    assert OccursAt(url, WatchKey, 12);
  }

  /** A watch link `…watch?v=<id>` followed by nothing or by `&…` becomes the embed link of `id`. */
  lemma WatchLinkEmbedded(id: string, rest: string)
    requires id != [] && forall i :: 0 <= i < |id| ==> IsIdChar(id[i])
    requires rest == [] || rest[0] == '&'
    ensures Normalize(WatchPrefix + id + rest) == EmbedPrefix + id
  {
    assert WatchPrefix + id + rest == WatchPrefix + (id + rest);
    WatchPrefixSplit(id + rest);
    WatchIdCut(id, rest);
    WatchCase(WatchPrefix + id + rest, id);
  }

  /** A watch link with nothing between `v=` and the next `&` yields no id, so it is kept as it is. */
  lemma WatchEmptyIdKept(rest: string)
    requires rest == [] || rest[0] == '&'
    ensures Normalize(WatchPrefix + rest) == WatchPrefix + rest
  {
    WatchPrefixSplit(rest);
    CutAtStop("", rest, "v=", '&');
    assert "" + rest == rest;
    assert IdAfter(WatchPrefix + rest, "v=", "&") == Some("");
  }

  /** After the first `v=`, the id is cut back out at `&`. */
  lemma WatchIdCut(id: string, rest: string)
    requires forall i :: 0 <= i < |id| ==> IsIdChar(id[i])
    requires rest == [] || rest[0] == '&'
    ensures SplitHead(SplitHead(id + rest, "v="), "&") == id
  {
    AbsentCharExcludes(id, "v=", '=');
    CutAtStop(id, rest, "v=", '&');
  }

  /** A short link holds the short key, and what follows its first occurrence is the rest of the link. */
  lemma ShortPrefixSplit(tail: string)
    ensures SplitSecond(ShortPrefix + tail, ShortKey) == Some(SplitHead(tail, ShortKey))
  {
    var a := "https://";
    assert ShortPrefix == a + ShortKey;
    assert ShortPrefix + tail == a + ShortKey + tail;
    FirstAfter(a, ShortKey, tail);
  }

  /** A short link `youtu.be/<id>` followed by nothing or by `?…` becomes the embed link of `id`. */
  lemma ShortLinkEmbedded(id: string, rest: string)
    requires id != [] && forall i :: 0 <= i < |id| ==> IsIdChar(id[i])
    requires rest == [] || rest[0] == '?'
    requires !Contains(ShortPrefix + id + rest, WatchKey)
    ensures Normalize(ShortPrefix + id + rest) == EmbedPrefix + id
  {
    var url := ShortPrefix + id + rest;
    assert url == ShortPrefix + (id + rest);
    ShortPrefixSplit(id + rest);
    ShortIdCut(id, rest);
    ShortCase(url, id);
  }

  /** After the short key, the id is cut back out at `?`. */
  lemma ShortIdCut(id: string, rest: string)
    requires forall i :: 0 <= i < |id| ==> IsIdChar(id[i])
    requires rest == [] || rest[0] == '?'
    ensures SplitHead(SplitHead(id + rest, ShortKey), "?") == id
  {
    assert ShortKey[8] == '/';
    AbsentCharExcludes(id, ShortKey, '/');
    CutAtStop(id, rest, ShortKey, '?');
  }
}
