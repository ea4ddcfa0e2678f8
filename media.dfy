/**
 * How the pages turn a product's stored media reference into something to show.
 * The reference is an opaque string (a Google Drive link, typically). The file id
 * is the text after the first "id=" (up to the next "id="); when that is missing or
 * empty, the storefront pages fall back to the first match of the regular
 * expression /\/d\/(.+?)\//. An id yields the image-proxy URL, no id yields a
 * placeholder. The vendor page uses the "id=" rule alone.
 */
module Media {
  import opened Wrappers

  const IdMarker: string := "id="
  const DriveMarker: string := "/d/"
  const ProxyStem: string := "/proxy/image?"
  const ProxyPath: string := ProxyStem + IdMarker

  /** `pat` occurs in `s` starting at position `i`. */
  predicate OccursAt(s: string, pat: string, i: int) {
    0 <= i && i + |pat| <= |s| && s[i..i + |pat|] == pat
  }

  ghost predicate Contains(s: string, pat: string) {
    exists i :: OccursAt(s, pat, i)
  }

  predicate EndsWith(s: string, suffix: string) {
    |suffix| <= |s| && s[|s| - |suffix|..] == suffix
  }

  /** The characters at which JavaScript's `.` stops matching. */
  predicate LineTerminator(c: char) {
    c == '\n' || c == '\r' || c == '\U{2028}' || c == '\U{2029}'
  }

  /** `s.indexOf(pat, from)`: the first occurrence at or after `from`. */
  function IndexOf(s: string, pat: string, from: nat): (r: Option<nat>)
    requires |pat| > 0
    ensures r.Some? ==> from <= r.value && OccursAt(s, pat, r.value)
    ensures r.Some? ==> forall k :: from <= k < r.value ==> !OccursAt(s, pat, k)
    ensures r.None? ==> forall k :: from <= k ==> !OccursAt(s, pat, k)
    decreases |s| - from
  {
    if from + |pat| > |s| then None
    else if s[from..from + |pat|] == pat then Some(from)
    else IndexOf(s, pat, from + 1)
  }

  /**
   * `s.split('id=')[1]`: the text between the first "id=" and the next one, or the
   * end of `s`; `undefined` (None) when `s` has no "id=".
   */
  function IdSegment(s: string): (r: Option<string>)
    ensures r.None? <==> !Contains(s, IdMarker)
    ensures r.Some? ==> !Contains(r.value, IdMarker)
    ensures r.Some? ==> IdTextIs(s, r.value)
  {
    match IndexOf(s, IdMarker, 0)
    case None => None
    case Some(i) =>
      assert |IdMarker| == 3;
      match IndexOf(s, IdMarker, i + 3)
      case None =>
        var x := s[i + 3..];
        SegmentFree(s, i + 3, |s|);
        assert FirstMarkerBefore(s, i, x);
        Some(x)
      case Some(j) =>
        var x := s[i + 3..j];
        SegmentFree(s, i + 3, j);
        assert FirstMarkerBefore(s, i, x);
        Some(x)
  }

  /**
   * `i` is the first "id=" of `s`, `x` follows it immediately, no "id=" starts inside
   * `x`, and `x` runs to the end of `s` or to the next "id=".
   */
  ghost predicate FirstMarkerBefore(s: string, i: int, x: string) {
    && OccursAt(s, IdMarker, i)
    && (forall k :: 0 <= k < i ==> !OccursAt(s, IdMarker, k))
    && i + 3 + |x| <= |s|
    && s[i + 3..i + 3 + |x|] == x
    && (forall k :: i + 3 <= k < i + 3 + |x| ==> !OccursAt(s, IdMarker, k))
    && (i + 3 + |x| == |s| || OccursAt(s, IdMarker, i + 3 + |x|))
  }

  /** `x` is the text that follows the first "id=" of `s`. */
  ghost predicate IdTextIs(s: string, x: string) {
    exists i :: FirstMarkerBefore(s, i, x)
  }

  /** `s` has no "id=", or nothing follows its first "id=" before the next one. */
  ghost predicate NoIdText(s: string) {
    forall x :: IdTextIs(s, x) ==> x == ""
  }

  /** The text after the first "id=" is exactly what `split('id=')[1]` gives. */
  lemma IdSegmentOf(s: string, i: int, x: string)
    requires FirstMarkerBefore(s, i, x)
    ensures IdSegment(s) == Some(x)
  {
    assert |IdMarker| == 3;
    var first := IndexOf(s, IdMarker, 0);
    assert first == Some(i);
    var e := i + 3 + |x|;
    var next := IndexOf(s, IdMarker, i + 3);
    if e == |s| {
      assert next.None?;
      assert s[i + 3..] == x;
    } else {
      assert next == Some(e);
    }
  }

  lemma IdSegmentDetermined(s: string)
    ensures forall i, x :: FirstMarkerBefore(s, i, x) ==> IdSegment(s) == Some(x)
  {
    forall i, x | FirstMarkerBefore(s, i, x) ensures IdSegment(s) == Some(x) {
      IdSegmentOf(s, i, x);
    }
  }

  /** A stretch of `s` in which no "id=" starts holds no "id=" as a string of its own. */
  lemma SegmentFree(s: string, lo: nat, hi: nat)
    requires lo <= hi <= |s|
    requires forall k :: lo <= k < hi ==> !OccursAt(s, IdMarker, k)
    ensures !Contains(s[lo..hi], IdMarker)
  {
    assert |IdMarker| == 3;
    forall k | 0 <= k && k + 3 <= hi - lo
      ensures OccursAt(s[lo..hi], IdMarker, k) ==> OccursAt(s, IdMarker, lo + k)
    {
      var u, v := s[lo..hi][k..k + 3], s[lo + k..lo + k + 3];
      assert u[0] == v[0] && u[1] == v[1] && u[2] == v[2];
      assert u == v;
    }
  }

  /** No character of `s` in `lo..hi` is a line terminator. */
  predicate NoTerminator(s: string, lo: nat, hi: nat)
    requires lo <= hi <= |s|
  {
    forall k :: lo <= k < hi ==> !LineTerminator(s[k])
  }

  /**
   * The match of /\/d\/(.+?)\// that starts at `p`, as the text its group captures:
   * at least one character, then lazily up to the next "/", never across a line
   * terminator. It finds a group exactly when there is one, and only that one.
   */
  function DriveMatchAt(s: string, p: nat): (r: Option<string>)
    ensures r.Some? ==> DriveGroupAt(s, p, r.value)
  {
    if OccursAt(s, DriveMarker, p) && p + 3 < |s| then
      match IndexOf(s, "/", p + 4)
      case None => None
      case Some(j) =>
        if NoTerminator(s, p + 3, j) then
          SlashEndsGroup(s, p, j);
          Some(s[p + 3..j])
        else None
    else None
  }

  /**
   * `g` is what the regular expression captures at `p`: "/d/" at `p`, then `g` (not
   * empty, no "/" after its first character, no line terminator), then "/".
   */
  ghost predicate DriveGroupAt(s: string, p: nat, g: string) {
    && OccursAt(s, DriveMarker, p)
    && |g| >= 1
    && p + 3 + |g| < |s|
    && s[p + 3..p + 3 + |g|] == g
    && s[p + 3 + |g|] == '/'
    && (forall k :: 1 <= k < |g| ==> g[k] != '/')
    && (forall k :: 0 <= k < |g| ==> !LineTerminator(g[k]))
  }

  /** Up to the first "/" after its first character, with no line terminator on the way, is a group. */
  lemma SlashEndsGroup(s: string, p: nat, j: nat)
    requires OccursAt(s, DriveMarker, p) && p + 3 < |s|
    requires IndexOf(s, "/", p + 4) == Some(j)
    requires NoTerminator(s, p + 3, j)
    ensures DriveGroupAt(s, p, s[p + 3..j])
  {
    var g := s[p + 3..j];
    assert s[j..j + 1] == "/";
    forall k | 1 <= k < |g| ensures g[k] != '/' {
      assert g[k] == s[p + 3 + k];
      assert !OccursAt(s, "/", p + 3 + k);
      assert s[p + 3 + k..p + 4 + k] == [s[p + 3 + k]];
    }
    forall k | 0 <= k < |g| ensures !LineTerminator(g[k]) {
      assert g[k] == s[p + 3 + k];
    }
  }

  /** A group at `p` ends at the first "/" after its first character. */
  lemma GroupEndsAtNextSlash(s: string, p: nat, g: string)
    requires DriveGroupAt(s, p, g)
    ensures IndexOf(s, "/", p + 4) == Some(p + 3 + |g|)
    ensures NoTerminator(s, p + 3, p + 3 + |g|)
  {
    var j := p + 3 + |g|;
    assert s[j..j + 1] == [s[j]];
    assert OccursAt(s, "/", j);
    forall k | p + 4 <= k < j ensures !OccursAt(s, "/", k) {
      assert s[k] == g[k - p - 3];
      assert s[k..k + 1] == [s[k]];
    }
    forall k | p + 3 <= k < j ensures !LineTerminator(s[k]) {
      assert s[k] == g[k - p - 3];
    }
    var r := IndexOf(s, "/", p + 4);
    assert r == Some(j);
  }

  /** The match at each `p` finds every group there is at `p` (so there is at most one). */
  lemma DriveMatchComplete(s: string)
    ensures forall p: nat, g :: DriveGroupAt(s, p, g) ==> DriveMatchAt(s, p) == Some(g)
  {
    forall p: nat, g | DriveGroupAt(s, p, g) ensures DriveMatchAt(s, p) == Some(g) {
      GroupEndsAtNextSlash(s, p, g);
    }
  }

  /** `g` is the group of the leftmost match: it is captured at some `p`, and nothing matches before `p`. */
  ghost predicate LeftmostGroup(s: string, g: string) {
    exists p: nat :: DriveGroupAt(s, p, g) && forall k: nat, h :: k < p ==> !DriveGroupAt(s, k, h)
  }

  /** The regular expression matches nowhere in `s`. */
  ghost predicate NoDriveGroup(s: string) {
    forall p: nat, g :: !DriveGroupAt(s, p, g)
  }

  /** The leftmost position at or after `from` where the regular expression matches. */
  function DriveStart(s: string, from: nat): (r: Option<nat>)
    ensures r.Some? ==> from <= r.value && DriveMatchAt(s, r.value).Some?
    ensures r.Some? ==> forall k :: from <= k < r.value ==> DriveMatchAt(s, k).None?
    ensures r.None? ==> forall k :: from <= k ==> DriveMatchAt(s, k).None?
    decreases |s| - from
  {
    if from >= |s| then None
    else if DriveMatchAt(s, from).Some? then Some(from)
    else DriveStart(s, from + 1)
  }

  /** `s.match(/\/d\/(.+?)\//)?.[1]`: the group of the leftmost match, or none when nothing matches. */
  function DriveGroup(s: string): (r: Option<string>)
    ensures r.Some? ==> |r.value| >= 1 && LeftmostGroup(s, r.value)
    ensures r.None? <==> NoDriveGroup(s)
  {
    DriveMatchComplete(s);
    match DriveStart(s, 0)
    case None => None
    case Some(p) =>
      var r := DriveMatchAt(s, p);
      assert DriveGroupAt(s, p, r.value);
      r
  }

  /**
   * The file id of the storefront pages:
   * `media ? media.split('id=')[1] || media.match(/\/d\/(.+?)\//)?.[1] : null`,
   * with every falsy outcome (null, undefined, "") as None: the non-empty text after
   * the first "id=", else the group of the leftmost "/d/.../" match, else nothing.
   */
  function FileId(media: Option<string>): (r: Option<string>)
    ensures r.Some? ==> r.value != ""
    ensures media.None? || media == Some("") ==> r.None?
    ensures media.Some? ==> forall x :: IdTextIs(media.value, x) && x != "" ==> r == Some(x)
    ensures media.Some? && media.value != "" && NoIdText(media.value) ==>
      (r.Some? ==> LeftmostGroup(media.value, r.value)) && (r.None? <==> NoDriveGroup(media.value))
  {
    match media
    case None => None
    case Some(m) =>
      IdSegmentDetermined(m);
      if m == "" then None
      else match IdSegment(m)
        case Some(x) => if x != "" then Some(x) else DriveGroup(m)
        case None => DriveGroup(m)
  }

  /**
   * The file id of the vendor page: `media ? media.split('id=')[1] : null`: the
   * non-empty text after the first "id=", and nothing otherwise (no fallback).
   */
  function VendorFileId(media: Option<string>): (r: Option<string>)
    ensures r.Some? ==> r.value != "" && !Contains(r.value, IdMarker)
    ensures media.Some? ==> forall x :: IdTextIs(media.value, x) && x != "" ==> r == Some(x)
    ensures media.None? || NoIdText(media.value) ==> r.None?
  {
    match media
    case None => None
    case Some(m) =>
      IdSegmentDetermined(m);
      if m == "" then None
      else match IdSegment(m)
        case Some(x) => if x != "" then Some(x) else None
        case None => None
  }

  function ProxyUrl(origin: string, id: string): string {
    origin + ProxyPath + id
  }

  /** `fileId ? `${BASE_URL}/proxy/image?id=${fileId}` : placeholder`. */
  function MediaUrl(origin: string, placeholder: string, id: Option<string>): string {
    match id
    case Some(x) => ProxyUrl(origin, x)
    case None => placeholder
  }

  /** `media && (media.endsWith('.mp4') || media.endsWith('.webm'))`. */
  predicate IsVideo(media: Option<string>) {
    media.Some? && (EndsWith(media.value, ".mp4") || EndsWith(media.value, ".webm"))
  }

  // ---- Properties ---------------------------------------------------------

  /**
   * Building the proxy URL and reading its "id=" back gives the same file id, on
   * every page, when the origin holds no "id=" and the id holds none either.
   */
  lemma ProxyUrlRoundTrip(origin: string, id: string)
    requires !Contains(origin, IdMarker)
    requires id != "" && !Contains(id, IdMarker)
    ensures IdSegment(ProxyUrl(origin, id)) == Some(id)
    ensures FileId(Some(ProxyUrl(origin, id))) == Some(id)
    ensures VendorFileId(Some(ProxyUrl(origin, id))) == Some(id)
  {
    var url, n := ProxyUrl(origin, id), |origin|;
    assert |IdMarker| == 3 && |ProxyStem| == 13;
    assert url[n + 13..n + 16] == IdMarker;
    forall k | 0 <= k < n + 13 ensures !OccursAt(url, IdMarker, k) {
      if k + 3 <= n {
        NoMarkerInOrigin(origin, id, k);
      } else {
        NoMarkerInStem(origin, id, k);
      }
    }
    forall k | n + 16 <= k < |url| ensures !OccursAt(url, IdMarker, k) {
      NoMarkerInId(origin, id, k);
    }
    assert url[n + 16..n + 16 + |id|] == id;
    assert FirstMarkerBefore(url, n + 13, id);
    IdSegmentOf(url, n + 13, id);
  }

  lemma NoMarkerInOrigin(origin: string, id: string, k: int)
    requires !Contains(origin, IdMarker)
    requires 0 <= k && k + 3 <= |origin|
    ensures !OccursAt(ProxyUrl(origin, id), IdMarker, k)
  {
    assert ProxyUrl(origin, id)[k..k + 3] == origin[k..k + 3];
    assert !OccursAt(origin, IdMarker, k);
  }

  /** An "id=" that starts in the last two characters of the origin or in "/proxy/image?" would need an "=" there. */
  lemma NoMarkerInStem(origin: string, id: string, k: int)
    requires 0 <= k && |origin| - 2 <= k < |origin| + 13
    ensures !OccursAt(ProxyUrl(origin, id), IdMarker, k)
  {
    var url, n := ProxyUrl(origin, id), |origin|;
    assert |ProxyStem| == 13 && |IdMarker| == 3;
    var c := url[k + 2];
    if k + 2 < n + 13 {
      assert c == ProxyStem[k + 2 - n];
      assert '=' !in ProxyStem;
    } else {
      assert c == IdMarker[k + 2 - n - 13];
      assert c == 'i' || c == 'd';
    }
    assert c != '=';
    if k + 3 <= |url| {
      assert url[k..k + 3][2] == c;
    }
  }

  lemma NoMarkerInId(origin: string, id: string, k: int)
    requires !Contains(id, IdMarker)
    requires |origin| + 16 <= k
    ensures !OccursAt(ProxyUrl(origin, id), IdMarker, k)
  {
    var url, n := ProxyUrl(origin, id), |origin|;
    assert |ProxyPath| == 16;
    if k + 3 <= |url| {
      assert url[k..k + 3] == id[k - n - 16..k - n - 13];
      assert !OccursAt(id, IdMarker, k - n - 16);
    }
  }

  /**
   * No file id gives the placeholder. A file id gives a proxy URL from which both
   * pages read the same file id back, provided neither the origin nor the id holds
   * "id=" (an id taken from an "id=" parameter never does).
   */
  lemma MediaUrlFromMedia(origin: string, placeholder: string, media: Option<string>)
    requires !Contains(origin, IdMarker)
    ensures FileId(media).None? ==> MediaUrl(origin, placeholder, FileId(media)) == placeholder
    ensures FileId(media).Some? && !Contains(FileId(media).value, IdMarker) ==>
      var url := MediaUrl(origin, placeholder, FileId(media));
      FileId(Some(url)) == FileId(media) && VendorFileId(Some(url)) == FileId(media)
  {
    if FileId(media).Some? && !Contains(FileId(media).value, IdMarker) {
      ProxyUrlRoundTrip(origin, FileId(media).value);
    }
  }

  /** Whenever the vendor page finds a file id, the storefront pages find the same one. */
  lemma VendorAgreesWhenFound(media: Option<string>)
    requires VendorFileId(media).Some?
    ensures FileId(media) == VendorFileId(media)
  {
  }

  /**
   * Whenever a reference has no usable "id=" text but does match the regular
   * expression, the storefront pages show the leftmost match's group and the vendor
   * page shows its placeholder.
   */
  lemma VendorLacksFallback(m: string)
    requires NoIdText(m) && !NoDriveGroup(m)
    ensures VendorFileId(Some(m)).None?
    ensures FileId(Some(m)).Some? && LeftmostGroup(m, FileId(Some(m)).value)
  {
    assert m != "";
  }

  /**
   * A bare Drive link: the storefront pages take the id from the "/d/.../" part, the
   * vendor page finds none and shows its placeholder.
   */
  lemma DriveLinkWithoutIdParameter()
    ensures FileId(Some("/d/x/")) == Some("x")
    ensures VendorFileId(Some("/d/x/")) == None
  {
    var s := "/d/x/";
    assert !Contains(s, IdMarker) by {
      forall k | 0 <= k && k + 3 <= |s| ensures !OccursAt(s, IdMarker, k) {
        assert s[k..k + 3][0] == s[k] != IdMarker[0];
      }
    }
    assert OccursAt(s, "/", 4);
    assert IndexOf(s, "/", 4) == Some(4);
    assert OccursAt(s, DriveMarker, 0);
    assert s[3] == 'x' && !LineTerminator(s[3]);
    assert s[3..4] == "x";
    assert DriveMatchAt(s, 0) == Some("x");
    assert DriveStart(s, 0) == Some(0);
  }

  /** Only references ending in ".mp4" or ".webm" are shown as video. */
  lemma VideoByExtension(name: string)
    ensures IsVideo(Some(name + ".mp4")) && IsVideo(Some(name + ".webm"))
    ensures !IsVideo(Some(name + ".png")) && !IsVideo(None)
  {
    var mp4, webm, png := name + ".mp4", name + ".webm", name + ".png";
    assert mp4[|mp4| - 4..] == ".mp4";
    assert webm[|webm| - 5..] == ".webm";
    assert png[|png| - 1] == 'g';
  }
}
