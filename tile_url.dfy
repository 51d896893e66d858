/** The service worker's recogniser for tile requests (sw.js): the pattern
    `/(\d+)/(\d+)/(\d+)\.png$` applied to a request URL, and the cache key built from
    its three groups. */
module TileUrl {
  import opened Wrappers
  import opened Digits

  /** The three digit groups the pattern captures, as written in the URL. */
  datatype Captures = Captures(z: string, x: string, y: string)

  predicate ValidCaptures(c: Captures) {
    IsNumeral(c.z) && IsNumeral(c.x) && IsNumeral(c.y)
  }

  /** The text the pattern matches for the groups `c`. */
  function Suffix(c: Captures): string {
    "/" + c.z + "/" + c.x + "/" + c.y + ".png"
  }

  predicate EndsWith(s: string, t: string) {
    |t| <= |s| && s[|s| - |t|..] == t
  }

  /** A string is its first part followed by its last `n` characters. */
  lemma SplitOffEnd(s: string, n: nat)
    requires n <= |s|
    ensures s == s[..|s| - n] + s[|s| - n..]
  {
  }

  /** The length of the run of digits that ends `s`. */
  function TrailingDigits(s: string): (n: nat)
    ensures n <= |s|
    ensures AllDigits(s[|s| - n..])
    ensures n < |s| ==> !IsDigit(s[|s| - n - 1])
  {
    if s == [] || !IsDigit(s[|s| - 1]) then 0
    else
      var n := TrailingDigits(s[..|s| - 1]) + 1;
      assert s[|s| - n..] == s[..|s| - 1][|s| - n..] + [s[|s| - 1]];
      n
  }

  /** `s` as `rest + "/" + digits`, where the digits run to the end of `s` and the
      slash stands right before them: one `/(\d+)` step of the pattern, taken from
      the right. None when `s` does not end that way. */
  function SplitSegment(s: string): (r: Option<(string, string)>)
    ensures r.Some? ==> IsNumeral(r.value.1) && s == r.value.0 + "/" + r.value.1
  {
    var n := TrailingDigits(s);
    if n == 0 || n == |s| || s[|s| - n - 1] != '/' then None
    else
      var r := (s[..|s| - n - 1], s[|s| - n..]);
      assert s == r.0 + "/" + r.1;
      Some(r)
  }

  /** A slash followed by digits at the end of a string is always the split found. */
  lemma SplitSegmentOf(p: string, d: string)
    requires IsNumeral(d)
    ensures SplitSegment(p + "/" + d) == Some((p, d))
  {
    var s := p + "/" + d;
    var n := TrailingDigits(s);
    assert s[|s| - |d|..] == d;
    assert n <= |d| by {
      assert s[|p|] == '/';
    }
    assert n >= |d|;
    assert s[..|s| - |d| - 1] == p;
  }

  /** Three slash-and-digits steps and ".png" put back together. */
  lemma SuffixJoin(url: string, body: string, r3: string, r2: string, r1: string, c: Captures)
    requires url == body + ".png" && body == r3 + "/" + c.y
    requires r3 == r2 + "/" + c.x && r2 == r1 + "/" + c.z
    ensures url == r1 + Suffix(c) && EndsWith(url, Suffix(c))
  {
    assert url == r1 + Suffix(c);
    assert url[|url| - |Suffix(c)|..] == Suffix(c);
  }

  /** The groups of `/(\d+)/(\d+)/(\d+)\.png$` in `url`, or None when the URL does
      not end that way. The groups hold no '/', so the match is read off from the
      right: ".png", then three slash-and-digits steps. */
  function ParseTileUrl(url: string): (r: Option<Captures>)
    ensures r.Some? ==> ValidCaptures(r.value) && EndsWith(url, Suffix(r.value))
  {
    if |url| < 4 || url[|url| - 4..] != ".png" then None
    else
      var yStep := SplitSegment(url[..|url| - 4]);
      if yStep.None? then None
      else
        var xStep := SplitSegment(yStep.value.0);
        if xStep.None? then None
        else
          var zStep := SplitSegment(xStep.value.0);
          if zStep.None? then None
          else
            var c := Captures(zStep.value.1, xStep.value.1, yStep.value.1);
            SplitOffEnd(url, 4);
            SuffixJoin(url, url[..|url| - 4], yStep.value.0, xStep.value.0, zStep.value.0, c);
            Some(c)
  }

  /** Whether the service worker intercepts a request for `url` (sw.js:40). */
  predicate Intercepts(url: string) {
    ParseTileUrl(url).Some?
  }

  /** The steps ParseTileUrl takes on a URL ending in `Suffix(c)`. */
  lemma SuffixSteps(p: string, c: Captures)
    requires ValidCaptures(c)
    ensures var url := p + Suffix(c);
      && |url| >= 4 && url[|url| - 4..] == ".png"
      && SplitSegment(url[..|url| - 4]) == Some((p + "/" + c.z + "/" + c.x, c.y))
      && SplitSegment(p + "/" + c.z + "/" + c.x) == Some((p + "/" + c.z, c.x))
      && SplitSegment(p + "/" + c.z) == Some((p, c.z))
  {
    var url := p + Suffix(c);
    var r3 := p + "/" + c.z + "/" + c.x;
    assert url[|url| - 4..] == ".png";
    assert url[..|url| - 4] == r3 + "/" + c.y;
    SplitSegmentOf(r3, c.y);
    SplitSegmentOf(p + "/" + c.z, c.x);
    SplitSegmentOf(p, c.z);
  }

  /** Every URL that ends in "/digits/digits/digits.png" is intercepted, with exactly
      those digit strings as groups; with the ensures of ParseTileUrl this makes the
      recogniser match precisely the pattern. */
  lemma ParseSuffix(p: string, c: Captures)
    requires ValidCaptures(c)
    ensures ParseTileUrl(p + Suffix(c)) == Some(c)
  {
    SuffixSteps(p, c);
  }

  /** The key sw.js derives: the three groups joined by '/', unchanged. */
  function SwKey(c: Captures): string {
    c.z + "/" + c.x + "/" + c.y
  }

  /** Equal service-worker keys come from equal groups. */
  lemma SwKeyInjective(c1: Captures, c2: Captures)
    requires ValidCaptures(c1) && ValidCaptures(c2)
    ensures SwKey(c1) == SwKey(c2) <==> c1 == c2
  {
    if SwKey(c1) == SwKey(c2) {
      JoinInjective(c1.z, c1.x, c1.y, c2.z, c2.x, c2.y);
    }
  }
}
