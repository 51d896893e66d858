/** The tile key codec of the page (index.php): a tile's cache key "z/x/y" and the
    tile URL the page builds from the OpenStreetMap template. */
module TileKey {
  import opened Digits

  /** One raster tile of the slippy-map quad-tree at zoom `z`. */
  datatype Tile = Tile(z: nat, x: nat, y: nat)

  function DigitChar(d: nat): (c: char)
    requires d < 10
    ensures IsDigit(c) && c as int - '0' as int == d
  {
    ('0' as int + d) as char
  }

  /** The text a JavaScript template literal gives for the non-negative integer `n`. */
  function Decimal(n: nat): string {
    if n < 10 then [DigitChar(n)] else Decimal(n / 10) + [DigitChar(n % 10)]
  }

  /** The text of a number is decimal digits, with no sign and no leading zero. */
  lemma {:induction false} DecimalNumeral(n: nat)
    ensures IsNumeral(Decimal(n))
    ensures Decimal(n)[0] == '0' ==> Decimal(n) == "0"
    ensures n == 0 <==> Decimal(n) == "0"
  {
    if n >= 10 {
      var d := Decimal(n / 10);
      DecimalNumeral(n / 10);
      assert Decimal(n) == d + [DigitChar(n % 10)];
      assert Decimal(n)[0] == d[0];
    }
  }

  /** The number a string of digits denotes (a reference reading, used to show that
      `Decimal` loses nothing). */
  function DigitsValue(s: string): int {
    if s == [] then 0 else DigitsValue(s[..|s| - 1]) * 10 + (s[|s| - 1] as int - '0' as int)
  }

  lemma {:induction false} DecimalValue(n: nat)
    ensures DigitsValue(Decimal(n)) == n
  {
    if n >= 10 {
      var s := Decimal(n);
      assert s[..|s| - 1] == Decimal(n / 10);
      DecimalValue(n / 10);
    }
  }

  lemma DecimalInjective(a: nat, b: nat)
    ensures Decimal(a) == Decimal(b) ==> a == b
  {
    DecimalValue(a);
    DecimalValue(b);
  }

  /** The cache key both writers of the store use: decimal z, x and y joined by '/'. */
  function Key(t: Tile): string {
    Decimal(t.z) + "/" + Decimal(t.x) + "/" + Decimal(t.y)
  }

  /** Equal keys name the same tile: the key scheme is injective, so a tile cached by
      one writer is never mistaken for another. */
  lemma KeyInjective(t1: Tile, t2: Tile)
    ensures Key(t1) == Key(t2) <==> t1 == t2
  {
    if Key(t1) == Key(t2) {
      DecimalNumeral(t1.z); DecimalNumeral(t1.x);
      DecimalNumeral(t2.z); DecimalNumeral(t2.x);
      JoinInjective(Decimal(t1.z), Decimal(t1.x), Decimal(t1.y), Decimal(t2.z), Decimal(t2.x), Decimal(t2.y));
      DecimalInjective(t1.z, t2.z);
      DecimalInjective(t1.x, t2.x);
      DecimalInjective(t1.y, t2.y);
    }
  }

  /** JavaScript's `String.prototype.replace` with a string pattern: the first
      occurrence of `pat` is replaced by `rep`; without one, `s` is returned as is. */
  function ReplaceFirst(s: string, pat: string, rep: string): string
    requires pat != []
  {
    if |s| < |pat| then s
    else if pat <= s then rep + s[|pat|..]
    else [s[0]] + ReplaceFirst(s[1..], pat, rep)
  }

  /** Whether `pat` occurs in `s` starting at index `i`. */
  predicate OccursAt(s: string, pat: string, i: nat) {
    i + |pat| <= |s| && s[i..i + |pat|] == pat
  }

  /** An occurrence in the text after its first character is one in the whole text, one
      place further on. */
  lemma OccursShift(s: string, pat: string, j: nat)
    requires s != []
    ensures OccursAt(s[1..], pat, j) <==> OccursAt(s, pat, j + 1)
  {
    if j + 1 + |pat| <= |s| {
      assert s[1..][j..j + |pat|] == s[j + 1..j + 1 + |pat|];
    }
  }

  /** A prefix test is an occurrence at index 0. */
  lemma PrefixOccurs(s: string, pat: string)
    ensures pat <= s <==> OccursAt(s, pat, 0)
  {
    if |pat| <= |s| {
      assert s[0..|pat|] == s[..|pat|];
    }
  }

  /** `replace` rewrites the first occurrence of the pattern and nothing else: the text
      before it and after it is kept as it was. */
  lemma {:induction false} ReplaceFirstOccurrence(s: string, pat: string, rep: string, i: nat)
    requires pat != [] && OccursAt(s, pat, i)
    requires forall j :: 0 <= j < i ==> !OccursAt(s, pat, j)
    ensures ReplaceFirst(s, pat, rep) == s[..i] + rep + s[i + |pat|..]
  {
    PrefixOccurs(s, pat);
    if i > 0 {
      var t := s[1..];
      forall j | 0 <= j < i - 1 ensures !OccursAt(t, pat, j) {
        OccursShift(s, pat, j);
      }
      OccursShift(s, pat, i - 1);
      ReplaceFirstOccurrence(t, pat, rep, i - 1);
      calc {
        ReplaceFirst(s, pat, rep);
        [s[0]] + ReplaceFirst(t, pat, rep);
        [s[0]] + (t[..i - 1] + rep + t[i - 1 + |pat|..]);
        ([s[0]] + t[..i - 1]) + rep + t[i - 1 + |pat|..];
        { assert [s[0]] + t[..i - 1] == s[..i]; assert t[i - 1 + |pat|..] == s[i + |pat|..]; }
        s[..i] + rep + s[i + |pat|..];
      }
    } else {
      assert s[..0] == [];
    }
  }

  /** Without an occurrence of the pattern, `replace` returns the text unchanged. */
  lemma {:induction false} ReplaceFirstNoOccurrence(s: string, pat: string, rep: string)
    requires pat != []
    requires forall j :: 0 <= j <= |s| - |pat| ==> !OccursAt(s, pat, j)
    ensures ReplaceFirst(s, pat, rep) == s
  {
    if |s| >= |pat| {
      PrefixOccurs(s, pat);
      var t := s[1..];
      forall j | 0 <= j <= |t| - |pat| ensures !OccursAt(t, pat, j) {
        OccursShift(s, pat, j);
      }
      ReplaceFirstNoOccurrence(t, pat, rep);
      assert [s[0]] + t == s;
    }
  }

  /** When the text before an occurrence of `pat` does not hold the pattern's first
      character, as before each "{…}" placeholder of the template, that occurrence is the
      first one and is the one replaced. */
  lemma ReplaceFirstAfter(p: string, pat: string, q: string, rep: string)
    requires pat != [] && pat[0] !in p
    ensures ReplaceFirst(p + pat + q, pat, rep) == p + rep + q
  {
    var s := p + pat + q;
    forall j | 0 <= j < |p| ensures !OccursAt(s, pat, j) {
      assert s[j] == p[j];
      if j + |pat| <= |s| {
        assert s[j..j + |pat|][0] == s[j];
      }
    }
    assert s[|p|..|p| + |pat|] == pat;
    ReplaceFirstOccurrence(s, pat, rep, |p|);
    assert s[..|p|] == p && s[|p| + |pat|..] == q;
  }

  /** The template's placeholders. They are functions rather than constants so that the
      verifier does not unroll `ReplaceFirst` over literal strings. */
  function SlotS(): string { "{s}" }
  function SlotZ(): string { "{z}" }
  function SlotX(): string { "{x}" }
  function SlotY(): string { "{y}" }

  /** The tile layer's URL template, "https://{s}.tile.openstreetmap.org/{z}/{x}/{y}.png",
      written as its fixed pieces and its placeholders. */
  function UrlTemplate(): string {
    "https://" + SlotS() + HostTail() + "/" + SlotZ() + "/" + SlotX() + "/" + SlotY() + ".png"
  }

  /** The subdomain the prefetcher puts in place of "{s}". */
  const Subdomain: string := "a"

  /** The download URL of a tile as the page computes it: the template with "{s}" set
      to "a" and z, x and y filled in, one replacement after another. */
  function TemplateUrl(t: Tile): string {
    ReplaceFirst(ReplaceFirst(ReplaceFirst(ReplaceFirst(UrlTemplate(), SlotS(), Subdomain),
      SlotZ(), Decimal(t.z)), SlotX(), Decimal(t.x)), SlotY(), Decimal(t.y))
  }

  /** No character of `s` opens a template placeholder. */
  predicate NoBrace(s: string) {
    forall i :: 0 <= i < |s| ==> s[i] != '{'
  }

  lemma NoBraceJoin(a: string, b: string)
    requires NoBrace(a) && NoBrace(b)
    ensures NoBrace(a + b)
  {
    var s := a + b;
    forall i | 0 <= i < |s| ensures s[i] != '{' {
      if i < |a| { assert s[i] == a[i]; } else { assert s[i] == b[i - |a|]; }
    }
  }

  /** Filling one placeholder whose only earlier text is brace-free. */
  lemma FillAfter(p: string, slot: string, q: string, d: string)
    requires NoBrace(p) && NoBrace(d) && slot != [] && slot[0] == '{'
    ensures ReplaceFirst(p + slot + q, slot, d) == p + d + q
    ensures NoBrace(p + d)
  {
    ReplaceFirstAfter(p, slot, q, d);
    NoBraceJoin(p, d);
  }

  /** This lemma, `TemplateLayout` and `JoinUrl` only regroup concatenations; stated over
      variables, they keep the verifier from unrolling `ReplaceFirst` over literals. */
  lemma Regroup(a: string, b: string, c: string, d: string)
    ensures a + (b + c + d) == a + b + c + d
  {
  }

  /** Filling the four placeholders of a template laid out as a S b Z c X e Y f,
      in that order, with brace-free text. */
  lemma FillTemplate(a: string, b: string, c: string, e: string, f: string,
                     sS: string, sZ: string, sX: string, sY: string,
                     s: string, z: string, x: string, y: string)
    requires NoBrace(a) && NoBrace(b) && NoBrace(c) && NoBrace(e)
    requires NoBrace(s) && NoBrace(z) && NoBrace(x) && NoBrace(y)
    requires sS != [] && sZ != [] && sX != [] && sY != []
    requires sS[0] == '{' && sZ[0] == '{' && sX[0] == '{' && sY[0] == '{'
    ensures ReplaceFirst(ReplaceFirst(ReplaceFirst(ReplaceFirst(
              a + sS + (b + sZ + (c + sX + (e + sY + f))), sS, s), sZ, z), sX, x), sY, y)
         == a + s + b + z + c + x + e + y + f
  {
    var p1 := a + s + b;
    FillAfter(a, sS, b + sZ + (c + sX + (e + sY + f)), s);
    Regroup(a + s, b, sZ, c + sX + (e + sY + f));
    NoBraceJoin(a + s, b);
    var p2 := p1 + z + c;
    FillAfter(p1, sZ, c + sX + (e + sY + f), z);
    Regroup(p1 + z, c, sX, e + sY + f);
    NoBraceJoin(p1 + z, c);
    var p3 := p2 + x + e;
    FillAfter(p2, sX, e + sY + f, x);
    Regroup(p2 + x, e, sY, f);
    NoBraceJoin(p2 + x, e);
    FillAfter(p3, sY, f, y);
  }

  /** The host name after the subdomain. */
  function HostTail(): string {
    ".tile.openstreetmap.org"
  }

  /** The host the prefetcher downloads from. */
  function TileHost(): string {
    "https://" + Subdomain + HostTail()
  }

  /** The fixed text around the placeholders opens none, and each placeholder opens with '{'. */
  lemma PiecesBraceFree()
    ensures NoBrace("https://") && NoBrace(HostTail() + "/") && NoBrace("/") && NoBrace(Subdomain)
    ensures SlotS()[0] == SlotZ()[0] == SlotX()[0] == SlotY()[0] == '{'
  {
  }

  /** The template as its brace-free pieces and its four placeholders. */
  lemma TemplateLayout(a: string, sS: string, h: string, sZ: string, sX: string, sY: string, f: string)
    ensures a + sS + h + "/" + sZ + "/" + sX + "/" + sY + f
         == a + sS + (h + "/" + sZ + ("/" + sX + ("/" + sY + f)))
  {
  }

  lemma JoinUrl(a: string, s: string, h: string, z: string, x: string, y: string)
    ensures a + s + (h + "/") + z + "/" + x + "/" + y + ".png"
         == (a + s + h) + "/" + (z + "/" + x + "/" + y) + ".png"
  {
  }

  /** The download URL of a tile: the host, then the key, then ".png". */
  function Url(t: Tile): string {
    TileHost() + "/" + Key(t) + ".png"
  }

  /** The replacements fill in the template as intended: the URL the page requests is
      the host followed by "/z/x/y.png", with the same decimal numbers that make up
      the key. */
  lemma UrlShape(t: Tile)
    ensures TemplateUrl(t) == Url(t)
  {
    var z, x, y := Decimal(t.z), Decimal(t.x), Decimal(t.y);
    DecimalNumeral(t.z); DecimalNumeral(t.x); DecimalNumeral(t.y);
    TemplateLayout("https://", SlotS(), HostTail(), SlotZ(), SlotX(), SlotY(), ".png");
    PiecesBraceFree();
    FillTemplate("https://", HostTail() + "/", "/", "/", ".png",
                 SlotS(), SlotZ(), SlotX(), SlotY(), Subdomain, z, x, y);
    JoinUrl("https://", Subdomain, HostTail(), z, x, y);
  }
}
