/** The small decisions the portfolio page (App.tsx) makes while rendering:
    the `tel:` link's phone filter, the technology chips, the project image
    fallback, the project and offer-letter links, and the reveal latch. */
module Site {
  import opened Options
  import opened JsText
  import opened Profile

  // ---------------------------------------------------------------------
  // Phone link
  // ---------------------------------------------------------------------

  /** The characters `/[^0-9+]/g` leaves in place. */
  predicate IsDialChar(c: char) {
    '0' <= c <= '9' || c == '+'
  }

  predicate AllDial(s: string) {
    forall i :: 0 <= i < |s| ==> IsDialChar(s[i])
  }

  /** `phone.replace(/[^0-9+]/g, '')`. */
  function SanitizePhone(s: string): (r: string)
    ensures AllDial(r)
    ensures |r| <= |s|
    decreases |s|
  {
    if |s| == 0 then ""
    else (if IsDialChar(s[0]) then [s[0]] else []) + SanitizePhone(s[1..])
  }

  /** The filter works character by character: it distributes over
      concatenation, so what it keeps stays in its original order. */
  lemma {:induction false} SanitizeAppend(a: string, b: string)
    ensures SanitizePhone(a + b) == SanitizePhone(a) + SanitizePhone(b)
    decreases |a|
  {
    if |a| == 0 {
      assert a + b == b;
    } else {
      assert (a + b)[1..] == a[1..] + b;
      SanitizeAppend(a[1..], b);
    }
  }

  /** A string of digits and `+` is left as it is. */
  lemma {:induction false} SanitizeKeeps(s: string)
    requires AllDial(s)
    ensures SanitizePhone(s) == s
    decreases |s|
  {
    if |s| > 0 {
      SanitizeKeeps(s[1..]);
      assert [s[0]] + s[1..] == s;
    }
  }

  lemma SanitizeIdempotent(s: string)
    ensures SanitizePhone(SanitizePhone(s)) == SanitizePhone(s)
  {
    SanitizeKeeps(SanitizePhone(s));
  }

  /** Every digit and `+` of the input survives, as often as it occurs,
      and nothing else does. */
  lemma {:induction false} SanitizeCounts(s: string, c: char)
    ensures multiset(SanitizePhone(s))[c] == if IsDialChar(c) then multiset(s)[c] else 0
    decreases |s|
  {
    if |s| > 0 {
      SanitizeCounts(s[1..], c);
      assert s == [s[0]] + s[1..];
      assert multiset(s) == multiset([s[0]]) + multiset(s[1..]);
      var kept := if IsDialChar(s[0]) then [s[0]] else [];
      assert multiset(SanitizePhone(s)) == multiset(kept) + multiset(SanitizePhone(s[1..]));
    }
  }

  /** The `href` of the call button. */
  function TelHref(phone: string): (r: string)
    ensures StartsWith(r, "tel:")
    ensures AllDial(r[4..])
    ensures r[4..] == SanitizePhone(phone)
  {
    var r := "tel:" + SanitizePhone(phone);
    assert r[4..] == SanitizePhone(phone);
    r
  }

  // ---------------------------------------------------------------------
  // Project cards
  // ---------------------------------------------------------------------

  /** `technologies.slice(0, 3)`. */
  function TechChips(technologies: seq<string>): (r: seq<string>)
    ensures |r| == if |technologies| < 3 then |technologies| else 3
    ensures r == technologies[..|r|]
  {
    if |technologies| <= 3 then technologies else technologies[..3]
  }

  /** The digits of a natural number, most significant first, as
      JavaScript prints an integral number below 10^21. */
  function Decimal(n: nat): (r: string)
    ensures |r| > 0 && AllDigits(r)
  {
    if n < 10 then [DigitChar(n)] else Decimal(n / 10) + [DigitChar(n % 10)]
  }

  function DigitChar(d: nat): char
    requires d < 10
  {
    ('0' as int + d) as char
  }

  predicate AllDigits(s: string) {
    forall i :: 0 <= i < |s| ==> '0' <= s[i] <= '9'
  }

  /** The inverse of `Decimal`. */
  function ParseDecimal(s: string): nat
    requires AllDigits(s)
  {
    if |s| == 0 then 0
    else ParseDecimal(s[..|s| - 1]) * 10 + (s[|s| - 1] as int - '0' as int)
  }

  lemma {:induction false} DecimalRoundTrip(n: nat)
    ensures ParseDecimal(Decimal(n)) == n
    decreases n
  {
    var r := Decimal(n);
    if n >= 10 {
      DecimalRoundTrip(n / 10);
      assert r[..|r| - 1] == Decimal(n / 10);
    }
  }

  lemma DecimalInjective(m: nat, n: nat)
    requires Decimal(m) == Decimal(n)
    ensures m == n
  {
    DecimalRoundTrip(m);
    DecimalRoundTrip(n);
  }

  const ImageBase: nat := 1550000000000

  const ImagePrefix: string := "https://images.unsplash.com/photo-"

  const ImageQuery: string := "?auto=format&fit=crop&q=80&w=600"

  /** The stock image of the card at position `idx`. */
  function FallbackImage(idx: nat): string {
    ImagePrefix + Decimal(ImageBase + idx) + ImageQuery
  }

  /** `project.imageUrl || <template>`. */
  function ImageSrc(imageUrl: Option<string>, idx: nat): (r: string)
    ensures Truthy(imageUrl) ==> r == imageUrl.value
    ensures !Truthy(imageUrl) ==> r == FallbackImage(idx)
  {
    if Truthy(imageUrl) then imageUrl.value else FallbackImage(idx)
  }

  /** A string framed by a fixed prefix and suffix determines the middle. */
  lemma Unframe(p: string, a: string, b: string, q: string)
    requires p + a + q == p + b + q
    ensures a == b
  {
    var s := p + a + q;
    assert |a| == |b|;
    assert a == s[|p|..|p| + |a|];
    assert b == (p + b + q)[|p|..|p| + |b|];
  }

  /** No two cards share a stock image. */
  lemma FallbackDistinct(i: nat, j: nat)
    requires FallbackImage(i) == FallbackImage(j)
    ensures i == j
  {
    Unframe(ImagePrefix, Decimal(ImageBase + i), Decimal(ImageBase + j), ImageQuery);
    DecimalInjective(ImageBase + i, ImageBase + j);
  }

  /** The button at the foot of a project card. */
  datatype CardAction = Access(href: string) | PrivateRepo

  /** `project.link ? <a href=link> : <placeholder>`. */
  function ProjectAction(p: Project): (r: CardAction)
    ensures r.Access? <==> Truthy(p.link)
    ensures r.Access? ==> r.href == p.link.value
  {
    if Truthy(p.link) then Access(p.link.value) else PrivateRepo
  }

  /** `exp.offerLetter && <a href=offerLetter>`: the target of the
      offer-letter link, if one is rendered. */
  function OfferLink(e: Experience): (r: Option<string>)
    ensures r.Some? <==> Truthy(e.offerLetter)
    ensures r.Some? ==> r == e.offerLetter
  {
    if Truthy(e.offerLetter) then e.offerLetter else None
  }

  // ---------------------------------------------------------------------
  // Reveal latch
  // ---------------------------------------------------------------------

  /** The observer callback: an intersecting entry sets the flag, any
      other entry leaves it alone. */
  function Observe(visible: bool, intersecting: bool): bool {
    if intersecting then true else visible
  }

  /** The flag after a sequence of observer entries, starting hidden. */
  function Latch(entries: seq<bool>): bool
    decreases |entries|
  {
    if |entries| == 0 then false
    else Observe(Latch(entries[..|entries| - 1]), entries[|entries| - 1])
  }

  /** The flag is set exactly when some entry intersected. */
  lemma {:induction false} LatchIff(entries: seq<bool>)
    ensures Latch(entries) <==> exists i :: 0 <= i < |entries| && entries[i]
    decreases |entries|
  {
    if |entries| > 0 {
      var init := entries[..|entries| - 1];
      LatchIff(init);
      if exists i :: 0 <= i < |init| && init[i] {
        var i :| 0 <= i < |init| && init[i];
        assert entries[i];
      }
      if exists i :: 0 <= i < |entries| && entries[i] {
        var i :| 0 <= i < |entries| && entries[i];
        if i < |init| {
          assert init[i];
        }
      }
    }
  }

  /** Once set, the flag stays set whatever entries follow. */
  lemma LatchMonotone(a: seq<bool>, b: seq<bool>)
    requires Latch(a)
    ensures Latch(a + b)
  {
    LatchIff(a);
    var i :| 0 <= i < |a| && a[i];
    assert (a + b)[i];
    LatchIff(a + b);
  }

  /** The flag changes only from hidden to shown, and only on an
      intersecting entry. */
  lemma ObserveMoves(visible: bool, intersecting: bool)
    ensures Observe(visible, intersecting) != visible ==> !visible && intersecting
  {
  }
}
