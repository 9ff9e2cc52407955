/** The rewrite that plants the generated callback name into a JSONP request
    URL, replacing the reserved query value `JSONP_CALLBACK`. */
module CallbackUrl {
  import opened JsString

  /** `=`, between a query parameter's name and its value. */
  const EqualsSign: CodeUnit := 0x3D

  /** `&`, between two query parameters. */
  const Ampersand: CodeUnit := 0x26

  /** The placeholder as a query value: `=JSONP_CALLBACK` (15 code units). */
  const Placeholder: Utf16 := Ascii("=JSONP_CALLBACK")

  /** The placeholder followed by another query parameter: `=JSONP_CALLBACK&`
      (16 code units). */
  const PlaceholderAmp: Utf16 := Ascii("=JSONP_CALLBACK&")

  predicate EndsWith(s: Utf16, p: Utf16) {
    |p| <= |s| && s[|s| - |p|..] == p
  }

  /** The rewrite as the connection performs it when it is subscribed.
      What it does to each kind of URL is stated by `RewriteCases`, and how it
      relates to the regular-expression replacement by
      `RewriteMatchesReference` and `RewriteQuirkWitness`. */
  function Rewrite(url: Utf16, cb: Utf16): Utf16 {
    if IndexOf(url, PlaceholderAmp) > -1 then
      ReplaceFirst(url, PlaceholderAmp, [EqualsSign] + cb + [Ampersand])
    else if LastIndexOf(url, Placeholder) == |url| - |Placeholder| then
      Substring(url, 0, |url| - |Placeholder|) + [EqualsSign] + cb
    else
      url
  }

  lemma RewriteAmpCase(url: Utf16, cb: Utf16)
    requires Contains(url, PlaceholderAmp)
    ensures forall i :: FirstOccurrence(url, PlaceholderAmp, i) ==>
              Rewrite(url, cb) == url[..i] + [EqualsSign] + cb + [Ampersand] + url[i + |PlaceholderAmp|..]
  {
  }

  lemma RewriteSuffixCase(url: Utf16, cb: Utf16)
    requires !Contains(url, PlaceholderAmp) && EndsWith(url, Placeholder)
    ensures Rewrite(url, cb) == url[..|url| - |Placeholder|] + [EqualsSign] + cb
  {
    assert OccursAt(url, Placeholder, |url| - |Placeholder|);
  }

  lemma RewriteNoSuffixCase(url: Utf16, cb: Utf16)
    requires !Contains(url, PlaceholderAmp) && !EndsWith(url, Placeholder)
    ensures |url| != |Placeholder| - 1 ==> Rewrite(url, cb) == url
    ensures |url| == |Placeholder| - 1 ==> Rewrite(url, cb) == [EqualsSign] + cb
  {
    if LastIndexOf(url, Placeholder) == |url| - |Placeholder| {
      assert |url| == |Placeholder| - 1;
    }
  }

  /** What the rewrite does to each kind of URL. The suffix test compares
      `lastIndexOf` with `|url| - 15`; for a URL of 14 code units both sides
      are -1, so that branch is taken and `substring(0, -1)` leaves nothing
      of the URL: the result is `=` + cb. */
  lemma RewriteCases(url: Utf16, cb: Utf16)
    ensures forall i :: FirstOccurrence(url, PlaceholderAmp, i) ==>
              Rewrite(url, cb) == url[..i] + [EqualsSign] + cb + [Ampersand] + url[i + |PlaceholderAmp|..]
    ensures !Contains(url, PlaceholderAmp) && EndsWith(url, Placeholder) ==>
              Rewrite(url, cb) == url[..|url| - |Placeholder|] + [EqualsSign] + cb
    ensures !Contains(url, PlaceholderAmp) && !EndsWith(url, Placeholder) && |url| != |Placeholder| - 1 ==>
              Rewrite(url, cb) == url
    ensures |url| == |Placeholder| - 1 ==> Rewrite(url, cb) == [EqualsSign] + cb
  {
    if Contains(url, PlaceholderAmp) {
      RewriteAmpCase(url, cb);
    } else if EndsWith(url, Placeholder) {
      RewriteSuffixCase(url, cb);
    } else {
      RewriteNoSuffixCase(url, cb);
    }
  }

  /** A match of the regular expression `/=JSONP_CALLBACK(&|$)/` at `i`:
      the placeholder followed by `&` or by the end of the URL. */
  predicate DelimitedAt(url: Utf16, i: int) {
    OccursAt(url, Placeholder, i) &&
    (i + |Placeholder| == |url| || url[i + |Placeholder|] == Ampersand)
  }

  predicate FirstDelimited(url: Utf16, i: int) {
    DelimitedAt(url, i) && forall j :: 0 <= j < i ==> !DelimitedAt(url, j)
  }

  /** The single regular-expression replacement the two-branch code stands in
      for: the leftmost `=JSONP_CALLBACK` that is followed by `&` or ends the
      URL becomes `=` + cb, and a URL with no such match is left alone. */
  ghost function ReferenceRewrite(url: Utf16, cb: Utf16): Utf16 {
    if exists i :: FirstDelimited(url, i) then
      var i :| FirstDelimited(url, i);
      url[..i] + [EqualsSign] + cb + url[i + |Placeholder|..]
    else
      url
  }

  lemma FirstDelimitedIsUnique(url: Utf16, i: int, j: int)
    requires FirstDelimited(url, i) && FirstDelimited(url, j)
    ensures i == j
  {
  }

  /** A delimited placeholder is either an `=JSONP_CALLBACK&` occurrence or
      the suffix `=JSONP_CALLBACK`. */
  lemma DelimitedCases(url: Utf16, i: int)
    requires DelimitedAt(url, i)
    ensures OccursAt(url, PlaceholderAmp, i) || (i == |url| - |Placeholder| && EndsWith(url, Placeholder))
  {
    if i + |Placeholder| < |url| {
      assert url[i..i + |PlaceholderAmp|] == url[i..i + |Placeholder|] + [url[i + |Placeholder|]];
    }
  }

  lemma ReferenceAt(url: Utf16, cb: Utf16, i: int)
    requires FirstDelimited(url, i)
    ensures ReferenceRewrite(url, cb) == url[..i] + [EqualsSign] + cb + url[i + |Placeholder|..]
  {
    var k :| FirstDelimited(url, k);
    FirstDelimitedIsUnique(url, i, k);
  }

  lemma ReferenceNone(url: Utf16, cb: Utf16)
    requires forall i :: 0 <= i <= |url| ==> !DelimitedAt(url, i)
    ensures ReferenceRewrite(url, cb) == url
  {
  }

  /** The first `=JSONP_CALLBACK&` is the first delimited placeholder. */
  lemma AmpIsFirstDelimited(url: Utf16, i: int)
    requires FirstOccurrence(url, PlaceholderAmp, i)
    ensures FirstDelimited(url, i)
  {
    assert url[i..i + |Placeholder|] == url[i..i + |PlaceholderAmp|][..|Placeholder|];
    forall j | 0 <= j < i
      ensures !DelimitedAt(url, j)
    {
      if DelimitedAt(url, j) {
        DelimitedCases(url, j);
      }
    }
  }

  /** With `=JSONP_CALLBACK&` present, its first occurrence is the first match. */
  lemma RewriteMatchesReferenceAmp(url: Utf16, cb: Utf16)
    requires Contains(url, PlaceholderAmp)
    ensures Rewrite(url, cb) == ReferenceRewrite(url, cb)
  {
    var i := IndexOf(url, PlaceholderAmp);
    var before, after := url[..i], url[i + |PlaceholderAmp|..];
    RewriteAmpCase(url, cb);
    assert Rewrite(url, cb) == before + [EqualsSign] + cb + [Ampersand] + after;
    AmpIsFirstDelimited(url, i);
    ReferenceAt(url, cb, i);
    assert url[i + |Placeholder|..] == [Ampersand] + after;
    assert before + [EqualsSign] + cb + [Ampersand] + after == before + [EqualsSign] + cb + ([Ampersand] + after);
  }

  /** Without `=JSONP_CALLBACK&`, a trailing placeholder is the only match. */
  lemma RewriteMatchesReferenceSuffix(url: Utf16, cb: Utf16)
    requires !Contains(url, PlaceholderAmp) && EndsWith(url, Placeholder)
    ensures Rewrite(url, cb) == ReferenceRewrite(url, cb)
  {
    var k := |url| - |Placeholder|;
    RewriteSuffixCase(url, cb);
    assert OccursAt(url, Placeholder, k);
    forall j | 0 <= j < k
      ensures !DelimitedAt(url, j)
    {
      if DelimitedAt(url, j) {
        DelimitedCases(url, j);
      }
    }
    ReferenceAt(url, cb, k);
  }

  lemma NoDelimited(url: Utf16)
    requires !Contains(url, PlaceholderAmp) && !EndsWith(url, Placeholder)
    ensures forall j :: 0 <= j <= |url| ==> !DelimitedAt(url, j)
  {
    forall j | 0 <= j <= |url|
      ensures !DelimitedAt(url, j)
    {
      if DelimitedAt(url, j) {
        DelimitedCases(url, j);
      }
    }
  }

  /** Apart from the quirk on URLs of 14 code units, the connection's rewrite is exactly
      the regular-expression replacement. */
  lemma {:induction false} RewriteMatchesReference(url: Utf16, cb: Utf16)
    requires |url| != |Placeholder| - 1
    ensures Rewrite(url, cb) == ReferenceRewrite(url, cb)
  {
    if Contains(url, PlaceholderAmp) {
      RewriteMatchesReferenceAmp(url, cb);
    } else if EndsWith(url, Placeholder) {
      RewriteMatchesReferenceSuffix(url, cb);
    } else {
      RewriteNoSuffixCase(url, cb);
      NoDelimited(url);
      ReferenceNone(url, cb);
    }
  }

  /** A URL of 14 code units without any placeholder is not left alone: the
      whole URL is dropped and only `=` + cb remains. */
  lemma RewriteQuirkWitness()
    ensures Rewrite(Ascii("http://x.io/?a"), Ascii("cb")) == Ascii("=cb")
    ensures ReferenceRewrite(Ascii("http://x.io/?a"), Ascii("cb")) == Ascii("http://x.io/?a")
  {
    var url, cb := Ascii("http://x.io/?a"), Ascii("cb");
    RewriteCases(url, cb);
    assert [EqualsSign] + cb == Ascii("=cb");
    forall j | 0 <= j <= |url|
      ensures !DelimitedAt(url, j)
    {
    }
    ReferenceNone(url, cb);
  }

  /** `http://x/?` followed by U+1F600 (the surrogate pair D83D DE00). */
  function AstralUrl(): Utf16 {
    Ascii("http://x/?") + [0xD83D, 0xDE00]
  }

  /** The quirk counts code units, not characters: `http://x/?😀ab` has 13
      characters but 14 code units and loses the whole URL, while
      `http://x/?😀abc` has 14 characters but 15 code units and is kept. */
  lemma RewriteQuirkCountsCodeUnits()
    ensures Rewrite(AstralUrl() + Ascii("ab"), Ascii("cb")) == Ascii("=cb")
    ensures Rewrite(AstralUrl() + Ascii("abc"), Ascii("cb")) == AstralUrl() + Ascii("abc")
  {
    var cb := Ascii("cb");
    RewriteCases(AstralUrl() + Ascii("ab"), cb);
    assert [EqualsSign] + cb == Ascii("=cb");
    var long := AstralUrl() + Ascii("abc");
    assert !Contains(long, PlaceholderAmp);
    assert long[|long| - |Placeholder|..][0] != Placeholder[0];
    RewriteCases(long, cb);
  }

  /** The rewrite with the suffix test written as intended: the suffix
      branch is taken only when the URL really ends with the placeholder. */
  function RewriteIntended(url: Utf16, cb: Utf16): (r: Utf16)
    ensures !Contains(url, PlaceholderAmp) && !EndsWith(url, Placeholder) ==> r == url
  {
    if IndexOf(url, PlaceholderAmp) > -1 then
      ReplaceFirst(url, PlaceholderAmp, [EqualsSign] + cb + [Ampersand])
    else if LastIndexOf(url, Placeholder) != -1 && LastIndexOf(url, Placeholder) == |url| - |Placeholder| then
      Substring(url, 0, |url| - |Placeholder|) + [EqualsSign] + cb
    else
      assert EndsWith(url, Placeholder) ==> OccursAt(url, Placeholder, |url| - |Placeholder|);
      url
  }

  /** The corrected rewrite is the regular-expression replacement on every URL. */
  lemma {:induction false} RewriteIntendedMatchesReference(url: Utf16, cb: Utf16)
    ensures RewriteIntended(url, cb) == ReferenceRewrite(url, cb)
  {
    if |url| == |Placeholder| - 1 {
      forall j | 0 <= j <= |url|
        ensures !DelimitedAt(url, j)
      {
      }
      ReferenceNone(url, cb);
    } else {
      RewriteMatchesReference(url, cb);
    }
  }
}
