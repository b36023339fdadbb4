/** `cleanDomainName`: the normaliser that turns raw user input into the
    host name every probe receives. */
module Normalizer {
  import opened Lang
  import opened Strings

  const HttpScheme: string := "http://"
  const HttpsScheme: string := "https://"

  /** `cleanDomainName` on a non-null string: trim, lower-case, strip a
      leading `http://`, then a leading `https://`, then cut at the first
      `/`. */
  function Clean(raw: string): (d: string)
    ensures '/' !in d
    ensures HasNoUpper(d)
    ensures |d| <= |raw|
  {
    CutAtSlash(StripSchemes(ToLower(Trim(raw))))
  }

  /** Drops a leading `http://`, then a leading `https://`, from an already
      lower-cased string: a string with neither prefix is kept, `https://`
      alone is cut, and `http://` is cut together with an `https://` right
      after it. */
  function StripSchemes(lowered: string): (r: string)
    ensures |r| <= |lowered| && r == lowered[|lowered| - |r|..]
    ensures !StartsWith(lowered, HttpScheme) && !StartsWith(lowered, HttpsScheme) ==> r == lowered
    ensures StartsWith(lowered, HttpsScheme) ==> r == lowered[8..]
    ensures StartsWith(lowered, HttpScheme) && !StartsWith(lowered[7..], HttpsScheme) ==> r == lowered[7..]
    ensures StartsWith(lowered, HttpScheme) && StartsWith(lowered[7..], HttpsScheme) ==> r == lowered[15..]
  {
    assert StartsWith(lowered, HttpsScheme) ==> !StartsWith(lowered, HttpScheme) by {
      if StartsWith(lowered, HttpsScheme) { assert lowered[4] == 's'; }
    }
    var noHttp := if StartsWith(lowered, HttpScheme) then lowered[|HttpScheme|..] else lowered;
    if StartsWith(noHttp, HttpsScheme) then noHttp[|HttpsScheme|..] else noHttp
  }

  /** The part before the first `/`. */
  function CutAtSlash(s: string): (r: string)
    ensures '/' !in r
    ensures |r| <= |s| && r == s[..|r|]
    ensures |r| < |s| ==> s[|r|] == '/'
  {
    var slash := IndexOf(s, '/');
    if slash != -1 then s[..slash] else s
  }

  /** `cleanDomainName` itself: null maps to null, anything else to a string
      without `/` and without upper-case ASCII letters. */
  function CleanDomainName(domain: Option<string>): (r: Option<string>)
    ensures r.None? <==> domain.None?
    ensures r.Some? ==> '/' !in r.value && HasNoUpper(r.value)
    ensures r.Some? ==> |r.value| <= |domain.value|
  {
    match domain
    case None => None
    case Some(raw) => Some(Clean(raw))
  }

  /** The cleaned form of a string without `/` or upper-case letters is its
      trimmed form. */
  lemma CleanOfClean(d: string)
    requires '/' !in d && HasNoUpper(d)
    ensures Clean(d) == Trim(d)
  {
    var t := Trim(d);
    assert '/' !in t by {
      if '/' in t { TrimKeepsChars(d, '/'); }
    }
    assert HasNoUpper(t) by {
      forall i | 0 <= i < |t|
        ensures !('A' <= t[i] <= 'Z')
      {
        TrimKeepsChars(d, t[i]);
      }
    }
    LowerOfLower(t);
    SchemesHaveSlash(t);
  }

  lemma SchemesHaveSlash(t: string)
    ensures StartsWith(t, HttpScheme) ==> |t| > 5 && t[5] == '/'
    ensures StartsWith(t, HttpsScheme) ==> |t| > 6 && t[6] == '/'
  {
    if StartsWith(t, HttpScheme) {
      assert t[5] == t[..7][5];
    }
    if StartsWith(t, HttpsScheme) {
      assert t[6] == t[..8][6];
    }
  }

  /** Cleaning twice equals trimming the once-cleaned value: the second pass
      only removes white space the first pass exposed. */
  lemma CleanTwice(raw: string)
    ensures Clean(Clean(raw)) == Trim(Clean(raw))
  {
    CleanOfClean(Clean(raw));
  }

  /** Hence cleaning is idempotent on an input exactly when its cleaned form
      has nothing left to trim. */
  lemma CleanIdempotentIff(raw: string)
    ensures Clean(Clean(raw)) == Clean(raw) <==> Trim(Clean(raw)) == Clean(raw)
  {
    CleanTwice(raw);
  }

  /** Trimming before cleaning changes nothing, as `cleanDomainName`
      trims first anyway. */
  lemma CleanOfTrim(raw: string)
    ensures Clean(Trim(raw)) == Clean(raw)
  {
    TrimFixedPoint(raw);
  }

  /** Cleaning is not idempotent in general: stripping the scheme can expose
      a space that the first trim could not reach. */
  lemma CleanNotIdempotent()
    ensures Clean("http:// x") == " x"
    ensures Clean(Clean("http:// x")) == "x"
  {
    var raw := "http:// x";
    assert TrimStart(raw) == raw;
    assert TrimEnd(raw) == raw;
    var lowered := ToLower(raw);
    assert lowered == raw;
    assert StartsWith(lowered, HttpScheme);
    var rest := lowered[7..];
    assert rest == " x";
    assert !StartsWith(rest, HttpsScheme);
    assert IndexOf(rest, '/') == -1;
    CleanOfClean(" x");
    assert TrimStart(" x") == "x";
    assert TrimEnd("x") == "x";
  }

  /** The scheme and path are dropped and the host lower-cased. */
  lemma CleanExampleUrl()
    ensures Clean("HTTPS://Example.COM/path") == "example.com"
  {
    ExampleUrlTrimAndLower();
    ExampleUrlStrip();
  }

  lemma ExampleUrlTrimAndLower()
    ensures ToLower(Trim("HTTPS://Example.COM/path")) == "https://example.com/path"
  {
    var raw := "HTTPS://Example.COM/path";
    assert TrimStart(raw) == raw;
    assert TrimEnd(raw) == raw;
  }

  lemma ExampleUrlStrip()
    ensures CutAtSlash(StripSchemes("https://example.com/path")) == "example.com"
  {
    var lowered := "https://example.com/path";
    var rest := "example.com/path";
    assert !StartsWith(lowered, HttpScheme) by { assert lowered[4] != ':'; }
    assert StartsWith(lowered, HttpsScheme);
    assert lowered[8..] == rest;
    assert !StartsWith(rest, HttpsScheme) by { assert rest[0] != 'h'; }
    assert rest[..11] == "example.com";
    IndexOfIsFirst(rest, '/', 11);
  }

  /** `http://` is stripped before `https://`, so `http://https://` loses
      both schemes ... */
  lemma CleanHttpThenHttps()
    ensures Clean("http://https://x") == "x"
  {
    var a := "http://https://x";
    assert TrimStart(a) == a && TrimEnd(a) == a;
    assert ToLower(a) == a;
    assert StartsWith(a, HttpScheme);
    assert a[7..] == "https://x";
    assert StartsWith(a[7..], HttpsScheme);
    assert a[7..][8..] == "x";
    assert IndexOf("x", '/') == -1;
  }

  /** ... while `https://http://` keeps the inner scheme's name as the
      host. */
  lemma CleanHttpsThenHttp()
    ensures Clean("https://http://x") == "http:"
  {
    var b := "https://http://x";
    assert TrimStart(b) == b && TrimEnd(b) == b;
    assert ToLower(b) == b;
    assert !StartsWith(b, HttpScheme) by { assert b[4] != ':'; }
    assert StartsWith(b, HttpsScheme);
    var rest := b[8..];
    assert rest == "http://x";
    assert rest[..5] == "http:";
    IndexOfIsFirst(rest, '/', 5);
  }

  /** A bare scheme cleans to the empty string although the raw input is not
      blank. */
  lemma CleanBareScheme()
    ensures Trim("http://") != []
    ensures Clean("http://") == []
  {
    var raw := "http://";
    assert TrimStart(raw) == raw && TrimEnd(raw) == raw;
    assert ToLower(raw) == raw;
    assert StartsWith(raw, HttpScheme);
    assert raw[7..] == [];
  }
}
