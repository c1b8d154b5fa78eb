/** Domain normalisation (`format_domain` and the trailing-slash strip that
    `check_directories` applies right after it). */
module Domains {
  import opened PyStr

  /** The string starts with one of the two schemes the tool recognises. */
  predicate HasScheme(s: string)
  {
    StartsWith(s, "http://") || StartsWith(s, "https://")
  }

  /** `format_domain`: a domain without a recognised scheme gets `https://`
      in front; one that has it is returned as it is. */
  function FormatDomain(domain: string): (r: string)
    ensures HasScheme(r)
    ensures HasScheme(domain) ==> r == domain
    ensures !HasScheme(domain) ==> r == "https://" + domain
  {
    if HasScheme(domain) then domain
    else
      assert ("https://" + domain)[..8] == "https://";
      "https://" + domain
  }

  /** What follows the scheme: the part the slash strip can eat into. */
  function Host(domain: string): (h: string)
    ensures FormatDomain(domain) == SchemeOf(domain) + h
  {
    if StartsWith(domain, "https://") then
      assert domain[4] == 's';
      domain[8..]
    else if StartsWith(domain, "http://") then domain[7..]
    else domain
  }

  /** The scheme that `FormatDomain` keeps or supplies. */
  function SchemeOf(domain: string): string
  {
    if StartsWith(domain, "http://") then "http://" else "https://"
  }

  /** The domain a scan works against: formatted, then every trailing `/`
      removed. The result never ends in `/`, and it is what remains of the
      formatted domain once a run of slashes is cut off its end. */
  function NormalizeDomain(domain: string): (r: string)
    ensures 5 <= |r| && r[|r| - 1] != '/'
    ensures |r| <= |FormatDomain(domain)| && r == FormatDomain(domain)[..|r|]
    ensures forall i :: |r| <= i < |FormatDomain(domain)| ==> FormatDomain(domain)[i] == '/'
  {
    var f := FormatDomain(domain);
    var r := RStrip(f, {'/'});
    SchemeSurvives(domain);
    r
  }

  /** Stripping slashes never cuts into the scheme's name and colon. */
  lemma SchemeSurvives(domain: string)
    ensures 5 <= |RStrip(FormatDomain(domain), {'/'})|
  {
    var f := FormatDomain(domain);
    assert f[4] == ':' || f[5] == ':';
  }

  /** Formatting twice is formatting once. */
  lemma FormatDomainIdempotent(domain: string)
    ensures FormatDomain(FormatDomain(domain)) == FormatDomain(domain)
  {
  }

  /** When something other than `/` follows the scheme, the scheme survives
      the slash strip and only the host's trailing slashes are removed. */
  lemma SchemeKept(domain: string, i: nat)
    requires i < |Host(domain)| && Host(domain)[i] != '/'
    ensures HasScheme(NormalizeDomain(domain))
    ensures NormalizeDomain(domain) == SchemeOf(domain) + RStrip(Host(domain), {'/'})
  {
    var sc, h := SchemeOf(domain), Host(domain);
    RStripAppend(sc, h, {'/'}, i);
    var r := sc + RStrip(h, {'/'});
    assert r[..|sc|] == sc;
    if sc == "http://" {
      assert StartsWith(r, "http://");
    } else {
      assert StartsWith(r, "https://");
    }
  }

  /** When only slashes follow the scheme, the strip eats both slashes of
      `://` as well and leaves `https:` or `http:`, which has no scheme. */
  lemma SchemeLost(domain: string)
    requires forall i :: 0 <= i < |Host(domain)| ==> Host(domain)[i] == '/'
    ensures NormalizeDomain(domain) == SchemeOf(domain)[..|SchemeOf(domain)| - 2]
    ensures !HasScheme(NormalizeDomain(domain))
  {
    var f, sc, h, r := FormatDomain(domain), SchemeOf(domain), Host(domain), NormalizeDomain(domain);
    assert forall k :: |sc| <= k < |f| ==> f[k] == h[k - |sc|];
    assert f[|sc| - 1] == '/' && f[|sc| - 2] == '/' && f[|sc| - 3] == ':';
    assert |r| == |sc| - 2;
    assert r == f[..|sc| - 2] == sc[..|sc| - 2];
  }

  /** The scheme survives the slash strip exactly when something other than
      `/` follows it. */
  lemma SchemeKeptIff(domain: string)
    ensures HasScheme(NormalizeDomain(domain)) <==> exists i :: 0 <= i < |Host(domain)| && Host(domain)[i] != '/'
  {
    if exists i :: 0 <= i < |Host(domain)| && Host(domain)[i] != '/' {
      var i :| 0 <= i < |Host(domain)| && Host(domain)[i] != '/';
      SchemeKept(domain, i);
    } else {
      SchemeLost(domain);
    }
  }

  /** Normalising a result that kept its scheme changes nothing. */
  lemma NormalizeIdempotent(domain: string)
    requires HasScheme(NormalizeDomain(domain))
    ensures NormalizeDomain(NormalizeDomain(domain)) == NormalizeDomain(domain)
  {
    var r := NormalizeDomain(domain);
    assert FormatDomain(r) == r;
    RStripUnique(r, {'/'}, r);
  }

  /** `example.com` becomes `https://example.com`. */
  lemma NormalizeBareHost()
    ensures NormalizeDomain("example.com") == "https://example.com"
  {
    var d := "example.com";
    assert d[..7][0] != 'h' && d[..8][0] != 'h';
    assert Host(d) == d;
    RStripUnique(d, {'/'}, d);
    SchemeKept(d, 0);
  }

  /** `http://example.com/` keeps its scheme and loses its slash. */
  lemma NormalizeTrailingSlash()
    ensures NormalizeDomain("http://example.com/") == "http://example.com"
  {
    var d := "http://example.com/";
    assert d[..7] == "http://" && d[..8][4] != 's';
    assert Host(d) == "example.com/";
    RStripUnique("example.com/", {'/'}, "example.com");
    SchemeKept(d, 0);
  }

  /** An all-slash host collapses: `/` becomes `https:`. */
  lemma NormalizeSlashOnly()
    ensures NormalizeDomain("/") == "https:"
  {
    var d := "/";
    assert !StartsWith(d, "http://") && !StartsWith(d, "https://");
    assert Host(d) == d;
    SchemeLost(d);
  }
}
