/** The addon's build-time hook (index.js): allows the configured Solr server's
    scheme and host as a script source in the Content Security Policy, so that
    JSONP responses can be loaded. */
module AddonConfig {
  import opened Wrappers

  /** Whether `sub` occurs in `s` at position `i`. */
  predicate OccursAt(s: string, sub: string, i: int) {
    0 <= i && i + |sub| <= |s| && s[i..i + |sub|] == sub
  }

  /** A one-character string occurs exactly where that character stands. */
  lemma OccursChar(s: string, c: char, j: int)
    ensures OccursAt(s, [c], j) <==> 0 <= j < |s| && s[j] == c
  {
    if 0 <= j < |s| {
      assert s[j..j + 1] == [s[j]];
    }
  }

  function IndexFrom(s: string, sub: string, i: nat): (r: int)
    requires i <= |s|
    ensures r == -1 || (i <= r && OccursAt(s, sub, r))
    ensures forall j | i <= j && (r == -1 || j < r) :: !OccursAt(s, sub, j)
    decreases |s| - i
  {
    if i + |sub| > |s| then -1
    else if s[i..i + |sub|] == sub then i
    else IndexFrom(s, sub, i + 1)
  }

  /** Where `indexOf` starts searching: `from` clamped to `0 .. |s|`. */
  function SearchStart(from: int, len: nat): (r: nat)
    ensures r <= len
    ensures 0 <= from <= len ==> r == from
  {
    if from < 0 then 0 else if from > len then len else from
  }

  /** `s.indexOf(sub, from)`: the first position at or after the clamped start where
      `sub` occurs, or -1. */
  function IndexOf(s: string, sub: string, from: int): (r: int)
    ensures r == -1 || (SearchStart(from, |s|) <= r && OccursAt(s, sub, r))
    ensures forall j | SearchStart(from, |s|) <= j && (r == -1 || j < r) :: !OccursAt(s, sub, j)
  {
    IndexFrom(s, sub, SearchStart(from, |s|))
  }

  /** An empty search string is found at the end of the string when the start lies
      beyond it, and a character is not found there. */
  lemma StartBeyondEnd()
    ensures IndexOf("abc", "", 10) == 3
    ensures IndexOf("abc", "c", 10) == -1
  {
    assert "abc"[3..3] == "";
  }

  /** The part of the configuration the hook returns. */
  datatype Env = Env(scriptSrc: string)

  /** `solrSchemeAndHost`: the URL up to the first `/` found from three characters past
      the first `://`, or the whole URL when no such `/` exists. */
  function SchemeAndHost(url: string): string {
    var hostEnd := IndexOf(url, "/", IndexOf(url, "://", 0) + 3);
    if hostEnd > 0 then url[..hostEnd] else url
  }

  /** `config(environment, appConfig)`, given `appConfig.solrBaseURL` (`None` when it
      is not set): the environment overrides, or `None` when there are none. */
  function Config(solrBaseURL: Option<string>): (r: Option<Env>)
    ensures r.Some? ==> solrBaseURL.Some? && r.value.scriptSrc == "'self' " + SchemeAndHost(solrBaseURL.value)
  {
    if solrBaseURL.None? || solrBaseURL.value == "" || IndexOf(solrBaseURL.value, ":", 0) == -1 then None
    else Some(Env("'self' " + SchemeAndHost(solrBaseURL.value)))
  }

  /** The hook adds nothing exactly when no base URL is configured or it has no `:`. */
  lemma ConfigNoneIff(solrBaseURL: Option<string>)
    ensures Config(solrBaseURL).None? <==>
      solrBaseURL.None? || solrBaseURL.value == "" || ':' !in solrBaseURL.value
  {
    if solrBaseURL.Some? {
      var url := solrBaseURL.value;
      if ':' in url {
        var i :| 0 <= i < |url| && url[i] == ':';
        OccursChar(url, ':', i);
      } else {
        forall j | 0 <= j ensures !OccursAt(url, ":", j) {
          OccursChar(url, ':', j);
        }
      }
    }
  }

  /** The scheme and host are a prefix of the URL that either is the whole URL, or
      stops right before the first `/` after `://`. */
  lemma SchemeAndHostIsPrefix(url: string)
    ensures var host := SchemeAndHost(url);
      && host <= url
      && (host == url || (|host| < |url| && url[|host|] == '/'))
  {
    var start := IndexOf(url, "://", 0) + 3;
    var hostEnd := IndexOf(url, "/", start);
    OccursChar(url, '/', hostEnd);
  }

  /** No `/` lies between three characters past `://` and the end of the host. */
  lemma NoSlashInHost(url: string, j: int)
    requires IndexOf(url, "://", 0) + 3 <= j < |SchemeAndHost(url)|
    ensures url[j] != '/'
  {
    var start := IndexOf(url, "://", 0) + 3;
    var hostEnd := IndexOf(url, "/", start);
    assert !OccursAt(url, "/", j);
    OccursChar(url, '/', j);
  }

  /** Without a `/` after the scheme, the whole URL is allowed. */
  lemma NoPathKeepsWholeURL(url: string)
    requires forall j | IndexOf(url, "://", 0) + 3 <= j < |url| :: url[j] != '/'
    ensures SchemeAndHost(url) == url
  {
    var start := IndexOf(url, "://", 0) + 3;
    var hostEnd := IndexOf(url, "/", start);
    OccursChar(url, '/', hostEnd);
  }

  const LocalScheme := "http://"
  const LocalHost := "localhost:8983"
  const LocalURL := LocalScheme + LocalHost + "/solr"

  lemma LocalSchemeEnd()
    ensures IndexOf(LocalURL, "://", 0) == 4
  {
    assert LocalURL[..7] == LocalScheme;
    assert LocalURL[4..7] == LocalScheme[4..7] == "://";
    assert OccursAt(LocalURL, "://", 4);
    forall j | 0 <= j < 4 ensures !OccursAt(LocalURL, "://", j) {
      assert LocalURL[j..j + 3][0] == LocalScheme[j];
    }
  }

  lemma LocalHostEnd()
    ensures IndexOf(LocalURL, "/", 7) == 21
  {
    assert LocalURL[21] == '/';
    OccursChar(LocalURL, '/', 21);
    assert '/' !in LocalHost;
    forall j | 7 <= j < 21 ensures !OccursAt(LocalURL, "/", j) {
      assert LocalURL[j] == LocalHost[j - 7];
      OccursChar(LocalURL, '/', j);
    }
  }

  lemma LocalSchemeAndHost()
    ensures SchemeAndHost(LocalURL) == LocalScheme + LocalHost
  {
    LocalSchemeEnd();
    LocalHostEnd();
    assert LocalURL[..21] == LocalScheme + LocalHost;
  }

  lemma LocalHasColon()
    ensures IndexOf(LocalURL, ":", 0) != -1
  {
    OccursChar(LocalURL, ':', 4);
    assert LocalURL[4] == LocalScheme[4] == ':';
  }

  /** `http://localhost:8983/solr` allows `'self' http://localhost:8983`. */
  lemma LocalhostExample()
    ensures Config(Some(LocalURL)) == Some(Env("'self' " + "http://localhost:8983"))
  {
    LocalHasColon();
    LocalSchemeAndHost();
    assert LocalScheme + LocalHost == "http://localhost:8983";
  }
}
