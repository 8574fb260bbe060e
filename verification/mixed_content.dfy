/**
 * The advisory mixed-content check both dashboard pages run on mount: the page
 * is served over https while the configured API base is plain http on a host
 * that is not obviously local. It is a textual test on the base string
 * (`startsWith` and `includes`), not a parse of the host.
 */
module MixedContent {
  import opened Strings
  import Api

  /** True when the browser would block the page's requests to `base` as mixed content. */
  predicate MixedContentWarning(pageProtocol: string, base: string) {
    var isHttps := pageProtocol == "https:";
    var isHttpApi := StartsWith(base, "http://");
    var isLocalApi := Contains(base, "localhost") || Contains(base, "127.0.0.1");
    isHttps && isHttpApi && !isLocalApi
  }

  /** The warning, stated with the reference meaning of "contains" (both directions). */
  lemma MixedContentWarningSpec(pageProtocol: string, base: string)
    ensures MixedContentWarning(pageProtocol, base) <==>
              && pageProtocol == "https:"
              && |base| >= 7 && base[..7] == "http://"
              && !ContainsSpec(base, "localhost")
              && !ContainsSpec(base, "127.0.0.1")
  {
    ContainsCorrect(base, "localhost");
    ContainsCorrect(base, "127.0.0.1");
  }

  /** The default base is local, so it never triggers the warning, whatever the page protocol. */
  lemma DefaultBaseNeverWarns(pageProtocol: string)
    ensures !MixedContentWarning(pageProtocol, Api.DefaultBaseUrl)
  {
  }

  /** The substring test is purely textual: `localhost` anywhere in the base, even in a path, silences it. */
  lemma LocalhostAnywhereSilences(pageProtocol: string, host: string, path: string)
    ensures !MixedContentWarning(pageProtocol, "http://" + host + "localhost" + path)
  {
    ContainsInfix("http://" + host, "localhost", path);
  }

  /** An https base never warns. */
  lemma HttpsBaseNeverWarns(pageProtocol: string, rest: string)
    ensures !MixedContentWarning(pageProtocol, "https://" + rest)
  {
    assert ("https://" + rest)[4] == 's';
  }
}
