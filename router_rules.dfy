/**
 * The older, index-based rule generation: a rule names a hostname pattern and an
 * account index, and a URL is pointed at account `n` by a leading `/u/<n>/` path segment.
 */
module RouterRules {
  import opened Wrappers
  import opened ArrayOps
  import opened Text
  import opened UrlModel

  /** The rule as this generation reads it: a hostname pattern, an account index, a switch. */
  datatype IndexRule = IndexRule(servicePattern: string, accountIndex: nat, enabled: bool)

  /** `matchesRule`: the rule is enabled and its pattern occurs in the URL's hostname. */
  function MatchesRule(url: Href, rule: IndexRule): (b: bool)
    ensures b <==> rule.enabled && url.Parsed? && exists i :: OccursAt(url.url.host, rule.servicePattern, i)
  {
    if !rule.enabled then false
    else
      match url
      case Unparsable(_) => false
      case Parsed(u) => Includes(u.host, rule.servicePattern)
  }

  /** A disabled rule matches no URL. */
  lemma DisabledRuleMatchesNothing(url: Href, rule: IndexRule)
    requires !rule.enabled
    ensures !MatchesRule(url, rule)
  {
  }

  /** `findMatchingRule`: the earliest rule in list order that matches the URL. */
  function FindMatchingRule(url: Href, rules: seq<IndexRule>): (r: Option<IndexRule>)
    ensures r.Some? <==> exists j :: 0 <= j < |rules| && MatchesRule(url, rules[j])
    ensures r.Some? ==> r.value in rules && r.value.enabled && MatchesRule(url, r.value)
    ensures r.Some? ==>
      exists k :: 0 <= k < |rules| && rules[k] == r.value && (forall j :: 0 <= j < k ==> !MatchesRule(url, rules[j]))
  {
    Find(rules, (rule: IndexRule) => MatchesRule(url, rule))
  }

  /** The matcher looks only at the hostname: URLs with the same hostname find the same rule. */
  lemma FindMatchingRuleDependsOnlyOnHost(u: Href, v: Href, rules: seq<IndexRule>)
    requires u.Parsed? && v.Parsed? && u.url.host == v.url.host
    ensures FindMatchingRule(u, rules) == FindMatchingRule(v, rules)
  {
    FindAgrees(rules, (rule: IndexRule) => MatchesRule(u, rule), (rule: IndexRule) => MatchesRule(v, rule));
  }

  /** The path matches `^/u/(\d+)/` and the captured digits are `d`. */
  ghost predicate AccountPrefixMatch(path: string, d: string)
  {
    && |d| > 0 && AllDigits(d)
    && |path| >= |d| + 4
    && path[..3] == "/u/" && path[3..3 + |d|] == d && path[3 + |d|] == '/'
  }

  /** The anchored match `^/u/(\d+)/` on a path, giving the captured digits. */
  function AccountPrefix(path: string): (r: Option<string>)
    ensures r.Some? ==> AccountPrefixMatch(path, r.value)
    ensures forall d :: AccountPrefixMatch(path, d) ==> r == Some(d)
  {
    if |path| >= 3 && path[..3] == "/u/" then
      var n := DigitRun(path[3..]);
      if n > 0 && 3 + n < |path| && path[3 + n] == '/' then
        assert path[3..][..n] == path[3..3 + n];
        assert forall d :: AccountPrefixMatch(path, d) ==> d == path[3..3 + n] by {
          forall d | AccountPrefixMatch(path, d) ensures d == path[3..3 + n] {
            assert path[3..] == d + path[3 + |d|..];
            DigitRunOf(d, path[3 + |d|..]);
          }
        }
        Some(path[3..3 + n])
      else
        assert forall d :: !AccountPrefixMatch(path, d) by {
          forall d | AccountPrefixMatch(path, d) ensures false {
            assert path[3..] == d + path[3 + |d|..];
            DigitRunOf(d, path[3 + |d|..]);
          }
        }
        None
    else
      None
  }

  /**
   * The pathname `buildRedirectUrl` writes: on a `/u/<digits>/` prefix only the digits become
   * the index; on any other path `/u/<index>` is put in front.
   */
  function PathRewrite(path: string, accountIndex: nat): (r: string)
    ensures forall d :: AccountPrefixMatch(path, d) ==> r == path[..3] + Decimal(accountIndex) + path[3 + |d|..]
    ensures AccountPrefix(path).None? ==> r == "/u/" + Decimal(accountIndex) + path
  {
    match AccountPrefix(path)
    case Some(d) =>
      assert path[3 + |d|..] == "/" + path[|d| + 4..];
      "/u/" + Decimal(accountIndex) + "/" + path[|d| + 4..]
    case None => "/u/" + Decimal(accountIndex) + path
  }

  /**
   * What `buildRedirectUrl` returns: the URL with its path rewritten, or the input as it was
   * when it does not parse or has an opaque path.
   */
  function IndexRedirect(originalUrl: Href, accountIndex: nat): (r: Href)
    ensures originalUrl.Unparsable? ==> r == originalUrl
    ensures originalUrl.Parsed? && originalUrl.url.opaquePath ==> r == originalUrl
    ensures originalUrl.Parsed? ==> r.Parsed?
    ensures originalUrl.Parsed? && !originalUrl.url.opaquePath ==>
      var (u, v) := (originalUrl.url, r.url);
      && v.scheme == u.scheme && v.host == u.host && v.port == u.port
      && v.opaquePath == u.opaquePath && v.query == u.query && v.fragment == u.fragment
      && v.path == PathRewrite(u.path, accountIndex)
  {
    match originalUrl
    case Unparsable(_) => originalUrl
    case Parsed(u) =>
      if u.opaquePath then originalUrl
      else Parsed(u.(path := PathRewrite(u.path, accountIndex)))
  }

  /** `buildRedirectUrl`: parse, reassign the URL object's pathname, serialise. */
  method BuildRedirectUrl(originalUrl: Href, accountIndex: nat) returns (r: Href)
    ensures r == IndexRedirect(originalUrl, accountIndex)
  {
    match originalUrl
    case Unparsable(_) =>
      r := originalUrl;
    case Parsed(u) =>
      var url := new UrlObject(u);
      var pathMatch := AccountPrefix(url.path);
      if pathMatch.Some? {
        url.SetPathname("/u/" + Decimal(accountIndex) + "/" + url.path[|pathMatch.value| + 4..]);
      } else {
        url.SetPathname("/u/" + Decimal(accountIndex) + url.path);
      }
      r := Parsed(url.Record());
  }

  /** `hasAccountSpecified`: the URL parses and its path starts with `/u/<digits>/`. */
  function HasAccountSpecified(url: Href): (b: bool)
    ensures b <==> url.Parsed? && exists d :: AccountPrefixMatch(url.url.path, d)
  {
    match url
    case Unparsable(_) => false
    case Parsed(u) => AccountPrefix(u.path).Some?
  }

  /** `getCurrentAccountIndex`: the number written in the `/u/<digits>/` prefix, if any. */
  function GetCurrentAccountIndex(url: Href): (r: Option<nat>)
    ensures r.Some? ==> url.Parsed? && exists d :: AccountPrefixMatch(url.url.path, d) && r.value == DecimalValue(d)
    ensures r.None? ==> url.Unparsable? || forall d :: !AccountPrefixMatch(url.url.path, d)
  {
    match url
    case Unparsable(_) => None
    case Parsed(u) =>
      match AccountPrefix(u.path)
      case Some(d) => Some(DecimalValue(d))
      case None => None
  }

  /** The two detectors agree: an account is specified exactly when an index can be read. */
  lemma HasAccountIffIndex(url: Href)
    ensures HasAccountSpecified(url) <==> GetCurrentAccountIndex(url).Some?
  {
  }

  /** On an unparsable URL nothing matches, nothing is detected and nothing is rewritten. */
  lemma UnparsableUrlIsInert(text: string, rule: IndexRule, accountIndex: nat)
    ensures !MatchesRule(Unparsable(text), rule)
    ensures IndexRedirect(Unparsable(text), accountIndex) == Unparsable(text)
    ensures !HasAccountSpecified(Unparsable(text)) && GetCurrentAccountIndex(Unparsable(text)).None?
  {
  }

  /** The part of the path after its `/u/<digits>` prefix, or the whole path when it has none. */
  function RestAfterPrefix(path: string): (rest: string)
    ensures |path| > 0 && path[0] == '/' ==> |rest| > 0 && rest[0] == '/'
  {
    match AccountPrefix(path)
    case Some(d) => path[3 + |d|..]
    case None => path
  }

  /** Both branches of the rewrite put `/u/<index>` before the rest of the path. */
  lemma RewriteShape(path: string, accountIndex: nat)
    ensures PathRewrite(path, accountIndex) == "/u/" + Decimal(accountIndex) + RestAfterPrefix(path)
  {
    match AccountPrefix(path)
    case Some(d) =>
      assert AccountPrefixMatch(path, d);
      assert path[..3] == "/u/";
    case None =>
  }

  /** A path `/u/<decimal n>` followed by a '/'-led rest carries index `n`. */
  lemma PrefixOfRewritten(accountIndex: nat, rest: string)
    requires |rest| > 0 && rest[0] == '/'
    ensures AccountPrefix("/u/" + Decimal(accountIndex) + rest) == Some(Decimal(accountIndex))
  {
    var d := Decimal(accountIndex);
    var p := "/u/" + d + rest;
    assert p[..3] == "/u/" && p[3..3 + |d|] == d && p[3 + |d|] == '/';
    assert AccountPrefixMatch(p, d);
  }

  /**
   * After `buildRedirectUrl` on a '/'-led hierarchical path, the URL names an account, and it
   * is the given index. (An opaque path is left as it was, so it carries no index afterwards.)
   */
  lemma RedirectSpecifiesIndex(url: Href, accountIndex: nat)
    requires url.Parsed? && !url.url.opaquePath && |url.url.path| > 0 && url.url.path[0] == '/'
    ensures HasAccountSpecified(IndexRedirect(url, accountIndex))
    ensures GetCurrentAccountIndex(IndexRedirect(url, accountIndex)) == Some(accountIndex)
  {
    RewriteShape(url.url.path, accountIndex);
    PrefixOfRewritten(accountIndex, RestAfterPrefix(url.url.path));
    DecimalRoundTrip(accountIndex);
  }

  /** For a fixed index, `buildRedirectUrl` on a '/'-led path is idempotent. */
  lemma RedirectIdempotent(url: Href, accountIndex: nat)
    requires url.Parsed? && |url.url.path| > 0 && url.url.path[0] == '/'
    ensures IndexRedirect(IndexRedirect(url, accountIndex), accountIndex) == IndexRedirect(url, accountIndex)
  {
    if url.url.opaquePath {
      return;
    }
    var path := url.url.path;
    RewriteShape(path, accountIndex);
    var rest := RestAfterPrefix(path);
    var p1 := "/u/" + Decimal(accountIndex) + rest;
    PrefixOfRewritten(accountIndex, rest);
    var d := Decimal(accountIndex);
    assert p1[..3] + d + p1[3 + |d|..] == p1;
  }
}
