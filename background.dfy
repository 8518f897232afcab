/**
 * The redirect decision the navigation listener makes: ignore sub-frames, find the rule
 * for the URL, skip when the URL already names the rule's account, otherwise redirect
 * to the service's rewrite of the URL.
 */
module Background {
  import opened Wrappers
  import opened UrlModel
  import opened Services
  import opened Storage

  datatype Decision = NoRedirect | Redirect(target: Href)

  /**
   * The listener's gates in order. The matcher, the current-account reader and the
   * rewriter are parameters: the listener calls them by name, and this model supplies
   * instances below.
   */
  function Decide(
    frameId: int,
    url: Href,
    rules: seq<RouterRule>,
    findMatchingRule: (Href, seq<RouterRule>) -> Option<RouterRule>,
    getCurrentAccountEmail: Href -> Option<string>,
    buildRedirectUrl: (Href, RouterRule) -> Href): (d: Decision)
    ensures frameId != 0 ==> d == NoRedirect
    ensures findMatchingRule(url, rules).None? ==> d == NoRedirect
    ensures var m := findMatchingRule(url, rules);
      m.Some? && getCurrentAccountEmail(url) == Some(m.value.accountEmail) ==> d == NoRedirect
    ensures var m := findMatchingRule(url, rules);
      d.Redirect? <==> frameId == 0 && m.Some? && getCurrentAccountEmail(url) != Some(m.value.accountEmail)
    ensures d.Redirect? ==> d.target == buildRedirectUrl(url, findMatchingRule(url, rules).value)
  {
    if frameId != 0 then NoRedirect
    else
      match findMatchingRule(url, rules)
      case None => NoRedirect
      case Some(rule) =>
        if getCurrentAccountEmail(url) == Some(rule.accountEmail) then NoRedirect
        else Redirect(buildRedirectUrl(url, rule))
  }

  /** A matcher that looks only at the hostname, as `hostname.includes(pattern)` matching does. */
  ghost predicate DependsOnlyOnHost(findMatchingRule: (Href, seq<RouterRule>) -> Option<RouterRule>)
  {
    forall u: Href, v: Href, rules: seq<RouterRule> ::
      u.Parsed? && v.Parsed? && u.url.host == v.url.host ==> findMatchingRule(u, rules) == findMatchingRule(v, rules)
  }

  /** A matcher that only ever returns an enabled rule of the list it is given. */
  ghost predicate ReturnsEnabledStoredRule(findMatchingRule: (Href, seq<RouterRule>) -> Option<RouterRule>)
  {
    forall u: Href, rules: seq<RouterRule> :: findMatchingRule(u, rules).Some? ==>
      findMatchingRule(u, rules).value in rules && findMatchingRule(u, rules).value.enabled
  }

  /** The current account: the value of the first `authuser` pair, none for an unparsable URL. */
  function CurrentAuthUser(url: Href): (r: Option<string>)
    ensures url.Unparsable? ==> r.None?
    ensures url.Parsed? ==> (r.None? <==> forall j :: 0 <= j < |url.url.query| ==> url.url.query[j].0 != AuthUser)
    ensures r.Some? ==>
      exists k :: 0 <= k < |url.url.query| && url.url.query[k] == (AuthUser, r.value) &&
        forall j :: 0 <= j < k ==> url.url.query[j].0 != AuthUser
  {
    match url
    case Unparsable(_) => None
    case Parsed(u) => QueryGet(u.query, AuthUser)
  }

  /** The rewrite for a rule: its service's builder, or the URL unchanged when the service is unknown. */
  function ServiceRedirect(url: Href, rule: RouterRule): (r: Href)
    ensures GetServiceById(rule.serviceId).None? ==> r == url
    ensures GetServiceById(rule.serviceId).Some? ==> r == AuthUserRedirect(url, rule.accountEmail)
  {
    match GetServiceById(rule.serviceId)
    case None => url
    case Some(service) => BuildRedirectUrl(service, url, rule.accountEmail)
  }

  /** The decision with the catalog's reader and rewriter plugged in. */
  function DecideWithCatalog(
    frameId: int,
    url: Href,
    rules: seq<RouterRule>,
    findMatchingRule: (Href, seq<RouterRule>) -> Option<RouterRule>): Decision
  {
    Decide(frameId, url, rules, findMatchingRule, CurrentAuthUser, ServiceRedirect)
  }

  /** Every redirect is for an enabled rule of the list, when the matcher promises that. */
  lemma RedirectOnlyForEnabledStoredRule(
    frameId: int, url: Href, rules: seq<RouterRule>,
    findMatchingRule: (Href, seq<RouterRule>) -> Option<RouterRule>,
    getCurrentAccountEmail: Href -> Option<string>,
    buildRedirectUrl: (Href, RouterRule) -> Href)
    requires ReturnsEnabledStoredRule(findMatchingRule)
    requires Decide(frameId, url, rules, findMatchingRule, getCurrentAccountEmail, buildRedirectUrl).Redirect?
    ensures var d := Decide(frameId, url, rules, findMatchingRule, getCurrentAccountEmail, buildRedirectUrl);
      exists rule :: rule in rules && rule.enabled && d.target == buildRedirectUrl(url, rule)
  {
    var rule := findMatchingRule(url, rules).value;
    assert rule in rules && rule.enabled;
  }

  /**
   * No redirect loop: deciding again on the redirect target gives no redirect, for a
   * parsable URL, a matcher that looks only at the hostname and a rule whose service
   * is in the catalog.
   */
  lemma NoRedirectLoop(url: Href, rules: seq<RouterRule>, findMatchingRule: (Href, seq<RouterRule>) -> Option<RouterRule>)
    requires url.Parsed?
    requires DependsOnlyOnHost(findMatchingRule)
    requires DecideWithCatalog(0, url, rules, findMatchingRule).Redirect?
    requires GetServiceById(findMatchingRule(url, rules).value.serviceId).Some?
    ensures DecideWithCatalog(0, DecideWithCatalog(0, url, rules, findMatchingRule).target, rules, findMatchingRule) == NoRedirect
  {
    var rule := findMatchingRule(url, rules).value;
    var target := DecideWithCatalog(0, url, rules, findMatchingRule).target;
    assert target == AuthUserRedirect(url, rule.accountEmail);
    assert target.Parsed? && target.url.host == url.url.host;
    assert findMatchingRule(target, rules) == findMatchingRule(url, rules);
    AuthUserRedirectSelectsAccount(url, rule.accountEmail);
    assert CurrentAuthUser(target) == Some(rule.accountEmail);
  }

  /**
   * Why the service must be known: for a rule whose serviceId is not in the catalog the
   * target is the URL itself, so the same decision repeats on every navigation.
   */
  lemma UnknownServiceRedirectsToItself(url: Href, rules: seq<RouterRule>, findMatchingRule: (Href, seq<RouterRule>) -> Option<RouterRule>)
    requires DecideWithCatalog(0, url, rules, findMatchingRule).Redirect?
    requires GetServiceById(findMatchingRule(url, rules).value.serviceId).None?
    ensures DecideWithCatalog(0, url, rules, findMatchingRule) == Redirect(url)
  {
  }
}
