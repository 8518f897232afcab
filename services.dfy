/**
 * The catalog of supported services: nine compiled-in entries, each with the host
 * pattern that claims a URL and the redirect strategy that selects an account, plus
 * lookup by id and by URL.
 */
module Services {
  import opened Wrappers
  import opened ArrayOps
  import opened Text
  import opened UrlModel

  /** The query parameter that carries the account e-mail. */
  const AuthUser: string := "authuser"

  /**
   * The strategy a service uses to rewrite a URL for an account. Every entry's builder
   * does the same thing: replace all `authuser` pairs by one carrying the e-mail.
   */
  datatype RedirectStrategy = AuthUserQuery

  datatype ServiceDefinition = ServiceDefinition(
    id: string,
    name: string,
    displayName: string,
    hostPattern: string,
    buildRedirectUrl: RedirectStrategy)

  /** `SUPPORTED_SERVICES`, in declaration order. */
  const SupportedServices: seq<ServiceDefinition> := [
    ServiceDefinition("gmail", "gmail", "Gmail", "mail.google.com", AuthUserQuery),
    ServiceDefinition("calendar", "calendar", "Google Calendar", "calendar.google.com", AuthUserQuery),
    ServiceDefinition("drive", "drive", "Google Drive", "drive.google.com", AuthUserQuery),
    ServiceDefinition("docs", "docs", "Google Docs", "docs.google.com/document", AuthUserQuery),
    ServiceDefinition("sheets", "sheets", "Google Sheets", "docs.google.com/spreadsheets", AuthUserQuery),
    ServiceDefinition("slides", "slides", "Google Slides", "docs.google.com/presentation", AuthUserQuery),
    ServiceDefinition("youtube", "youtube", "YouTube", "youtube.com", AuthUserQuery),
    ServiceDefinition("keep", "keep", "Google Keep", "keep.google.com", AuthUserQuery),
    ServiceDefinition("maps", "maps", "Google Maps", "maps.google.com", AuthUserQuery)
  ]

  /**
   * What every `build*RedirectUrl` computes: on a parsable URL, all `authuser` pairs are
   * deleted and one `authuser=<accountEmail>` is set; an unparsable URL comes back as it was.
   */
  function AuthUserRedirect(original: Href, accountEmail: string): (r: Href)
    ensures original.Unparsable? ==> r == original
    ensures original.Parsed? ==> r.Parsed?
    ensures original.Parsed? ==>
      var (u, v) := (original.url, r.url);
      && v.scheme == u.scheme && v.host == u.host && v.port == u.port
      && v.path == u.path && v.opaquePath == u.opaquePath && v.fragment == u.fragment
      && Named(v.query, AuthUser) == [(AuthUser, accountEmail)]
      && QueryDelete(v.query, AuthUser) == QueryDelete(u.query, AuthUser)
  {
    match original
    case Unparsable(_) => original
    case Parsed(u) =>
      var q := QuerySet(QueryDelete(u.query, AuthUser), AuthUser, accountEmail);
      QueryDeleteIdempotent(u.query, AuthUser);
      Parsed(u.(query := q))
  }

  /**
   * The shared body of the nine `build*RedirectUrl` functions: parse, change the URL
   * object's search parameters in place, serialise; on a parse failure, the input.
   */
  method BuildAuthUserRedirectUrl(originalUrl: Href, accountEmail: string) returns (r: Href)
    ensures r == AuthUserRedirect(originalUrl, accountEmail)
  {
    match originalUrl
    case Unparsable(_) =>
      r := originalUrl;
    case Parsed(u) =>
      var url := new UrlObject(u);
      url.DeleteSearchParam(AuthUser);
      url.SetSearchParam(AuthUser, accountEmail);
      r := Parsed(url.Record());
  }

  /** A service's `buildRedirectUrl(originalUrl, accountEmail)`. */
  function BuildRedirectUrl(service: ServiceDefinition, originalUrl: Href, accountEmail: string): (r: Href)
    ensures service in SupportedServices ==> r == AuthUserRedirect(originalUrl, accountEmail)
  {
    match service.buildRedirectUrl
    case AuthUserQuery => AuthUserRedirect(originalUrl, accountEmail)
  }

  /** After the rewrite, the query holds one `authuser` pair, and `get` reads the e-mail back. */
  lemma AuthUserRedirectSelectsAccount(original: Href, accountEmail: string)
    requires original.Parsed?
    ensures var r := AuthUserRedirect(original, accountEmail);
      r.Parsed? && QueryGet(r.url.query, AuthUser) == Some(accountEmail)
  {
    QueryGetOfSingle(AuthUserRedirect(original, accountEmail).url.query, AuthUser, accountEmail);
  }

  /** The rewritten query is the old one without `authuser` pairs, followed by the new pair. */
  lemma AuthUserRedirectQuery(original: Href, accountEmail: string)
    requires original.Parsed?
    ensures AuthUserRedirect(original, accountEmail).url.query
      == QueryDelete(original.url.query, AuthUser) + [(AuthUser, accountEmail)]
  {
    var q := QueryDelete(original.url.query, AuthUser);
    assert forall j :: 0 <= j < |q| ==> q[j].0 != AuthUser;
  }

  /** Rewriting twice for the same account is rewriting once. */
  lemma AuthUserRedirectIdempotent(original: Href, accountEmail: string)
    ensures AuthUserRedirect(AuthUserRedirect(original, accountEmail), accountEmail)
      == AuthUserRedirect(original, accountEmail)
  {
    if original.Parsed? {
      var once := AuthUserRedirect(original, accountEmail);
      var twice := AuthUserRedirect(once, accountEmail);
      AuthUserRedirectQuery(original, accountEmail);
      AuthUserRedirectQuery(once, accountEmail);
      var q := QueryDelete(original.url.query, AuthUser);
      QueryDeleteAppend(q, [(AuthUser, accountEmail)], AuthUser);
      QueryDeleteIdempotent(original.url.query, AuthUser);
      assert QueryDelete([(AuthUser, accountEmail)], AuthUser) == [];
      assert twice.url.query == once.url.query;
    }
  }

  /** All nine entries reference the one `authuser` strategy. */
  lemma EveryServiceUsesAuthUser()
    ensures |SupportedServices| == 9
    ensures forall s :: s in SupportedServices ==> s.buildRedirectUrl == AuthUserQuery
  {
  }

  /** Catalog ids are pairwise distinct. */
  lemma CatalogIdsDistinct()
    ensures forall i, j :: 0 <= i < j < |SupportedServices| ==> SupportedServices[i].id != SupportedServices[j].id
  {
  }

  /** `getServiceById`: the entry whose id is `serviceId`, or `None` when there is none. */
  function GetServiceById(serviceId: string): (r: Option<ServiceDefinition>)
    ensures r.Some? ==> r.value in SupportedServices && r.value.id == serviceId
    ensures r.None? <==> forall j :: 0 <= j < |SupportedServices| ==> SupportedServices[j].id != serviceId
  {
    Find(SupportedServices, (s: ServiceDefinition) => s.id == serviceId)
  }

  /** Because ids are distinct, the entry `getServiceById` finds is the only one with that id. */
  lemma GetServiceByIdUnique(serviceId: string, s: ServiceDefinition)
    requires s in SupportedServices && s.id == serviceId
    ensures GetServiceById(serviceId) == Some(s)
  {
    CatalogIdsDistinct();
  }

  /** The entry claims a hostname when its pattern is a substring of it. */
  predicate ClaimsHost(service: ServiceDefinition, hostname: Hostname)
  {
    Includes(hostname, service.hostPattern)
  }

  /**
   * `getServiceByUrl`: the first entry, in declaration order, whose host pattern occurs in
   * the URL's hostname; `None` when none does or when the URL does not parse.
   */
  function GetServiceByUrl(url: Href): (r: Option<ServiceDefinition>)
    ensures url.Unparsable? ==> r.None?
    ensures url.Parsed? ==>
      (r.Some? <==> exists j :: 0 <= j < |SupportedServices| && ClaimsHost(SupportedServices[j], url.url.host))
    ensures r.Some? ==> url.Parsed?
    ensures r.Some? ==>
      exists k :: 0 <= k < |SupportedServices| && SupportedServices[k] == r.value
        && ClaimsHost(r.value, url.url.host)
        && (forall j :: 0 <= j < k ==> !ClaimsHost(SupportedServices[j], url.url.host))
  {
    match url
    case Unparsable(_) => None
    case Parsed(u) => Find(SupportedServices, (s: ServiceDefinition) => ClaimsHost(s, u.host))
  }

  /** A pattern containing '/' is never a substring of a hostname. */
  lemma SlashPatternClaimsNoHost(service: ServiceDefinition, hostname: Hostname)
    requires '/' in service.hostPattern
    ensures !ClaimsHost(service, hostname)
  {
    if ClaimsHost(service, hostname) {
      IncludedCharsOccur(hostname, service.hostPattern, '/');
    }
  }

  /** The docs, sheets and slides entries are never the result of `getServiceByUrl`. */
  lemma DocsSheetsSlidesNeverFoundByUrl(url: Href)
    ensures var r := GetServiceByUrl(url);
      r != Some(SupportedServices[3]) && r != Some(SupportedServices[4]) && r != Some(SupportedServices[5])
    ensures SupportedServices[3].id == "docs" && SupportedServices[4].id == "sheets" && SupportedServices[5].id == "slides"
  {
    assert SupportedServices[3].hostPattern[15] == '/';
    assert SupportedServices[4].hostPattern[15] == '/';
    assert SupportedServices[5].hostPattern[15] == '/';
    if url.Parsed? {
      SlashPatternClaimsNoHost(SupportedServices[3], url.url.host);
      SlashPatternClaimsNoHost(SupportedServices[4], url.url.host);
      SlashPatternClaimsNoHost(SupportedServices[5], url.url.host);
    }
  }
}
