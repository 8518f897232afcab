# Google Account Router: rule engine model

A Dafny model of the URL rule engine of a browser extension that redirects Google and
YouTube navigations so that a chosen account is used. It covers:

- the **service catalog** (`services.ts`). It has nine compiled-in services, each with a hostname pattern and one shared rewrite. The rewrite deletes every `authuser` query pair and then sets one carrying the account e-mail. Services are looked up by id and by URL.
- the **older index-based rules** (`router-rules.ts`). A rule matches when it is enabled and its pattern occurs in the hostname. The first matching rule wins. The path is rewritten with a `/u/<n>/` prefix. A `^/u/(\d+)/` match detects the index and reads it back.
- the **rule store** (`storage.ts`). It is a class holding the rule list, with add, merge-update and delete. A guard keeps at most one rule per service, except that an update to the empty serviceId skips the guard.
- the **redirect decision** of the navigation listener (`background.ts`). It has four gates in order: sub-frame, no match, already on the right account, redirect.

A URL is the record the WHATWG URL parser produces (`scheme`, `host`, `port`, `path`, `query` as name/value pairs, `fragment`), or `Unparsable` when `new URL(...)` would throw. The hostname type excludes `/`, as the URL Standard's forbidden host code points do. `URLSearchParams` `delete`, `set` and `get` follow section 6.2 of the WHATWG URL Standard on the pair list. Re-serialisation (section 5, application/x-www-form-urlencoded) is taken to be faithful, so every property is stated on the pair list, not on serialised text. The mutable `URL` object that the builders change in place is the class `UrlModel.UrlObject`. The builder methods are proved equal to specification functions, and the properties are lemmas about those functions.

Modules: `Wrappers` (Option, Outcome), `ArrayOps` (JavaScript `find`, `findIndex`, `some`, `filter`), `Text` (`includes`, `\d`, `parseInt`, decimal rendering), `UrlModel`, `Services`, `RouterRules`, `Storage`, `Background`.

Two consequences of the code as written:
- The docs, sheets and slides patterns contain `/`, which no hostname contains, so these three services are never found by URL (`Services.DocsSheetsSlidesNeverFoundByUrl`).
- `hasAccountSpecified` checks only the `/u/<n>/` path prefix, not the `authuser` query parameter.

## Model

| member | source | states |
|---|---|---|
| `ArrayOps.FindIndex` | src/logic/storage.ts:93 | `findIndex` gives the earliest index whose element satisfies the predicate, or none when no element does |
| `ArrayOps.Find` | src/logic/services.ts:248 | `find` gives an element exactly when one satisfies the predicate, and it is the element at the earliest such index |
| `ArrayOps.Any` | src/logic/storage.ts:48-50 | `some` holds exactly when some element satisfies the predicate |
| `ArrayOps.Filter` | src/logic/storage.ts:105 | `filter` keeps exactly the elements satisfying the predicate, and no more elements than the input |
| `ArrayOps.FilterAppend` | src/logic/storage.ts:105 | filtering distributes over concatenation, so the kept elements stay in their relative order |
| `ArrayOps.FilterKeepsDistinctBy` | src/logic/storage.ts:105 | filtering never creates two elements with the same key |
| `Text.Includes` | src/logic/services.ts:261 | `hostname.includes(pattern)` holds exactly when the pattern occurs at some index of the hostname |
| `Text.IncludedCharsOccur` | src/logic/services.ts:261 | every character of an included pattern occurs in the hostname |
| `Text.Decimal` | src/logic/router-rules.ts:36-39 | `${accountIndex}` is a non-empty digit string with no leading zero, and exactly `0` for zero |
| `Text.DecimalRoundTrip` | src/logic/router-rules.ts:36-39 | `parseInt` of the decimal text written by `${accountIndex}` gives the index back |
| `UrlModel.QueryDelete` | src/logic/services.ts:22 | `searchParams.delete` keeps exactly the pairs with another name and removes every pair with this name |
| `UrlModel.QuerySet` | src/logic/services.ts:23 | `searchParams.set` leaves exactly one pair with the name, holding the value, and the pairs with other names are as before. When the name was absent, the pair is appended |
| `UrlModel.QueryGet` | src/background.ts:31-32 | `searchParams.get` is none exactly when no pair has the name; otherwise it is the value of the first pair with the name |
| `UrlModel.QuerySetInPlace` | src/logic/services.ts:23 | when the name is present, `searchParams.set` puts the pair in place of the first pair with that name. The pairs before it are untouched and the later pairs with that name are removed |
| `UrlModel.QueryDeleteIdempotent` | src/logic/services.ts:22 | deleting a name twice is deleting it once |
| `UrlModel.QueryDeleteAppend` | src/logic/services.ts:22 | deleting a name distributes over concatenation of pair lists |
| `UrlModel.UrlObject.constructor` | src/logic/services.ts:21 | `new URL(...)` holds exactly the parsed record |
| `UrlModel.UrlObject.DeleteSearchParam` | src/logic/services.ts:22 | `url.searchParams.delete` changes only the query, to its `delete` |
| `UrlModel.UrlObject.SetSearchParam` | src/logic/services.ts:23 | `url.searchParams.set` changes only the query, to its `set` |
| `UrlModel.UrlObject.SetPathname` | src/logic/router-rules.ts:36-39 | `url.pathname = p` changes only the path, and leaves a URL with an opaque path (`mailto:a@b`) as it was |
| `Services.AuthUserRedirect` | src/logic/services.ts:16-29 | an unparsable URL is returned unchanged. Otherwise scheme, host, port, path (and whether it is opaque) and fragment are kept, the non-`authuser` pairs are kept in order, and exactly one `authuser` pair holds the e-mail |
| `Services.BuildAuthUserRedirectUrl` | src/logic/services.ts:16-173 | the shared builder, which mutates a `URL` object with `delete` then `set`, computes `AuthUserRedirect` |
| `Services.BuildRedirectUrl` | src/logic/services.ts:10 | a catalog entry's `buildRedirectUrl` is the `authuser` rewrite |
| `Services.AuthUserRedirectSelectsAccount` | src/logic/services.ts:22-23 | after the rewrite, `searchParams.get("authuser")` reads the given e-mail |
| `Services.AuthUserRedirectQuery` | src/logic/services.ts:22-23 | the rewritten query is the old one without `authuser` pairs, followed by `authuser=<email>` |
| `Services.AuthUserRedirectIdempotent` | src/logic/services.ts:22-23 | rewriting twice with the same e-mail equals rewriting once |
| `Services.EveryServiceUsesAuthUser` | src/logic/services.ts:178-242 | the catalog has nine entries, and all of them use the one `authuser` strategy |
| `Services.CatalogIdsDistinct` | src/logic/services.ts:178-242 | catalog ids are pairwise distinct |
| `Services.GetServiceById` | src/logic/services.ts:247-249 | the result is a catalog entry with the given id. It is none exactly when no entry has that id |
| `Services.GetServiceByIdUnique` | src/logic/services.ts:247-249 | any catalog entry with the id is the result, so the result is unique |
| `Services.GetServiceByUrl` | src/logic/services.ts:254-267 | none on an unparsable URL. Otherwise some entry is found exactly when some pattern occurs in the hostname, and it is the first such entry in declaration order |
| `Services.SlashPatternClaimsNoHost` | src/logic/services.ts:261 | a pattern containing `/` never occurs in a hostname |
| `Services.DocsSheetsSlidesNeverFoundByUrl` | src/logic/services.ts:200-220 | the docs, sheets and slides entries are never returned by lookup by URL |
| `RouterRules.MatchesRule` | src/logic/router-rules.ts:6-21 | a rule matches exactly when it is enabled, the URL parses, and its pattern occurs in the hostname |
| `RouterRules.DisabledRuleMatchesNothing` | src/logic/router-rules.ts:7-9 | a disabled rule matches no URL |
| `RouterRules.FindMatchingRule` | src/logic/router-rules.ts:52-58 | a rule is found exactly when some rule matches. It is then an enabled, matching member of the list, and no earlier rule matches |
| `RouterRules.FindMatchingRuleDependsOnlyOnHost` | src/logic/router-rules.ts:11-20 | two parsed URLs with the same hostname find the same rule |
| `RouterRules.AccountPrefix` | src/logic/router-rules.ts:34 | the anchored match `^/u/(\d+)/` captures digits `d` exactly when the path starts with `/u/`, `d` and `/`, and `d` is non-empty and all digits. The capture is unique |
| `RouterRules.PathRewrite` | src/logic/router-rules.ts:34-40 | on a `/u/<digits>/` path only the digits become the index, and the rest is kept. Any other path gets `/u/<index>` in front |
| `RouterRules.IndexRedirect` | src/logic/router-rules.ts:26-47 | an unparsable URL, or one with an opaque path, is returned unchanged. Otherwise only the path changes, to its rewrite |
| `RouterRules.BuildRedirectUrl` | src/logic/router-rules.ts:26-47 | the method that reassigns `url.pathname` computes `IndexRedirect` |
| `RouterRules.HasAccountSpecified` | src/logic/router-rules.ts:63-70 | holds exactly when the URL parses and its path matches `^/u/\d+/` |
| `RouterRules.GetCurrentAccountIndex` | src/logic/router-rules.ts:75-86 | an index is the `parseInt` of the captured digits. It is none on an unparsable URL or when the path has no `/u/<digits>/` prefix |
| `RouterRules.HasAccountIffIndex` | src/logic/router-rules.ts:63-86 | an account is specified exactly when an index can be read |
| `RouterRules.UnparsableUrlIsInert` | src/logic/router-rules.ts:11-86 | on an unparsable URL no rule matches, the URL is returned unchanged, no account is specified and no index is read |
| `RouterRules.RedirectSpecifiesIndex` | src/logic/router-rules.ts:34-40 | after the rewrite of a `/`-led hierarchical path, an account is specified, and the index read back is the given one |
| `RouterRules.RedirectIdempotent` | src/logic/router-rules.ts:34-39 | for a fixed index, rewriting a `/`-led path twice equals rewriting it once |
| `Storage.HasRuleForService` | src/logic/storage.ts:44-52 | holds exactly when some rule has the serviceId and an id other than the excluded one. With no exclusion, every rule counts |
| `Storage.WithId` | src/logic/storage.ts:66-69 | the new rule carries the given fields and the given id |
| `Storage.Merge` | src/logic/storage.ts:95 | `{...rule, ...updates}`: supplied fields are overwritten, all other fields and the id are kept |
| `Storage.Updated` | src/logic/storage.ts:92-97 | the length and every id are kept. Only the first rule with the id is merged, the others are unchanged, and the list is unchanged when the id is absent |
| `Storage.Deleted` | src/logic/storage.ts:103-107 | no rule with the id remains, and every rule with another id is kept |
| `Storage.DeletedKeepsOrder` | src/logic/storage.ts:105 | deletion distributes over concatenation, keeps runs without the id, and drops runs made only of the id, so the remaining rules stay in order |
| `Storage.AddPreservesInvariants` | src/logic/storage.ts:57-73 | an accepted add with a fresh id keeps ids distinct and at most one rule per service |
| `Storage.UpdatePreservesInvariants` | src/logic/storage.ts:78-98 | with distinct ids and a supplied serviceId that is not empty, an accepted update keeps ids distinct and at most one rule per service |
| `Storage.EmptyServiceIdSkipsUpdateGuard` | src/logic/storage.ts:83 | the guard tests the serviceId for truthiness. An update to `""` is accepted while another rule holds `""`, leaving two rules for one service |
| `Storage.DeletePreservesInvariants` | src/logic/storage.ts:103-107 | deletion keeps ids distinct and at most one rule per service |
| `Storage.RuleStore.constructor` | src/logic/storage.ts:28 | a store into which nothing was saved reads as the empty list |
| `Storage.RuleStore.GetRules` | src/logic/storage.ts:26-29 | returns the stored list |
| `Storage.RuleStore.AddRule` | src/logic/storage.ts:57-73 | fails, with the list unchanged, exactly when the service already has a rule. Otherwise it appends one rule with the given fields and the fresh id, and the earlier rules stay as they were |
| `Storage.RuleStore.UpdateRule` | src/logic/storage.ts:78-98 | fails, with the list unchanged, exactly when a non-empty supplied serviceId is held by a rule with another id. Otherwise the new list is `Updated` |
| `Storage.RuleStore.DeleteRule` | src/logic/storage.ts:103-107 | the new list is `Deleted` |
| `Background.Decide` | src/background.ts:13-49 | no redirect for a sub-frame, for no matching rule, or when the current account equals the rule's e-mail. Otherwise it redirects to the rewrite of the URL for the matched rule |
| `Background.CurrentAuthUser` | src/background.ts:31-32 | the value of the first `authuser` pair: some pair carries it and no earlier pair is called `authuser`. It is none for an unparsable URL or when no such pair exists |
| `Background.ServiceRedirect` | src/background.ts:43-44 | an unknown serviceId leaves the URL unchanged. Otherwise the rewrite is that service's `authuser` rewrite |
| `Background.RedirectOnlyForEnabledStoredRule` | src/background.ts:23-29 | a matcher that returns enabled stored rules redirects only for such a rule |
| `Background.NoRedirectLoop` | src/background.ts:24-48 | deciding again on a redirect target gives no redirect. This holds for a parsed URL, a matcher that depends only on the hostname, and a rule whose service is in the catalog |
| `Background.UnknownServiceRedirectsToItself` | src/background.ts:43-48 | for a rule whose service is unknown, the redirect target is the URL itself |

## Left out

- Browser I/O is replaced by values. `browser.storage.sync` get/set is the `rules` field of `RuleStore`. The `webNavigation` listener and its host filter (src/background.ts:51) become the inputs of `Decide`. `tabs.update` is the returned `Decision`. async/await is not modelled.
- `console.log` and `console.error` are logging only.
- URL parsing and serialisation (percent-encoding, IDNA, the form-urlencoded serialiser, re-parsing when `pathname` is assigned) belong to a foreign library. The engine takes the parsed record, or parse failure, as input; whether the path is opaque is part of that record. User name and password are not represented, and the rewrites never touch them.
- `crypto.randomUUID` is a `newId` parameter of `AddRule`, required not to be among the stored ids.
- `parseInt` float precision on very long digit strings is not modelled. The account index is a `nat`, so negative or fractional JavaScript numbers are not modelled either.
- `Text.Decimal` renders every `nat` as plain digits. JavaScript's `${n}` does so only below 1e21 (larger numbers become `1e+21` and so on), and it is exact only up to 2^53. Indices beyond those bounds are not modelled.
- `getCurrentAccountEmail` and the two-argument `buildRedirectUrl(url, rule)` imported by src/background.ts:4-6 are not among the exports of src/logic/router-rules.ts. They are not part of this model. The reader is instantiated as the first `authuser` value (`CurrentAuthUser`). The rewriter is instantiated as catalog lookup by serviceId followed by that entry's builder (`ServiceRedirect`).
- The listener's matcher stays a parameter of `Decide`. The imported `findMatchingRule` reads `servicePattern`, which the stored `RouterRule` does not have, so no concrete matcher over stored rules is given.
- `label` is a Dafny keyword, so the field is `labelText`. An update cannot clear it by passing an explicit `undefined`.
- `RouterRules.RedirectSpecifiesIndex`: states the property only for hierarchical paths starting with `/`, as every http(s) path does. An opaque path (`mailto:a@b`) is left as it was by the `pathname` setter, so no index is written into it. For an empty path the prepend gives `/u/<n>` with no trailing `/`, which the detector does not recognise.
- `RouterRules.RedirectIdempotent`: holds only for paths starting with `/`, for the same reason.
- `Background.NoRedirectLoop`: assumes a parsed URL, a matcher that depends only on the hostname, and a catalog service. `UnknownServiceRedirectsToItself` shows what happens without the last assumption.
- `Storage.UpdatePreservesInvariants`: excludes an update to the empty serviceId, which skips the guard (`EmptyServiceIdSkipsUpdateGuard`).
- src/options.tsx, src/components/RuleEditor.tsx and webpack.config.js are UI and build configuration. They are not part of this model.
