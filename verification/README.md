# just-short-it: the short-link engine, modelled in Dafny

just-short-it is a URL shortener. An authenticated operator registers a
short id that maps to a target URL with an absolute expiration, and any
visitor who opens the id is redirected to the target. This project models
the engine behind the two Razor pages that do this work. Both pages sit on
the shared distributed cache (`IDistributedCache`).

- **Id generation** (`UrlsModel.GenerateNewId`). A base64-encoded GUID has
  `/`, `+` and `=` stripped out. The id then grows one character at a time
  over the first 16 characters, and the first prefix the cache does not
  hold is returned. When all 16 prefixes are taken, a new GUID is drawn.
- **Creation and inspection** (`UrlsModel.OnPostAsync`,
  `OnPostInspectAsync`, `OnGet`). Creation url-encodes the operator's id.
  It refuses an id the cache already holds. It also refuses an id that
  does not compose an absolute URL with the base URL. Otherwise it writes
  encoded id → target with the absolute expiration, clears the model state
  and suggests fresh ids. Inspection only checks that an id exists.
- **Resolution** (`IndexModel.OnGetAsync`). A read-only lookup. It either
  redirects to the stored target or shows "not found". `Redirect` throws
  on an empty target.

Modules:

- `Common` (common.dfy): `Option`, the handler outcomes (`ActionResult`) and
  the exceptions a handler can end in (`Fault`).
- `Ids` (ids.dfy): the `[/+=]` filter, the prefix probe and the generator.
  These are pure functions of the random candidates and the cache's keys.
  The lemmas here cover what the filter removes and keeps, and the
  minimality of the probe. They also prove that the generator picks the
  shortest free prefix of the first candidate that is not fully taken, in
  both directions.
- `Store` (store.dfy): the cache as a class over `map<string, Entry>`. An
  entry holds a value and an absolute expiration instant. The cache's own
  time-to-live policy is `EvictExpired`.
- `UrlsPage` (urls_page.dfy): the class `UrlsModel`. Its fields are the page
  properties and model state; the methods are the page handlers.
- `IndexPage` (index_page.dfy): the class `IndexModel`.
- `Lifecycle` (lifecycle.dfy): a client of both pages. It creates a link,
  lets the cache expire entries, then resolves and inspects the link.

Behaviour of the handlers worth noting:

- `OnPostAsync` does not check the target itself. Any attribute
  validation of `UrlRedirect` reaches the model only through `modelErrors`
  (`JustShortIt.Model.UrlRedirect` is not part of this model).
- Creation always stores the id the operator posted. The generated id is
  only offered as a suggestion in the form.
- No handler reports an unreachable store or an expiration in the past.
- Inspection and resolution look up the id exactly as given. Creation
  stores it url-encoded.

## Model

| member | source | states |
|---|---|---|
| Ids.StripUnsafe | Pages/Urls.cshtml.cs:19-20 | the filtered candidate contains none of `/`, `+`, `=` and is no longer than its input |
| Ids.StripUnsafeCounts | Pages/Urls.cshtml.cs:19-20 | every match of `[/+=]` is removed; every other character keeps its number of occurrences |
| Ids.StripUnsafeConcat | Pages/Urls.cshtml.cs:19-20 | the replacement works character by character: filtering a concatenation is concatenating the filtered parts |
| Ids.StripUnsafeOfSafe | Pages/Urls.cshtml.cs:19-20 | a string without `/`, `+`, `=` is left unchanged |
| Ids.StripUnsafeIdempotent | Pages/Urls.cshtml.cs:94 | filtering an already filtered candidate changes nothing |
| Ids.ShortestFreePrefixUnique | Pages/Urls.cshtml.cs:99-103 | a candidate has at most one shortest free prefix, so the probe's answer is determined |
| Ids.ProbeFrom | Pages/Urls.cshtml.cs:96-104 | the probe returns a non-empty prefix of at most 16 characters that the store does not hold, all shorter prefixes being held; it returns nothing exactly when all 16 prefixes are held |
| Ids.Generate | Pages/Urls.cshtml.cs:90-106 | a generated id has 1 to 16 characters, none of them `/`, `+` or `=`, and is absent from the store |
| Ids.GenerateSkips | Pages/Urls.cshtml.cs:92-105 | candidates whose 16 prefixes are all taken are passed over without changing the outcome |
| Ids.GenerateSound | Pages/Urls.cshtml.cs:92-105 | a generated id is the shortest free prefix of the first candidate not fully taken, which strips to at least 16 characters; every earlier candidate is fully taken |
| Ids.GenerateComplete | Pages/Urls.cshtml.cs:92-105 | conversely, when candidate j is the first not fully taken and is long enough, its shortest free prefix is exactly what is generated |
| Ids.GenerateTooShort | Pages/Urls.cshtml.cs:99 | the slice to 16 characters throws exactly when the first candidate that is not fully taken strips to fewer than 16 characters |
| Ids.GenerateExhausted | Pages/Urls.cshtml.cs:92-105 | the retry only runs out of random material when every candidate had all 16 prefixes taken |
| Store.LiveAt | Pages/Urls.cshtml.cs:69-72 | with an absolute expiration, an entry is live exactly while the clock is before its expiration, and keeps its value |
| Store.LiveAtShrinks | Pages/Urls.cshtml.cs:69-72 | as the clock advances the live entries only shrink, and evicting at an earlier instant and then a later one is evicting at the later one |
| Store.Cache.Get | Pages/Index.cshtml.cs:26 | a lookup returns a value exactly when the key is held, and then the stored value |
| Store.Cache.SetString | Pages/Urls.cshtml.cs:69-72 | the key maps to the new value and expiration; every other key is unchanged |
| Store.Cache.EvictExpired | Pages/Urls.cshtml.cs:69-72 | the cache keeps exactly the entries that are live at the given instant |
| UrlsPage.UrlsModel.constructor | Pages/Urls.cshtml.cs:25-33 | the page holds the given cache and base URL; nothing is bound yet |
| UrlsPage.UrlsModel.GenerateNewId | Pages/Urls.cshtml.cs:90-106 | the loop returns exactly what the generator gives on the store's keys: an id of 1 to 16 URL-safe characters that the store does not hold, or the exception the short slice throws |
| UrlsPage.UrlsModel.OnPostInspectAsync | Pages/Urls.cshtml.cs:35-48 | a null or empty id is "ID is a required field"; otherwise it redirects to the inspect page exactly when the store holds the id, else "ID does not exist"; the store is never modified |
| UrlsPage.UrlsModel.OnGet | Pages/Urls.cshtml.cs:83-88 | the message is shown and the form is reset around a freshly generated id that the store does not hold |
| UrlsPage.UrlsModel.OnPostAsync | Pages/Urls.cshtml.cs:50-81 | an invalid or missing form changes nothing. A taken encoded id gives "This ID is already taken.", and an id that does not compose an absolute URL gives "This ID cannot be used in a URL."; both leave the store unchanged. Otherwise exactly the encoded id is mapped to the target, no held key is overwritten, the model state is cleared, and both suggested ids differ from the id just written |
| IndexPage.IndexModel.constructor | Pages/Index.cshtml.cs:15-18 | the page holds the given cache; no id and no error are bound |
| IndexPage.IndexModel.OnGetAsync | Pages/Index.cshtml.cs:20-32 | the bound id is the input. A null id shows the page with no error. A held id redirects to exactly the stored value; an empty stored value makes `Redirect` throw. Any other id shows "Redirect ID not found, it may have been deleted or expired". The store is never written |
| Lifecycle.CreateThenResolve | Pages/Urls.cshtml.cs:55-72 | a created link resolves to its target and inspects as existing until its expiration, and is not found from then on; an empty target makes the resolving redirect throw. Creating over a taken id keeps the earlier entry, which resolves as before |

## Left out

- Program.cs is not modelled: configuration loading, dependency wiring, the choice between Redis and the in-memory cache, and cookie setup.
- Pages/Login.cshtml.cs is not modelled: credential check and cookie sign-in. The `[Authorize]` gate on the operator page is not modelled either.
- `Guid.NewGuid` and `Convert.ToBase64String` are replaced by the candidate strings passed to `GenerateNewId`, one per attempt.
- UrlsPage.UrlsModel.GenerateNewId: the source's `while (true)` never gives up. The model stops when the supplied candidates run out and reports `CandidatesExhausted`, an outcome the source cannot reach.
- `HttpUtility.UrlEncode`, `Uri.TryCreate` with `UriKind.Absolute`, and `DateTime.FromBinary(long.Parse(...))` are function-valued parameters of the page. Any exception from `DateTime.FromBinary(long.Parse(_))` is the fault `UnparsableExpiration`: a format error or overflow in `long.Parse`, a null expiration date, or ticks out of range.
- The composed link is the string `BaseUrl + id`. The normalisation `System.Uri` applies when printing it is not modelled.
- The release-build initialisation of `BaseUrl` (Pages/Urls.cshtml.cs:30) reads the property before it is ever assigned. The model takes the base URL as a constructor parameter instead.
- Errors inside the cache are not modelled: an unreachable store, or a cache implementation that rejects an expiration in the past. The cache's eviction clock is the `now` passed to `EvictExpired`.
- async/await and concurrent requests are not modelled. In particular, the window between a probe finding a prefix free and a later write of that id is not modelled.
- HTML message text is reduced to `Notice` values. The success message becomes `LinkCreated(link)`, and `ModelState` becomes a list of errors plus a map of values. Model binding and validation run before the handler; their result is whatever error list the caller leaves in `modelErrors`.
- The Inspect page that `OnPostInspectAsync` redirects to is not part of this model.
