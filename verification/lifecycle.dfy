/** The life of one short link across the two pages: created on the
    operator page, aged by the cache's absolute expiration, then resolved
    on the public page and inspected on the operator page. */
module Lifecycle {
  import opened Common
  import opened Store
  import opened UrlsPage
  import opened IndexPage

  /** Posts `form` against a cache holding `initial`, lets the cache evict
      what has expired at `now`, then resolves and inspects the encoded id.
      A link that was created resolves to exactly its target until its
      expiration (an empty target makes the redirect throw) and is not
      found from then on; an id that was already
      taken keeps the entry it had. */
  method CreateThenResolve(
    initial: map<string, Entry>, form: UrlRedirect, baseUrl: string,
    urlEncode: string -> string, isAbsoluteUri: string -> bool,
    parseExpiration: string -> Option<Instant>,
    suggestionCandidates: seq<string>, formCandidates: seq<string>, now: Instant)
    returns (created: ActionResult, resolved: ActionResult, inspected: ActionResult)
    ensures var key := urlEncode(form.id);
      var expiration := parseExpiration(form.expirationDate);
      key !in initial && isAbsoluteUri(baseUrl + key) && expiration.Some? ==>
        && (created == Page || created.Faulted?)
        && (now < expiration.value && form.target != "" ==> resolved == Redirect(form.target))
        && (now < expiration.value && form.target == "" ==> resolved == Faulted(EmptyRedirectUrl))
        && (now < expiration.value && key != "" ==> inspected == RedirectToPage(INSPECT_PAGE, key))
        && (expiration.value <= now ==> resolved == Page && (key != "" ==> inspected == Page))
    ensures var key := urlEncode(form.id);
      key in initial ==>
        && created == Page
        && (now < initial[key].expiresAt && initial[key].value != "" ==>
              resolved == Redirect(initial[key].value))
        && (now < initial[key].expiresAt && initial[key].value == "" ==>
              resolved == Faulted(EmptyRedirectUrl))
        && (initial[key].expiresAt <= now ==> resolved == Page)
    ensures var key := urlEncode(form.id);
      key !in initial && !isAbsoluteUri(baseUrl + key) ==> created == Page && resolved == Page
  {
    var db := new Cache(initial);
    var urls := new UrlsModel(db, baseUrl, urlEncode, isAbsoluteUri, parseExpiration);
    urls.model := Some(form);
    created := urls.OnPostAsync(suggestionCandidates, formCandidates);
    db.EvictExpired(now);
    var index := new IndexModel(db);
    var key := urlEncode(form.id);
    resolved := index.OnGetAsync(Some(key));
    inspected := urls.OnPostInspectAsync(Some(key));
  }
}
