/** The operator page that creates short links (`Pages/Urls.cshtml.cs`):
    inspecting an id, creating an id → target entry, and suggesting a fresh
    id by probing the store with prefixes of random material. */
module UrlsPage {
  import opened Common
  import opened Ids
  import opened Store

  const ID_TAKEN := "This ID is already taken."
  const ID_NOT_USABLE := "This ID cannot be used in a URL."
  const ID_REQUIRED := "ID is a required field"
  const ID_UNKNOWN := "ID does not exist"

  /** Model-state keys and the page an existing id is inspected on. */
  const INSPECT_ID_FIELD := "Inspect_Id"
  const ID_FIELD := "Id"
  const INSPECT_PAGE := "Inspect"

  /** The bound form: the id the operator chose, the target URL and the
      expiration date as the text of a binary `DateTime`. */
  datatype UrlRedirect = UrlRedirect(id: string, target: string, expirationDate: string)

  /** What the page shows in its message area: a plain text, or the
      success notice carrying the composed link. */
  datatype Notice = Text(text: string) | LinkCreated(link: string)

  /** One entry of the page's model-state error list. */
  datatype ModelError = ModelError(field: string, message: string)

  class UrlsModel {
    /** The shared distributed cache. */
    const db: Cache
    /** The absolute prefix every short link is composed on. */
    const baseUrl: string
    /** `HttpUtility.UrlEncode`. */
    const urlEncode: string -> string
    /** Whether `Uri.TryCreate(_, UriKind.Absolute, _)` succeeds. */
    const isAbsoluteUri: string -> bool
    /** `DateTime.FromBinary(long.Parse(_))`; None where it throws any exception. */
    const parseExpiration: string -> Option<Instant>

    /** The bound form model (`Model`), null when nothing was posted. */
    var model: Option<UrlRedirect>
    /** The bound `message` property. */
    var message: Option<Notice>
    /** The model-state errors and the model-state values the form shows. */
    var modelErrors: seq<ModelError>
    var modelValues: map<string, string>

    constructor(db: Cache, baseUrl: string, urlEncode: string -> string,
                isAbsoluteUri: string -> bool, parseExpiration: string -> Option<Instant>)
      ensures this.db == db && this.baseUrl == baseUrl && this.urlEncode == urlEncode
      ensures this.isAbsoluteUri == isAbsoluteUri && this.parseExpiration == parseExpiration
      ensures model == None && message == None && modelErrors == [] && modelValues == map[]
    {
      this.db := db;
      this.baseUrl := baseUrl;
      this.urlEncode := urlEncode;
      this.isAbsoluteUri := isAbsoluteUri;
      this.parseExpiration := parseExpiration;
      model := None;
      message := None;
      modelErrors := [];
      modelValues := map[];
    }

    /** `ModelState.IsValid`: binding and validation left no error. */
    predicate ModelStateValid()
      reads this
    {
      modelErrors == []
    }

    /** `GenerateNewId`: for each random candidate, strip `/`, `+` and `=`,
        then grow an id one character at a time over the first 16
        characters and return the first prefix the store does not hold.
        The method reads the store and changes nothing; its result is the
        generator function on the keys the store holds. */
    method GenerateNewId(candidates: seq<string>) returns (g: Generation)
      ensures g == Generate(candidates, db.entries.Keys)
      ensures g.NewId? ==> 1 <= |g.id| <= MAX_ID_LENGTH && UrlSafe(g.id) && g.id !in db.entries
    {
      ghost var keys := db.entries.Keys;
      var attempt := 0;
      while attempt < |candidates|
        invariant attempt <= |candidates|
        invariant Generate(candidates[attempt..], keys) == Generate(candidates, keys)
      {
        var base64Guid := StripUnsafe(candidates[attempt]);
        if |base64Guid| < MAX_ID_LENGTH {
          return Failed(CandidateTooShort);
        }
        // The outcome is this candidate's probe, or else the remaining candidates'.
        assert candidates[attempt..][0] == candidates[attempt];
        assert candidates[attempt..][1..] == candidates[attempt + 1..];
        assert Generate(candidates[attempt..], keys) ==
          match Probe(base64Guid, keys)
          case Some(id) => NewId(id)
          case None => Generate(candidates[attempt + 1..], keys);
        var newId := "";
        var n := 0;
        while n < MAX_ID_LENGTH
          invariant n <= MAX_ID_LENGTH
          invariant newId == base64Guid[..n]
          invariant TakenUpTo(base64Guid, keys, n)
          invariant Probe(base64Guid, keys) == ProbeFrom(base64Guid, keys, n)
        {
          assert base64Guid[..n + 1] == base64Guid[..n] + [base64Guid[n]];
          newId := newId + [base64Guid[n]];
          var stored := db.Get(newId);
          if stored.None? {
            return NewId(newId);
          }
          n := n + 1;
        }
        attempt := attempt + 1;
      }
      return Failed(CandidatesExhausted);
    }

    /** `OnPostInspectAsync`: a missing or empty id is a form error; an id
        the store holds redirects to the inspect page; any other id is a
        form error. The store is only read. */
    method OnPostInspectAsync(inspectId: Option<string>) returns (result: ActionResult)
      modifies this`modelErrors
      ensures unchanged(db)
      ensures inspectId.None? || inspectId.value == "" ==>
        result == Page && modelErrors == old(modelErrors) + [ModelError(INSPECT_ID_FIELD, ID_REQUIRED)]
      ensures inspectId.Some? && inspectId.value != "" && inspectId.value in db.entries ==>
        result == RedirectToPage(INSPECT_PAGE, inspectId.value) && modelErrors == old(modelErrors)
      ensures inspectId.Some? && inspectId.value != "" && inspectId.value !in db.entries ==>
        result == Page && modelErrors == old(modelErrors) + [ModelError(INSPECT_ID_FIELD, ID_UNKNOWN)]
    {
      if inspectId.None? || inspectId.value == "" {
        modelErrors := modelErrors + [ModelError(INSPECT_ID_FIELD, ID_REQUIRED)];
        return Page;
      }
      var stored := db.Get(inspectId.value);
      if stored.Some? {
        return RedirectToPage(INSPECT_PAGE, inspectId.value);
      }
      modelErrors := modelErrors + [ModelError(INSPECT_ID_FIELD, ID_UNKNOWN)];
      return Page;
    }

    /** `OnGet`: show `message` and offer a freshly generated id in an
        otherwise empty form. */
    method OnGet(message: Option<Notice>, candidates: seq<string>) returns (result: ActionResult)
      modifies this`message, this`model
      ensures this.message == message
      ensures var g := Generate(candidates, db.entries.Keys);
        if g.NewId? then result == Page && model == Some(UrlRedirect(g.id, "", ""))
        else result == Faulted(g.fault) && model == old(model)
      ensures model.Some? && model != old(model) ==> model.value.id !in db.entries
    {
      this.message := message;
      var g := GenerateNewId(candidates);
      if g.Failed? {
        return Faulted(g.fault);
      }
      model := Some(UrlRedirect(g.id, "", ""));
      return Page;
    }

    /** `OnPostAsync`: create the entry encoded id → target unless the
        encoded id is taken or does not compose an absolute URL, then clear
        the model state, suggest a fresh id (`suggestionCandidates`) and
        show the form again with another fresh id (`formCandidates`). */
    method OnPostAsync(suggestionCandidates: seq<string>, formCandidates: seq<string>)
      returns (result: ActionResult)
      modifies this, db
      // An invalid or missing form changes nothing.
      ensures !old(ModelStateValid()) || old(model).None? ==>
        result == Page && unchanged(this) && db.entries == old(db.entries)
      ensures old(ModelStateValid()) && old(model).Some? ==>
        var form := old(model).value;
        var key := urlEncode(form.id);
        var link := baseUrl + key;
        var expiration := parseExpiration(form.expirationDate);
        if key in old(db.entries) then
          && result == Page && message == Some(Text(ID_TAKEN))
          && db.entries == old(db.entries)
          && model == old(model) && modelErrors == old(modelErrors) && modelValues == old(modelValues)
        else if !isAbsoluteUri(link) then
          && result == Page && message == Some(Text(ID_NOT_USABLE))
          && db.entries == old(db.entries)
          && model == old(model) && modelErrors == old(modelErrors) && modelValues == old(modelValues)
        else if expiration.None? then
          && result == Faulted(UnparsableExpiration)
          && db.entries == old(db.entries) && unchanged(this)
        else
          && db.entries == old(db.entries)[key := Entry(form.target, expiration.value)]
          && modelErrors == []
          && var suggestion := Generate(suggestionCandidates, db.entries.Keys);
             if suggestion.Failed? then
               && result == Faulted(suggestion.fault)
               && modelValues == map[] && message == old(message) && model == old(model)
             else
               && suggestion.id != key
               && modelValues == map[ID_FIELD := suggestion.id]
               && message == Some(LinkCreated(link))
               && var next := Generate(formCandidates, db.entries.Keys);
                  if next.Failed? then result == Faulted(next.fault) && model == old(model)
                  else result == Page && model == Some(UrlRedirect(next.id, "", "")) && next.id != key
      // A create never overwrites: every key held before keeps its entry,
      // and at most the one encoded key is added.
      ensures forall k :: k in old(db.entries) ==> k in db.entries && db.entries[k] == old(db.entries)[k]
      ensures |db.entries| <= |old(db.entries)| + 1
    {
      if !ModelStateValid() {
        return Page;
      }
      if model.None? {
        return Page;
      }
      var form := model.value;
      var id := urlEncode(form.id);
      var existing := db.Get(id);
      if existing.Some? {
        message := Some(Text(ID_TAKEN));
        return Page;
      }
      var link := baseUrl + id;
      if !isAbsoluteUri(link) {
        message := Some(Text(ID_NOT_USABLE));
        return Page;
      }
      var expiration := parseExpiration(form.expirationDate);
      if expiration.None? {
        return Faulted(UnparsableExpiration);
      }
      db.SetString(id, form.target, expiration.value);
      modelErrors, modelValues := [], map[];
      var suggestion := GenerateNewId(suggestionCandidates);
      if suggestion.Failed? {
        return Faulted(suggestion.fault);
      }
      modelValues := modelValues[ID_FIELD := suggestion.id];
      message := Some(LinkCreated(link));
      result := OnGet(message, formCandidates);
    }
  }
}
