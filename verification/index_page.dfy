/** The public page that resolves a short id (`Pages/Index.cshtml.cs`). */
module IndexPage {
  import opened Common
  import opened Store

  const NOT_FOUND := "Redirect ID not found, it may have been deleted or expired"

  class IndexModel {
    /** The shared distributed cache. */
    const db: Cache
    /** The bound id and the error shown when it does not resolve. */
    var id: Option<string>
    var errorMessage: Option<string>

    constructor(db: Cache)
      ensures this.db == db && id == None && errorMessage == None
    {
      this.db := db;
      id := None;
      errorMessage := None;
    }

    /** `OnGetAsync`: with no id, show the page; with an id the store holds,
        redirect to exactly the stored target, which throws when that
        target is empty; otherwise show the not-found error. The store is
        only read. */
    method OnGetAsync(id: Option<string>) returns (result: ActionResult)
      modifies this
      ensures this.id == id
      ensures unchanged(db)
      ensures id.None? ==> result == Page && errorMessage == old(errorMessage)
      ensures id.Some? && id.value in db.entries && db.entries[id.value].value != "" ==>
        result == Redirect(db.entries[id.value].value) && errorMessage == old(errorMessage)
      ensures id.Some? && id.value in db.entries && db.entries[id.value].value == "" ==>
        result == Faulted(EmptyRedirectUrl) && errorMessage == old(errorMessage)
      ensures id.Some? && id.value !in db.entries ==>
        result == Page && errorMessage == Some(NOT_FOUND)
    {
      this.id := id;
      if this.id.None? {
        return Page;
      }
      var data := db.Get(this.id.value);
      if data.Some? {
        if data.value == "" {
          return Faulted(EmptyRedirectUrl);
        }
        return Redirect(data.value);
      }
      errorMessage := Some(NOT_FOUND);
      return Page;
    }
  }
}
