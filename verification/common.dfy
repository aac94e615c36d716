/** Values shared by the two page handlers: optional values (C# nullable
    references) and the handler outcomes that stand for Razor action results. */
module Common {

  /** A C# reference that may be null. */
  datatype Option<+T> = None | Some(value: T)

  /** Why a handler ended in an exception rather than a page result. */
  datatype Fault =
    | CandidateTooShort      // `base64Guid[..16]` on a stripped string shorter than 16
    | CandidatesExhausted    // the supplied random material ran out (see GenerateNewId)
    | UnparsableExpiration   // `DateTime.FromBinary(long.Parse(_))` threw on the posted expiration date
    | EmptyRedirectUrl       // `Redirect` threw because the url it was given is empty

  /** What a page handler returns. */
  datatype ActionResult =
    | Page                                      // render the page itself
    | Redirect(url: string)                     // HTTP redirect to an arbitrary URL
    | RedirectToPage(pageName: string, id: string)  // redirect to another page with an Id route value
    | Faulted(fault: Fault)                     // the handler threw
}
