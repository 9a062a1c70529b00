/**
 * What one `GET /api/leads` can come back with, and the rule by which the
 * loader turns it into a list of leads or a thrown error.
 */
module Fetch {
  import opened Wrappers
  import opened Leads

  /**
   * The JSON body. `Parsed(field)` carries the body's `leads` field: `None`
   * when it is absent or falsy (`undefined`, `null`). `Malformed` is a body
   * that is not JSON, or whose `leads` cannot be read (`null`).
   */
  datatype Body = Malformed | Parsed(leadsField: Option<seq<Lead>>)

  /** The settled `fetch`: it rejected, or it produced a response. */
  datatype Outcome =
    | NetworkFailure
    | Response(status: int, statusText: string, body: Body)

  /** Why the loader threw. */
  datatype FetchError =
    | Unreachable
    | BadStatus(status: int, statusText: string)
    | BadBody

  /** `res.ok`: the Fetch Standard's ok status, 200 to 299 inclusive. */
  predicate IsOkStatus(status: int) {
    200 <= status <= 299
  }

  /** The loader: a non-ok status throws; otherwise the body's `leads` field, or the empty list when that is falsy. */
  function GetLeads(o: Outcome): (r: Result<seq<Lead>, FetchError>)
    ensures r.Ok? <==> o.Response? && IsOkStatus(o.status) && o.body.Parsed?
    ensures r.Ok? ==> r.value == o.body.leadsField.GetOr([])
    ensures o.Response? && !IsOkStatus(o.status) ==> r == Err(BadStatus(o.status, o.statusText))
  {
    match o
    case NetworkFailure => Err(Unreachable)
    case Response(status, text, body) =>
      if !IsOkStatus(status) then Err(BadStatus(status, text))
      else
        match body
        case Malformed => Err(BadBody)
        case Parsed(field) => Ok(if field.Some? then field.value else [])
  }

  /** A non-ok response fails whatever its body says. */
  lemma BadStatusIgnoresBody(status: int, text: string, b1: Body, b2: Body)
    requires !IsOkStatus(status)
    ensures GetLeads(Response(status, text, b1)) == GetLeads(Response(status, text, b2))
    ensures GetLeads(Response(status, text, b1)).Err?
  {
  }
}
