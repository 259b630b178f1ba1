/** Route results: `successResponse(data)` or `errorResponse(message, status,
    code)`, and the tenant lookup the admin routes start with. */
module Http {
  import opened Js
  import opened Ids
  import opened Store

  /** A route's answer. An error's message is absent when it is the text of
      a schema validation failure, which this model does not render. */
  datatype Response<+T> =
    | Ok(data: T)
    | Err(status: int, code: Option<string>, message: Option<string>)
  {
    /** The HTTP status: `successResponse` answers 200. */
    function Status(): int {
      if Ok? then 200 else status
    }
  }

  function ErrorWith<T>(status: int, code: string, message: string): Response<T> {
    Err(status, Some(code), Some(message))
  }

  /** A body the route's schema rejects; the message is the schema's report. */
  function ValidationError<T>(): Response<T> {
    Err(400, Some("VALIDATION_ERROR"), None)
  }

  function InvalidTenant<T>(): Response<T> {
    ErrorWith(401, "INVALID_TENANT", "Invalid tenant")
  }

  /** `getTenantFromRequest`: the tenant the request names; the route
      answers `InvalidTenant` when there is none. The request's tenant id is a
      non-empty constant, so the "tenant required" branch is unreachable
      and not modelled. */
  function ResolveTenant(s: State, tenantId: Id): (r: Option<Tenant>)
    ensures r.Some? <==> tenantId in s.tenants
    ensures r.Some? ==> r.value == s.tenants[tenantId]
  {
    if tenantId in s.tenants then Some(s.tenants[tenantId]) else None
  }
}
