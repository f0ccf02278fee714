/**
 * The per-request context the server threads through its services, its defaults, and the
 * three-level merge that assigns it to a request: the new keys over the request's existing
 * context over the defaults.
 */
module RequestContext {
  import opened Wrappers

  datatype Pagination = Pagination(take: int, skip: int, page: Option<int>)

  datatype UserRef = UserRef(id: string, email: string, name: string)

  datatype Context = Context(pagination: Pagination, correlationId: string, user: Option<UserRef>)

  /**
   * `Partial<PointlyRequestContext>`: `None` is a key the object does not hold. The user key
   * can also be present and hold `undefined`, which is `Some(None)`.
   */
  datatype PartialContext = PartialContext(pagination: Option<Pagination>, correlationId: Option<string>, user: Option<Option<UserRef>>)

  const NoKeys: PartialContext := PartialContext(None, None, None)

  /** `createContextDefaults()`. */
  function Defaults(): (c: Context)
    ensures c.pagination == Pagination(10, 0, Some(0))
    ensures c.correlationId == "" && c.user == None
  {
    Context(Pagination(10, 0, Some(0)), "", None)
  }

  /** `{ ...createContextDefaults(), ...req.context, ...context }`. */
  function Merge(existing: Option<Context>, p: PartialContext): Context {
    var base := existing.GetOr(Defaults());
    Context(p.pagination.GetOr(base.pagination), p.correlationId.GetOr(base.correlationId), p.user.GetOr(base.user))
  }

  /** The value of each key: the new context's if it holds the key, else the existing context's, else the default. */
  lemma MergePrecedence(existing: Option<Context>, p: PartialContext)
    ensures p.pagination.Some? ==> Merge(existing, p).pagination == p.pagination.value
    ensures p.correlationId.Some? ==> Merge(existing, p).correlationId == p.correlationId.value
    ensures p.user.Some? ==> Merge(existing, p).user == p.user.value
    ensures existing.Some? && p.pagination.None? ==> Merge(existing, p).pagination == existing.value.pagination
    ensures existing.Some? && p.correlationId.None? ==> Merge(existing, p).correlationId == existing.value.correlationId
    ensures existing.Some? && p.user.None? ==> Merge(existing, p).user == existing.value.user
    ensures existing.None? && p.pagination.None? ==> Merge(existing, p).pagination == Pagination(10, 0, Some(0))
    ensures existing.None? && p.correlationId.None? ==> Merge(existing, p).correlationId == ""
    ensures existing.None? && p.user.None? ==> Merge(existing, p).user == None
  {
  }

  /** Assigning no keys keeps an existing context, and gives the defaults otherwise. */
  lemma MergeNoKeys(existing: Option<Context>)
    ensures Merge(existing, NoKeys) == existing.GetOr(Defaults())
  {
  }

  /** Assigning the same keys twice is assigning them once. */
  lemma MergeIdempotent(existing: Option<Context>, p: PartialContext)
    ensures Merge(Some(Merge(existing, p)), p) == Merge(existing, p)
  {
  }

  /** The keys of `later` over those of `earlier`, as one object spread after the other. */
  function Over(earlier: PartialContext, later: PartialContext): PartialContext {
    PartialContext(
      if later.pagination.Some? then later.pagination else earlier.pagination,
      if later.correlationId.Some? then later.correlationId else earlier.correlationId,
      if later.user.Some? then later.user else earlier.user)
  }

  /** Two assignments in a row are one assignment of their keys, the later winning. */
  lemma MergeSequential(existing: Option<Context>, p: PartialContext, q: PartialContext)
    ensures Merge(Some(Merge(existing, p)), q) == Merge(existing, Over(p, q))
  {
  }

  /** An Express request as the middleware sees it: its optional context and its query parameters. */
  class Request {
    var context: Option<Context>
    var query: map<string, string>

    constructor (query: map<string, string>)
      ensures this.query == query && context == None
    {
      this.query := query;
      context := None;
    }
  }

  /** `assignContextDefaults(req, context)`: replaces the request's context by the merge and returns the same request. */
  method AssignContextDefaults(req: Request, p: PartialContext) returns (r: Request)
    modifies req
    ensures r == req
    ensures req.context == Some(Merge(old(req.context), p))
    ensures req.query == old(req.query)
  {
    req.context := Some(Merge(req.context, p));
    r := req;
  }
}
