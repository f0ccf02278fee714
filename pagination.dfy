/**
 * The pagination middleware: reads `take` and `skip` from the query, rejects the request with
 * status 400 when either is not a valid integer, and otherwise stores them in the request's
 * context and passes the request on. Query values become numbers through `z.coerce.number`,
 * which is a parameter here.
 */
module PaginationMiddleware {
  import opened Wrappers
  import opened JsNumber
  import opened RequestContext

  const DefaultTake: int := 10
  const DefaultSkip: int := 0
  const MinTake: int := 1
  const MinSkip: int := 0
  const BadRequest: int := 400

  /** `Number.MAX_SAFE_INTEGER`, the bound of zod's `.int()`. */
  const MaxSafeInteger: int := 0x1F_FFFF_FFFF_FFFF

  /** What zod's `.int()` accepts: a finite integral number within the safe range. */
  predicate IsSafeInteger(n: Num) {
    n.Fin? && n.v == n.v.Floor as real && -MaxSafeInteger <= n.v.Floor <= MaxSafeInteger
  }

  /** `z.coerce.number().int().min(min).default(default)` applied to one query key. */
  function ParseBound(query: map<string, string>, key: string, min: int, default: int, toNumber: string -> Num): (r: Option<int>)
    ensures key !in query ==> r == Some(default)
    ensures key in query ==> (r.Some? <==> IsSafeInteger(toNumber(query[key])) && toNumber(query[key]).v >= min as real)
    ensures key in query && r.Some? ==> r.value as real == toNumber(query[key]).v && min <= r.value <= MaxSafeInteger
  {
    if key !in query then Some(default)
    else
      var n := toNumber(query[key]);
      if IsSafeInteger(n) && n.v >= min as real then Some(n.v.Floor) else None
  }

  /** `PaginationSchema.safeParse(req.query)`: both values, or the keys that failed. */
  function ParsePagination(query: map<string, string>, toNumber: string -> Num): (r: Result<(int, int), set<string>>)
    ensures r.Success? ==> r.value.0 >= MinTake && r.value.1 >= MinSkip
    ensures r.Success? <==> ParseBound(query, "take", MinTake, DefaultTake, toNumber).Some? && ParseBound(query, "skip", MinSkip, DefaultSkip, toNumber).Some?
    ensures r.Failure? ==> r.error != {} && r.error <= {"take", "skip"}
  {
    var take := ParseBound(query, "take", MinTake, DefaultTake, toNumber);
    var skip := ParseBound(query, "skip", MinSkip, DefaultSkip, toNumber);
    if take.Some? && skip.Some? then Success((take.value, skip.value))
    else Failure((if take.None? then {"take"} else {}) + (if skip.None? then {"skip"} else {}))
  }

  /** An empty query gives the defaults. */
  lemma ParseEmptyQuery(toNumber: string -> Num)
    ensures ParsePagination(map[], toNumber) == Success((DefaultTake, DefaultSkip))
  {
  }

  /** A take of zero is rejected, and a skip of zero accepted. */
  lemma ParseZero(toNumber: string -> Num, query: map<string, string>)
    requires "take" in query && toNumber(query["take"]) == Fin(0.0)
    ensures ParsePagination(query, toNumber) == Failure(if ParseBound(query, "skip", MinSkip, DefaultSkip, toNumber).None? then {"take", "skip"} else {"take"})
  {
    assert ParseBound(query, "take", MinTake, DefaultTake, toNumber).None?;
    assert {"take"} + {"skip"} == {"take", "skip"};
    assert {"take"} + {} == {"take"};
  }

  datatype Outcome = Rejected(status: int, issues: set<string>) | CalledNext

  /** The middleware: 400 and no `next` on failure; the parsed pagination in the context and `next` on success. */
  method Handle(req: Request, toNumber: string -> Num) returns (outcome: Outcome)
    modifies req
    ensures ParsePagination(old(req.query), toNumber).Failure? ==>
      outcome == Rejected(BadRequest, ParsePagination(old(req.query), toNumber).error) && req.context == old(req.context)
    ensures ParsePagination(old(req.query), toNumber).Success? ==>
      var (take, skip) := ParsePagination(old(req.query), toNumber).value;
      && outcome == CalledNext
      && req.context == Some(Merge(old(req.context), PartialContext(Some(Pagination(take, skip, None)), None, None)))
    ensures req.query == old(req.query)
  {
    var result := ParsePagination(req.query, toNumber);
    if result.Failure? {
      return Rejected(BadRequest, result.error);
    }
    var (take, skip) := result.value;
    var _ := AssignContextDefaults(req, PartialContext(Some(Pagination(take, skip, None)), None, None));
    outcome := CalledNext;
  }

  /** After the middleware passes a request on, its pagination holds valid values and its other keys are kept. */
  lemma PassedContext(existing: Option<Context>, take: int, skip: int)
    requires take >= MinTake && skip >= MinSkip
    ensures var c := Merge(existing, PartialContext(Some(Pagination(take, skip, None)), None, None));
      && c.pagination == Pagination(take, skip, None)
      && c.correlationId == existing.GetOr(Defaults()).correlationId
      && c.user == existing.GetOr(Defaults()).user
  {
  }

  datatype PrismaOptions = PrismaOptions(skip: int, take: int)

  /** `toPrismaOptions`: exactly the skip and take of the pagination. */
  function ToPrismaOptions(p: Pagination): (r: PrismaOptions)
    ensures r.skip == p.skip && r.take == p.take
  {
    PrismaOptions(p.skip, p.take)
  }
}
