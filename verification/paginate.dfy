/** Pagination of list queries in the `engine` generation
    (`engine/internal/utils/paginate.go`). The scope factory `Paginate`
    returns is a closure over the request; it reads the `limit` and `offset`
    query parameters when GORM applies it. A request's query is modelled as
    a map from parameter name to its first value. */
module Paginate {
  import opened Wrappers
  import GoInt
  import Strconv
  import Semver

  /** The query parameters of a request (first value of each). */
  type Query = map<string, string>

  const DefaultLimit: int := 10
  const DefaultOffset: int := 0

  /** gin's `DefaultQuery`: the parameter if present (even empty), else the
      default. */
  function DefaultQuery(q: Query, key: string, def: string): (r: string)
    ensures key in q ==> r == q[key]
    ensures key !in q ==> r == def
  {
    if key in q then q[key] else def
  }

  datatype Page = Page(limit: int, offset: int)

  /** The limit and offset the scope applies: a limit that does not parse
      or is not positive becomes 10; an offset that does not parse or is
      negative becomes 0. */
  function PageOf(q: Query): (p: Page)
    ensures 1 <= p.limit && 0 <= p.offset
    ensures "limit" !in q ==> p.limit == DefaultLimit
    ensures "offset" !in q ==> p.offset == DefaultOffset
    ensures "limit" in q ==>
              p.limit == (if Strconv.Atoi(q["limit"]).Some? && Strconv.Atoi(q["limit"]).value > 0
                          then Strconv.Atoi(q["limit"]).value else DefaultLimit)
    ensures "offset" in q ==>
              p.offset == (if Strconv.Atoi(q["offset"]).Some? && Strconv.Atoi(q["offset"]).value >= 0
                           then Strconv.Atoi(q["offset"]).value else DefaultOffset)
  {
    DefaultsParse();
    var l := Strconv.Atoi(DefaultQuery(q, "limit", "10"));
    var o := Strconv.Atoi(DefaultQuery(q, "offset", "0"));
    var limit := if l.Some? && l.value > 0 then l.value else 10;
    var offset := if o.Some? && o.value >= 0 then o.value else 0;
    Page(limit, offset)
  }

  /** The default query values parse to the default page. */
  lemma DefaultsParse()
    ensures Strconv.Atoi("10") == Some(DefaultLimit) && Strconv.Atoi("0") == Some(DefaultOffset)
  {
    assert "10"[..1] == "1" && "1"[..0] == "";
  }

  /** A page requested with a positive limit and a non-negative offset,
      printed in decimal, is the page applied. */
  lemma ValidPagePassesThrough(limit: int, offset: int)
    requires 1 <= limit <= GoInt.IntMax && 0 <= offset <= GoInt.IntMax
    ensures PageOf(map["limit" := Semver.IntToDecimal(limit), "offset" := Semver.IntToDecimal(offset)]) == Page(limit, offset)
  {
    Strconv.AtoiRoundTrip(limit);
    Strconv.AtoiRoundTrip(offset);
  }

  /** A negative or zero limit and a negative offset fall back to the
      defaults, as does a parameter that is not a number. */
  lemma InvalidPageFallsBack(limit: int, offset: int, junk: string)
    requires GoInt.IntMin <= limit <= 0 && GoInt.IntMin <= offset < 0
    requires Strconv.Atoi(junk).None?
    ensures PageOf(map["limit" := Semver.IntToDecimal(limit), "offset" := Semver.IntToDecimal(offset)]) == Page(10, 0)
    ensures PageOf(map["limit" := junk, "offset" := junk]) == Page(10, 0)
  {
    Strconv.AtoiRoundTrip(limit);
    Strconv.AtoiRoundTrip(offset);
  }

  /** A GORM statement as far as pagination touches it. */
  datatype Statement = Statement(limit: Option<int>, offset: Option<int>)

  /** A GORM query: the statement so far and the scopes registered to run
      on it. */
  datatype Db = Db(statement: Statement, scopes: seq<ScopeFactory>)

  /** `GormScopeFactory`; the only one in this model is `Paginate`'s. */
  datatype ScopeFactory = PaginateScope(query: Query)

  /** `Paginate`: the scope factory for a request. */
  function Paginate(q: Query): (f: ScopeFactory)
    ensures f.query == q
  {
    PaginateScope(q)
  }

  /** Running a scope: `db.Limit(limit).Offset(offset)`. */
  function ApplyScope(f: ScopeFactory, s: Statement): (r: Statement)
    ensures r.limit == Some(PageOf(f.query).limit) && r.offset == Some(PageOf(f.query).offset)
  {
    var p := PageOf(f.query);
    s.(limit := Some(p.limit), offset := Some(p.offset))
  }

  /** `WithScope`: a nil factory leaves the query as it was; otherwise the
      factory is registered as a scope. */
  function WithScope(db: Db, f: Option<ScopeFactory>): (r: Db)
    ensures f.None? ==> r == db
    ensures f.Some? ==> r.statement == db.statement && r.scopes == db.scopes + [f.value]
  {
    match f
    case None => db
    case Some(factory) => db.(scopes := db.scopes + [factory])
  }

  /** The statement once the registered scopes run, in order. */
  function Run(db: Db): (s: Statement)
    decreases |db.scopes|
  {
    if |db.scopes| == 0 then db.statement
    else ApplyScope(db.scopes[|db.scopes| - 1], Run(db.(scopes := db.scopes[..|db.scopes| - 1])))
  }

  /** A paginated query always runs with a limit of at least 1 and a
      non-negative offset, the ones its request asked for when valid. */
  lemma PaginatedRun(db: Db, q: Query)
    ensures var s := Run(WithScope(db, Some(Paginate(q))));
            s.limit == Some(PageOf(q).limit) && s.offset == Some(PageOf(q).offset)
            && s.limit.value >= 1 && s.offset.value >= 0
  {
    var r := WithScope(db, Some(Paginate(q)));
    assert r.scopes[..|r.scopes| - 1] == db.scopes;
  }
}
