/**
 * The request-facing functions of app/database.js: connectMongo, which
 * validates the connection fields and defaults them before asking the
 * registry for a collection, and executeFind / executeAggregate with their
 * helpers _find / _aggregate, which parse the query text with the reviver
 * and hand it to the driver.
 *
 * JSON.parse's text parser, basic-auth's header parser and the driver's
 * find / aggregate calls are parameters: only what they return is modelled.
 */
module Database {
  import opened Wrappers
  import opened Strings
  import opened Json
  import opened Reviver
  import opened ConnectionString
  import opened Driver
  import opened Registry

  /** What basic-auth makes of a well-formed Authorization header. */
  datatype BasicCredentials = BasicCredentials(name: string, pass: string)

  /** The fields connectMongo reads from `req.body.db`. */
  datatype DbFields = DbFields(
    database: Field,
    host: Field,
    collection: Field,
    port: Field,
    authSource: Field,
    authMechanism: Field)

  /**
   * A request as connectMongo sees it: what basic-auth returned (nothing for
   * a missing or malformed header) and `req.body.db` (nothing when falsy).
   */
  datatype Request = Request(auth: Option<BasicCredentials>, db: Option<DbFields>)

  /** The errors the functions of app/database.js throw. */
  datatype Failure =
      /** `new TypeError(message)`. */
    | TypeError(message: string)
      /** `new Error(message)`. */
    | Error(message: string)
      /** JSON.parse rejects `text`. */
    | SyntaxError(text: string)
      /** An error of the driver, rethrown as it is. */
    | Thrown(error: DriverError)

  const InvalidCredentialsMessage: string := "Credenciais inválidas."
  const InvalidConnectionInfoMessage: string := "Informações de conexão do mongo inválidas."
  const EmptyQueryMessage: string := "A consulta não pode ser vazia."
  const AuthenticationErrorPrefix: string := "Erro de autenticação no MongoDB: "

  const DefaultPort: Field := Num(27017)
  const DefaultAuthSource: Field := Text("admin")
  const DefaultAuthMechanism: Field := Text("SCRAM-SHA-256")

  // ---------------------------------------------------------------- connectMongo

  /** `req.body.db || {}`: a missing object reads as all fields undefined. */
  function FieldsOf(req: Request): DbFields
  {
    match req.db
    case Some(f) => f
    case None => DbFields(Missing, Missing, Missing, Missing, Missing, Missing)
  }

  /** The descriptor connectMongo builds: port, authSource and authMechanism fall back to their defaults when falsy. */
  function Descriptor(who: BasicCredentials, f: DbFields): Credentials
  {
    Credentials(
      who.name, who.pass, f.host, Or(f.port, DefaultPort), f.database, f.collection,
      Or(f.authSource, DefaultAuthSource), Or(f.authMechanism, DefaultAuthMechanism))
  }

  /** connectMongo up to the call into the registry: the two TypeError checks, then the descriptor. */
  function ValidateRequest(req: Request): Result<Credentials, Failure>
  {
    var f := FieldsOf(req);
    if req.auth.None? then Err(TypeError(InvalidCredentialsMessage))
    else if !Truthy(f.database) || !Truthy(f.host) || !Truthy(f.collection) then Err(TypeError(InvalidConnectionInfoMessage))
    else Ok(Descriptor(req.auth.value, f))
  }

  /**
   * Validation fails exactly when the credentials are missing or database,
   * host or collection is falsy, credentials being checked first; otherwise
   * the descriptor carries the request's user, password, host, database and
   * collection, and port, authSource and authMechanism are the request's
   * when truthy and 27017, "admin", "SCRAM-SHA-256" otherwise.
   */
  lemma ValidateRequestOutcome(req: Request)
    ensures req.auth.None? ==> ValidateRequest(req) == Err(TypeError(InvalidCredentialsMessage))
    ensures req.auth.Some? && !(Truthy(FieldsOf(req).database) && Truthy(FieldsOf(req).host) && Truthy(FieldsOf(req).collection))
            ==> ValidateRequest(req) == Err(TypeError(InvalidConnectionInfoMessage))
    ensures ValidateRequest(req).Ok? <==>
              req.auth.Some? && Truthy(FieldsOf(req).database) && Truthy(FieldsOf(req).host) && Truthy(FieldsOf(req).collection)
    ensures ValidateRequest(req).Ok? ==>
              var c := ValidateRequest(req).value;
              var f := FieldsOf(req);
              && c.username == req.auth.value.name && c.password == req.auth.value.pass
              && c.host == f.host && c.database == f.database && c.collection == f.collection
              && c.port == (if Truthy(f.port) then f.port else Num(27017))
              && c.authSource == (if Truthy(f.authSource) then f.authSource else Text("admin"))
              && c.authMechanism == (if Truthy(f.authMechanism) then f.authMechanism else Text("SCRAM-SHA-256"))
  {
  }

  /**
   * Because connectMongo always supplies a truthy authSource, the URI the
   * registry builds for it always ends in ?authSource=..., and the driver
   * options carry the descriptor's own authSource and authMechanism.
   */
  lemma ValidatedUriNamesAuthSource(req: Request)
    requires ValidateRequest(req).Ok?
    ensures var c := ValidateRequest(req).value;
            && AuthSourceQuery(c) == "?authSource=" + Show(c.authSource)
            && ConnectionOptions(c).authSource == c.authSource
            && ConnectionOptions(c).authMechanism == c.authMechanism
  {
    var c := ValidateRequest(req).value;
    assert Truthy(c.authSource) && Truthy(c.authMechanism);
  }

  /**
   * connectMongo's catch block: an error whose message contains
   * "Authentication failed", or whose code is the number 18, becomes a new
   * Error with a fixed prefix; any other error is rethrown unchanged.
   */
  function WrapConnectError(e: DriverError): Failure
  {
    if Contains(e.message, "Authentication failed") || e.code == Num(18) then
      Error(AuthenticationErrorPrefix + e.message)
    else Thrown(e)
  }

  lemma WrapConnectErrorCases(e: DriverError)
    ensures WrapConnectError(e).Error? <==> Contains(e.message, "Authentication failed") || e.code == Num(18)
    ensures WrapConnectError(e).Error? ==> WrapConnectError(e).message == AuthenticationErrorPrefix + e.message
    ensures !WrapConnectError(e).Error? ==> WrapConnectError(e) == Thrown(e)
  {
  }

  /** The code compared strictly: a string code "18" is not an authentication failure. */
  lemma StringCodeNotWrapped()
    ensures WrapConnectError(DriverError("connection refused", Text("18"))) == Thrown(DriverError("connection refused", Text("18")))
  {
    assert !Contains("connection refused", "Authentication failed") by {
      forall i | 0 <= i <= |"connection refused"|
        ensures !StartsWith("connection refused"[i..], "Authentication failed")
      {
      }
    }
  }

  /** connectMongo: validate, ask the registry, and classify a failure. */
  function Connect(p: Pool, req: Request, now: int, d: Driver): (Pool, Result<CollectionRef, Failure>)
  {
    match ValidateRequest(req)
    case Err(f) => (p, Err(f))
    case Ok(c) =>
      var (q, r) := Acquire(p, c, now, d);
      (q, match r
          case Ok(coll) => Ok(coll)
          case Err(e) => Err(WrapConnectError(e)))
  }

  /**
   * An invalid request fails before the registry or the driver is used: the
   * registry is unchanged and the outcome is the same whatever the driver
   * would answer.
   */
  lemma InvalidRequestUsesNoDriver(p: Pool, req: Request, now: int, d1: Driver, d2: Driver)
    requires ValidateRequest(req).Err?
    ensures Connect(p, req, now, d1) == Connect(p, req, now, d2) == (p, Err(ValidateRequest(req).error))
  {
  }

  /**
   * A valid request does to the registry what getConnection does, returns
   * the same collection on success, and on failure rethrows the registry's
   * error through WrapConnectError.
   */
  lemma ValidRequestAcquires(p: Pool, req: Request, now: int, d: Driver)
    requires ValidateRequest(req).Ok?
    ensures var c := ValidateRequest(req).value;
            var (q, r) := Connect(p, req, now, d);
            && q == Acquire(p, c, now, d).0
            && (r.Ok? <==> Acquire(p, c, now, d).1.Ok?)
            && (r.Ok? ==> r.value == Acquire(p, c, now, d).1.value)
            && (r.Err? ==> r.error == WrapConnectError(Acquire(p, c, now, d).1.error))
  {
  }

  /** connectMongo on the registry object. */
  method ConnectMongo(m: ConnectionManager, req: Request, now: int, d: Driver) returns (r: Result<CollectionRef, Failure>)
    modifies m
    ensures old(m.Valid()) ==> m.Valid()
    ensures (m.State(), r) == Connect(old(m.State()), req, now, d)
  {
    var f := FieldsOf(req);
    if req.auth.None? {
      return Err(TypeError(InvalidCredentialsMessage));
    }
    if !Truthy(f.database) || !Truthy(f.host) || !Truthy(f.collection) {
      return Err(TypeError(InvalidConnectionInfoMessage));
    }
    var c := Descriptor(req.auth.value, f);
    var got := m.GetConnection(c, now, d);
    match got
    case Ok(coll) =>
      r := Ok(coll);
    case Err(e) =>
      r := Err(WrapConnectError(e));
  }

  // ---------------------------------------------------------------- executeFind / _find

  /** JSON.parse's text parser: the tree `text` denotes, or nothing when `text` is not JSON. */
  type Parser = string -> Option<Value>

  /** The parser builds plain trees: no Date can come out of the text alone. */
  ghost predicate ParserSound(parse: Parser)
  {
    forall text :: parse(text).Some? ==> IsParsed(parse(text).value)
  }

  /** JSON.parse(x): x is converted to a string first, then parsed. */
  function ParseJson(x: Field, parse: Parser): Result<Value, Failure>
  {
    match parse(Show(x))
    case Some(v) => Ok(v)
    case None => Err(SyntaxError(Show(x)))
  }

  /** JSON.parse(x, reviver). */
  function ParseRevived(x: Field, parse: Parser): Result<Value, Failure>
  {
    match ParseJson(x, parse)
    case Ok(v) => Ok(ParseWithReviver(v))
    case Err(f) => Err(f)
  }

  /** The options object of _find. */
  datatype FindOptions = FindOptions(sort: Option<Value>, limit: Option<Field>, projection: Option<Value>)

  /** `collectionRef.find(filter, options).toArray()`. */
  type FindCall = (CollectionRef, Value, FindOptions) -> Result<seq<Value>, DriverError>

  /** `collectionRef.aggregate(pipeline).toArray()`. */
  type AggregateCall = (CollectionRef, Value) -> Result<seq<Value>, DriverError>

  /** The options _find assembles: each of sort, limit and projection only when its argument is truthy. */
  function FindOptionsOf(sort: Field, limit: Field, project: Field, parse: Parser): Result<FindOptions, Failure>
  {
    var s := if Truthy(sort) then ParseJson(sort, parse) else Ok(JNull);
    var p := if Truthy(project) then ParseJson(project, parse) else Ok(JNull);
    if s.Err? then Err(s.error)
    else if p.Err? then Err(p.error)
    else Ok(FindOptions(
      if Truthy(sort) then Some(s.value) else None,
      if Truthy(limit) then Some(limit) else None,
      if Truthy(project) then Some(p.value) else None))
  }

  /**
   * sort, limit and projection are present exactly when their argument is
   * truthy (so a limit of 0 sets no limit), sort and projection are parsed
   * without the reviver, and a sort that does not parse is reported before
   * a projection that does not.
   */
  lemma FindOptionsFields(sort: Field, limit: Field, project: Field, parse: Parser)
    ensures var r := FindOptionsOf(sort, limit, project, parse);
            && (r.Err? <==> (Truthy(sort) && parse(Show(sort)).None?) || (Truthy(project) && parse(Show(project)).None?))
            && (Truthy(sort) && parse(Show(sort)).None? ==> r == Err(SyntaxError(Show(sort))))
            && (r.Ok? ==>
                  && r.value.sort == (if Truthy(sort) then parse(Show(sort)) else None)
                  && r.value.limit == (if Truthy(limit) then Some(limit) else None)
                  && r.value.projection == (if Truthy(project) then parse(Show(project)) else None))
  {
  }

  /** A limit of 0 (falsy) leaves the options without a limit. */
  lemma ZeroLimitIsNoLimit(sort: Field, project: Field, parse: Parser)
    requires FindOptionsOf(sort, Num(0), project, parse).Ok?
    ensures FindOptionsOf(sort, Num(0), project, parse).value.limit.None?
  {
  }

  /** With a sound parser, neither sort nor projection ever holds a Date: they get no reviver. */
  lemma OptionsHoldNoDates(sort: Field, limit: Field, project: Field, parse: Parser)
    requires ParserSound(parse)
    requires FindOptionsOf(sort, limit, project, parse).Ok?
    ensures var o := FindOptionsOf(sort, limit, project, parse).value;
            && (o.sort.Some? ==> IsParsed(o.sort.value))
            && (o.projection.Some? ==> IsParsed(o.projection.value))
  {
  }

  /** What _find hands to the driver: the revived filter and the options, or the error thrown first. */
  function FindRequest(query: Field, sort: Field, limit: Field, project: Field, parse: Parser): Result<(Value, FindOptions), Failure>
  {
    if !Truthy(query) then Err(Error(EmptyQueryMessage))
    else
      match ParseRevived(query, parse)
      case Err(f) => Err(f)
      case Ok(filter) =>
        match FindOptionsOf(sort, limit, project, parse)
        case Err(f) => Err(f)
        case Ok(options) => Ok((filter, options))
  }

  /** The outcome of _find. */
  function FindResult(coll: CollectionRef, query: Field, sort: Field, limit: Field, project: Field, parse: Parser, find: FindCall)
    : Result<seq<Value>, Failure>
  {
    match FindRequest(query, sort, limit, project, parse)
    case Err(f) => Err(f)
    case Ok((filter, options)) =>
      match find(coll, filter, options)
      case Ok(docs) => Ok(docs)
      case Err(e) => Err(Thrown(e))
  }

  /**
   * An empty or otherwise falsy query is refused with the fixed message
   * before anything is parsed or sent: the outcome is the same whatever
   * the parser and the driver would do.
   */
  lemma EmptyFindQueryRefused(coll: CollectionRef, query: Field, sort: Field, limit: Field, project: Field,
                              parse1: Parser, parse2: Parser, find1: FindCall, find2: FindCall)
    requires !Truthy(query)
    ensures FindResult(coll, query, sort, limit, project, parse1, find1)
         == FindResult(coll, query, sort, limit, project, parse2, find2)
         == Err(Error(EmptyQueryMessage))
  {
  }

  /**
   * A truthy query that parses reaches the driver as the reviver's tree,
   * in which every Date sits directly under a gated operator key; the
   * driver's result or error comes back unchanged.
   */
  lemma FindSendsRevivedFilter(coll: CollectionRef, query: Field, sort: Field, limit: Field, project: Field, parse: Parser, find: FindCall)
    requires ParserSound(parse)
    requires Truthy(query) && parse(Show(query)).Some?
    requires FindOptionsOf(sort, limit, project, parse).Ok?
    ensures var filter := ParseWithReviver(parse(Show(query)).value);
            var options := FindOptionsOf(sort, limit, project, parse).value;
            && FindRequest(query, sort, limit, project, parse) == Ok((filter, options))
            && DatesGated("", filter)
            && (find(coll, filter, options).Ok? ==> FindResult(coll, query, sort, limit, project, parse, find) == Ok(find(coll, filter, options).value))
            && (find(coll, filter, options).Err? ==> FindResult(coll, query, sort, limit, project, parse, find) == Err(Thrown(find(coll, filter, options).error)))
  {
    DatesOnlyUnderDateKeys("", parse(Show(query)).value);
  }

  /** _find: guard, parse the filter with the reviver, assemble the options field by field, query the driver. */
  method Find(coll: CollectionRef, query: Field, sort: Field, limit: Field, project: Field, parse: Parser, find: FindCall)
    returns (r: Result<seq<Value>, Failure>)
    ensures r == FindResult(coll, query, sort, limit, project, parse, find)
  {
    if !Truthy(query) {
      return Err(Error(EmptyQueryMessage));
    }
    var queryParsed := ParseRevived(query, parse);
    if queryParsed.Err? {
      return Err(queryParsed.error);
    }
    var options := FindOptions(None, None, None);
    if Truthy(sort) {
      var sortParsed := ParseJson(sort, parse);
      if sortParsed.Err? {
        return Err(sortParsed.error);
      }
      options := options.(sort := Some(sortParsed.value));
    }
    if Truthy(limit) {
      options := options.(limit := Some(limit));
    }
    if Truthy(project) {
      var projectParsed := ParseJson(project, parse);
      if projectParsed.Err? {
        return Err(projectParsed.error);
      }
      options := options.(projection := Some(projectParsed.value));
    }
    assert FindOptionsOf(sort, limit, project, parse) == Ok(options);
    var result := find(coll, queryParsed.value, options);
    r := match result
      case Ok(docs) => Ok(docs)
      case Err(e) => Err(Thrown(e));
  }

  /** executeFind: refuse a falsy query, then run _find; its errors are rethrown unchanged. */
  method ExecuteFind(coll: CollectionRef, query: Field, sort: Field, limit: Field, project: Field, parse: Parser, find: FindCall)
    returns (r: Result<seq<Value>, Failure>)
    ensures r == FindResult(coll, query, sort, limit, project, parse, find)
    ensures !Truthy(query) ==> r == Err(Error(EmptyQueryMessage))
  {
    if !Truthy(query) {
      return Err(Error(EmptyQueryMessage));
    }
    r := Find(coll, query, sort, limit, project, parse, find);
  }

  // ---------------------------------------------------------------- executeAggregate / _aggregate

  /** executeAggregate and _aggregate: refuse a falsy query, parse the pipeline with the reviver, run it. */
  function ExecuteAggregate(coll: CollectionRef, query: Field, parse: Parser, aggregate: AggregateCall): Result<seq<Value>, Failure>
  {
    if !Truthy(query) then Err(Error(EmptyQueryMessage))
    else
      match ParseRevived(query, parse)
      case Err(f) => Err(f)
      case Ok(pipeline) =>
        match aggregate(coll, pipeline)
        case Ok(docs) => Ok(docs)
        case Err(e) => Err(Thrown(e))
  }

  /**
   * A falsy pipeline is refused before parsing or the driver; a pipeline
   * that does not parse is a SyntaxError; otherwise the driver receives the
   * revived pipeline, in which every Date sits directly under a gated key,
   * and its answer comes back unchanged.
   */
  lemma AggregateOutcome(coll: CollectionRef, query: Field, parse: Parser, aggregate: AggregateCall)
    requires ParserSound(parse)
    ensures !Truthy(query) ==> ExecuteAggregate(coll, query, parse, aggregate) == Err(Error(EmptyQueryMessage))
    ensures Truthy(query) && parse(Show(query)).None? ==>
              ExecuteAggregate(coll, query, parse, aggregate) == Err(SyntaxError(Show(query)))
    ensures Truthy(query) && parse(Show(query)).Some? ==>
              var pipeline := ParseWithReviver(parse(Show(query)).value);
              && DatesGated("", pipeline)
              && (aggregate(coll, pipeline).Ok? ==> ExecuteAggregate(coll, query, parse, aggregate) == Ok(aggregate(coll, pipeline).value))
              && (aggregate(coll, pipeline).Err? ==> ExecuteAggregate(coll, query, parse, aggregate) == Err(Thrown(aggregate(coll, pipeline).error)))
  {
    if Truthy(query) && parse(Show(query)).Some? {
      DatesOnlyUnderDateKeys("", parse(Show(query)).value);
    }
  }
}
