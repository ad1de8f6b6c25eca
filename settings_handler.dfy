/** The settings endpoint, backend/settings/index.py: a read-only lookup in
    the `settings` key/value table. Unlike the orders endpoint it rejects an
    unsupported method before it looks at the database URL. */
module SettingsHandler {
  import opened Http
  import opened Text

  /** `queryStringParameters` may be absent altogether. */
  datatype Request = Request(httpMethod: Option<string>, query: Option<map<string, string>>)

  datatype Body =
    | Preflight(allowMethods: string)
    | Failure(error: string)
    | Settings(values: map<string, string>)

  datatype Response = Response(status: int, body: Body)

  const AllowedMethods := "GET, OPTIONS"

  /** `(event.get('queryStringParameters') or {}).get('key', '').strip()` */
  function KeyParam(query: Option<map<string, string>>): (key: string)
    ensures Unpadded(key)
    // the key is empty exactly when no query, no `key`, or a blank `key` was sent
    ensures key == "" <==>
      query.None? || "key" !in query.value || AllSpace(query.value["key"])
    ensures query.Some? && "key" in query.value && !AllSpace(query.value["key"]) ==>
      key == Strip(query.value["key"])
  {
    var params := GetOr(query, map[]);
    var raw := if "key" in params then params["key"] else "";
    StripEmptyIffBlank(raw);
    Strip(raw)
  }

  /** The settings a lookup returns: the one entry named by a non-empty key
      (none when the table lacks it), or the whole table for an empty key. */
  function Lookup(table: map<string, string>, key: string): (r: map<string, string>)
    ensures forall k :: k in r ==> k in table && r[k] == table[k]
    ensures key == "" ==> r.Keys == table.Keys
    ensures key != "" ==> r.Keys == table.Keys * {key}
  {
    if key != "" then
      if key in table then map[key := table[key]] else map[]
    else
      table
  }

  /** Dispatch: OPTIONS first, then GET only, then the database URL. The
      table is a value, so the handler cannot change it. */
  function Handle(req: Request, dsn: Option<string>, table: map<string, string>): (r: Response)
    // a preflight lists the two allowed methods
    ensures RequestMethod(req.httpMethod) == "OPTIONS" ==>
      r == Response(OkStatus, Preflight(AllowedMethods))
    // any other method is 405, whether or not the database URL is set
    ensures RequestMethod(req.httpMethod) !in {"OPTIONS", "GET"} ==>
      r == Response(NotAllowedStatus, Failure(MethodNotAllowed))
    // a GET without the database URL is 500
    ensures RequestMethod(req.httpMethod) == "GET" && !DsnConfigured(dsn) ==>
      r == Response(ServerErrorStatus, Failure(DatabaseMissing))
    // otherwise the settings are read, always with 200
    ensures r.body.Settings? <==> RequestMethod(req.httpMethod) == "GET" && DsnConfigured(dsn)
    ensures r.body.Settings? ==> r.status == OkStatus && r.body.values == Lookup(table, KeyParam(req.query))
  {
    var verb := RequestMethod(req.httpMethod);
    if verb == "OPTIONS" then
      Response(OkStatus, Preflight(AllowedMethods))
    else if verb != "GET" then
      Response(NotAllowedStatus, Failure(MethodNotAllowed))
    else if !DsnConfigured(dsn) then
      Response(ServerErrorStatus, Failure(DatabaseMissing))
    else
      Response(OkStatus, Settings(Lookup(table, KeyParam(req.query))))
  }

  /** No query, no `key` parameter or a `key` made only of whitespace asks
      for every setting, whatever other parameters come along. */
  lemma BlankKeyReturnsAll(req: Request, dsn: Option<string>, table: map<string, string>)
    requires RequestMethod(req.httpMethod) == "GET" && DsnConfigured(dsn)
    requires req.query.None? || "key" !in req.query.value || AllSpace(req.query.value["key"])
    ensures Handle(req, dsn, table) == Response(OkStatus, Settings(table))
  {
    var params := GetOr(req.query, map[]);
    StripEmptyIffBlank(if "key" in params then params["key"] else "");
  }

  /** A named key that the table has yields exactly that one entry. */
  lemma KnownKeyReturnsEntry(table: map<string, string>, key: string)
    requires key != "" && key in table
    ensures Lookup(table, key) == map[key := table[key]]
  {
  }

  /** A named key that the table lacks yields the empty map, still with 200. */
  lemma UnknownKeyReturnsNothing(req: Request, dsn: Option<string>, table: map<string, string>)
    requires RequestMethod(req.httpMethod) == "GET" && DsnConfigured(dsn)
    requires KeyParam(req.query) != "" && KeyParam(req.query) !in table
    ensures Handle(req, dsn, table) == Response(OkStatus, Settings(map[]))
  {
  }

  /** A single-key lookup is the all-settings lookup with every other key
      removed. */
  lemma LookupIsRestriction(table: map<string, string>, key: string)
    requires key != ""
    ensures Lookup(table, key) == Lookup(table, "") - (table.Keys - {key})
  {
  }

  /** The answer to a GET for one key is the answer to a GET without a key
      cut down to that key. */
  lemma SingleKeyAgreesWithAll(httpMethod: Option<string>, key: string, dsn: Option<string>, table: map<string, string>)
    requires RequestMethod(httpMethod) == "GET" && DsnConfigured(dsn) && !AllSpace(key)
    ensures var whole := Handle(Request(httpMethod, None), dsn, table).body.values;
      Handle(Request(httpMethod, Some(map["key" := key])), dsn, table).body.values ==
        whole - (whole.Keys - {Strip(key)})
  {
    StripEmptyIffBlank(key);
    LookupIsRestriction(table, Strip(key));
  }
}
