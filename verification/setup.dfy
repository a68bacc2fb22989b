/** Paging options for a find: `GetOptionLimit` strips the `offset`
    pseudo-field from a filter, takes the page size from the environment,
    and parses the `offset` query parameter into the number of documents
    to skip. */
module Setup {
  import opened Wrappers
  import opened StrConv
  import opened Env

  /** Query parameters of a request: each name with all its values, in
      order, as a URL query decodes them. */
  type QueryParams = map<string, seq<string>>

  /** `c.Query(name)`: the first value given for `name`, or the empty string
      when the parameter is absent. */
  function QueryValue(params: QueryParams, name: string): (v: string)
    ensures name in params && params[name] != [] ==> v == params[name][0]
    ensures name !in params ==> v == ""
  {
    if name in params && params[name] != [] then params[name][0] else ""
  }

  /** The options `options.Find().SetSkip(skip).SetLimit(limit)` builds. */
  datatype FindOptions = FindOptions(skip: int, limit: int)

  /** The three results: the filter with `offset` removed (Go deletes it in
      place through the pointer), the find options, and the parse error. */
  datatype OptionLimit<V> = OptionLimit(query: map<string, V>, options: FindOptions, err: Option<NumError>)

  /** `GetOptionLimit`: an absent or empty `offset` skips nothing; one that
      `ParseInt` rejects also skips nothing and its error is returned
      alongside the options; any other offset is used as parsed, negative
      values included. */
  function GetOptionLimit<V>(query: map<string, V>, params: QueryParams, env: Environment): (r: OptionLimit<V>)
    ensures "offset" !in r.query
    ensures forall k :: k in r.query <==> k in query && k != "offset"
    ensures forall k :: k in r.query ==> r.query[k] == query[k]
    ensures r.options.limit == GetEnvLimit(env)
    ensures IsInt64(r.options.skip) && IsInt64(r.options.limit)
    ensures QueryValue(params, "offset") == "" ==> r.options.skip == 0 && r.err == None
    ensures r.err.Some? <==> QueryValue(params, "offset") != "" && !Accepted(QueryValue(params, "offset"))
    ensures r.err.Some? ==> r.options.skip == 0
    ensures r.err.Some? ==> ParseInt(QueryValue(params, "offset")) == Failure(r.err.value)
    ensures Accepted(QueryValue(params, "offset")) ==> r.options.skip == SignedValue(QueryValue(params, "offset"))
  {
    var rest := query - {"offset"};
    var limit := GetEnvLimit(env);
    var offset := QueryValue(params, "offset");
    ParseIntAccepts(offset);
    if offset == "" then OptionLimit(rest, FindOptions(0, limit), None)
    else match ParseInt(offset)
      case Failure(e) => OptionLimit(rest, FindOptions(0, limit), Some(e))
      case Success(skip) => OptionLimit(rest, FindOptions(skip, limit), None)
  }

  // ---------------------------------------------------------------------
  // Lemmas
  // ---------------------------------------------------------------------

  /** Any int64 written in base 10 as the first `offset` value is the number
      of documents skipped, with no error. */
  lemma OffsetRoundTrip<V>(query: map<string, V>, params: QueryParams, env: Environment, v: int)
    requires IsInt64(v) && "offset" in params && params["offset"] != [] && params["offset"][0] == FormatInt(v)
    ensures GetOptionLimit(query, params, env).options.skip == v
    ensures GetOptionLimit(query, params, env).err == None
  {
    ParseFormat(v);
    ParseIntAccepts(FormatInt(v));
  }

  /** Only the first `offset` value is read: later values, well-formed or
      not, change nothing. */
  lemma OnlyFirstOffsetCounts<V>(query: map<string, V>, params: QueryParams, env: Environment, more: seq<string>)
    requires "offset" in params && params["offset"] != []
    ensures GetOptionLimit(query, params["offset" := params["offset"] + more], env) == GetOptionLimit(query, params, env)
  {
    var params' := params["offset" := params["offset"] + more];
    assert QueryValue(params', "offset") == QueryValue(params, "offset");
  }

  /** Stripping is idempotent: a filter that went through once has no
      `offset` left to remove. */
  lemma StripIdempotent<V>(query: map<string, V>, params: QueryParams, env: Environment)
    ensures var once := GetOptionLimit(query, params, env).query;
      GetOptionLimit(once, params, env).query == once
  {
    var once := GetOptionLimit(query, params, env).query;
    assert once - {"offset"} == once;
  }
}
