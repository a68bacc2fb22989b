/** Reading the service's configuration from the process environment. The
    environment is a map from variable name to value, fixed for the run;
    `os.LookupEnv` is a key lookup in it. A call that logs an error and
    terminates the program is a `Failure` carrying the log message and the
    exit status. */
module Env {
  import opened Wrappers
  import opened StrConv

  type Environment = map<string, string>

  /** The process stops: `os.Exit(code)` after logging `message`. */
  datatype Exit = Exit(message: string, code: int)

  const DefaultPort := "8080"
  const DefaultLimit := 20

  /** `GetPortString`: the listen address `":<port>"`, with the `Port`
      variable's value or 8080 when it is unset. */
  function GetPortString(env: Environment): (r: string)
    ensures |r| >= 1 && r[0] == ':'
    ensures "Port" in env ==> r[1..] == env["Port"]
    ensures "Port" !in env ==> r[1..] == DefaultPort
  {
    var port := if "Port" in env then env["Port"] else DefaultPort;
    ":" + port
  }

  /** The port part of a listen address. */
  function PortOf(address: string): string
    requires |address| >= 1 && address[0] == ':'
  {
    address[1..]
  }

  /** `GetEnvMongoURI`: the `MONGODB_URI` value, or exit status 1 when it
      is unset. */
  function GetEnvMongoURI(env: Environment): (r: Result<string, Exit>)
    ensures r.Success? <==> "MONGODB_URI" in env
    ensures r.Success? ==> r.value == env["MONGODB_URI"]
    ensures r.Failure? ==> r.error.code == 1
  {
    if "MONGODB_URI" in env then Success(env["MONGODB_URI"])
    else Failure(Exit("Error loading 'MONGODB_URI' from the .env file", 1))
  }

  /** `GetEnvLogin`: the NetID and password, or exit status 1 as soon as
      one is unset; the NetID is checked first. */
  function GetEnvLogin(env: Environment): (r: Result<(string, string), Exit>)
    ensures r.Success? <==> "LOGIN_NETID" in env && "LOGIN_PASSWORD" in env
    ensures r.Success? ==> r.value == (env["LOGIN_NETID"], env["LOGIN_PASSWORD"])
    ensures r.Failure? ==> r.error.code == 1
    ensures "LOGIN_NETID" !in env ==> r.Failure? && r.error.message == "Error loading 'LOGIN_NETID' from the .env file"
  {
    if "LOGIN_NETID" !in env then Failure(Exit("Error loading 'LOGIN_NETID' from the .env file", 1))
    else if "LOGIN_PASSWORD" !in env then Failure(Exit("Error loading 'LOGIN_PASSWORD' from the .env file", 1))
    else Success((env["LOGIN_NETID"], env["LOGIN_PASSWORD"]))
  }

  /** `GetEnvLimit`: the page size; 20 when `LIMIT` is unset or is not an
      int64 in base 10, its value otherwise. No bound beyond int64 is
      applied: zero and negative values are returned as parsed. */
  function GetEnvLimit(env: Environment): (r: int)
    ensures IsInt64(r)
    ensures "LIMIT" !in env ==> r == DefaultLimit
    ensures "LIMIT" in env && !Accepted(env["LIMIT"]) ==> r == DefaultLimit
    ensures "LIMIT" in env && Accepted(env["LIMIT"]) ==> r == SignedValue(env["LIMIT"])
  {
    ParseIntAccepts(if "LIMIT" in env then env["LIMIT"] else "");
    if "LIMIT" !in env then DefaultLimit
    else match ParseInt(env["LIMIT"])
      case Failure(_) => DefaultLimit
      case Success(limit) => limit
  }

  // ---------------------------------------------------------------------
  // Lemmas
  // ---------------------------------------------------------------------

  /** The listen address carries the configured port back out unchanged. */
  lemma PortRoundTrip(env: Environment, port: string)
    requires "Port" in env && env["Port"] == port
    ensures PortOf(GetPortString(env)) == port
  {
  }

  /** Any int64 written in base 10 into `LIMIT` is the limit returned. */
  lemma LimitRoundTrip(env: Environment, v: int)
    requires IsInt64(v) && "LIMIT" in env && env["LIMIT"] == FormatInt(v)
    ensures GetEnvLimit(env) == v
  {
    ParseFormat(v);
    ParseIntAccepts(FormatInt(v));
  }

  /** A `LIMIT` of digits whose value is 2^63 or more falls back to 20,
      not to the largest int64 that `ParseInt` reports with its error. */
  lemma LimitOutOfRange(env: Environment)
    requires "LIMIT" in env && env["LIMIT"] != [] && AllDigits(env["LIMIT"])
    requires DecimalValue(env["LIMIT"]) >= Int64Cutoff
    ensures GetEnvLimit(env) == DefaultLimit
  {
    var s := env["LIMIT"];
    assert IsDigit(s[0]);
  }

  /** A missing password only matters once the NetID is present: the
      reported variable is always the first one that is missing. */
  lemma LoginReportsFirstMissing(env: Environment)
    requires "LOGIN_NETID" in env && "LOGIN_PASSWORD" !in env
    ensures GetEnvLogin(env) == Failure(Exit("Error loading 'LOGIN_PASSWORD' from the .env file", 1))
  {
  }
}
