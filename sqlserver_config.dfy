/**
 * How `server/_core/sqlserver.ts` turns the `SQLSERVER_*` environment
 * variables into the pool configuration: the host is sanitised, the
 * instance comes from the first place that has one, and the chosen driver
 * decides between an ODBC connection string and a server/instance record.
 *
 * Each environment variable is `None` when unset; `??` falls back only then,
 * so a variable set to the empty string is kept as it is.
 */
module SqlServerConfig {
  import opened Wrappers
  import opened JsString

  datatype Env = Env(
    server: Option<string>,
    instance: Option<string>,
    database: Option<string>,
    trustedConnection: Option<string>,
    user: Option<string>,
    password: Option<string>,
    domain: Option<string>,
    driver: Option<string>,
    odbcDriver: Option<string>)

  const BACKSLASH: char := '\\'

  // ---------------------------------------------------------------------------
  // sanitizeHost
  // ---------------------------------------------------------------------------

  const LOCAL_ALIAS: string := "(local)"
  const LOCALHOST: string := "localhost"

  function AsciiLower(c: char): char {
    if 'A' <= c <= 'Z' then (c as int + 32) as char else c
  }

  /** The test of a case-insensitive regular expression without the `u`
      flag: only ASCII letters fold. */
  predicate EqualsIgnoringAsciiCase(s: string, t: string) {
    |s| == |t| && forall i :: 0 <= i < |s| ==> AsciiLower(s[i]) == AsciiLower(t[i])
  }

  /** `sanitizeHost`: the trimmed value, with "(local)" in any letter case
      read as "localhost". */
  function SanitizeHost(value: string): (h: string)
    ensures h == LOCALHOST || h == Trim(value)
  {
    var trimmed := Trim(value);
    if EqualsIgnoringAsciiCase(trimmed, LOCAL_ALIAS) then LOCALHOST else trimmed
  }

  /** The alias is recognised exactly in the trimmed text; anything else is
      only trimmed. */
  lemma SanitizeHostCases(value: string)
    ensures EqualsIgnoringAsciiCase(Trim(value), LOCAL_ALIAS) <==> SanitizeHost(value) == LOCALHOST && Trim(value) != LOCALHOST
    ensures !EqualsIgnoringAsciiCase(Trim(value), LOCAL_ALIAS) ==> SanitizeHost(value) == Trim(value)
  {
    if EqualsIgnoringAsciiCase(Trim(value), LOCAL_ALIAS) {
      assert Trim(value)[0] != LOCALHOST[0];
    }
  }

  /** Sanitising a sanitised host changes nothing. */
  lemma SanitizeHostIdempotent(value: string)
    ensures SanitizeHost(SanitizeHost(value)) == SanitizeHost(value)
  {
    TrimIdempotent(value);
    var h := SanitizeHost(value);
    if h == LOCALHOST {
      assert TrimStart(LOCALHOST) == LOCALHOST;
      assert TrimEnd(LOCALHOST) == LOCALHOST;
      assert !EqualsIgnoringAsciiCase(LOCALHOST, LOCAL_ALIAS) by {
        assert |LOCALHOST| != |LOCAL_ALIAS|;
      }
    }
  }

  // Examples: three instances of SanitizeHostCases on concrete hosts.

  /** Surrounding spaces go, and the alias is matched in upper case. */
  lemma SanitizeHostUpperAlias()
    ensures SanitizeHost(" (LOCAL) ") == LOCALHOST
  {
    TrimIgnoresSurroundingWhitespace([' '], "(LOCAL)", [' ']);
    assert " (LOCAL) " == [' '] + "(LOCAL)" + [' '];
    assert Trim("(LOCAL)") == "(LOCAL)";
    assert EqualsIgnoringAsciiCase("(LOCAL)", LOCAL_ALIAS);
  }

  /** The alias is matched in mixed case. */
  lemma SanitizeHostMixedAlias()
    ensures SanitizeHost("(Local)") == LOCALHOST
  {
    assert Trim("(Local)") == "(Local)";
    assert EqualsIgnoringAsciiCase("(Local)", LOCAL_ALIAS);
  }

  /** Any other host is only trimmed. */
  lemma SanitizeHostOtherHost()
    ensures SanitizeHost(" db01 ") == "db01"
  {
    TrimIgnoresSurroundingWhitespace([' '], "db01", [' ']);
    assert " db01 " == [' '] + "db01" + [' '];
    assert Trim("db01") == "db01";
  }

  // ---------------------------------------------------------------------------
  // Host and instance
  // ---------------------------------------------------------------------------

  function ServerInput(env: Env): string {
    env.server.GetOr(LOCALHOST)
  }

  /** `serverInput.split("\\", 2)`: at most the first two pieces. */
  function ServerParts(env: Env): (parts: seq<string>)
    ensures 1 <= |parts| <= 2
    ensures forall i :: 0 <= i < |parts| ==> BACKSLASH !in parts[i]
  {
    var all := Split(ServerInput(env), BACKSLASH);
    if |all| <= 2 then all else all[..2]
  }

  /** `inputHost ?? serverInput`: the split always yields a first piece, so
      the fallback never applies. */
  function HostPart(env: Env): string {
    SanitizeHost(ServerParts(env)[0])
  }

  function InputInstance(env: Env): Option<string> {
    var parts := ServerParts(env);
    if |parts| == 2 then Some(parts[1]) else None
  }

  const DEFAULT_INSTANCE: string := "SQLEXPRESS"

  /** `instanceInput ?? inputInstance ?? "SQLEXPRESS"`. */
  function InstancePart(env: Env): string {
    env.instance.GetOr(InputInstance(env).GetOr(DEFAULT_INSTANCE))
  }

  function RawServer(env: Env): string {
    HostPart(env) + [BACKSLASH] + InstancePart(env)
  }

  /** The host never carries an instance name. */
  lemma HostHasNoBackslash(env: Env)
    ensures BACKSLASH !in HostPart(env)
  {
    TrimKeepsCharacters(ServerParts(env)[0]);
  }

  /** A server given as `host\instance[\...]` supplies the host and, when
      `SQLSERVER_INSTANCE` is unset, the instance; anything after a second
      backslash is ignored. */
  lemma ServerWithInstance(env: Env, host: string, inst: string, rest: string)
    requires BACKSLASH !in host && BACKSLASH !in inst
    requires env.server == Some(host + [BACKSLASH] + inst) || env.server == Some(host + [BACKSLASH] + inst + [BACKSLASH] + rest)
    ensures HostPart(env) == SanitizeHost(host)
    ensures InstancePart(env) == if env.instance.Some? then env.instance.value else inst
  {
    if env.server == Some(host + [BACKSLASH] + inst) {
      SplitAtFirstSeparator(host, BACKSLASH, inst);
    } else {
      assert host + [BACKSLASH] + inst + [BACKSLASH] + rest == host + [BACKSLASH] + (inst + [BACKSLASH] + rest);
      SplitAtFirstSeparator(host, BACKSLASH, inst + [BACKSLASH] + rest);
      SplitAtFirstSeparator(inst, BACKSLASH, rest);
    }
  }

  /** A server without a backslash is all host; the instance is then
      `SQLSERVER_INSTANCE` or "SQLEXPRESS". An unset server is "localhost". */
  lemma ServerWithoutInstance(env: Env)
    requires BACKSLASH !in ServerInput(env)
    ensures HostPart(env) == SanitizeHost(ServerInput(env))
    ensures InstancePart(env) == env.instance.GetOr(DEFAULT_INSTANCE)
    ensures env.server.None? ==> HostPart(env) == LOCALHOST
  {
    if env.server.None? {
      assert TrimStart(LOCALHOST) == LOCALHOST;
      assert TrimEnd(LOCALHOST) == LOCALHOST;
      assert !EqualsIgnoringAsciiCase(LOCALHOST, LOCAL_ALIAS) by {
        assert |LOCALHOST| != |LOCAL_ALIAS|;
      }
    }
  }

  /** Splitting `rawServer` at the backslash gives back host and instance,
      when the instance holds no backslash of its own. */
  lemma RawServerSplitsBack(env: Env)
    requires BACKSLASH !in InstancePart(env)
    ensures Split(RawServer(env), BACKSLASH) == [HostPart(env), InstancePart(env)]
  {
    HostHasNoBackslash(env);
    SplitAtFirstSeparator(HostPart(env), BACKSLASH, InstancePart(env));
  }

  // ---------------------------------------------------------------------------
  // Other settings
  // ---------------------------------------------------------------------------

  const DEFAULT_DATABASE: string := "sgsb"
  const DEFAULT_DRIVER: string := "msnodesqlv8"
  const DEFAULT_ODBC_DRIVER: string := "ODBC Driver 17 for SQL Server"

  function Database(env: Env): string {
    env.database.GetOr(DEFAULT_DATABASE)
  }

  /** `(SQLSERVER_TRUSTED_CONNECTION ?? "true") === "true"`. */
  predicate Trusted(env: Env) {
    env.trustedConnection.GetOr("true") == "true"
  }

  /** Only an explicit value other than exactly "true" turns trusted mode
      off; "TRUE" and the empty string do. */
  lemma TrustedUnlessOverridden(env: Env)
    ensures Trusted(env) <==> env.trustedConnection.None? || env.trustedConnection == Some("true")
    ensures env.trustedConnection == Some("TRUE") || env.trustedConnection == Some("") ==> !Trusted(env)
  {
  }

  function Driver(env: Env): string {
    env.driver.GetOr(DEFAULT_DRIVER)
  }

  function OdbcDriver(env: Env): string {
    env.odbcDriver.GetOr(DEFAULT_ODBC_DRIVER)
  }

  /** JavaScript truthiness of an optional string. */
  predicate Truthy(o: Option<string>) {
    o.Some? && o.value != ""
  }

  // ---------------------------------------------------------------------------
  // connectionString
  // ---------------------------------------------------------------------------

  const ENCRYPTION: string := "Encrypt=Yes;TrustServerCertificate=Yes;"
  const TRUSTED_SUFFIX: string := "Trusted_Connection=Yes;"

  /** The part every connection string starts with. */
  function ServerClause(env: Env): string {
    "Server=" + RawServer(env) + ";"
  }

  function DatabaseClause(env: Env): string {
    "Database=" + Database(env) + ";"
  }

  function DriverClause(env: Env): string {
    "Driver={" + OdbcDriver(env) + "};"
  }

  function ConnectionPrefix(env: Env): string {
    ServerClause(env) + DatabaseClause(env) + DriverClause(env) + ENCRYPTION
  }

  function Credentials(env: Env): string {
    if Trusted(env) then TRUSTED_SUFFIX
    else if Truthy(env.user) && Truthy(env.password) then "Uid=" + env.user.value + ";Pwd=" + env.password.value + ";"
    else ""
  }

  function ConnectionString(env: Env): string {
    ConnectionPrefix(env) + Credentials(env)
  }

  /** The three possible endings: trusted mode; a login when both user and
      password are non-empty; nothing otherwise. */
  lemma ConnectionStringEndings(env: Env)
    ensures StartsWith(ConnectionString(env), ConnectionPrefix(env))
    ensures Trusted(env) ==> EndsWith(ConnectionString(env), TRUSTED_SUFFIX)
    ensures !Trusted(env) && Truthy(env.user) && Truthy(env.password) ==>
      EndsWith(ConnectionString(env), "Uid=" + env.user.value + ";Pwd=" + env.password.value + ";")
    ensures !Trusted(env) && !(Truthy(env.user) && Truthy(env.password)) ==>
      ConnectionString(env) == ConnectionPrefix(env)
  {
    var p, c := ConnectionPrefix(env), Credentials(env);
    assert (p + c)[..|p|] == p;
    assert (p + c)[|p + c| - |c|..] == c;
  }

  /** Each of four consecutive pieces occurs in their concatenation with a
      tail. */
  lemma IncludesEachPiece(a: string, b: string, c: string, d: string, e: string)
    ensures var s := a + b + c + d + e;
      Includes(s, a) && Includes(s, b) && Includes(s, c) && Includes(s, d)
  {
    var s := a + b + c + d + e;
    assert s == [] + a + (b + c + d + e);
    IncludesInfix([], a, b + c + d + e);
    assert s == a + b + (c + d + e);
    IncludesInfix(a, b, c + d + e);
    assert s == (a + b) + c + (d + e);
    IncludesInfix(a + b, c, d + e);
    assert s == (a + b + c) + d + e;
    IncludesInfix(a + b + c, d, e);
  }

  /** The connection string always names the server, the database and the
      ODBC driver, and always asks for encryption. */
  lemma ConnectionStringNamesEverything(env: Env)
    ensures Includes(ConnectionString(env), "Server=" + RawServer(env) + ";")
    ensures Includes(ConnectionString(env), "Database=" + Database(env) + ";")
    ensures Includes(ConnectionString(env), "Driver={" + OdbcDriver(env) + "};")
    ensures Includes(ConnectionString(env), ENCRYPTION)
  {
    IncludesEachPiece(ServerClause(env), DatabaseClause(env), DriverClause(env), ENCRYPTION, Credentials(env));
  }

  // ---------------------------------------------------------------------------
  // The pool configuration
  // ---------------------------------------------------------------------------

  /** `authentication: { type: "ntlm", ... }` in trusted mode, otherwise the
      plain `user` and `password` (possibly unset). */
  datatype Auth = Ntlm(domain: string, userName: string, password: string)
                | Login(loginUser: Option<string>, loginPassword: Option<string>)

  datatype PoolConfig =
    | ConnectionStringConfig(connectionString: string)
    | ServerConfig(server: string, database: string, driver: string,
                   trustServerCertificate: bool, encrypt: bool, instanceName: string, auth: Auth)

  /** The `config` handed to the connection pool. */
  function PoolConfigOf(env: Env): (c: PoolConfig)
    ensures c.ConnectionStringConfig? <==> Driver(env) == DEFAULT_DRIVER
    ensures c.ConnectionStringConfig? ==> c.connectionString == ConnectionString(env)
    ensures c.ServerConfig? ==>
      && c.server == HostPart(env) && c.instanceName == InstancePart(env)
      && c.database == Database(env) && c.driver == Driver(env)
      && !c.encrypt && c.trustServerCertificate
      && (c.auth.Ntlm? <==> Trusted(env))
      && (c.auth.Ntlm? ==> c.auth == Ntlm(env.domain.GetOr(""), env.user.GetOr(""), env.password.GetOr("")))
      && (c.auth.Login? ==> c.auth == Login(env.user, env.password))
  {
    if Driver(env) == DEFAULT_DRIVER then ConnectionStringConfig(ConnectionString(env))
    else
      var auth := if Trusted(env) then Ntlm(env.domain.GetOr(""), env.user.GetOr(""), env.password.GetOr(""))
                  else Login(env.user, env.password);
      ServerConfig(HostPart(env), Database(env), Driver(env), true, false, InstancePart(env), auth)
  }

  /** With nothing set, the pool uses the ODBC connection string for the
      local SQLEXPRESS instance of database "sgsb" in trusted mode. */
  lemma DefaultConfiguration(env: Env)
    requires env == Env(None, None, None, None, None, None, None, None, None)
    ensures PoolConfigOf(env).ConnectionStringConfig?
    ensures RawServer(env) == LOCALHOST + [BACKSLASH] + DEFAULT_INSTANCE
    ensures ConnectionString(env) ==
      ("Server=" + (LOCALHOST + [BACKSLASH] + DEFAULT_INSTANCE) + ";") + ("Database=" + DEFAULT_DATABASE + ";") +
      ("Driver={" + DEFAULT_ODBC_DRIVER + "};") + ENCRYPTION + TRUSTED_SUFFIX
  {
    assert ServerInput(env) == LOCALHOST;
    assert BACKSLASH !in LOCALHOST;
    ServerWithoutInstance(env);
    assert RawServer(env) == LOCALHOST + [BACKSLASH] + DEFAULT_INSTANCE;
    assert Credentials(env) == TRUSTED_SUFFIX;
  }
}
