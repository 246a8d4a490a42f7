/** The two pieces of the server setup that compute something: the CORS
    origin check and the fields of the `/api/debug-env` report. */
module Server {
  import opened Seqs
  import opened Schema

  /** The frontends allowed to call the API with credentials. */
  const AllowedOrigins: seq<string> := [
    "https://68f141352a41df9fff97049d--stellular-kitsune-4475e0.netlify.app",
    "https://cscdepartmentboardgroup19a.netlify.app",
    "https://cscdepartmentboardgroup19.netlify.app",
    "http://localhost:3000",
    "http://localhost:5000"
  ]

  const CorsRejected := "Not allowed by CORS"

  /** What the `origin` callback tells the CORS middleware. */
  datatype CorsDecision = Allow | Deny(message: string)

  /** The `origin` callback; `None` is a request without an `Origin` header. */
  function CorsOrigin(origin: Option<string>): (r: CorsDecision)
    ensures r == Allow || r == Deny(CorsRejected)
    ensures !Truthy(origin) ==> r == Allow
    ensures Truthy(origin) ==> (r == Allow <==> origin.value in AllowedOrigins)
  {
    if !Truthy(origin) then Allow
    else if origin.value in AllowedOrigins then Allow
    else Deny(CorsRejected)
  }

  /** The allow-list admits exactly its five entries: the deployed frontends
      and the two local development ports, and no near miss. */
  lemma CorsAllowList()
    ensures |AllowedOrigins| == 5
    ensures forall o :: o in AllowedOrigins ==> CorsOrigin(Some(o)) == Allow
    ensures CorsOrigin(Some("http://localhost:3000")) == Allow
    ensures CorsOrigin(Some("http://localhost:3001")) == Deny(CorsRejected)
    ensures CorsOrigin(Some("https://localhost:3000")) == Deny(CorsRejected)
    ensures CorsOrigin(None) == Allow
  {
  }

  const PreviewLength := 50
  const Ellipsis := "..."
  const NotSet := "NOT SET"

  /** `url ? url.substring(0, 50) + '...' : 'NOT SET'`. */
  function Preview(url: Option<string>): (p: string)
    ensures !Truthy(url) ==> p == NotSet
    ensures Truthy(url) ==>
      && |p| == (if |url.value| < PreviewLength then |url.value| else PreviewLength) + |Ellipsis|
      && StartsWith(url.value, p[..|p| - |Ellipsis|])
      && p[|p| - |Ellipsis|..] == Ellipsis
  {
    if !Truthy(url) then NotSet
    else
      var u := url.value;
      var head := if |u| < PreviewLength then u else u[..PreviewLength];
      assert (head + Ellipsis)[..|head|] == head;
      head + Ellipsis
  }

  /** The two URL schemes Prisma's PostgreSQL connector accepts. */
  predicate PostgresScheme(u: string) {
    StartsWith(u, "postgresql://") || StartsWith(u, "postgres://")
  }

  /** `databaseUrlStartsCorrectly`: false when the URL is unset. */
  function StartsCorrectly(url: Option<string>): (b: bool)
    ensures b ==> Truthy(url)
    ensures Truthy(url) ==> (b <==> PostgresScheme(url.value))
  {
    Truthy(url) && PostgresScheme(url.value)
  }

  /** The JSON body of `GET /api/debug-env`. */
  datatype DebugReport = DebugReport(
    environment: Option<string>,
    hasDatabaseUrl: bool,
    databaseUrlPreview: string,
    databaseUrlStartsCorrectly: bool,
    port: Option<string>,
    hasJwtSecret: bool,
    frontendUrl: Option<string>)

  /** `GET /api/debug-env`. */
  function DebugEnv(env: Env): (r: DebugReport)
    ensures r.environment == env.nodeEnv && r.port == env.port && r.frontendUrl == env.frontendUrl
    ensures r.hasDatabaseUrl <==> Truthy(env.databaseUrl)
    ensures r.hasJwtSecret <==> Truthy(env.jwtSecret)
    ensures r.databaseUrlPreview == Preview(env.databaseUrl)
    ensures r.databaseUrlStartsCorrectly == StartsCorrectly(env.databaseUrl)
  {
    DebugReport(env.nodeEnv, Truthy(env.databaseUrl), Preview(env.databaseUrl), StartsCorrectly(env.databaseUrl),
                env.port, Truthy(env.jwtSecret), env.frontendUrl)
  }

  /** The report is self-consistent: a URL reported as well-formed is reported
      as set, its preview shows the scheme, and the preview of an unset URL is
      the `NOT SET` marker. */
  lemma DebugReportConsistent(env: Env)
    ensures DebugEnv(env).databaseUrlStartsCorrectly ==> DebugEnv(env).hasDatabaseUrl
    ensures DebugEnv(env).databaseUrlStartsCorrectly ==> StartsWith(DebugEnv(env).databaseUrlPreview, "postgres")
    ensures !DebugEnv(env).hasDatabaseUrl <==> DebugEnv(env).databaseUrlPreview == NotSet
  {
    var r := DebugEnv(env);
    if r.databaseUrlStartsCorrectly {
      var u := env.databaseUrl.value;
      var p := r.databaseUrlPreview;
      if StartsWith(u, "postgresql://") {
        assert u[..8] == u[..13][..8] == "postgresql://"[..8] == "postgres";
      } else {
        assert u[..8] == u[..11][..8] == "postgres://"[..8] == "postgres";
      }
      assert p[..8] == u[..8];
    }
    if r.hasDatabaseUrl {
      assert |r.databaseUrlPreview| >= 4;
      assert r.databaseUrlPreview[|r.databaseUrlPreview| - 1] == '.';
      assert NotSet[|NotSet| - 1] == 'T';
    }
  }

  /** The two schemes are distinct tests: neither prefix implies the other. */
  lemma SchemesDistinct()
    ensures PostgresScheme("postgresql://db") && PostgresScheme("postgres://db")
    ensures !StartsWith("postgresql://db", "postgres://") && !StartsWith("postgres://db", "postgresql://")
    ensures !PostgresScheme("mysql://db")
  {
    assert "postgresql://db"[8] != "postgres://"[8];
    assert "postgres://db"[8] != "postgresql://"[8];
    assert "mysql://db"[0] != "postgres://"[0];
    assert "mysql://db"[0] != "postgresql://"[0];
  }
}
