/** The URL of a config, written out. */
module ConnectionUrlMeaning {
  import opened ConnectionUrl
  import opened ConnectionUrlLaws
  import opened Options
  import opened PercentEncoding
  import opened Text

  // ----- Server dialects -----

  predicate IsPostgres(d: string) {
    || d == "postgres" || d == "postgresql" || d == "cockroachdb" || d == "yugabyte" || d == "aurora-postgres"
    || d == "neon" || d == "supabase" || d == "timescaledb"
  }

  predicate IsMysql(d: string) {
    || d == "mysql" || d == "mariadb" || d == "tidb" || d == "singlestore" || d == "aurora-mysql" || d == "vitess"
    || d == "planetscale"
  }

  /** Hex digits and colons. */
  predicate AddressChar(c: char) {
    48 <= c as int <= 57 || 65 <= c as int <= 70 || 97 <= c as int <= 102 || c as int == 58
  }

  /** An IPv6 address without brackets: a colon, and hex digits and colons only. */
  predicate BareIPv6(host: string) { ':' in host && forall k :: 0 <= k < |host| ==> AddressChar(host[k]) }

  function Authority(c: Config, host: string, port: string): string {
    Auth(c) + ((if BareIPv6(host) then "[" + host + "]" else host) + ":" + port)
  }

  function ServerUrl(c: Config, scheme: string, port: string): string {
    scheme + "://" + (Authority(c, c.host.UnwrapOr("localhost"), port) + "/" + PercentEncode(c.database.UnwrapOr("")))
  }

  lemma HostMeans(host: string)
    ensures UrlHost(host) == if BareIPv6(host) then "[" + host + "]" else host
  {
    if host != "" && host[0] == '[' {
      assert !AddressChar(host[0]);
    }
  }

  lemma DialectMeans(d: string)
    ensures NormalizeDialect(d) == if IsPostgres(d) then "postgres" else if IsMysql(d) then "mysql" else d
  {}

  lemma DefaultPorts()
    ensures Decimal(DefaultPort("postgres")) == "5432" && Decimal(DefaultPort("mysql")) == "3306"
    ensures Decimal(DefaultPort("clickhouse")) == "8123" && Decimal(DefaultPort("mssql")) == "1433"
  {
    Digits4(5, 4, 3, 2);
    Digits4(3, 3, 0, 6);
    Digits4(8, 1, 2, 3);
    Digits4(1, 4, 3, 3);
  }

  lemma Digits4(a: nat, b: nat, c: nat, d: nat)
    requires 0 < a < 10 && b < 10 && c < 10 && d < 10
    ensures Decimal(((a * 10 + b) * 10 + c) * 10 + d) == [Digit(a), Digit(b), Digit(c), Digit(d)]
  {
    hide *;
    OneDigit(a);
    DecimalStep(a, b);
    DecimalStep(a * 10 + b, c);
    DecimalStep((a * 10 + b) * 10 + c, d);
  }

  lemma OneDigit(n: nat)
    requires n < 10
    ensures Decimal(n) == [Digit(n)]
  {}

  lemma DecimalStep(q: nat, r: nat)
    requires q > 0 && r < 10
    ensures Decimal(q * 10 + r) == Decimal(q) + [Digit(r)]
  {
    var n := q * 10 + r;
    assert n / 10 == q && n % 10 == r;
  }

  lemma ServerUrlMeans(c: Config, scheme: string, port: string)
    requires c.url.None? || c.url.value == ""
    requires NormalizeDialect(c.dialect) == scheme && IsServer(scheme)
    requires port == Decimal(c.port.UnwrapOr(DefaultPort(scheme)))
    ensures ToUrl(c) == ServerUrl(c, scheme, port)
  {
    hide Decimal, DefaultPort, Auth, PercentEncode, NormalizeDialect, BareIPv6, UrlHost;
    HostMeans(c.host.UnwrapOr("localhost"));
  }

  /** Without a port the URL of a server names the port its dialect listens on. */
  lemma ServerUrls(c: Config)
    requires (c.url.None? || c.url.value == "") && c.port.None?
    ensures IsPostgres(c.dialect) ==> ToUrl(c) == ServerUrl(c, "postgres", "5432")
    ensures IsMysql(c.dialect) ==> ToUrl(c) == ServerUrl(c, "mysql", "3306")
    ensures c.dialect == "clickhouse" ==> ToUrl(c) == ServerUrl(c, "clickhouse", "8123")
    ensures c.dialect == "mssql" ==> ToUrl(c) == ServerUrl(c, "mssql", "1433")
  {
    hide Decimal, DefaultPort, ToUrl, ServerUrl, NormalizeDialect;
    DialectMeans(c.dialect);
    DefaultPorts();
    var scheme := NormalizeDialect(c.dialect);
    if IsServer(scheme) { ServerUrlMeans(c, scheme, Decimal(DefaultPort(scheme))); }
  }

  /** A port that is given is written in decimal, and reads back. */
  lemma GivenPort(c: Config, p: Port)
    requires (c.url.None? || c.url.value == "") && c.port == Some(p) && IsServer(NormalizeDialect(c.dialect))
    ensures ToUrl(c) == ServerUrl(c, NormalizeDialect(c.dialect), Decimal(p)) && ParsePort(Decimal(p)) == Some(p)
  {
    hide ToUrl, ServerUrl, NormalizeDialect;
    ServerUrlMeans(c, NormalizeDialect(c.dialect), Decimal(p));
    PortReads(p);
  }

  /** A port is read if it fits 16 bits, also with a plus sign before it. */
  lemma PortReadsIff(n: nat)
    ensures ParsePort(Decimal(n)) == (if n < 65536 then Some(n as Port) else None)
    ensures ParsePort("+" + Decimal(n)) == (if n < 65536 then Some(n as Port) else None)
  {
    DecimalReads(n);
    hide NatOf, Decimal;
    assert IsDigit(Decimal(n)[0]);
    assert ("+" + Decimal(n))[1..] == Decimal(n);
  }

  // ----- Files -----

  predicate StandsAt(s: string, t: string, k: nat) { k + |t| <= |s| && s[k..k + |t|] == t }

  ghost predicate Mentions(s: string, t: string) { exists k: nat :: StandsAt(s, t, k) }

  lemma {:induction false} ContainsMeans(s: string, t: string, i: nat)
    requires i <= |s|
    ensures ContainsFrom(s, t, i) <==> exists k: nat :: k >= i && StandsAt(s, t, k)
    decreases |s| - i
  {
    if i < |s| { ContainsMeans(s, t, i + 1); }
    if StandsAt(s, t, i) { assert ContainsFrom(s, t, i); }
    if k: nat :| k >= i && StandsAt(s, t, k) {
      assert k == i || k >= i + 1;
    }
  }

  /** A SQLite file is opened with `mode=rwc` unless its query already says a mode; no path means memory. */
  lemma SqliteUrls(c: Config)
    requires (c.url.None? || c.url.value == "") && c.dialect == "sqlite"
    ensures c.path.None? ==> ToUrl(c) == "sqlite::memory:"
    ensures c.path.Some? ==>
              var p := c.path.value;
              ToUrl(c) == if p == ":memory:" then "sqlite::memory:"
                          else if '?' !in p then "sqlite:" + (p + "?mode=rwc")
                          else if Mentions(p, "mode=") then "sqlite:" + p
                          else "sqlite:" + (p + "&mode=rwc")
  {
    hide ContainsFrom;
    if c.path.Some? { ContainsMeans(c.path.value, "mode=", 0); }
  }

  /** A URL that is given is the URL. */
  lemma GivenUrl(c: Config)
    requires c.url.Some? && c.url.value != ""
    ensures ToUrl(c) == c.url.value
  {}
}
