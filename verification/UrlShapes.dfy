/** The URL editors and the ClickHouse reader on hand-written URLs. */
module UrlShapes {
  import opened ConnectionUrl
  import opened ConnectionUrlLaws
  import opened Options
  import opened PercentEncoding
  import opened Splits
  import opened Text
  import opened Utf8

  /** Text that holds none of the characters that end an authority. */
  predicate InAuthority(s: string) { '/' !in s && '?' !in s && '#' !in s }

  /** Text that begins with a character that ends an authority, or nothing. */
  predicate EndsAuthority(s: string) { s == "" || s[0] == '/' || s[0] == '?' || s[0] == '#' }

  predicate BeforeQuery(s: string) { '?' !in s && '#' !in s }

  predicate IsQueryTail(s: string) { s == "" || s[0] == '?' || s[0] == '#' }

  predicate AllDigits(s: string) { forall k :: 0 <= k < |s| ==> IsDigit(s[k]) }

  lemma FindsHere(a: string, b: string, cs: set<char>)
    requires (forall ch :: ch in cs ==> ch !in a) && (b == "" || b[0] in cs)
    ensures FindAnyFrom(a + b, cs, 0) == |a| && (a + b)[..|a|] == a && (a + b)[|a|..] == b
  {
    var s := a + b;
    assert forall j :: 0 <= j < |a| ==> s[j] == a[j] && a[j] in a;
    if b != "" { assert s[|a|] == b[0]; }
  }

  /** The scheme and what follows it. */
  lemma SchemeParts(scheme: string, rest: string)
    requires ':' !in scheme
    ensures var url := scheme + "://" + rest;
            && SchemeEndFrom(url, 0) == Some(|scheme|)
            && url[..|scheme| + 3] == scheme + "://" && url[|scheme| + 3..] == rest
  {
    SchemeEnds(scheme, rest, 0);
  }

  // ----- The mask -----

  lemma MaskOf(scheme: string, authority: string, tail: string)
    requires ':' !in scheme && InAuthority(authority) && EndsAuthority(tail)
    ensures var prefix, rest := scheme + "://", authority + tail;
            MaskUrlPassword(prefix + rest)
            == if '@' in authority then MaskBefore(prefix, rest, |authority|)
               else if LooksLikeCredentials(authority) then MaskBefore(prefix, rest, FindAnyFrom(rest, PATH_ENDS, 0))
               else prefix + rest
  {
    hide SchemeEndFrom, FindAnyFrom, MaskBefore, LooksLikeCredentials;
    SchemeParts(scheme, authority + tail);
    FindsHere(authority, tail, AUTHORITY_ENDS);
  }

  lemma MaskParts(prefix: string, user: string, secret: string, host: string, tail: string)
    requires ':' !in user && '@' !in host
    ensures var region := user + ":" + secret + "@" + host;
            MaskBefore(prefix, region + tail, |region|) == prefix + user + ":****@" + host + tail
  {
    var region := user + ":" + secret + "@" + host;
    assert (region + tail)[..|region|] == region && (region + tail)[|region|..] == tail;
    RSplitsHere(user + ":" + secret, '@', host);
    SplitsHere(user, ':', secret);
  }

  /** A password in the authority is masked from the first colon to the last `@`. */
  lemma SecretIsMasked(scheme: string, user: string, secret: string, host: string, tail: string)
    requires ':' !in scheme && ':' !in user && '@' !in host && EndsAuthority(tail)
    requires InAuthority(user) && InAuthority(secret) && InAuthority(host)
    ensures MaskUrlPassword(scheme + "://" + ((user + ":" + secret + "@" + host) + tail))
            == scheme + "://" + user + ":****@" + host + tail
  {
    hide SchemeEndFrom, FindAnyFrom, MaskBefore, LooksLikeCredentials, MaskUrlPassword;
    var region := user + ":" + secret + "@" + host;
    assert region[|user| + 1 + |secret|] == '@';
    MaskOf(scheme, region, tail);
    MaskParts(scheme + "://", user, secret, host, tail);
  }

  /** A password with a `/` in it is masked whole, if it does not look like a port before the `/`. */
  lemma SecretWithASlashIsMasked(scheme: string, user: string, secret: string, more: string, host: string, tail: string)
    requires ':' !in scheme && ':' !in user && '@' !in user && InAuthority(user)
    requires ':' !in secret && '@' !in secret && InAuthority(secret) && !AllDigits(secret)
    requires BeforeQuery(more) && BeforeQuery(host) && '@' !in host && IsQueryTail(tail)
    ensures MaskUrlPassword(scheme + "://" + ((user + ":" + (secret + "/" + more) + "@" + host) + tail))
            == scheme + "://" + user + ":****@" + host + tail
  {
    hide SchemeEndFrom, FindAnyFrom, MaskBefore, MaskUrlPassword;
    var authority, path := user + ":" + secret, "/" + more + "@" + host + tail;
    var region := user + ":" + (secret + "/" + more) + "@" + host;
    assert region + tail == authority + path;
    MaskOf(scheme, authority, path);
    RSplitsHere(user, ':', secret);
    assert LooksLikeCredentials(authority);
    FindsHere(region, tail, PATH_ENDS);
    MaskParts(scheme + "://", user, secret + "/" + more, host, tail);
  }

  /** A host with or without a port has nothing to mask, whatever follows it. */
  lemma PortIsNoSecret(scheme: string, host: string, port: string, tail: string)
    requires ':' !in scheme && '@' !in host && InAuthority(host) && EndsAuthority(tail) && AllDigits(port)
    ensures var url := scheme + "://" + ((host + ":" + port) + tail); MaskUrlPassword(url) == url
    ensures ':' !in host ==> var url := scheme + "://" + (host + tail); MaskUrlPassword(url) == url
  {
    hide SchemeEndFrom, FindAnyFrom, MaskBefore, MaskUrlPassword;
    var authority := host + ":" + port;
    MaskOf(scheme, authority, tail);
    RSplitsHere(host, ':', port);
    MaskOf(scheme, host, tail);
  }

  /** A user without a password stays as it is. */
  lemma UserAloneStays(scheme: string, user: string, host: string, tail: string)
    requires ':' !in scheme && ':' !in user && '@' !in host && EndsAuthority(tail)
    requires InAuthority(user) && InAuthority(host)
    ensures var url := scheme + "://" + ((user + "@" + host) + tail); MaskUrlPassword(url) == url
  {
    hide SchemeEndFrom, FindAnyFrom, MaskUrlPassword;
    var region := user + "@" + host;
    assert region[|user|] == '@';
    MaskOf(scheme, region, tail);
    assert (region + tail)[..|region|] == region;
    RSplitsHere(user, '@', host);
  }

  // ----- Another database -----

  lemma ReplaceOf(scheme: string, region: string, tail: string, db: string)
    requires ':' !in scheme && BeforeQuery(region) && IsQueryTail(tail)
    ensures var prefix := scheme + "://";
            ReplaceDatabase(prefix + (region + tail), db)
            == match RSplitOnce(region, '/')
               case Some((base, _)) => prefix + base + "/" + db + tail
               case None => prefix + region + "/" + db + tail
  {
    hide SchemeEndFrom, FindAnyFrom, RSplitOnce;
    SchemeParts(scheme, region + tail);
    FindsHere(region, tail, PATH_ENDS);
  }

  /** The database is what follows the last slash before the query, and the query stays. */
  lemma DatabaseIsReplaced(scheme: string, base: string, was: string, tail: string, db: string)
    requires ':' !in scheme && BeforeQuery(base) && BeforeQuery(was) && '/' !in was && IsQueryTail(tail)
    ensures ReplaceDatabase(scheme + "://" + ((base + "/" + was) + tail), db)
            == scheme + "://" + base + "/" + db + tail
    ensures '/' !in base ==>
              ReplaceDatabase(scheme + "://" + (base + tail), db) == scheme + "://" + base + "/" + db + tail
  {
    hide ReplaceDatabase;
    ReplaceOf(scheme, base + "/" + was, tail, db);
    RSplitsHere(base, '/', was);
    ReplaceOf(scheme, base, tail, db);
  }

  predicate SchemeMarkAt(s: string, k: nat) { k + 3 <= |s| && s[k..k + 3] == "://" }

  lemma {:induction false} NoSchemeFrom(url: string, i: nat)
    requires i <= |url| && forall k: nat :: !SchemeMarkAt(url, k)
    ensures SchemeEndFrom(url, i) == None
    decreases |url| - i
  {
    if i + 3 <= |url| {
      assert !SchemeMarkAt(url, i);
      NoSchemeFrom(url, i + 1);
    }
  }

  /** Text that is no URL is left alone by both. */
  lemma NoUrlIsLeftAlone(text: string, db: string)
    requires forall k: nat :: !SchemeMarkAt(text, k)
    ensures MaskUrlPassword(text) == text && ReplaceDatabase(text, db) == text
  {
    NoSchemeFrom(text, 0);
  }

  // ----- The reader's defaults -----

  /** A host alone: port 8123, user `default`, no password and no database. */
  lemma HostAloneReads(host: string, lossy: seq<Byte> -> string)
    requires '@' !in host && '/' !in host && ':' !in host
    ensures ClickhouseTarget("clickhouse://" + host, lossy)
            == Ok(Target("http://" + host + ":" + Decimal(8123), "default", "", ""))
  {
    hide PercentDecode, Decode, RFindBefore, FindFrom, Decimal;
    assert ("clickhouse://" + host)[|CLICKHOUSE|..] == host;
    NothingDecoded(lossy);
  }

  /** A port that cannot be read is 8123, and the database ends where a query begins. */
  lemma PlaceReads(host: string, port: string, db: string, query: string)
    requires '/' !in host && '/' !in port && ':' !in port && '?' !in db && IsQueryTail(query) && '#' !in query
    ensures ReadPlace(host + ":" + port + "/" + (db + query))
            == ("http://" + host + ":" + Decimal(ParsePort(port).UnwrapOr(8123)), db)
  {
    hide ParsePort, Decimal, FindFrom, RFindBefore;
    SplitsHere(host + ":" + port, '/', db + query);
    RSplitsHere(host, ':', port);
    if query == "" {
      assert db + query == db;
    } else {
      assert db + query == db + "?" + query[1..];
      SplitsHere(db, '?', query[1..]);
    }
  }

  /** Any other scheme is refused. */
  lemma OtherSchemesAreRefused(url: string, lossy: seq<Byte> -> string)
    ensures ClickhouseTarget(url, lossy).Err? <==> !("clickhouse://" <= url)
  {
    hide ReadPlace, ReadAuth, Decoded, RSplitOnce;
  }
}
