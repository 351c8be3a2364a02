/** What a URL built from fields reads back as, masks to, and becomes with another database. */
module ConnectionUrlLaws {
  import opened ConnectionUrl
  import opened Options
  import opened PercentEncoding
  import opened Splits
  import opened Text
  import opened Utf8

  // ----- The pieces of a built URL -----

  /** A config that builds its URL from fields, for a server dialect. */
  predicate FromFields(c: Config) {
    && (c.url.None? || c.url.value == "")
    && IsServer(NormalizeDialect(c.dialect))
  }

  function DatabasePart(c: Config): string { PercentEncode(c.database.UnwrapOr("")) }

  function Rest(c: Config): string { Auth(c) + HostPort(c) + "/" + DatabasePart(c) }

  lemma EncodedAvoids(s: string, cs: set<char>)
    requires forall ch :: ch in cs ==> !Unreserved(ch as int) && ch != '%'
    ensures Avoids(PercentEncode(s), cs)
    ensures forall ch :: ch in cs ==> ch !in PercentEncode(s)
  {
    EncodedIsSafe(Encode(s));
  }

  lemma {:induction false} DecimalReads(n: nat)
    ensures NatOf(Decimal(n)) == n
  {
    if n >= 10 {
      DecimalReads(n / 10);
      var s := Decimal(n);
      assert s[..|s| - 1] == Decimal(n / 10);
    } else {
      assert Decimal(n)[..0] == "";
    }
  }

  lemma PortReads(p: Port)
    ensures ParsePort(Decimal(p)) == Some(p)
  {
    DecimalReads(p);
    assert IsDigit(Decimal(p)[0]);
  }

  lemma DecodedEncoded(s: string, lossy: seq<Byte> -> string)
    ensures Decoded(PercentEncode(s), lossy) == s
  {
    PercentRoundTrip(Encode(s));
    DecodeEncode(s);
  }

  lemma BracketsAreHarmless(host: string, ch: char)
    requires ch != '[' && ch != ']'
    ensures ch in UrlHost(host) <==> ch in host
  {
    if ch in host {
      var k :| 0 <= k < |host| && host[k] == ch;
      assert ("[" + host + "]")[k + 1] == ch;
    }
  }

  // ----- Reading back -----

  function Host(c: Config): string { c.host.UnwrapOr("localhost") }

  function PortText(c: Config): string { Decimal(c.port.UnwrapOr(DefaultPort(NormalizeDialect(c.dialect)))) }

  function Place(c: Config): string { HostPort(c) + "/" + DatabasePart(c) }

  /** What the fields of a config say: no user means the default one, and then no password either. */
  function Meant(c: Config): Target {
    Target("http://" + HostPort(c), c.user.UnwrapOr("default"),
           if c.user.Some? then c.password.UnwrapOr("") else "", c.database.UnwrapOr(""))
  }

  lemma DatabaseAvoids(c: Config)
    ensures var db := DatabasePart(c); '@' !in db && '/' !in db && '?' !in db && '#' !in db && ':' !in db
    ensures Avoids(DatabasePart(c), PATH_ENDS)
  {
    EncodedAvoids(c.database.UnwrapOr(""), {'@', '/', '?', '#', ':'});
    EncodedAvoids(c.database.UnwrapOr(""), PATH_ENDS);
  }

  lemma PortAvoids(c: Config, ch: char)
    requires !IsDigit(ch)
    ensures ch !in PortText(c)
  {
  }

  lemma {:induction false} ReadsPlace(c: Config)
    requires '/' !in Host(c)
    ensures ReadPlace(Place(c)) == ("http://" + HostPort(c), DatabasePart(c))
  {
    hide PercentEncode, Decimal, UrlHost, ParsePort, SplitOnce, RSplitOnce;
    var host, port := UrlHost(Host(c)), PortText(c);
    BracketsAreHarmless(Host(c), '/');
    PortAvoids(c, '/');
    PortAvoids(c, ':');
    assert HostPort(c) == host + ":" + port;
    SplitsHere(HostPort(c), '/', DatabasePart(c));
    DatabaseAvoids(c);
    RSplitsHere(host, ':', port);
    PortReads(c.port.UnwrapOr(DefaultPort(NormalizeDialect(c.dialect))));
    assert "http://" + host + ":" + port == "http://" + HostPort(c);
  }

  lemma PlaceAvoidsAt(c: Config)
    requires '@' !in Host(c)
    ensures '@' !in Place(c)
  {
    hide PercentEncode, Decimal, UrlHost;
    BracketsAreHarmless(Host(c), '@');
    PortAvoids(c, '@');
    DatabaseAvoids(c);
  }

  /** What stands before the `@` of a built URL. */
  function UserInfo(c: Config): string {
    if c.user.None? then "" else
    if c.password.Some? then PercentEncode(c.user.value) + ":" + PercentEncode(c.password.value)
    else PercentEncode(c.user.value)
  }

  lemma ReadsUserInfo(c: Config, lossy: seq<Byte> -> string)
    ensures ReadAuth(if c.user.Some? then Some(UserInfo(c)) else None, lossy) == (Meant(c).user, Meant(c).password)
  {
    hide PercentEncode, Decoded, HostPort;
    if c.user.Some? {
      var u := PercentEncode(c.user.value);
      EncodedAvoids(c.user.value, {':'});
      DecodedEncoded(c.user.value, lossy);
      if c.password.Some? {
        SplitsHere(u, ':', PercentEncode(c.password.value));
        DecodedEncoded(c.password.value, lossy);
      } else {
        NothingDecoded(lossy);
      }
    }
  }

  lemma NothingDecoded(lossy: seq<Byte> -> string)
    ensures Decoded("", lossy) == ""
  {
  }

  lemma RestSplits(c: Config)
    requires '@' !in Host(c)
    ensures RSplitOnce(Rest(c), '@') == if c.user.Some? then Some((UserInfo(c), Place(c))) else None
    ensures c.user.None? ==> Rest(c) == Place(c)
  {
    hide PercentEncode, HostPort, DatabasePart, RSplitOnce;
    PlaceAvoidsAt(c);
    if c.user.Some? {
      RSplitsHere(UserInfo(c), '@', Place(c));
      assert Rest(c) == UserInfo(c) + "@" + Place(c);
    } else {
      assert Rest(c) == Place(c);
    }
  }

  lemma ReadsBack(c: Config, lossy: seq<Byte> -> string)
    requires FromFields(c) && NormalizeDialect(c.dialect) == "clickhouse"
    requires '/' !in Host(c) && '@' !in Host(c)
    ensures ClickhouseTarget(ToUrl(c), lossy) == Ok(Meant(c))
  {
    hide Auth, HostPort, PercentEncode, ReadPlace, ReadAuth, RSplitOnce, Decoded, UserInfo;
    assert ToUrl(c) == CLICKHOUSE + Rest(c);
    assert ToUrl(c)[|CLICKHOUSE|..] == Rest(c);
    RestSplits(c);
    ReadsPlace(c);
    ReadsUserInfo(c, lossy);
    DecodedEncoded(c.database.UnwrapOr(""), lossy);
    var auth := if c.user.Some? then Some(UserInfo(c)) else None;
    assert ClickhouseTarget(ToUrl(c), lossy)
        == Ok(Target(ReadPlace(Place(c)).0, ReadAuth(auth, lossy).0, ReadAuth(auth, lossy).1,
                     Decoded(ReadPlace(Place(c)).1, lossy)));
  }

  /** The address read from a URL never holds an `@` or a `/`. */
  lemma BaseIsPlain(place: string)
    requires '@' !in place
    ensures var base := ReadPlace(place).0;
            |base| >= 7 && '@' !in base[7..] && '/' !in base[7..]
  {
    hide ParsePort, Decimal;
  }

  /**
   A ClickHouse URL built from fields reads back as its fields, whatever the user, password and
   database are, exactly when the host has no `/` and no `@`.
   */
  lemma {:induction false} RoundTripIff(c: Config, lossy: seq<Byte> -> string)
    requires FromFields(c) && NormalizeDialect(c.dialect) == "clickhouse"
    ensures ClickhouseTarget(ToUrl(c), lossy) == Ok(Meant(c)) <==> '/' !in Host(c) && '@' !in Host(c)
  {
    if '/' !in Host(c) && '@' !in Host(c) {
      ReadsBack(c, lossy);
    } else {
      hide ToUrl, HostPort, ReadPlace, ClickhouseTarget;
      var place := AddressRead(c, lossy);
      BaseIsPlain(place);
      HostShows(c);
      assert ("http://" + HostPort(c))[7..] == HostPort(c);
    }
  }

  /** Where the address is read from: what follows the last `@` of a built URL. */
  lemma AddressRead(c: Config, lossy: seq<Byte> -> string) returns (place: string)
    requires FromFields(c) && NormalizeDialect(c.dialect) == "clickhouse"
    ensures '@' !in place
    ensures ClickhouseTarget(ToUrl(c), lossy).Ok?
    ensures ClickhouseTarget(ToUrl(c), lossy).value.base == ReadPlace(place).0
  {
    hide Auth, HostPort, PercentEncode, ReadPlace, ReadAuth, Decoded;
    assert ToUrl(c) == CLICKHOUSE + Rest(c);
    assert ToUrl(c)[|CLICKHOUSE|..] == Rest(c);
    var split := RSplitOnce(Rest(c), '@');
    place := if split.Some? then split.value.1 else Rest(c);
  }

  lemma HostShows(c: Config)
    ensures '/' in Host(c) ==> '/' in HostPort(c)
    ensures '@' in Host(c) ==> '@' in HostPort(c)
  {
    hide Decimal;
    BracketsAreHarmless(Host(c), '/');
    BracketsAreHarmless(Host(c), '@');
  }

  // ----- Masking -----

  lemma {:induction false} SchemeEnds(scheme: string, rest: string, i: nat)
    requires i <= |scheme| && ':' !in scheme
    ensures SchemeEndFrom(scheme + "://" + rest, i) == Some(|scheme|)
    decreases |scheme| - i
  {
    var url := scheme + "://" + rest;
    if i == |scheme| {
      assert url[i..i + 3] == "://";
    } else {
      assert url[i] == scheme[i];
      assert url[i..i + 3][0] == scheme[i];
      SchemeEnds(scheme, rest, i + 1);
    }
  }

  lemma BuiltUrl(c: Config)
    requires FromFields(c)
    ensures var scheme, url := NormalizeDialect(c.dialect), ToUrl(c);
            && SchemeEndFrom(url, 0) == Some(|scheme|)
            && url[..|scheme| + 3] == scheme + "://" && url[|scheme| + 3..] == Rest(c)
  {
    hide Auth, HostPort, PercentEncode, SchemeEndFrom;
    var scheme := NormalizeDialect(c.dialect);
    assert ToUrl(c) == scheme + "://" + Rest(c);
    SchemeEnds(scheme, Rest(c), 0);
  }

  lemma {:induction false} FindAnyShift(a: string, b: string, cs: set<char>)
    requires Avoids(a, cs)
    ensures FindAnyFrom(a + b, cs, 0) == |a| + FindAnyFrom(b, cs, 0)
  {
    var k := FindAnyFrom(b, cs, 0);
    var s := a + b;
    assert forall j :: 0 <= j < |a| ==> s[j] == a[j];
    assert forall j :: |a| <= j < |a| + k ==> s[j] == b[j - |a|];
    if k < |b| { assert s[|a| + k] == b[k]; }
  }

  lemma RSplitShift(a: string, b: string, c: char)
    ensures RSplitOnce(a + [c] + b, c)
            == match RSplitOnce(b, c) case Some((x, y)) => Some((a + [c] + x, y)) case None => Some((a, b))
  {
    match RSplitOnce(b, c)
    case Some((x, y)) =>
      RSplitsHere(a + [c] + x, c, y);
      assert a + [c] + b == (a + [c] + x) + [c] + y;
    case None => RSplitsHere(a, c, b);
  }

  /** What is left of an authority when everything up to its last `@` is dropped. */
  function AfterAt(authority: string): string {
    match RSplitOnce(authority, '@') case Some((_, y)) => y case None => authority
  }

  /** What a masked URL shows of host, port and database: with an `@` in the host, what follows it. */
  function Shown(place: string): string {
    var end := FindAnyFrom(place, AUTHORITY_ENDS, 0);
    AfterAt(place[..end]) + place[end..]
  }

  /** The masked form of a URL: the user, four stars, and what is shown of the place. */
  function Masked(prefix: string, user: string, place: string): string { prefix + user + ":****@" + Shown(place) }

  lemma MaskedAuthority(rest: string, auth: string, u: string, p: string, shown: string, prefix: string, tail: string)
    requires ':' !in u && auth == u + ":" + p + "@" && rest == (auth + shown) + tail
    ensures MaskBefore(prefix, rest, |auth + shown|) == prefix + u + ":****@" + AfterAt(shown) + tail
  {
    var authority := auth + shown;
    assert rest[..|authority|] == authority && rest[|authority|..] == tail;
    RSplitShift(u + ":" + p, shown, '@');
    match RSplitOnce(shown, '@')
    case Some((x, y)) =>
      SplitsHere(u, ':', p + "@" + x);
      assert u + ":" + p + "@" + x == u + ":" + (p + "@" + x);
    case None => SplitsHere(u, ':', p);
  }

  lemma AvoidsAuth(u: string, p: string, cs: set<char>)
    requires Avoids(u, cs) && Avoids(p, cs) && ':' !in cs && '@' !in cs
    ensures Avoids(u + ":" + p + "@", cs)
  {
  }

  lemma {:induction false} MaskStep(url: string, n: nat, end: nat)
    requires SchemeEndFrom(url, 0) == Some(n) && n + 3 <= |url| && end <= |url| - n - 3
    requires FindAnyFrom(url[n + 3..], AUTHORITY_ENDS, 0) == end && '@' in url[n + 3..][..end]
    ensures MaskUrlPassword(url) == MaskBefore(url[..n + 3], url[n + 3..], end)
  {
    hide SchemeEndFrom, FindAnyFrom, MaskBefore;
  }

  lemma Pieces(auth: string, place: string, end: nat)
    requires end <= |place| && auth != "" && auth[|auth| - 1] == '@'
    ensures var rest, authority := auth + place, auth + place[..end];
            && rest == authority + place[end..] && rest[..|auth| + end] == authority && '@' in authority
  {
    var authority := auth + place[..end];
    assert authority[|auth| - 1] == '@';
    assert place == place[..end] + place[end..];
    assert auth + place == authority + place[end..];
  }

  /** The masker finds the end of the authority in the place, and the user info before it. */
  lemma {:induction false} FindsAuthority(url: string, n: nat, u: string, p: string, place: string, auth: string)
    requires SchemeEndFrom(url, 0) == Some(n) && n + 3 <= |url| && url[n + 3..] == auth + place
    requires auth == u + ":" + p + "@" && Avoids(u, AUTHORITY_ENDS) && Avoids(p, AUTHORITY_ENDS)
    ensures var end := FindAnyFrom(place, AUTHORITY_ENDS, 0);
            |auth| + end <= |url[n + 3..]|
            && MaskUrlPassword(url) == MaskBefore(url[..n + 3], url[n + 3..], |auth| + end)
  {
    hide SchemeEndFrom, RSplitOnce, FindAnyFrom, MaskBefore, MaskUrlPassword, Avoids;
    var end := FindAnyFrom(place, AUTHORITY_ENDS, 0);
    AvoidsAuth(u, p, AUTHORITY_ENDS);
    FindAnyShift(auth, place, AUTHORITY_ENDS);
    Pieces(auth, place, end);
    MaskStep(url, n, |auth| + end);
  }

  lemma MaskedPlace(prefix: string, u: string, p: string, place: string, auth: string, end: nat)
    requires auth == u + ":" + p + "@" && ':' !in u && end == FindAnyFrom(place, AUTHORITY_ENDS, 0)
    ensures MaskBefore(prefix, auth + place, |auth| + end) == Masked(prefix, u, place)
  {
    hide RSplitOnce, FindAnyFrom, MaskBefore, Shown, AfterAt;
    Pieces(auth, place, end);
    assert |auth + place[..end]| == |auth| + end;
    MaskedAuthority(auth + place, auth, u, p, place[..end], prefix, place[end..]);
    ShownJoins(prefix + u + ":****@", place);
  }

  lemma {:induction false} MaskedRest(url: string, n: nat, u: string, p: string, place: string, auth: string)
    requires SchemeEndFrom(url, 0) == Some(n) && n + 3 <= |url| && url[n + 3..] == auth + place
    requires auth == u + ":" + p + "@"
    requires Avoids(u, AUTHORITY_ENDS) && Avoids(p, AUTHORITY_ENDS) && ':' !in u
    ensures MaskUrlPassword(url) == Masked(url[..n + 3], u, place)
  {
    hide SchemeEndFrom, RSplitOnce, FindAnyFrom, MaskBefore, MaskUrlPassword, Avoids, Masked;
    FindsAuthority(url, n, u, p, place, auth);
    MaskedPlace(url[..n + 3], u, p, place, auth, FindAnyFrom(place, AUTHORITY_ENDS, 0));
  }

  lemma ShownJoins(lead: string, place: string)
    ensures var end := FindAnyFrom(place, AUTHORITY_ENDS, 0);
            lead + AfterAt(place[..end]) + place[end..] == lead + Shown(place)
  {
    var end := FindAnyFrom(place, AUTHORITY_ENDS, 0);
    assert place == place[..end] + place[end..];
    var shown := AfterAt(place[..end]);
    assert lead + shown + place[end..] == lead + (shown + place[end..]);
  }

  /**
   Masking a URL built from fields with a user and a password: the user stays, four stars stand
   for the password, and nothing else of it is there, whatever the host is.
   */
  lemma MaskedUrl(c: Config)
    requires FromFields(c) && c.user.Some? && c.password.Some?
    ensures MaskUrlPassword(ToUrl(c))
            == Masked(NormalizeDialect(c.dialect) + "://", PercentEncode(c.user.value), Place(c))
  {
    hide PercentEncode, HostPort, DatabasePart, NormalizeDialect, IsServer, ToUrl, SchemeEndFrom, MaskUrlPassword,
      Masked, Avoids;
    var u, p := PercentEncode(c.user.value), PercentEncode(c.password.value);
    EncodedAvoids(c.user.value, AUTHORITY_ENDS);
    EncodedAvoids(c.user.value, {':'});
    EncodedAvoids(c.password.value, AUTHORITY_ENDS);
    BuiltUrl(c);
    assert Rest(c) == u + ":" + p + "@" + Place(c);
    MaskedRest(ToUrl(c), |NormalizeDialect(c.dialect)|, u, p, Place(c), u + ":" + p + "@");
  }

  /** So two configs that differ in the password only mask to the same text. */
  lemma {:induction false} MaskHidesPassword(c: Config, password: string)
    requires FromFields(c) && c.user.Some? && c.password.Some?
    ensures MaskUrlPassword(ToUrl(c)) == MaskUrlPassword(ToUrl(c.(password := Some(password))))
  {
    hide MaskUrlPassword, ToUrl;
    MaskedUrl(c);
    MaskedUrl(c.(password := Some(password)));
  }

  // ----- Replacing the database -----

  lemma RestAvoidsQuery(c: Config)
    requires '?' !in Host(c) && '#' !in Host(c)
    ensures Avoids(Rest(c), PATH_ENDS)
  {
    hide PercentEncode, Decimal, UrlHost;
    BracketsAreHarmless(Host(c), '?');
    BracketsAreHarmless(Host(c), '#');
    PortAvoids(c, '?');
    PortAvoids(c, '#');
    DatabaseAvoids(c);
    AuthAvoids(c, PATH_ENDS);
    assert Avoids(HostPort(c), PATH_ENDS);
  }

  lemma AuthAvoids(c: Config, cs: set<char>)
    requires forall ch :: ch in cs ==> !Unreserved(ch as int) && ch !in {'%', ':', '@'}
    ensures Avoids(Auth(c), cs)
  {
    hide PercentEncode;
    if c.user.Some? { EncodedAvoids(c.user.value, cs); }
    if c.password.Some? { EncodedAvoids(c.password.value, cs); }
  }

  lemma {:induction false} ReplacedRest(url: string, n: nat, base: string, was: string, db: string)
    requires SchemeEndFrom(url, 0) == Some(n) && n + 3 <= |url| && url[n + 3..] == base + "/" + was
    requires Avoids(base + "/" + was, PATH_ENDS) && '/' !in was
    ensures ReplaceDatabase(url, db) == url[..n + 3] + base + "/" + db
  {
    hide SchemeEndFrom, RSplitOnce;
    var rest := base + "/" + was;
    FindAnyShift(rest, "", PATH_ENDS);
    assert rest + "" == rest && rest[..|rest|] == rest && rest[|rest|..] == "";
    RSplitsHere(base, '/', was);
    assert url[..n + 3] + base + "/" + db + "" == url[..n + 3] + base + "/" + db;
  }

  /**
   On a URL built from fields whose host has no `?` and no `#`, replacing the database is building
   the URL with that database, exactly for names made of unreserved characters.
   */
  lemma {:induction false} ReplaceCommutesIff(c: Config, db: string)
    requires FromFields(c) && '?' !in Host(c) && '#' !in Host(c)
    ensures ReplaceDatabase(ToUrl(c), db) == ToUrl(c.(database := Some(db))) <==> AllUnreserved(db)
  {
    hide Auth, HostPort, PercentEncode, NormalizeDialect, IsServer, SchemeEndFrom, ReplaceDatabase, AllUnreserved,
      ToUrl;
    var base, scheme, c' := Auth(c) + HostPort(c), NormalizeDialect(c.dialect), c.(database := Some(db));
    BuiltUrl(c);
    RestAvoidsQuery(c);
    DatabaseAvoids(c);
    ReplacedRest(ToUrl(c), |scheme|, base, DatabasePart(c), db);
    BuiltUrl(c');
    SameAuthority(c, db);
    EncodeIsIdentityIff(db);
    var lead := scheme + "://" + base + "/";
    assert ToUrl(c') == ToUrl(c')[..|scheme| + 3] + ToUrl(c')[|scheme| + 3..];
    assert ToUrl(c') == lead + PercentEncode(db);
    assert (lead + db)[|lead|..] == db && (lead + PercentEncode(db))[|lead|..] == PercentEncode(db);
  }

  lemma SameAuthority(c: Config, db: string)
    ensures var c' := c.(database := Some(db)); Auth(c') == Auth(c) && HostPort(c') == HostPort(c)
  {
  }
}
