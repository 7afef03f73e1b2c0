/**
 * The text of a Redis connection URL, `redis://[:password@]host:port/db`, as
 * the configuration code writes it, and a reader for that text. For parts that
 * are well-formed (`WellFormed`), reading what was written gives back the
 * parts; writing what was read gives back the text. Parts that are not
 * well-formed, such as an IPv6 host `::1`, are written all the same but may
 * read back differently.
 */
module RedisUrl {

  import opened Wrappers
  import opened Strings

  /** The parts of a Redis URL, each already rendered as text. */
  datatype Address = Address(password: Option<string>, host: string, port: string, db: string)

  const Scheme: string := "redis://"

  /** The URL text: the password part appears exactly when there is a password. */
  function Format(a: Address): (url: string)
    ensures Scheme <= url
    ensures a.password.Some? ==> '@' in url
    ensures a.password.None? ==> ('@' in url <==> '@' in a.host || '@' in a.port || '@' in a.db)
  {
    Scheme + UserInfo(a.password) + Location(a.host, a.port, a.db)
  }

  function UserInfo(password: Option<string>): string {
    match password
    case Some(p) => ":" + p + "@"
    case None => ""
  }

  function Location(host: string, port: string, db: string): string {
    host + ":" + port + "/" + db
  }

  /**
   * Parts that the reader can split apart again: no `@` outside the password,
   * no `:` or `/` in the host and no `/` in the port.
   */
  predicate WellFormed(a: Address) {
    && (a.password.Some? ==> '@' !in a.password.value)
    && '@' !in a.host && ':' !in a.host && '/' !in a.host
    && '@' !in a.port && '/' !in a.port
    && '@' !in a.db
  }

  /** Reads `redis://[:password@]host:port/db`, splitting at the first `@`, `/` and `:`. */
  function Parse(url: string): Option<Address> {
    if Scheme <= url then ParseAfterScheme(url[|Scheme|..]) else None
  }

  function ParseAfterScheme(rest: string): Option<Address> {
    var at := FirstIndex(rest, '@');
    if at == |rest| then ParseLocation(None, rest)
    else if at > 0 && rest[0] == ':' then ParseLocation(Some(rest[1..at]), rest[at + 1..])
    else None
  }

  function ParseLocation(password: Option<string>, location: string): Option<Address> {
    var slash := FirstIndex(location, '/');
    if slash == |location| then None
    else
      var hostPort := location[..slash];
      var colon := FirstIndex(hostPort, ':');
      if colon == |hostPort| then None
      else Some(Address(password, hostPort[..colon], hostPort[colon + 1..], location[slash + 1..]))
  }

  lemma ParseLocationOfLocation(password: Option<string>, host: string, port: string, db: string)
    requires ':' !in host && '/' !in host && '/' !in port
    ensures ParseLocation(password, Location(host, port, db)) == Some(Address(password, host, port, db))
  {
    var location := Location(host, port, db);
    var hostPort := host + [':'] + port;
    assert location == hostPort + ['/'] + db;
    FirstIndexOfSeparator(hostPort, '/', db);
    assert location[..|hostPort|] == hostPort;
    FirstIndexOfSeparator(host, ':', port);
    assert hostPort[..|host|] == host && hostPort[|host| + 1..] == port;
    assert location[|hostPort| + 1..] == db;
  }

  lemma ParseAfterSchemeWithPassword(p: string, location: string)
    requires '@' !in p
    ensures ParseAfterScheme(":" + p + "@" + location) == ParseLocation(Some(p), location)
  {
    var info := [':'] + p;
    var rest := info + ['@'] + location;
    assert ":" + p + "@" + location == rest;
    FirstIndexOfSeparator(info, '@', location);
    assert rest[0] == ':';
    assert rest[1..|p| + 1] == p;
    assert rest[|p| + 2..] == location;
  }

  lemma ParseAfterSchemeWithoutPassword(location: string)
    requires '@' !in location
    ensures ParseAfterScheme(location) == ParseLocation(None, location)
  {
  }

  lemma NoAtInLocation(host: string, port: string, db: string)
    requires '@' !in host && '@' !in port && '@' !in db
    ensures '@' !in Location(host, port, db)
  {
  }

  lemma ParseAfterSchemeOfFormat(a: Address)
    requires WellFormed(a)
    ensures ParseAfterScheme(UserInfo(a.password) + Location(a.host, a.port, a.db)) == Some(a)
  {
    var location := Location(a.host, a.port, a.db);
    ParseLocationOfLocation(a.password, a.host, a.port, a.db);
    if a.password.None? {
      assert UserInfo(a.password) + location == location;
      NoAtInLocation(a.host, a.port, a.db);
      ParseAfterSchemeWithoutPassword(location);
    } else {
      var p := a.password.value;
      assert UserInfo(a.password) == ":" + p + "@";
      ParseAfterSchemeWithPassword(p, location);
    }
  }

  /** Reading a URL written from well-formed parts gives back those parts. */
  lemma ParseFormat(a: Address)
    requires WellFormed(a)
    ensures Parse(Format(a)) == Some(a)
  {
    var rest := UserInfo(a.password) + Location(a.host, a.port, a.db);
    assert Format(a) == Scheme + rest;
    assert Format(a)[|Scheme|..] == rest;
    ParseAfterSchemeOfFormat(a);
  }

  lemma FormatParseLocation(password: Option<string>, location: string)
    requires ParseLocation(password, location).Some?
    ensures var a := ParseLocation(password, location).value;
      a.password == password && Location(a.host, a.port, a.db) == location
  {
    var slash := FirstIndex(location, '/');
    var hostPort := location[..slash];
    var colon := FirstIndex(hostPort, ':');
    assert hostPort == hostPort[..colon] + ":" + hostPort[colon + 1..];
    assert location == hostPort + "/" + location[slash + 1..];
  }

  /** Writing the parts of a URL that reads successfully gives back that URL. */
  lemma FormatParse(url: string)
    requires Parse(url).Some?
    ensures Format(Parse(url).value) == url
  {
    var rest := url[|Scheme|..];
    assert url == Scheme + rest;
    FormatParseAfterScheme(rest);
  }

  lemma FormatParseAfterScheme(rest: string)
    requires ParseAfterScheme(rest).Some?
    ensures var a := ParseAfterScheme(rest).value;
      UserInfo(a.password) + Location(a.host, a.port, a.db) == rest
  {
    var at := FirstIndex(rest, '@');
    if at == |rest| {
      FormatParseLocation(None, rest);
    } else {
      var p, location := rest[1..at], rest[at + 1..];
      FormatParseLocation(Some(p), location);
      SplitAtSeparator(rest, at);
    }
  }

  lemma SplitAtSeparator(rest: string, at: nat)
    requires 0 < at < |rest| && rest[0] == ':' && rest[at] == '@'
    ensures rest == ":" + rest[1..at] + "@" + rest[at + 1..]
  {
    assert rest == rest[..1] + rest[1..at] + rest[at..at + 1] + rest[at + 1..];
  }

  /** Well-formed addresses are told apart by their URLs. */
  lemma FormatInjective(a: Address, b: Address)
    requires WellFormed(a) && WellFormed(b)
    requires Format(a) == Format(b)
    ensures a == b
  {
    ParseFormat(a);
    ParseFormat(b);
  }
}
