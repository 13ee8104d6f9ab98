/**
 * Reading the connection URL back, by the rules of section 3.2 of RFC 3986: the
 * credentials always survive, everything else exactly when the host is a legal one.
 */
module ConfigRoundTrip {
  import opened Chars
  import opened Config
  import opened Options

  /** Position of the first character out of `stops`, or the length. */
  function First(s: string, stops: string): (k: nat)
    ensures k <= |s| && (k < |s| ==> s[k] in stops)
    ensures forall i :: 0 <= i < k ==> s[i] !in stops
  {
    if s == "" || s[0] in stops then 0
    else
      var k := First(s[1..], stops);
      assert forall i :: 1 <= i < k + 1 ==> s[i] == s[1..][i - 1];
      k + 1
  }

  /** Position just after the last colon, or 0. */
  function AfterLastColon(s: string): (k: nat)
    ensures k <= |s| && (k > 0 ==> s[k - 1] == ':')
    ensures forall i :: k <= i < |s| ==> s[i] != ':'
  {
    if s == "" then 0 else if s[|s| - 1] == ':' then |s| else AfterLastColon(s[..|s| - 1])
  }

  function ParseDecimal(s: string): Option<nat> {
    if s == "" || !IsDigit(s[|s| - 1]) then None
    else
      var digit := s[|s| - 1] as int - '0' as int;
      if |s| == 1 then Some(digit)
      else
        var high := ParseDecimal(s[..|s| - 1]);
        if high.Some? then Some(10 * high.value + digit) else None
  }

  lemma {:induction false} ParseUndoesDecimal(n: nat)
    ensures ParseDecimal(Decimal(n)) == Some(n)
  {
    var s := Decimal(n);
    if n >= 10 {
      ParseUndoesDecimal(n / 10);
      assert s[..|s| - 1] == Decimal(n / 10);
    }
  }

  datatype Credentials = Credentials(user: seq<byte>, password: Option<seq<byte>>)
  datatype Server = Server(host: string, port: nat)
  datatype Target = Target(name: seq<byte>, sslMode: Option<seq<byte>>)
  datatype Parts = Parts(credentials: Credentials, server: Server, target: Target)

  function ParseUserinfo(info: string): Option<Credentials> {
    var k := First(info, ":");
    var user := Decode(info[..k]);
    if user.None? then None
    else if k == |info| then Some(Credentials(user.value, None))
    else
      var password := Decode(info[k + 1..]);
      if password.None? then None else Some(Credentials(user.value, password))
  }

  function ParseServer(authority: string): Option<Server> {
    var k := AfterLastColon(authority);
    var port := ParseDecimal(authority[k..]);
    if k == 0 || port.None? then None else Some(Server(authority[..k - 1], port.value))
  }

  function ParseTarget(path: string): Option<Target> {
    var k := First(path, "?#");
    var name := Decode(path[..k]);
    if name.None? then None
    else if k == |path| then Some(Target(name.value, None))
    else if !("?" + SSL <= path[k..]) then None
    else
      var mode := Decode(path[k..][|SSL| + 1..]);
      if mode.None? then None else Some(Target(name.value, mode))
  }

  /** The credentials of a URL and what follows them. */
  function SplitCredentials(url: string): Option<(Credentials, string)> {
    if !(SCHEME <= url) then None
    else
      var rest := url[|SCHEME|..];
      var k := First(rest, "@");
      if k == |rest| || ParseUserinfo(rest[..k]).None? then None
      else Some((ParseUserinfo(rest[..k]).value, rest[k + 1..]))
  }

  /** Server and database, after the credentials. */
  function ParseTail(rest: string): Option<(Server, Target)> {
    var k := First(rest, "/?#");
    if k == |rest| || rest[k] != '/' then None
    else
      var server, target := ParseServer(rest[..k]), ParseTarget(rest[k + 1..]);
      if server.None? || target.None? then None else Some((server.value, target.value))
  }

  function Parse(url: string): Option<Parts> {
    var split := SplitCredentials(url);
    if split.None? then None
    else
      var tail := ParseTail(split.value.1);
      if tail.None? then None else Some(Parts(split.value.0, tail.value.0, tail.value.1))
  }

  // ---- splitting printed text ----

  lemma FirstAt(a: string, b: string, stops: string)
    requires forall i :: 0 <= i < |a| ==> a[i] !in stops
    requires b != "" ==> b[0] in stops
    ensures First(a + b, stops) == |a|
  {
    var s := a + b;
    assert forall i :: 0 <= i < |a| ==> s[i] == a[i];
    assert b != "" ==> s[|a|] == b[0];
    var k := First(s, stops);
  }

  lemma PlainAvoids(s: string, allowSlash: bool, stops: string)
    requires Plain(s, allowSlash)
    requires forall c :: c in stops ==> !Unreserved(c) && c != '%' && (allowSlash ==> c != '/')
    ensures forall i :: 0 <= i < |s| ==> s[i] !in stops
  {
  }

  lemma UserinfoRoundTrip(user: seq<byte>, password: Option<seq<byte>>)
    ensures ParseUserinfo(Userinfo(user, password)) == Some(Credentials(user, password))
  {
    EncodePlain(user, false);
    PlainAvoids(Encode(user, false), false, ":");
    DecodeUndoesEncode(user, false);
    var a := Encode(user, false);
    if password.Some? {
      DecodeUndoesEncode(password.value, false);
      PairSplits(a, Encode(password.value, false));
    } else {
      FirstAt(a, "", ":");
      assert a + "" == a;
    }
  }

  lemma PairSplits(a: string, b: string)
    requires forall i :: 0 <= i < |a| ==> a[i] !in ":"
    ensures var s := a + (":" + b); First(s, ":") == |a| < |s| && s[..|a|] == a && s[|a| + 1..] == b
  {
    FirstAt(a, ":" + b, ":");
  }

  lemma UserinfoEnds(user: seq<byte>, password: Option<seq<byte>>)
    ensures forall i :: 0 <= i < |Userinfo(user, password)| ==> Userinfo(user, password)[i] !in "@"
  {
    EncodePlain(user, false);
    PlainAvoids(Encode(user, false), false, "@");
    if password.Some? {
      EncodePlain(password.value, false);
      PlainAvoids(Encode(password.value, false), false, "@");
    }
  }

  lemma ServerRoundTrip(host: string, port: nat)
    ensures ParseServer(host + (":" + Decimal(port))) == Some(Server(host, port))
  {
    var digits := Decimal(port);
    var s := host + (":" + digits);
    ParseUndoesDecimal(port);
    var k := AfterLastColon(s);
    assert s[|host|] == ':';
    assert s[|host| + 1..] == digits && s[..|host|] == host;
  }

  lemma TargetRoundTrip(name: seq<byte>, sslMode: Option<seq<byte>>)
    ensures ParseTarget(Encode(name, true) + Query(sslMode)) == Some(Target(name, sslMode))
  {
    var a, b := Encode(name, true), Query(sslMode);
    EncodePlain(name, true);
    PlainAvoids(a, true, "?#");
    DecodeUndoesEncode(name, true);
    FirstAt(a, b, "?#");
    assert (a + b)[..|a|] == a && (a + b)[|a|..] == b;
    if sslMode.Some? {
      DecodeUndoesEncode(sslMode.value, false);
      assert b[|SSL| + 1..] == Encode(sslMode.value, false);
    }
  }

  /** What follows the credentials. */
  function Tail(host: string, port: nat, name: seq<byte>, sslMode: Option<seq<byte>>): string {
    host + (":" + (Decimal(port) + ("/" + (Encode(name, true) + Query(sslMode)))))
  }

  /** The user and the password come back unchanged, whatever bytes they hold and whatever the host is. */
  lemma CredentialsRoundTrip(
    user: seq<byte>, password: Option<seq<byte>>, host: string, port: nat, name: seq<byte>,
    sslMode: Option<seq<byte>>)
    ensures SplitCredentials(Url(user, password, host, port, name, sslMode))
            == Some((Credentials(user, password), Tail(host, port, name, sslMode)))
  {
    var info, tail := Userinfo(user, password), Tail(host, port, name, sslMode);
    UserinfoRoundTrip(user, password);
    UserinfoEnds(user, password);
    SplitAt(info, tail);
    assert Url(user, password, host, port, name, sslMode) == SCHEME + (info + ("@" + tail));
  }

  lemma SplitAt(info: string, tail: string)
    requires ParseUserinfo(info).Some? && forall i :: 0 <= i < |info| ==> info[i] !in "@"
    ensures SplitCredentials(SCHEME + (info + ("@" + tail))) == Some((ParseUserinfo(info).value, tail))
  {
    var rest := info + ("@" + tail);
    assert (SCHEME + rest)[|SCHEME|..] == rest;
    FirstAt(info, "@" + tail, "@");
    assert rest[..|info|] == info && rest[|info| + 1..] == tail;
  }

  /** A host that no delimiter of the URL syntax cuts short. */
  predicate LegalHost(host: string) { forall i :: 0 <= i < |host| ==> host[i] !in "/?#" }

  lemma AuthorityEnds(host: string, port: string, path: string)
    requires LegalHost(host) && forall i :: 0 <= i < |port| ==> IsDigit(port[i])
    ensures var s, n := host + (":" + (port + ("/" + path))), |host| + 1 + |port|;
            && First(s, "/?#") == n < |s| && s[n] == '/'
            && s[..n] == host + (":" + port) && s[n + 1..] == path
  {
    var a, b := host + (":" + port), "/" + path;
    assert host + (":" + (port + b)) == a + b;
    forall i | 0 <= i < |a| ensures a[i] !in "/?#" {
      if i > |host| {
        assert IsDigit(port[i - |host| - 1]);
      }
    }
    FirstAt(a, b, "/?#");
  }

  lemma HostCutShort(host: string, rest: string)
    requires !LegalHost(host)
    ensures First(host + rest, "/?#") < |host|
  {
    var i :| 0 <= i < |host| && host[i] in "/?#";
    assert (host + rest)[i] == host[i];
  }

  lemma TailRoundTrip(host: string, port: nat, name: seq<byte>, sslMode: Option<seq<byte>>)
    ensures ParseTail(Tail(host, port, name, sslMode)) == Some((Server(host, port), Target(name, sslMode)))
            <==> LegalHost(host)
  {
    var path := Encode(name, true) + Query(sslMode);
    if LegalHost(host) {
      TargetRoundTrip(name, sslMode);
      LegalTail(host, port, path);
    } else {
      HostCutShort(host, ":" + (Decimal(port) + ("/" + path)));
      ShortServer(host, Tail(host, port, name, sslMode));
    }
  }

  lemma LegalTail(host: string, port: nat, path: string)
    requires LegalHost(host) && ParseTarget(path).Some?
    ensures ParseTail(host + (":" + (Decimal(port) + ("/" + path))))
            == Some((Server(host, port), ParseTarget(path).value))
  {
    ServerRoundTrip(host, port);
    AuthorityEnds(host, Decimal(port), path);
    TailParses(host + (":" + (Decimal(port) + ("/" + path))), host + (":" + Decimal(port)), path);
  }

  lemma TailParses(s: string, authority: string, path: string)
    requires var n := |authority|;
             && First(s, "/?#") == n < |s| && s[n] == '/' && s[..n] == authority && s[n + 1..] == path
    requires ParseServer(authority).Some? && ParseTarget(path).Some?
    ensures ParseTail(s) == Some((ParseServer(authority).value, ParseTarget(path).value))
  {
  }

  lemma ShortServer(host: string, s: string)
    requires First(s, "/?#") < |host|
    ensures ParseTail(s).Some? ==> |ParseTail(s).value.0.host| < |host|
  {
  }

  /** The whole URL reads back exactly when the host holds none of `/`, `?` and `#`. */
  lemma UrlRoundTrip(
    user: seq<byte>, password: Option<seq<byte>>, host: string, port: nat, name: seq<byte>,
    sslMode: Option<seq<byte>>)
    ensures Parse(Url(user, password, host, port, name, sslMode))
              == Some(Parts(Credentials(user, password), Server(host, port), Target(name, sslMode)))
            <==> LegalHost(host)
  {
    CredentialsRoundTrip(user, password, host, port, name, sslMode);
    TailRoundTrip(host, port, name, sslMode);
  }
}
