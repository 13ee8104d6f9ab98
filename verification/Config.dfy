/**
 * Percent-encoding and the postgres connection URL (src/config.rs), against the syntax
 * of RFC 3986, sections 2.1, 2.3 and 3.2.
 */
module Config {
  import opened Chars
  import opened Options

  datatype Result<+T> = Ok(value: T) | Err(message: string)

  type byte = x: int | 0 <= x < 256

  // ---- percent-encoding ----

  const HEX := "0123456789ABCDEF"

  predicate Unreserved(c: char) {
    'A' <= c <= 'Z' || 'a' <= c <= 'z' || IsDigit(c) || c in "-_.~"
  }

  function EncodeByte(b: byte, allowSlash: bool): string {
    if Unreserved(b as char) || (allowSlash && b as char == '/') then [b as char]
    else ['%', HEX[b / 16], HEX[b % 16]]
  }

  function Encode(input: seq<byte>, allowSlash: bool): string {
    if input == [] then ""
    else Encode(input[..|input| - 1], allowSlash) + EncodeByte(input[|input| - 1], allowSlash)
  }

  method PercentEncode(input: seq<byte>, allowSlash: bool) returns (out: string)
    ensures out == Encode(input, allowSlash)
  {
    out := "";
    for i := 0 to |input|
      invariant out == Encode(input[..i], allowSlash)
    {
      assert input[..i + 1][..i] == input[..i];
      var c := input[i] as char;
      if Unreserved(c) || (allowSlash && c == '/') {
        out := out + [c];
      } else {
        out := out + "%";
        out := out + [HEX[input[i] / 16], HEX[input[i] % 16]];
      }
    }
    assert input[..|input|] == input;
  }

  function HexValue(c: char): Option<int> {
    if IsDigit(c) then Some(c as int - '0' as int)
    else if 'A' <= c <= 'F' then Some(c as int - 'A' as int + 10)
    else if 'a' <= c <= 'f' then Some(c as int - 'a' as int + 10)
    else None
  }

  /** The bytes a percent-encoded text stands for (section 2.1 of RFC 3986). */
  function Decode(s: string): Option<seq<byte>>
    decreases |s|
  {
    if s == "" then Some([])
    else if s[0] == '%' then
      if |s| < 3 || HexValue(s[1]).None? || HexValue(s[2]).None? then None
      else Prepend(16 * HexValue(s[1]).value + HexValue(s[2]).value, Decode(s[3..]))
    else if s[0] as int < 128 then Prepend(s[0] as int, Decode(s[1..]))
    else None
  }

  function Prepend(b: int, rest: Option<seq<byte>>): Option<seq<byte>> {
    if rest.Some? && 0 <= b < 256 then Some([b] + rest.value) else None
  }

  lemma {:induction false} EncodeCons(input: seq<byte>, allowSlash: bool)
    requires input != []
    ensures Encode(input, allowSlash) == EncodeByte(input[0], allowSlash) + Encode(input[1..], allowSlash)
  {
    var last := |input| - 1;
    if last > 0 {
      EncodeCons(input[..last], allowSlash);
      assert input[..last][1..] == input[1..][..last - 1];
      assert input[1..][last - 1] == input[last];
    }
  }

  lemma HexDigits(n: int)
    requires 0 <= n < 16
    ensures HexValue(HEX[n]) == Some(n)
  {
  }

  lemma DecodeByte(b: byte, allowSlash: bool, rest: string)
    ensures Decode(EncodeByte(b, allowSlash) + rest) == Prepend(b, Decode(rest))
  {
    var code := EncodeByte(b, allowSlash);
    assert (code + rest)[|code|..] == rest;
    if code != [b as char] {
      HexDigits(b / 16);
      HexDigits(b % 16);
    }
  }

  /** Decoding undoes encoding, for every byte string. */
  lemma {:induction false} DecodeUndoesEncode(input: seq<byte>, allowSlash: bool)
    ensures Decode(Encode(input, allowSlash)) == Some(input)
    decreases |input|
  {
    if input != [] {
      EncodeCons(input, allowSlash);
      DecodeByte(input[0], allowSlash, Encode(input[1..], allowSlash));
      DecodeUndoesEncode(input[1..], allowSlash);
      assert input == [input[0]] + input[1..];
    }
  }

  /** Encoded text holds no delimiter of the URL syntax. */
  predicate Plain(s: string, allowSlash: bool) {
    forall i :: 0 <= i < |s| ==> Unreserved(s[i]) || s[i] == '%' || (allowSlash && s[i] == '/')
  }

  lemma {:induction false} EncodePlain(input: seq<byte>, allowSlash: bool)
    ensures Plain(Encode(input, allowSlash), allowSlash)
  {
    if input != [] {
      EncodePlain(input[..|input| - 1], allowSlash);
    }
  }

  // ---- the URL ----

  datatype DbConfig = DbConfig(
    provider: string,
    host: Option<string>,
    port: Option<nat>,
    name: Option<seq<byte>>,
    user: Option<seq<byte>>,
    password: Option<seq<byte>>,
    sslMode: Option<seq<byte>>)

  const SCHEME := "postgres://"
  const SSL := "sslmode="

  function Decimal(n: nat): (s: string)
    ensures |s| > 0 && forall i :: 0 <= i < |s| ==> IsDigit(s[i])
  {
    var digit := [(n % 10 + '0' as int) as char];
    if n < 10 then digit else Decimal(n / 10) + digit
  }

  function Userinfo(user: seq<byte>, password: Option<seq<byte>>): string {
    Encode(user, false) + if password.Some? then ":" + Encode(password.value, false) else ""
  }

  function Query(sslMode: Option<seq<byte>>): string {
    if sslMode.Some? then "?" + SSL + Encode(sslMode.value, false) else ""
  }

  function Url(
    user: seq<byte>, password: Option<seq<byte>>, host: string, port: nat, name: seq<byte>,
    sslMode: Option<seq<byte>>): string
  {
    SCHEME + (Userinfo(user, password) + ("@" + (host + (":" + (Decimal(port) +
      ("/" + (Encode(name, true) + Query(sslMode))))))))
  }

  function Missing(key: string): string {
    "incomplete structured config for provider postgres: missing " + key
  }

  /** `provider` is the configured name in lower case. */
  method ConnectionUrl(config: DbConfig, provider: string) returns (r: Result<string>)
    ensures provider != "postgres" && provider != "postgresql" ==>
              r == Err("unsupported structured db provider '" + provider + "'")
    ensures provider == "postgres" || provider == "postgresql" ==>
              && (config.host.None? ==> r == Err(Missing("MARRETA_DB_HOST")))
              && (config.host.Some? && config.name.None? ==> r == Err(Missing("MARRETA_DB_NAME")))
              && (config.host.Some? && config.name.Some? && config.user.None? ==> r == Err(Missing("MARRETA_DB_USER")))
              && (config.host.Some? && config.name.Some? && config.user.Some? ==>
                    r == Ok(Url(config.user.value, config.password, config.host.value,
                                if config.port.Some? then config.port.value else 5432,
                                config.name.value, config.sslMode)))
  {
    if provider != "postgres" && provider != "postgresql" {
      return Err("unsupported structured db provider '" + provider + "'");
    }
    if config.host.None? {
      return Err(Missing("MARRETA_DB_HOST"));
    }
    var port := if config.port.Some? then config.port.value else 5432;
    if config.name.None? {
      return Err(Missing("MARRETA_DB_NAME"));
    }
    if config.user.None? {
      return Err(Missing("MARRETA_DB_USER"));
    }
    var user := PercentEncode(config.user.value, false);
    if config.password.Some? {
      var secret := PercentEncode(config.password.value, false);
      user := user + (":" + secret);
    } else {
      user := user + "";
    }
    var name := PercentEncode(config.name.value, true);
    var url := SCHEME + (user + ("@" + (config.host.value + (":" + (Decimal(port) + ("/" + name))))));
    var query := "";
    if config.sslMode.Some? {
      var mode := PercentEncode(config.sslMode.value, false);
      query := "?" + SSL + mode;
    }
    Assemble(user, config.host.value, Decimal(port), name, query);
    r := Ok(url + query);
  }

  lemma Assemble(user: string, host: string, port: string, name: string, query: string)
    ensures SCHEME + (user + ("@" + (host + (":" + (port + ("/" + name)))))) + query
            == SCHEME + (user + ("@" + (host + (":" + (port + ("/" + (name + query)))))))
  {
    Regroup("/", name, query);
    Regroup(port, "/" + name, query);
    Regroup(":", port + ("/" + name), query);
    Regroup(host, ":" + (port + ("/" + name)), query);
    Regroup("@", host + (":" + (port + ("/" + name))), query);
    Regroup(user, "@" + (host + (":" + (port + ("/" + name)))), query);
    Regroup(SCHEME, user + ("@" + (host + (":" + (port + ("/" + name))))), query);
  }

  lemma Regroup(a: string, b: string, c: string)
    ensures (a + b) + c == a + (b + c)
  {
  }
}
