/**
 * The pure half of `SpigotDataHandler`: the BungeeCord legacy IP-forwarding
 * string written into the handshake's host field, and the removal of an IPv6
 * scope suffix from the player's address. The JSON of the login properties is
 * written the way Gson's default `JsonWriter` writes a list of `Property`.
 */
module Forwarding {
  import opened Wrappers
  import opened Identity

  const NUL: char := '\0'

  /** `String.indexOf(char)`: the first position of `c` in `s`, or -1. */
  function IndexOf(s: string, c: char): (i: int)
    ensures -1 <= i < |s|
    ensures i == -1 <==> c !in s
    ensures 0 <= i ==> s[i] == c && forall j :: 0 <= j < i ==> s[j] != c
  {
    if s == [] then -1
    else if s[0] == c then 0
    else
      var j := IndexOf(s[1..], c);
      if j == -1 then -1 else j + 1
  }

  /**
   * `getPlayerRemoteAddressAsString`: the host address cut at the first `%`,
   * which drops the scope of an IPv6 address.
   */
  function StripScope(addr: string): (r: string)
    ensures r <= addr
    ensures '%' !in r
    ensures '%' in addr ==> addr[|r|] == '%'
    ensures '%' !in addr ==> r == addr
  {
    var scopeIdx := IndexOf(addr, '%');
    if scopeIdx == -1 then addr else addr[..scopeIdx]
  }

  /** Removing the scope a second time changes nothing. */
  lemma StripScopeIdempotent(addr: string)
    ensures StripScope(StripScope(addr)) == StripScope(addr)
  {
  }

  /** `s.replaceAll("-", "")` for a single literal character: every `c` dropped, order kept. */
  function RemoveAll(s: string, c: char): (r: string)
    ensures c !in r
    ensures |r| <= |s|
  {
    if s == [] then [] else (if s[0] == c then [] else [s[0]]) + RemoveAll(s[1..], c)
  }

  lemma {:induction false} RemoveAllConcat(a: string, b: string, c: char)
    ensures RemoveAll(a + b, c) == RemoveAll(a, c) + RemoveAll(b, c)
  {
    if a != [] {
      var head := if a[0] == c then [] else [a[0]];
      calc {
        RemoveAll(a + b, c);
        { assert (a + b)[0] == a[0]; assert (a + b)[1..] == a[1..] + b; }
        head + RemoveAll(a[1..] + b, c);
        { RemoveAllConcat(a[1..], b, c); }
        head + (RemoveAll(a[1..], c) + RemoveAll(b, c));
        (head + RemoveAll(a[1..], c)) + RemoveAll(b, c);
        RemoveAll(a, c) + RemoveAll(b, c);
      }
    } else {
      assert a + b == b;
    }
  }

  lemma {:induction false} RemoveAllAbsent(s: string, c: char)
    requires c !in s
    ensures RemoveAll(s, c) == s
  {
    if s != [] {
      RemoveAllAbsent(s[1..], c);
    }
  }

  lemma HexOfHasNoDash(ns: seq<Nibble>)
    ensures '-' !in HexOf(ns)
  {
    forall i | 0 <= i < |ns| ensures HexOf(ns)[i] != '-' {
      assert IsLowerHex(HexDigit(ns[i]));
    }
  }

  lemma HexOfConcat(a: seq<Nibble>, b: seq<Nibble>)
    ensures HexOf(a + b) == HexOf(a) + HexOf(b)
  {
  }

  /** A dash-free group followed by a dash: the removal keeps the group and drops the dash. */
  lemma RemoveDashAfterGroup(g: string, rest: string)
    requires '-' !in g
    ensures RemoveAll(g + "-" + rest, '-') == g + RemoveAll(rest, '-')
  {
    var tail := ['-'] + rest;
    assert g + "-" + rest == g + tail;
    RemoveAllConcat(g, tail, '-');
    RemoveAllAbsent(g, '-');
    assert tail[0] == '-' && tail[1..] == rest;
    assert RemoveAll(tail, '-') == RemoveAll(rest, '-');
  }

  /** The UUID segment: `UUID.toString()` with every dash removed. */
  function DashlessUuid(u: Uuid): (r: string)
    ensures '-' !in r
  {
    RemoveAll(UuidToString(u), '-')
  }

  /**
   * Removing the dashes leaves exactly the 32 lower-case hexadecimal digits
   * of the UUID, most significant first, with no separator.
   */
  lemma DashlessUuidIsHex(u: Uuid)
    ensures DashlessUuid(u) == HexOf(u)
    ensures |DashlessUuid(u)| == 32
    ensures forall i :: 0 <= i < 32 ==> IsLowerHex(DashlessUuid(u)[i])
  {
    DashlessUuidGroups(u);
    assert u == u[..8] + (u[8..12] + (u[12..16] + (u[16..20] + u[20..])));
    HexOfConcat(u[16..20], u[20..]);
    HexOfConcat(u[12..16], u[16..20] + u[20..]);
    HexOfConcat(u[8..12], u[12..16] + (u[16..20] + u[20..]));
    HexOfConcat(u[..8], u[8..12] + (u[12..16] + (u[16..20] + u[20..])));
  }

  /** Removing the dashes concatenates the five hexadecimal groups. */
  lemma DashlessUuidGroups(u: Uuid)
    ensures DashlessUuid(u) == HexOf(u[..8]) + (HexOf(u[8..12]) + (HexOf(u[12..16]) + (HexOf(u[16..20]) + HexOf(u[20..]))))
  {
    var g0, g1, g2, g3, g4 := HexOf(u[..8]), HexOf(u[8..12]), HexOf(u[12..16]), HexOf(u[16..20]), HexOf(u[20..]);
    HexOfHasNoDash(u[..8]); HexOfHasNoDash(u[8..12]); HexOfHasNoDash(u[12..16]);
    HexOfHasNoDash(u[16..20]); HexOfHasNoDash(u[20..]);
    var t3 := g3 + "-" + g4;
    var t2 := g2 + "-" + t3;
    var t1 := g1 + "-" + t2;
    assert UuidToString(u) == g0 + "-" + t1;
    RemoveDashAfterGroup(g0, t1);
    RemoveDashAfterGroup(g1, t2);
    RemoveDashAfterGroup(g2, t3);
    RemoveDashAfterGroup(g3, g4);
    RemoveAllAbsent(g4, '-');
  }


  function HexValue(c: char): (n: Nibble)
    requires IsLowerHex(c)
    ensures HexDigit(n) == c
  {
    if c <= '9' then (c as int) - ('0' as int) else (c as int) - ('a' as int) + 10
  }

  /** Reads a dashless UUID back: exactly 32 lower-case hexadecimal digits. */
  function ParseDashlessUuid(s: string): Option<Uuid> {
    if |s| == 32 && forall i :: 0 <= i < 32 ==> IsLowerHex(s[i]) then
      Some(seq(32, i requires 0 <= i < 32 => HexValue(s[i])))
    else None
  }

  /** The UUID segment and its reader are inverse to each other, in both directions. */
  lemma DashlessUuidRoundTrip(u: Uuid, s: string)
    ensures ParseDashlessUuid(DashlessUuid(u)) == Some(u)
    ensures ParseDashlessUuid(s) == Some(u) ==> DashlessUuid(u) == s
  {
    DashlessUuidIsHex(u);
    var d := DashlessUuid(u);
    var back: Uuid := seq(32, i requires 0 <= i < 32 => HexValue(d[i]));
    forall i | 0 <= i < 32 ensures back[i] == u[i] {
      assert d[i] == HexDigit(u[i]);
      assert HexDigit(back[i]) == d[i];
    }
    assert back == u;
  }

  /**
   * Gson's `JsonWriter` escape of one character of a string value, with its
   * default HTML-safe replacements.
   */
  function EscapeChar(c: char): (r: string)
    ensures r == [c] || (|r| >= 2 && r[0] == '\\')
  {
    if c == '"' then "\\\""
    else if c == '\\' then "\\\\"
    else if c == '\t' then "\\t"
    else if c == '\U{0008}' then "\\b"
    else if c == '\n' then "\\n"
    else if c == '\r' then "\\r"
    else if c == '\U{000C}' then "\\f"
    else if (c as int) < 0x20 || c in "<>&='" then
      "\\u00" + [HexDigit((c as int) / 16), HexDigit((c as int) % 16)]
    else if c == '\U{2028}' then "\\u2028"
    else if c == '\U{2029}' then "\\u2029"
    else [c]
  }

  function EscapeString(s: string): (r: string)
    ensures |r| >= |s|
  {
    if s == [] then [] else EscapeChar(s[0]) + EscapeString(s[1..])
  }

  function JsonString(s: string): string {
    "\"" + EscapeString(s) + "\""
  }

  /** One `Property` as Gson writes it: fields in declaration order, a null signature omitted. */
  function PropertyJson(p: Property): (r: string)
    ensures |r| >= 2 && r[0] == '{' && r[|r| - 1] == '}'
  {
    "{\"name\":" + JsonString(p.name) + ",\"value\":" + JsonString(p.value)
      + (match p.signature case Some(sig) => ",\"signature\":" + JsonString(sig) case None => "")
      + "}"
  }

  function PropertyListJson(ps: seq<Property>): (r: string)
    ensures r == [] <==> ps == []
    ensures ps != [] ==> r[0] == '{' && r[|r| - 1] == '}'
  {
    if ps == [] then ""
    else if |ps| == 1 then PropertyJson(ps[0])
    else PropertyJson(ps[0]) + "," + PropertyListJson(ps[1..])
  }

  /** `GSON.toJson(properties)`: a JSON array (RFC 8259) of the properties, in order. */
  function PropertiesJson(ps: seq<Property>): (json: string)
    ensures ps == [] ==> json == "[]"
    ensures |json| >= 2 && json[0] == '[' && json[|json| - 1] == ']'
  {
    "[" + PropertyListJson(ps) + "]"
  }

  lemma EscapeCharHasNoNul(c: char)
    ensures NUL !in EscapeChar(c)
  {
    if (c as int) < 0x20 && c !in "\t\U{0008}\n\r\U{000C}" {
      var e := EscapeChar(c);
      assert e == "\\u00" + [HexDigit((c as int) / 16), HexDigit((c as int) % 16)];
      assert IsLowerHex(e[4]) && IsLowerHex(e[5]);
    } else if c in "<>&='" {
      var e := EscapeChar(c);
      assert IsLowerHex(e[4]) && IsLowerHex(e[5]);
    }
  }

  lemma {:induction false} EscapeStringHasNoNul(s: string)
    ensures NUL !in EscapeString(s)
  {
    if s != [] {
      EscapeCharHasNoNul(s[0]);
      EscapeStringHasNoNul(s[1..]);
    }
  }

  lemma JsonStringHasNoNul(s: string)
    ensures NUL !in JsonString(s)
  {
    EscapeStringHasNoNul(s);
  }

  lemma PropertyJsonHasNoNul(p: Property)
    ensures NUL !in PropertyJson(p)
  {
    var name := JsonString(p.name);
    var value := JsonString(p.value);
    var sig := match p.signature case Some(s) => ",\"signature\":" + JsonString(s) case None => "";
    JsonStringHasNoNul(p.name);
    JsonStringHasNoNul(p.value);
    if p.signature.Some? {
      JsonStringHasNoNul(p.signature.value);
    }
    assert NUL !in sig;
    assert PropertyJson(p) == "{\"name\":" + name + ",\"value\":" + value + sig + "}";
  }

  lemma {:induction false} PropertyListJsonHasNoNul(ps: seq<Property>)
    ensures NUL !in PropertyListJson(ps)
  {
    if ps != [] {
      PropertyJsonHasNoNul(ps[0]);
      if |ps| > 1 {
        PropertyListJsonHasNoNul(ps[1..]);
      }
    }
  }

  /** Escaping makes the JSON of any property list free of raw NUL characters. */
  lemma PropertiesJsonHasNoNul(ps: seq<Property>)
    ensures NUL !in PropertiesJson(ps)
  {
    PropertyListJsonHasNoNul(ps);
  }

  /**
   * `createLegacyForwardingAddress`: the original host, the player's address
   * without its scope, the dashless UUID and the JSON of the properties,
   * separated by NUL characters.
   */
  function LegacyForwardingAddress(virtualHost: string, remoteAddress: string, player: GameProfile): (r: string)
    ensures |r| > |virtualHost| && r[..|virtualHost|] == virtualHost && r[|virtualHost|] == NUL
    ensures r[|r| - 1] == ']'
  {
    virtualHost + [NUL] + StripScope(remoteAddress) + [NUL] + DashlessUuid(player.uniqueId) + [NUL]
      + PropertiesJson(player.properties)
  }

  /** Splits `s` at every `d`, keeping empty pieces: one more piece than there are delimiters. */
  function Split(s: string, d: char): (parts: seq<string>)
    ensures |parts| >= 1
    decreases |s|
  {
    var k := IndexOf(s, d);
    if k == -1 then [s] else [s[..k]] + Split(s[k + 1..], d)
  }

  lemma SplitWithout(s: string, d: char)
    requires d !in s
    ensures Split(s, d) == [s]
  {
  }

  lemma SplitFirst(a: string, b: string, d: char)
    requires d !in a
    ensures Split(a + [d] + b, d) == [a] + Split(b, d)
  {
    var s := a + [d] + b;
    var k := IndexOf(s, d);
    assert s[|a|] == d;
    assert forall i :: 0 <= i < |a| ==> s[i] == a[i];
    assert k == |a|;
    assert s[..k] == a;
    assert s[k + 1..] == b;
  }

  /** The pieces joined with `d` between neighbours. */
  function JoinWith(parts: seq<string>, d: char): string
    requires |parts| >= 1
  {
    if |parts| == 1 then parts[0] else parts[0] + [d] + JoinWith(parts[1..], d)
  }

  /** Pieces that do not hold the delimiter split back into exactly those pieces, in order. */
  lemma {:induction false} SplitJoinWith(parts: seq<string>, d: char)
    requires |parts| >= 1
    requires forall i :: 0 <= i < |parts| ==> d !in parts[i]
    ensures Split(JoinWith(parts, d), d) == parts
  {
    if |parts| == 1 {
      SplitWithout(parts[0], d);
    } else {
      SplitJoinWith(parts[1..], d);
      SplitFirst(parts[0], JoinWith(parts[1..], d), d);
    }
  }

  /** What a BungeeCord-mode server reads back from the forwarded host field. */
  datatype ForwardedData = ForwardedData(host: string, ip: string, uniqueId: Uuid, propertiesJson: string)

  /** Reads a forwarding string: exactly four NUL-separated pieces, the third a dashless UUID. */
  function ParseLegacyForwardingAddress(s: string): Option<ForwardedData> {
    var parts := Split(s, NUL);
    if |parts| != 4 then None
    else
      match ParseDashlessUuid(parts[2])
      case None => None
      case Some(u) => Some(ForwardedData(parts[0], parts[1], u, parts[3]))
  }

  /** The forwarding string is its four pieces joined by NUL. */
  lemma LegacyForwardingIsJoin(virtualHost: string, ip: string, id: string, json: string)
    ensures virtualHost + [NUL] + ip + [NUL] + id + [NUL] + json == JoinWith([virtualHost, ip, id, json], NUL)
  {
    var parts := [virtualHost, ip, id, json];
    assert JoinWith(parts[3..], NUL) == json;
    assert JoinWith(parts[2..], NUL) == id + [NUL] + json by { assert parts[2..][1..] == parts[3..]; }
    assert JoinWith(parts[1..], NUL) == ip + [NUL] + id + [NUL] + json by { assert parts[1..][1..] == parts[2..]; }
  }

  /** None of the three computed pieces can hold a NUL once the address does not. */
  lemma ComputedPiecesHaveNoNul(remoteAddress: string, player: GameProfile)
    requires NUL !in remoteAddress
    ensures NUL !in StripScope(remoteAddress)
    ensures NUL !in DashlessUuid(player.uniqueId)
    ensures NUL !in PropertiesJson(player.properties)
  {
    var ip, id := StripScope(remoteAddress), DashlessUuid(player.uniqueId);
    forall i | 0 <= i < |ip| ensures ip[i] != NUL { assert ip[i] == remoteAddress[i]; }
    DashlessUuidIsHex(player.uniqueId);
    forall i | 0 <= i < |id| ensures id[i] != NUL { assert IsLowerHex(id[i]); }
    PropertiesJsonHasNoNul(player.properties);
  }

  /**
   * When neither the host nor the address holds a NUL, the forwarding string
   * splits into exactly the four pieces that were written, in order.
   */
  lemma LegacyForwardingSplits(virtualHost: string, remoteAddress: string, player: GameProfile)
    requires NUL !in virtualHost && NUL !in remoteAddress
    ensures Split(LegacyForwardingAddress(virtualHost, remoteAddress, player), NUL)
      == [virtualHost, StripScope(remoteAddress), DashlessUuid(player.uniqueId), PropertiesJson(player.properties)]
  {
    var ip, id, json := StripScope(remoteAddress), DashlessUuid(player.uniqueId), PropertiesJson(player.properties);
    ComputedPiecesHaveNoNul(remoteAddress, player);
    LegacyForwardingIsJoin(virtualHost, ip, id, json);
    SplitJoinWith([virtualHost, ip, id, json], NUL);
  }

  /**
   * Reading the forwarding string back recovers the host, the unscoped
   * address, the player's UUID and the JSON of the properties.
   */
  lemma LegacyForwardingRoundTrip(virtualHost: string, remoteAddress: string, player: GameProfile)
    requires NUL !in virtualHost && NUL !in remoteAddress
    ensures ParseLegacyForwardingAddress(LegacyForwardingAddress(virtualHost, remoteAddress, player))
      == Some(ForwardedData(virtualHost, StripScope(remoteAddress), player.uniqueId, PropertiesJson(player.properties)))
  {
    LegacyForwardingSplits(virtualHost, remoteAddress, player);
    DashlessUuidRoundTrip(player.uniqueId, DashlessUuid(player.uniqueId));
  }

  /**
   * A worked example: host `play.example.com`, address `203.0.113.5`, the
   * UUID whose every digit is 1, and no properties.
   */
  lemma LegacyForwardingExample(name: string)
    ensures LegacyForwardingAddress("play.example.com", "203.0.113.5",
                                    GameProfile(name, seq(32, i => 1), []))
      == "play.example.com" + [NUL] + "203.0.113.5" + [NUL] + "11111111111111111111111111111111" + [NUL] + "[]"
  {
    var u: Uuid := seq(32, i => 1);
    DashlessUuidIsHex(u);
    var hex := "11111111111111111111111111111111";
    assert HexOf(u) == hex by {
      forall i | 0 <= i < 32 ensures HexOf(u)[i] == hex[i] { assert HexDigit(u[i]) == '1'; }
    }
    var ip := "203.0.113.5";
    assert '%' !in ip;
    assert StripScope(ip) == ip;
    assert PropertiesJson([]) == "[]";
    assert DashlessUuid(GameProfile(name, u, []).uniqueId) == hex;
  }

  /** An IPv6 link-local address is forwarded without its zone. */
  lemma StripScopeExample()
    ensures StripScope("fe80::1%eth0") == "fe80::1"
  {
    var a := "fe80::1%eth0";
    assert a[7] == '%';
    assert '%' !in a[..7];
  }
}
