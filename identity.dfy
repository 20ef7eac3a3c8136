/**
 * The player identity shared by the handshake codec and the watch client:
 * `GameProfile` and `GameProfile.Property`, immutable Lombok `@Data` value
 * classes, and the `java.util.UUID` they carry.
 */
module Identity {
  import opened Wrappers

  /** Four bits of a UUID: one hexadecimal digit of its text form. */
  type Nibble = n: int | 0 <= n < 16

  /**
   * A `java.util.UUID`: its 128 bits (most significant bits, then least
   * significant bits), most significant first, four bits per element.
   */
  type Uuid = s: seq<Nibble> | |s| == 32 witness seq(32, i => 0)

  const HexDigits: string := "0123456789abcdef"

  predicate IsLowerHex(c: char) {
    '0' <= c <= '9' || 'a' <= c <= 'f'
  }

  function HexDigit(n: Nibble): (c: char)
    ensures IsLowerHex(c)
  {
    HexDigits[n]
  }

  /** The lower-case hexadecimal digits of `ns`, one character per nibble. */
  function HexOf(ns: seq<Nibble>): string {
    seq(|ns|, i requires 0 <= i < |ns| => HexDigit(ns[i]))
  }

  /** Positions of the four dashes in the text form of a UUID. */
  predicate IsDashPosition(i: int) {
    i == 8 || i == 13 || i == 18 || i == 23
  }

  /**
   * `UUID.toString()`: groups of 8, 4, 4, 4 and 12 lower-case hexadecimal
   * digits separated by dashes (the text form of section 3 of RFC 4122).
   */
  function UuidToString(u: Uuid): (s: string)
    ensures |s| == 36
    ensures forall i :: 0 <= i < 36 && IsDashPosition(i) ==> s[i] == '-'
  {
    HexOf(u[..8]) + "-" + HexOf(u[8..12]) + "-" + HexOf(u[12..16]) + "-"
      + HexOf(u[16..20]) + "-" + HexOf(u[20..])
  }

  /**
   * The text form of a UUID is 36 characters long, has a dash at each of the
   * four group boundaries and a lower-case hexadecimal digit everywhere else.
   */
  lemma UuidTextLayout(u: Uuid)
    ensures |UuidToString(u)| == 36
    ensures forall i :: 0 <= i < 36 ==>
      if IsDashPosition(i) then UuidToString(u)[i] == '-' else IsLowerHex(UuidToString(u)[i])
  {
    var s := UuidToString(u);
    forall i | 0 <= i < 36
      ensures if IsDashPosition(i) then s[i] == '-' else IsLowerHex(s[i])
    {
      if i < 8 { assert s[i] == HexOf(u[..8])[i]; }
      else if 8 < i < 13 { assert s[i] == HexOf(u[8..12])[i - 9]; }
      else if 13 < i < 18 { assert s[i] == HexOf(u[12..16])[i - 14]; }
      else if 18 < i < 23 { assert s[i] == HexOf(u[16..20])[i - 19]; }
      else if 23 < i { assert s[i] == HexOf(u[20..])[i - 24]; }
    }
  }

  /** `GameProfile.Property`: one signed login property; a null signature is `None`. */
  datatype Property = Property(name: string, value: string, signature: Option<string>)

  /** `GameProfile`: username, unique id and the ordered login properties. */
  datatype GameProfile = GameProfile(username: string, uniqueId: Uuid, properties: seq<Property>)

  /** The Lombok constructor: the getters give back exactly its arguments, properties in order. */
  function NewGameProfile(username: string, uniqueId: Uuid, properties: seq<Property>): (p: GameProfile)
    ensures p.username == username && p.uniqueId == uniqueId && p.properties == properties
  {
    GameProfile(username, uniqueId, properties)
  }

  /** The Lombok constructor of `Property`: the getters give back exactly its arguments. */
  function NewProperty(name: string, value: string, signature: Option<string>): (p: Property)
    ensures p.name == name && p.value == value && p.signature == signature
  {
    Property(name, value, signature)
  }

  /** Lombok `equals` of `GameProfile`: equal exactly when all three fields are equal. */
  lemma GameProfileEquality(a: GameProfile, b: GameProfile)
    ensures a == b <==> (a.username == b.username && a.uniqueId == b.uniqueId && a.properties == b.properties)
  {
  }

  /** Lombok `equals` of `Property`: equal exactly when name, value and signature are equal. */
  lemma PropertyEquality(a: Property, b: Property)
    ensures a == b <==> (a.name == b.name && a.value == b.value && a.signature == b.signature)
  {
  }
}
