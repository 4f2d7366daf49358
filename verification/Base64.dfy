// Unpadded base64url (section 5 of RFC 4648) as encoding/base64 does it. A Go
// string is a sequence of bytes: here, of characters below 256.
module Base64 {
  import opened Wrappers

  ghost predicate ByteText(s: string) {
    forall i | 0 <= i < |s| :: s[i] as int < 256
  }

  function Bytes(s: string): seq<nat> {
    seq(|s|, i requires 0 <= i < |s| => s[i] as int % 256)
  }

  function Text(bytes: seq<nat>): string {
    seq(|bytes|, i requires 0 <= i < |bytes| => (bytes[i] % 256) as char)
  }

  // The bits of the bytes in groups of six, the last filled up with zeros.
  function Sextets(b: seq<nat>): seq<nat> {
    if b == [] then []
    else if |b| == 1 then [b[0] / 4, b[0] % 4 * 16]
    else if |b| == 2 then [b[0] / 4, b[0] % 4 * 16 + b[1] / 16, b[1] % 16 * 4]
    else [b[0] / 4, b[0] % 4 * 16 + b[1] / 16, b[1] % 16 * 4 + b[2] / 64, b[2] % 64] + Sextets(b[3..])
  }

  // Spare bits of a short last group are ignored; one lone sextet is an error.
  function Octets(x: seq<nat>): Option<seq<nat>> {
    if x == [] then Some([])
    else if |x| == 1 then None
    else if |x| == 2 then Some([x[0] * 4 + x[1] / 16])
    else if |x| == 3 then Some([x[0] * 4 + x[1] / 16, x[1] % 16 * 16 + x[2] / 4])
    else match Octets(x[4..])
         case None => None
         case Some(more) => Some([x[0] * 4 + x[1] / 16, x[1] % 16 * 16 + x[2] / 4, x[2] % 4 * 64 + x[3]] + more)
  }

  function SextetChar(n: nat): char {
    if n < 26 then ('A' as int + n) as char
    else if n < 52 then ('a' as int + n - 26) as char
    else if n < 62 then ('0' as int + n - 52) as char
    else if n == 62 then '-'
    else '_'
  }

  // The value of an alphabet character; 64 for any other.
  function Sextet(c: char): nat {
    if 'A' <= c <= 'Z' then c as int - 'A' as int
    else if 'a' <= c <= 'z' then c as int - 'a' as int + 26
    else if '0' <= c <= '9' then c as int - '0' as int + 52
    else if c == '-' then 62
    else if c == '_' then 63
    else 64
  }

  function Chars(x: seq<nat>): string {
    seq(|x|, i requires 0 <= i < |x| => SextetChar(x[i]))
  }

  function Values(s: string): seq<nat> {
    seq(|s|, i requires 0 <= i < |s| => Sextet(s[i]))
  }

  function Encode(s: string): string {
    Chars(Sextets(Bytes(s)))
  }

  // The decoder skips line breaks anywhere.
  function WithoutLineBreaks(s: string): string {
    if s == "" then ""
    else (if s[0] == '\r' || s[0] == '\n' then "" else [s[0]]) + WithoutLineBreaks(s[1..])
  }

  function Decode(s: string): Option<string> {
    var values := Values(WithoutLineBreaks(s));
    if 64 in values then None
    else
      match Octets(values)
      case None => None
      case Some(bytes) => Some(Text(bytes))
  }

  // Only characters that are safe in a URL, and no padding.
  ghost predicate UrlSafe(s: string) {
    forall i | 0 <= i < |s| :: Sextet(s[i]) < 64
  }

  ghost predicate Below(x: seq<nat>, n: nat) {
    forall i | 0 <= i < |x| :: x[i] < n
  }

  // Three bytes are four sextets, and back.
  lemma ThreeBytes(a: nat, b: nat, c: nat)
    requires a < 256 && b < 256 && c < 256
    ensures a / 4 * 4 + (a % 4 * 16 + b / 16) / 16 == a
    ensures (a % 4 * 16 + b / 16) % 16 * 16 + (b % 16 * 4 + c / 64) / 4 == b
    ensures (b % 16 * 4 + c / 64) % 4 * 64 + c % 64 == c
  {
  }

  lemma OneByte(a: nat)
    requires a < 256
    ensures a / 4 < 64 && a % 4 * 16 < 64 && a / 4 * 4 + a % 4 * 16 / 16 == a
  {
  }

  lemma TwoBytes(a: nat, b: nat)
    requires a < 256 && b < 256
    ensures a / 4 < 64 && a % 4 * 16 + b / 16 < 64 && b % 16 * 4 < 64
    ensures a / 4 * 4 + (a % 4 * 16 + b / 16) / 16 == a
    ensures (a % 4 * 16 + b / 16) % 16 * 16 + b % 16 * 4 / 4 == b
  {
  }

  lemma OneOctet(a: nat)
    requires a < 256
    ensures Below(Sextets([a]), 64) && Octets(Sextets([a])) == Some([a])
  {
    OneByte(a);
    assert Sextets([a]) == [a / 4, a % 4 * 16];
  }

  lemma TwoOctets(a: nat, b: nat)
    requires a < 256 && b < 256
    ensures Below(Sextets([a, b]), 64) && Octets(Sextets([a, b])) == Some([a, b])
  {
    TwoBytes(a, b);
    assert Sextets([a, b]) == [a / 4, a % 4 * 16 + b / 16, b % 16 * 4];
  }

  lemma ThreeOctets(a: nat, b: nat, c: nat, more: seq<nat>)
    requires a < 256 && b < 256 && c < 256 && Below(Sextets(more), 64) && Octets(Sextets(more)) == Some(more)
    ensures Below(Sextets([a, b, c] + more), 64) && Octets(Sextets([a, b, c] + more)) == Some([a, b, c] + more)
  {
    var s := [a, b, c] + more;
    ThreeBytes(a, b, c);
    assert s[3..] == more;
    assert Sextets(s)[4..] == Sextets(more);
  }

  lemma {:induction false} OctetsOfSextets(b: seq<nat>)
    requires Below(b, 256)
    ensures Below(Sextets(b), 64) && Octets(Sextets(b)) == Some(b)
  {
    if |b| == 0 {
    } else if |b| == 1 {
      OneOctet(b[0]);
      Extensional(b, [b[0]]);
    } else if |b| == 2 {
      TwoOctets(b[0], b[1]);
      Extensional(b, [b[0], b[1]]);
    } else {
      OctetsOfSextets(b[3..]);
      ThreeOctets(b[0], b[1], b[2], b[3..]);
      Extensional(b, [b[0], b[1], b[2]] + b[3..]);
    }
  }

  lemma Extensional(b: seq<nat>, c: seq<nat>)
    requires |b| == |c| && forall i | 0 <= i < |b| :: b[i] == c[i]
    ensures b == c
  {
  }

  lemma CharsRoundTrip(x: seq<nat>)
    requires Below(x, 64)
    ensures Values(Chars(x)) == x && UrlSafe(Chars(x)) && 64 !in x
  {
  }

  lemma {:induction false} NoLineBreaks(s: string)
    requires UrlSafe(s)
    ensures WithoutLineBreaks(s) == s
  {
    if s != "" {
      NoLineBreaks(s[1..]);
    }
  }

  lemma TextRoundTrip(s: string)
    requires ByteText(s)
    ensures Below(Bytes(s), 256) && Text(Bytes(s)) == s
  {
  }

  lemma RoundTrip(s: string)
    requires ByteText(s)
    ensures Decode(Encode(s)) == Some(s) && UrlSafe(Encode(s))
  {
    TextRoundTrip(s);
    OctetsOfSextets(Bytes(s));
    CharsRoundTrip(Sextets(Bytes(s)));
    NoLineBreaks(Encode(s));
  }

  lemma ShortVectors()
    ensures Encode("") == "" && Encode("f") == "Zg" && Encode("fo") == "Zm8"
  {
    assert Bytes("f") == [102] && Sextets([102]) == [25, 32];
    assert Bytes("fo") == [102, 111] && Sextets([102, 111]) == [25, 38, 60];
  }

  lemma WholeVectors()
    ensures Encode("foo") == "Zm9v" && Encode("bar") == "YmFy"
  {
    var foo: seq<nat>, bar: seq<nat> := [102, 111, 111], [98, 97, 114];
    assert foo[3..] == [] && bar[3..] == [];
    assert Bytes("foo") == foo && Sextets(foo) == [25, 38, 61, 47];
    assert Bytes("bar") == bar && Sextets(bar) == [24, 38, 5, 50];
  }

  lemma UrlVector()
    ensures Encode([251 as char, 255 as char]) == "-_8"
  {
    assert Bytes([251 as char, 255 as char]) == [251, 255] && Sextets([251, 255]) == [62, 63, 60];
  }

  // Test vectors in the style of section 10 of RFC 4648, without padding, and the two
  // characters in which base64url differs from base64.
  lemma TestVectors()
    ensures Encode("") == "" && Encode("f") == "Zg" && Encode("fo") == "Zm8"
    ensures Encode("foo") == "Zm9v" && Encode("bar") == "YmFy"
    ensures Encode([251 as char, 255 as char]) == "-_8"
  {
    ShortVectors();
    WholeVectors();
    UrlVector();
  }
}
