/** RFC 4122 identifiers as the application uses them: `str(uuid)` gives the
    canonical text a token carries as its subject, and `uuid.UUID(text)` is
    the partial parse that turns it back into an identifier. */
module Uuids {
  import opened Outcomes

  type Nibble = x: int | 0 <= x < 16

  /** A 128-bit identifier as its 32 hexadecimal digits, most significant
      first; two identifiers are equal exactly when their digits are. */
  type Uuid = s: seq<Nibble> | |s| == 32 witness seq(32, _ => 0)

  const HexDigits := "0123456789abcdef"

  function HexDigit(n: Nibble): char {
    HexDigits[n]
  }

  predicate IsHexChar(c: char) {
    '0' <= c <= '9' || 'a' <= c <= 'f' || 'A' <= c <= 'F'
  }

  /** The value of one hexadecimal digit, in either case. */
  function HexValue(c: char): (n: Nibble)
    requires IsHexChar(c)
    ensures c == HexDigit(n) || ('A' <= c <= 'F' && c as int - 'A' as int + 'a' as int == HexDigit(n) as int)
  {
    if '0' <= c <= '9' then c as int - '0' as int
    else if 'a' <= c <= 'f' then c as int - 'a' as int + 10
    else c as int - 'A' as int + 10
  }

  function Hex(ns: seq<Nibble>): (s: string)
    ensures |s| == |ns|
  {
    seq(|ns|, i requires 0 <= i < |ns| => HexDigit(ns[i]))
  }

  /** `str(u)`: lower-case digits in groups of 8-4-4-4-12 joined by hyphens. */
  function ToString(u: Uuid): (s: string)
    ensures |s| == 36
    ensures forall i :: 0 <= i < 36 ==> (s[i] == '-' <==> i == 8 || i == 13 || i == 18 || i == 23)
    ensures forall i :: 0 <= i < 36 && s[i] != '-' ==> s[i] in HexDigits
  {
    forall n: Nibble ensures HexDigit(n) in HexDigits && HexDigit(n) != '-' {
      HexDigitRoundTrip(n);
    }
    Hex(u[..8]) + "-" + Hex(u[8..12]) + "-" + Hex(u[12..16]) + "-" + Hex(u[16..20]) + "-" + Hex(u[20..])
  }

  /** Drops every leading and trailing '{' or '}', like `s.strip('{}')`. */
  function StripBraces(s: string): (r: string)
    ensures |r| <= |s|
    decreases |s|
  {
    if |s| > 0 && (s[0] == '{' || s[0] == '}') then StripBraces(s[1..])
    else if |s| > 0 && (s[|s| - 1] == '{' || s[|s| - 1] == '}') then StripBraces(s[..|s| - 1])
    else s
  }

  /** Drops every hyphen, like `s.replace('-', '')`. */
  function RemoveHyphens(s: string): (r: string)
    ensures |r| <= |s|
    ensures forall i :: 0 <= i < |r| ==> r[i] != '-'
  {
    if s == [] then []
    else if s[0] == '-' then RemoveHyphens(s[1..])
    else [s[0]] + RemoveHyphens(s[1..])
  }

  /** The digits `uuid.UUID(text)` reads: braces stripped, hyphens dropped. */
  function Digits(text: string): string {
    RemoveHyphens(StripBraces(text))
  }

  /** `uuid.UUID(text)`, which raises `ValueError` (here `None`) unless what
      is left after removing braces and hyphens is exactly 32 hex digits. */
  function Parse(text: string): (r: Option<Uuid>)
    ensures r.Some? <==> |Digits(text)| == 32 && forall i :: 0 <= i < 32 ==> IsHexChar(Digits(text)[i])
    ensures r.Some? ==> forall i :: 0 <= i < 32 ==> r.value[i] == HexValue(Digits(text)[i])
  {
    var h := Digits(text);
    if |h| == 32 && forall i :: 0 <= i < 32 ==> IsHexChar(h[i]) then
      Some(seq(32, i requires 0 <= i < 32 => HexValue(h[i])))
    else None
  }

  lemma HexDigitRoundTrip(n: Nibble)
    ensures IsHexChar(HexDigit(n)) && HexValue(HexDigit(n)) == n
    ensures HexDigit(n) != '-' && HexDigit(n) != '{' && HexDigit(n) != '}'
  {
  }

  lemma {:induction false} RemoveHyphensAppend(a: string, b: string)
    ensures RemoveHyphens(a + b) == RemoveHyphens(a) + RemoveHyphens(b)
  {
    if a == [] {
      assert a + b == b;
    } else {
      assert (a + b)[1..] == a[1..] + b;
      RemoveHyphensAppend(a[1..], b);
    }
  }

  lemma {:induction false} RemoveHyphensOfHex(ns: seq<Nibble>)
    ensures RemoveHyphens(Hex(ns)) == Hex(ns)
  {
    if ns != [] {
      HexDigitRoundTrip(ns[0]);
      assert Hex(ns)[1..] == Hex(ns[1..]);
      RemoveHyphensOfHex(ns[1..]);
    }
  }

  lemma HexAppend(a: seq<Nibble>, b: seq<Nibble>)
    ensures Hex(a) + Hex(b) == Hex(a + b)
  {
  }

  lemma RemoveHyphensJoin(a: string, b: string)
    ensures RemoveHyphens(a + "-" + b) == RemoveHyphens(a) + RemoveHyphens(b)
  {
    RemoveHyphensAppend(a + "-", b);
    RemoveHyphensAppend(a, "-");
  }

  lemma StripBracesOfToString(u: Uuid)
    ensures StripBraces(ToString(u)) == ToString(u)
  {
    var s := ToString(u);
    HexDigitRoundTrip(u[0]);
    HexDigitRoundTrip(u[31]);
    assert s[0] == HexDigit(u[0]);
    assert s[35] == HexDigit(u[31]);
  }

  /** The hyphens `str(u)` inserts are exactly what the parse removes. */
  lemma DigitsOfToString(u: Uuid)
    ensures Digits(ToString(u)) == Hex(u)
  {
    StripBracesOfToString(u);
    var a, b, c, d, e := Hex(u[..8]), Hex(u[8..12]), Hex(u[12..16]), Hex(u[16..20]), Hex(u[20..]);
    RemoveHyphensOfHex(u[..8]);
    RemoveHyphensOfHex(u[8..12]);
    RemoveHyphensOfHex(u[12..16]);
    RemoveHyphensOfHex(u[16..20]);
    RemoveHyphensOfHex(u[20..]);
    RemoveHyphensJoin(a, b);
    RemoveHyphensJoin(a + "-" + b, c);
    RemoveHyphensJoin(a + "-" + b + "-" + c, d);
    RemoveHyphensJoin(a + "-" + b + "-" + c + "-" + d, e);
    assert RemoveHyphens(ToString(u)) == a + b + c + d + e;
    HexAppend(u[..8], u[8..12]);
    HexAppend(u[..12], u[12..16]);
    HexAppend(u[..16], u[16..20]);
    HexAppend(u[..20], u[20..]);
    assert u[..8] + u[8..12] == u[..12];
    assert u[..12] + u[12..16] == u[..16];
    assert u[..16] + u[16..20] == u[..20];
    assert u[..20] + u[20..] == u;
  }

  /** Parsing the text of an identifier gives back that identifier, so the
      subject a token carries always resolves. */
  lemma ParseToString(u: Uuid)
    ensures Parse(ToString(u)) == Some(u)
  {
    DigitsOfToString(u);
    forall i | 0 <= i < 32
      ensures IsHexChar(Hex(u)[i]) && HexValue(Hex(u)[i]) == u[i]
    {
      HexDigitRoundTrip(u[i]);
    }
    var r := Parse(ToString(u));
    assert r.Some?;
    assert forall i :: 0 <= i < 32 ==> r.value[i] == u[i];
    assert r.value == u;
  }

  /** Distinct identifiers have distinct text. */
  lemma ToStringInjective(u: Uuid, v: Uuid)
    requires ToString(u) == ToString(v)
    ensures u == v
  {
    ParseToString(u);
    ParseToString(v);
  }
}
