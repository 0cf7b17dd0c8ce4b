/** Password hashing (backend/app/auth.py, `hash_password` and
    `verify_password`). The bcrypt scheme behind passlib's `CryptContext` is
    foreign code, so it is a parameter: `hash` takes the random salt bcrypt
    would draw as an explicit argument, and `verify` answers whether a
    plaintext matches a stored hash. bcrypt only reads the first 72 bytes of
    the UTF-8 encoded password, which `Key` makes explicit. */
module Passwords {

  datatype Hasher = Hasher(hash: (string, string) -> string, verify: (string, string) -> bool)

  /** The number of password bytes bcrypt reads. */
  const MaxKeyBytes := 72

  /** The UTF-8 encoding of one Unicode scalar value. */
  function Utf8Char(c: char): (bytes: seq<int>)
    ensures 1 <= |bytes| <= 4
    ensures c as int < 0x80 <==> bytes == [c as int]
  {
    var n := c as int;
    if n < 0x80 then [n]
    else if n < 0x800 then [0xC0 + n / 0x40, 0x80 + n % 0x40]
    else if n < 0x10000 then [0xE0 + n / 0x1000, 0x80 + (n / 0x40) % 0x40, 0x80 + n % 0x40]
    else [0xF0 + n / 0x40000, 0x80 + (n / 0x1000) % 0x40, 0x80 + (n / 0x40) % 0x40, 0x80 + n % 0x40]
  }

  /** `password.encode("utf-8")`. */
  function Utf8(s: string): (bytes: seq<int>)
    ensures |bytes| >= |s|
  {
    if s == [] then [] else Utf8Char(s[0]) + Utf8(s[1..])
  }

  /** The bytes bcrypt hashes: the encoding cut to its first 72 bytes. */
  function Key(password: string): (key: seq<int>)
    ensures |key| <= MaxKeyBytes
  {
    var bytes := Utf8(password);
    if |bytes| <= MaxKeyBytes then bytes else bytes[..MaxKeyBytes]
  }

  /** What any correct scheme promises: a password matches every hash made
      from it, whatever the salt. */
  ghost predicate Sound(h: Hasher) {
    forall password, salt :: h.verify(password, h.hash(password, salt))
  }

  /** bcrypt's truncation: a hash cannot tell apart passwords whose first 72
      bytes agree. */
  ghost predicate Truncating(h: Hasher) {
    forall password, other, salt :: Key(password) == Key(other) ==>
      h.verify(other, h.hash(password, salt)) == h.verify(password, h.hash(password, salt))
  }

  /** The idealised collision-freedom of the scheme: a hash never matches a
      password whose first 72 bytes differ from those it was made from. */
  ghost predicate Discriminating(h: Hasher) {
    forall password, other, salt :: Key(password) != Key(other) ==> !h.verify(other, h.hash(password, salt))
  }

  /** `hash_password`; `salt` is the randomness bcrypt draws itself. */
  function HashPassword(h: Hasher, password: string, salt: string): (hashed: string)
    ensures Sound(h) ==> h.verify(password, hashed)
    ensures Truncating(h) && Sound(h) ==> forall other :: Key(other) == Key(password) ==> h.verify(other, hashed)
  {
    h.hash(password, salt)
  }

  /** `verify_password`. */
  function VerifyPassword(h: Hasher, plain: string, hashed: string): (ok: bool)
    ensures Sound(h) && (exists salt :: hashed == h.hash(plain, salt)) ==> ok
    ensures Discriminating(h) && ok ==> forall other, salt :: hashed == h.hash(other, salt) ==> Key(other) == Key(plain)
  {
    h.verify(plain, hashed)
  }

  /** For a sound, truncating and otherwise discriminating scheme, a hash
      accepts exactly the passwords that share the first 72 bytes of the one
      it was made from. */
  lemma VerifyHashed(h: Hasher, password: string, attempt: string, salt: string)
    requires Sound(h) && Truncating(h) && Discriminating(h)
    ensures VerifyPassword(h, attempt, HashPassword(h, password, salt)) <==> Key(attempt) == Key(password)
  {
  }

  lemma {:induction false} Utf8Append(a: string, b: string)
    ensures Utf8(a + b) == Utf8(a) + Utf8(b)
  {
    if a == [] {
      assert a + b == b;
    } else {
      assert (a + b)[1..] == a[1..] + b;
      Utf8Append(a[1..], b);
    }
  }

  lemma {:induction false} Utf8Ascii(s: string)
    requires forall i :: 0 <= i < |s| ==> s[i] as int < 0x80
    ensures |Utf8(s)| == |s|
  {
    if s != [] {
      Utf8Ascii(s[1..]);
    }
  }

  /** Two passwords that agree on their first 72 characters, all of them
      ASCII, have the same key however they continue: with a truncating
      scheme either one verifies against the other's hash. */
  lemma AsciiPrefixCollision(password: string, other: string)
    requires |password| >= MaxKeyBytes && |other| >= MaxKeyBytes
    requires password[..MaxKeyBytes] == other[..MaxKeyBytes]
    requires forall i :: 0 <= i < MaxKeyBytes ==> password[i] as int < 0x80
    ensures Key(password) == Key(other)
  {
    var prefix := password[..MaxKeyBytes];
    assert password == prefix + password[MaxKeyBytes..];
    assert other == prefix + other[MaxKeyBytes..];
    Utf8Append(prefix, password[MaxKeyBytes..]);
    Utf8Append(prefix, other[MaxKeyBytes..]);
    Utf8Ascii(prefix);
    assert Utf8(password)[..MaxKeyBytes] == Utf8(prefix);
    assert Utf8(other)[..MaxKeyBytes] == Utf8(prefix);
  }
}
