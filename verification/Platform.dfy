/** SHA-256, JSON and UTF-8 as the scripts use them. Each is a function the model does not look into;
    `Faithful` says what is assumed of them. Nothing is assumed about hash collisions. */
module Platform {
  import opened Json
  import opened Wrappers

  type Bytes = seq<bv8>

  datatype Platform = Platform(
    hex: Bytes -> string,               // hashlib.sha256(...).hexdigest()
    canon: Json -> Bytes,               // canonical_bytes
    render: Json -> Bytes,              // write_json
    parse: Bytes -> Option<Json>,       // json.loads of the decoded bytes; None where it raises
    utf8: string -> Bytes,              // write_text
    readText: Bytes -> string,          // read_text, which rewrites carriage returns
    intOfText: string -> Option<int>,   // int("...")
    str: Json -> string,                // str(value)
    unhex: string -> Bytes)             // bytes.fromhex(...)

  predicate IsHexDigit(c: char) {
    '0' <= c <= '9' || 'a' <= c <= 'f'
  }

  /** Sixty-four lower-case hexadecimal digits. */
  predicate IsHex64(s: string) {
    |s| == 64 && forall c | c in s :: IsHexDigit(c)
  }

  predicate HexText(s: string, n: nat) {
    |s| == n && forall c | c in s :: c in "0123456789abcdef"
  }

  lemma HexDigitExactly(c: char)
    ensures IsHexDigit(c) <==> c in "0123456789abcdef"
  {
    if IsHexDigit(c) && c <= '9' { assert "0123456789abcdef"[c as int - '0' as int] == c; }
    if IsHexDigit(c) && c >= 'a' { assert "0123456789abcdef"[c as int - 'a' as int + 10] == c; }
  }

  lemma Hex64Exactly(s: string)
    ensures IsHex64(s) <==> HexText(s, 64)
  {
    forall c: char ensures IsHexDigit(c) <==> c in "0123456789abcdef" { HexDigitExactly(c); }
  }

  ghost predicate Faithful(p: Platform) {
    && (forall j :: p.parse(p.render(j)) == Some(j))
    && (forall s | '\r' !in s :: p.readText(p.utf8(s)) == s)
    && (forall b :: IsHex64(p.hex(b)))
    && (forall s :: p.str(Str(s)) == s)
  }

  /** Canonical JSON determines the value. */
  ghost predicate CanonIsInjective(p: Platform) {
    forall i, j | p.canon(i) == p.canon(j) :: i == j
  }

  /** Two different inputs with one digest. Every hash has some, so a result that needs there to be
      none names the two inputs that would have to collide. */
  ghost predicate Collides(p: Platform, x: Bytes, y: Bytes) {
    x != y && p.hex(x) == p.hex(y)
  }

  function Sha(p: Platform, b: Bytes): string {
    "sha256:" + p.hex(b)
  }

  lemma ShaSame(p: Platform, x: Bytes, y: Bytes)
    requires Sha(p, x) == Sha(p, y)
    ensures x == y || Collides(p, x, y)
  {
    assert p.hex(x) == Sha(p, x)[7..] && p.hex(y) == Sha(p, y)[7..];
  }

  function HashOf(p: Platform, j: Json): string {
    Sha(p, p.canon(j))
  }

  lemma HashSame(p: Platform, i: Json, j: Json)
    requires CanonIsInjective(p) && HashOf(p, i) == HashOf(p, j)
    ensures i == j || Collides(p, p.canon(i), p.canon(j))
  {
    ShaSame(p, p.canon(i), p.canon(j));
  }

  function Texts(s: seq<string>): Json {
    Arr(seq(|s|, i requires 0 <= i < |s| => Str(s[i])))
  }
}
