/** The pieces of Python's `str` the source leans on: `strip`, `splitlines`, `split`. */
module PyText {

  /** `str.isspace` for one character. */
  predicate IsSpace(c: char) {
    || '\t' <= c <= '\r' || '\U{1C}' <= c <= ' ' || c == '\U{85}' || c == '\U{A0}' || c == '\U{1680}'
    || '\U{2000}' <= c <= '\U{200A}' || c == '\U{2028}' || c == '\U{2029}' || c == '\U{202F}'
    || c == '\U{205F}' || c == '\U{3000}'
  }

  /** A character at which `str.splitlines` breaks. */
  predicate IsBreak(c: char) {
    '\n' <= c <= '\r' || '\U{1C}' <= c <= '\U{1E}' || c == '\U{85}' || c == '\U{2028}' || c == '\U{2029}'
  }

  function LStrip(s: string): string {
    if s != "" && IsSpace(s[0]) then LStrip(s[1..]) else s
  }

  function RStrip(s: string): string {
    if s != "" && IsSpace(s[|s| - 1]) then RStrip(s[..|s| - 1]) else s
  }

  function Strip(s: string): string {
    RStrip(LStrip(s))
  }

  /** `s.rstrip("/")`. */
  function RStripSlash(s: string): string {
    if s != "" && s[|s| - 1] == '/' then RStripSlash(s[..|s| - 1]) else s
  }

  predicate EndsWith(s: string, suffix: string) {
    |suffix| <= |s| && s[|s| - |suffix|..] == suffix
  }

  /** `str.lower` on ASCII letters. */
  function LowerChar(c: char): char {
    if 'A' <= c <= 'Z' then (c as int + 32) as char else c
  }

  function Lower(s: string): string {
    seq(|s|, i requires 0 <= i < |s| => LowerChar(s[i]))
  }

  /** Text with no white space at either end is what `strip` leaves alone. */
  predicate Stripped(s: string) {
    s != "" ==> !IsSpace(s[0]) && !IsSpace(s[|s| - 1])
  }

  lemma {:induction false} StripFixesExactly(s: string)
    ensures Strip(s) == s <==> Stripped(s)
    ensures |Strip(s)| <= |s|
  {
    LStripShrinks(s);
    RStripShrinks(LStrip(s));
    if Stripped(s) && s != "" {
      assert LStrip(s) == s;
    } else if s != "" && !IsSpace(s[0]) {
      assert LStrip(s) == s;
      RStripShrinks(s[..|s| - 1]);
    } else if s != "" {
      LStripShrinks(s[1..]);
    }
  }

  predicate Blank(s: string) {
    forall c | c in s :: IsSpace(c)
  }

  lemma {:induction false} LStripDrops(s: string)
    ensures exists left :: Blank(left) && s == left + LStrip(s)
  {
    if s != "" && IsSpace(s[0]) {
      LStripDrops(s[1..]);
      var left :| Blank(left) && s[1..] == left + LStrip(s[1..]);
      assert Blank([s[0]] + left) && s == ([s[0]] + left) + LStrip(s);
    } else {
      assert Blank("") && s == "" + LStrip(s);
    }
  }

  lemma {:induction false} RStripDrops(s: string)
    ensures exists right :: Blank(right) && s == RStrip(s) + right
  {
    if s != "" && IsSpace(s[|s| - 1]) {
      var n := |s| - 1;
      RStripDrops(s[..n]);
      var right :| Blank(right) && s[..n] == RStrip(s[..n]) + right;
      assert Blank(right + [s[n]]) && s == RStrip(s) + (right + [s[n]]);
    } else {
      assert Blank("") && s == RStrip(s) + "";
    }
  }

  /** What is left is the one part without white space at its ends between nothing but white space. */
  lemma StripExactly(s: string, t: string)
    ensures Strip(s) == t <==> Stripped(t) && exists left, right :: Blank(left) && Blank(right) && s == left + t + right
  {
    StripIsStripped(s);
    LStripDrops(s);
    RStripDrops(LStrip(s));
    var left :| Blank(left) && s == left + LStrip(s);
    var right :| Blank(right) && LStrip(s) == Strip(s) + right;
    assert s == left + Strip(s) + right;
    if left', right' :| Stripped(t) && Blank(left') && Blank(right') && s == left' + t + right' {
      OneMiddle(s, left, Strip(s), right, left', t, right');
    }
  }

  lemma OneMiddle(s: string, a: string, t: string, b: string, c: string, u: string, d: string)
    requires s == a + t + b == c + u + d && Blank(a) && Blank(b) && Blank(c) && Blank(d) && Stripped(t) && Stripped(u)
    ensures t == u
  {
    hide IsSpace;
    BlankEnds(s, a, t, b);
    BlankEnds(s, c, u, d);
    assert t == s[|a|..|s| - |b|] && u == s[|c|..|s| - |d|];
  }

  /** Where the blanks at the ends of a text end. */
  lemma BlankEnds(s: string, a: string, t: string, b: string)
    requires s == a + t + b && Blank(a) && Blank(b) && Stripped(t)
    ensures forall k | 0 <= k < |a| || |a| + |t| <= k < |s| :: IsSpace(s[k])
    ensures t != "" ==> !IsSpace(s[|a|]) && !IsSpace(s[|a| + |t| - 1])
  {
    hide IsSpace;
    forall k | 0 <= k < |a| ensures IsSpace(s[k]) { assert s[k] == a[k] && a[k] in a; }
    forall k | |a| + |t| <= k < |s| ensures IsSpace(s[k]) { assert s[k] == b[k - |a| - |t|] && b[k - |a| - |t|] in b; }
  }

  lemma StripIsStripped(s: string)
    ensures Stripped(Strip(s))
  {
    LStripStarts(s);
    RStripEnds(LStrip(s));
  }

  lemma {:induction false} LStripStarts(s: string)
    ensures LStrip(s) != "" ==> !IsSpace(LStrip(s)[0])
  {
    if s != "" { LStripStarts(s[1..]); }
  }

  lemma {:induction false} RStripEnds(s: string)
    ensures RStrip(s) <= s && (RStrip(s) != "" ==> !IsSpace(RStrip(s)[|RStrip(s)| - 1]))
  {
    if s != "" { RStripEnds(s[..|s| - 1]); }
  }

  lemma {:induction false} LStripShrinks(s: string)
    ensures |LStrip(s)| <= |s|
  {
    if s != "" { LStripShrinks(s[1..]); }
  }

  lemma {:induction false} RStripShrinks(s: string)
    ensures |RStrip(s)| <= |s|
  {
    if s != "" { RStripShrinks(s[..|s| - 1]); }
  }
}

/** JSON values as Python sees them after `json.loads`. */
module Json {
  datatype Json =
    | Null | Bool(b: bool) | Num(n: int) | Str(s: string)
    | Arr(items: seq<Json>) | Obj(fields: map<string, Json>)

  type Dict = map<string, Json>

  /** `d.get(key)`: a missing key reads as None. */
  function Get(d: Dict, key: string): Json {
    if key in d then d[key] else Null
  }

  /** A field of two dictionaries laid over each other. */
  lemma GetMerged(under: Dict, over: Dict, key: string)
    ensures Get(under + over, key) == if key in over then Get(over, key) else Get(under, key)
  {
  }

  predicate Truthy(j: Json) {
    match j
    case Null => false
    case Bool(b) => b
    case Num(n) => n != 0
    case Str(s) => s != ""
    case Arr(items) => items != []
    case Obj(fields) => fields != map[]
  }

  function Digits(n: nat): string {
    if n < 10 then [('0' as int + n) as char] else Digits(n / 10) + [('0' as int + n % 10) as char]
  }

  /** `str(j)`; a list or object is never used as text by the source, so it has none here. */
  function Text(j: Json): string {
    match j
    case Null => "None"
    case Bool(b) => if b then "True" else "False"
    case Num(n) => if n < 0 then "-" + Digits(-n) else Digits(n)
    case Str(s) => s
    case Arr(_) => ""
    case Obj(_) => ""
  }

  /** `str(j or "")`. */
  function TextOrEmpty(j: Json): string {
    if Truthy(j) then Text(j) else ""
  }

  /** `j or []` for a value that is a list or falsy. */
  function ItemsOrEmpty(j: Json): seq<Json> {
    if j.Arr? then j.items else []
  }
}
