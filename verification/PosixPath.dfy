/** Relative POSIX paths as the packaging scripts read them, and the two path filters. */
module PosixPath {
  import opened PyText
  import opened Wrappers

  /** `value.split("/")`. */
  function Split(s: string): (r: seq<string>)
    ensures r != []
  {
    if s == "" then [""]
    else if s[0] == '/' then [""] + Split(s[1..])
    else Prepend(s[0], Split(s[1..]))
  }

  function Prepend(c: char, parts: seq<string>): (r: seq<string>)
    requires parts != []
    ensures r != []
  {
    [[c] + parts[0]] + parts[1..]
  }

  function Join(parts: seq<string>): string {
    if parts == [] then "" else if |parts| == 1 then parts[0] else parts[0] + "/" + Join(parts[1..])
  }

  predicate Kept(part: string) {
    part != "" && part != "."
  }

  function Keep(parts: seq<string>): seq<string> {
    if parts == [] then [] else (if Kept(parts[0]) then [parts[0]] else []) + Keep(parts[1..])
  }

  /** `PurePosixPath(value).parts` without a leading slash: empty and `.` components vanish. */
  function Parts(value: string): seq<string> {
    Keep(Split(value))
  }

  /** `PurePosixPath(value).as_posix()` of a relative path. */
  function AsPosix(parts: seq<string>): string {
    if parts == [] then "." else Join(parts)
  }

  predicate Absolute(value: string) {
    value != "" && value[0] == '/'
  }

  /** `safe_runtime_path` of the package builder. */
  function SafeRuntimePath(raw: string): Result<string> {
    var value := Strip(raw);
    var parts := Parts(value);
    if value == "" || Absolute(value) || ".." in parts || ".git" in parts || "__pycache__" in parts then Err
    else Ok(AsPosix(parts))
  }

  /** `safe_member_name` of the package verifier. */
  function SafeMemberName(raw: string): Result<string> {
    if raw == "" || Absolute(raw) || ".." in Parts(raw) then Err else Ok(AsPosix(Parts(raw)))
  }

  predicate OneLine(s: string) {
    forall c | c in s :: !IsBreak(c)
  }

  /** A path that both text files can carry and the builder reads back unchanged. */
  predicate Legal(path: string) {
    OneLine(path) && SafeRuntimePath(path) == Ok(path)
  }

  // ------------------------------------------------------------------ sizes: reading never lengthens

  lemma JoinFirst(c: char, r: seq<string>)
    requires r != []
    ensures Join([[c] + r[0]] + r[1..]) == [c] + Join(r)
  {
    var q := [[c] + r[0]] + r[1..];
    assert q[1..] == r[1..];
    if |r| > 1 { assert [c] + r[0] + "/" + Join(r[1..]) == [c] + (r[0] + "/" + Join(r[1..])); }
  }

  lemma JoinSlash(r: seq<string>)
    requires r != []
    ensures Join([""] + r) == "/" + Join(r)
  {
    assert ([""] + r)[1..] == r;
  }

  lemma {:induction false} JoinSplit(s: string)
    ensures Join(Split(s)) == s
  {
    if s != "" {
      JoinSplit(s[1..]);
      assert s == [s[0]] + s[1..];
      if s[0] == '/' { JoinSlash(Split(s[1..])); } else { JoinFirst(s[0], Split(s[1..])); }
    }
  }

  lemma {:induction false} KeepShortens(parts: seq<string>)
    ensures |Join(Keep(parts))| <= |Join(parts)|
    ensures Keep(parts) == [] || |parts| > 0
  {
    if parts != [] {
      KeepShortens(parts[1..]);
      if Kept(parts[0]) {
        assert ([parts[0]] + Keep(parts[1..]))[1..] == Keep(parts[1..]);
      } else {
        assert [] + Keep(parts[1..]) == Keep(parts[1..]);
      }
    }
  }

  /** Only stripped text is legal. */
  lemma LegalIsStripped(path: string)
    requires SafeRuntimePath(path) == Ok(path)
    ensures Stripped(path) && path != "" && Strip(path) == path
  {
    var value := Strip(path);
    JoinSplit(value);
    KeepShortens(Split(value));
    assert |path| <= |value|;
    StripFixesExactly(path);
    StripSameLength(path);
  }

  lemma {:induction false} StripSameLength(s: string)
    ensures |Strip(s)| == |s| ==> Strip(s) == s
  {
    LStripShrinks(s);
    RStripShrinks(LStrip(s));
    if s != "" && IsSpace(s[0]) { LStripShrinks(s[1..]); }
    if s != "" && !IsSpace(s[0]) && IsSpace(s[|s| - 1]) { RStripShrinks(s[..|s| - 1]); }
  }

  // ------------------------------------------------------------------ directories

  /** `d` is a directory above `path`. */
  predicate Above(d: string, path: string) {
    |d| < |path| && d <= path && path[|d|] == '/'
  }

  lemma AboveExactly(d: string, p: string)
    ensures Above(d, p) <==> d + "/" <= p
  {
    if d + "/" <= p { assert p[..|d| + 1] == d + "/"; }
    if Above(d, p) { assert p[..|d| + 1] == d + "/"; }
  }

  lemma NotAboveItself(p: string)
    ensures !Above(p, p)
  {
  }

  function DirsOf(path: string): set<string> {
    set i | 0 < i < |path| && path[i] == '/' :: path[..i]
  }

  /** Two paths that cannot both be files of one tree, or are the same file. */
  predicate Clash(p: string, q: string) {
    p == q || Above(p, q) || Above(q, p)
  }

  /** No file stands where another needs a directory. */
  ghost predicate Coexist(paths: set<string>) {
    forall p, q | p in paths && q in paths :: !Above(p, q)
  }

  ghost predicate SafeNames(paths: set<string>) {
    forall p | p in paths :: SafeMemberName(p) == Ok(p)
  }

  // ------------------------------------------------------------------ names built from components

  predicate Plain(part: string) {
    Kept(part) && part != ".." && '/' !in part
  }

  lemma {:induction false} SplitPlain(part: string)
    requires '/' !in part
    ensures Split(part) == [part]
  {
    if part != "" {
      SplitPlain(part[1..]);
      assert part[0] in part && [part[0]] + part[1..] == part;
    }
  }

  lemma {:induction false} SplitAtSlash(head: string, rest: string)
    ensures Split(head + "/" + rest) == Split(head) + Split(rest)
  {
    hide Prepend;
    var s := head + "/" + rest;
    if head == "" {
      assert s[1..] == rest;
    } else {
      SplitAtSlash(head[1..], rest);
      assert s[1..] == head[1..] + "/" + rest && s[0] == head[0];
      if head[0] != '/' {
        PrependConcat(head[0], Split(head[1..]), Split(rest));
      } else {
        assert [""] + (Split(head[1..]) + Split(rest)) == [""] + Split(head[1..]) + Split(rest);
      }
    }
  }

  lemma PrependConcat(c: char, parts: seq<string>, more: seq<string>)
    requires parts != []
    ensures Prepend(c, parts + more) == Prepend(c, parts) + more
  {
    assert (parts + more)[1..] == parts[1..] + more;
  }

  lemma {:induction false} SplitJoined(parts: seq<string>)
    requires parts != [] && forall part | part in parts :: Plain(part)
    ensures Split(Join(parts)) == parts && Keep(parts) == parts
    ensures Join(parts) != "" && parts[0] != "" && Join(parts)[0] == parts[0][0]
  {
    var first := parts[0];
    assert first in parts && first != "";
    SplitPlain(first);
    if |parts| > 1 {
      SplitJoined(parts[1..]);
      SplitAtSlash(first, Join(parts[1..]));
    }
    assert parts == [first] + parts[1..];
  }

  /** A name made of plain components is a safe member name. */
  lemma PlainIsSafeMember(parts: seq<string>)
    requires parts != [] && forall part | part in parts :: Plain(part)
    ensures SafeMemberName(Join(parts)) == Ok(Join(parts))
  {
    SplitJoined(parts);
    assert parts[0] in parts && parts[0][0] in parts[0];
  }

  lemma {:induction false} KeepContains(parts: seq<string>, part: string)
    ensures part in Keep(parts) <==> part in parts && Kept(part)
  {
    if parts != [] { KeepContains(parts[1..], part); }
  }

  /** The directories above a safe member have safe names. */
  lemma DirIsSafe(path: string, d: string)
    requires SafeMemberName(path).Ok? && d in DirsOf(path)
    ensures SafeMemberName(d).Ok? && Above(d, path)
  {
    hide Kept;
    assert path == d + "/" + path[|d| + 1..];
    SplitAtSlash(d, path[|d| + 1..]);
    KeepContains(Split(d), "..");
    KeepContains(Split(path), "..");
    assert d[0] == path[0];
  }

  lemma {:induction false} SplitSlashFree(s: string)
    ensures forall part | part in Split(s) :: '/' !in part
  {
    if s != "" {
      SplitSlashFree(s[1..]);
      var r := Split(s[1..]);
      assert r[0] in r;
      assert forall part | part in Split(s) :: part in r || part == "" || (s[0] != '/' && part == [s[0]] + r[0]);
    }
  }

  /** Every path that the builder reads, the verifier takes as it stands. */
  lemma SafePathIsSafeMember(raw: string)
    requires SafeRuntimePath(raw).Ok?
    ensures SafeMemberName(SafeRuntimePath(raw).value) == Ok(SafeRuntimePath(raw).value)
  {
    var parts := Parts(Strip(raw));
    if parts == [] {
      assert Split(".") == ["."] && Keep(["."]) == [];
    } else {
      SplitSlashFree(Strip(raw));
      forall part | part in parts ensures Plain(part) { KeepContains(Split(Strip(raw)), part); }
      PlainIsSafeMember(parts);
    }
  }
}
