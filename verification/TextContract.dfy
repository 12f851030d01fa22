/** What the two text files of a lineage say, told about the text itself: where lines end, which line is
    a path, which line is a digest with its path. */
module TextContract {
  import opened TextOrder
  import opened PyText
  import opened Platform
  import opened Wrappers
  import opened PosixPath
  import opened LineageText
  import ArchiveContract

  // ------------------------------------------------------------------ paths

  /** A component is kept unless it is empty or a single dot, and components stand between slashes. */
  lemma PartsExactly(a: string, b: string)
    ensures '/' !in a ==> Parts(a) == if a == "" || a == "." then [] else [a]
    ensures Parts(a + "/" + b) == Parts(a) + Parts(b)
  {
    hide Split;
    if '/' !in a { SplitPlain(a); }
    SplitAtSlash(a, b);
    KeepBoth(Split(a), Split(b));
  }

  lemma {:induction false} KeepBoth(a: seq<string>, b: seq<string>)
    ensures Keep(a + b) == Keep(a) + Keep(b)
  {
    hide Kept;
    if a == [] {
      assert a + b == b && Keep(a) == [] && [] + Keep(b) == Keep(b);
    } else {
      KeepBoth(a[1..], b);
      assert (a + b)[1..] == a[1..] + b && (a + b)[0] == a[0];
      var head := if Kept(a[0]) then [a[0]] else [];
      assert head + (Keep(a[1..]) + Keep(b)) == head + Keep(a[1..]) + Keep(b);
    }
  }

  /** The text without the white space around it. */
  ghost predicate Trims(raw: string, value: string) {
    Stripped(value) && exists left, right :: Blank(left) && Blank(right) && raw == left + value + right
  }

  ghost predicate NamesFile(value: string) {
    && value != "" && value[0] != '/' && !ArchiveContract.HasComponent(value, "..")
    && !ArchiveContract.HasComponent(value, ".git") && !ArchiveContract.HasComponent(value, "__pycache__")
  }

  /** Exactly which lines the builder takes for paths, and for which. */
  lemma RuntimePathExactly(raw: string, name: string)
    ensures SafeRuntimePath(raw) == Ok(name) <==> exists value :: Trims(raw, value) && NamesFile(value) && name == AsPosix(Parts(value))
  {
    hide Strip, Split, Join, Stripped, Blank;
    forall value ensures Trims(raw, value) <==> Strip(raw) == value { StripExactly(raw, value); }
    var value := Strip(raw);
    assert Trims(raw, value);
    NamesExactly(value);
  }

  lemma NamesExactly(value: string)
    ensures NamesFile(value) <==>
              value != "" && !Absolute(value) && ".." !in Parts(value) && ".git" !in Parts(value) && "__pycache__" !in Parts(value)
  {
    hide Split;
    forall part | part in {"..", ".git", "__pycache__"}
      ensures part in Parts(value) <==> ArchiveContract.HasComponent(value, part) {
      assert '/' !in part;
      ArchiveContract.ComponentsAre(value, part);
      KeepContains(Split(value), part);
    }
  }

  // ------------------------------------------------------------------ lines

  /** A line boundary of `str.splitlines`. */
  predicate Ending(end: string) {
    end == "\r\n" || (|end| == 1 && end[0] as int in {0x0A, 0x0B, 0x0C, 0x0D, 0x1C, 0x1D, 0x1E, 0x85, 0x2028, 0x2029})
  }

  /** The text is these lines with their endings; the last one may have none, unless it is empty. */
  ghost predicate SplitsTo(s: string, lines: seq<string>)
    decreases |lines|
  {
    if s == "" then lines == [] else
      lines != [] && exists end, rest :: Starts(s, lines[0], end, rest) && SplitsTo(rest, lines[1..])
  }

  ghost predicate Starts(s: string, line: string, end: string, rest: string) {
    && s == line + end + rest && OneLine(line)
    && (Ending(end) || (end == "" && rest == "")) && (end == "\r" ==> !("\n" <= rest))
  }

  lemma BreakExactly(c: char)
    ensures IsBreak(c) <==> c as int in {0x0A, 0x0B, 0x0C, 0x0D, 0x1C, 0x1D, 0x1E, 0x85, 0x2028, 0x2029}
  {
  }

  lemma {:induction false} BreakFirst(line: string, rest: string)
    requires OneLine(line) && (rest != "" ==> IsBreak(rest[0]))
    ensures BreakAt(line + rest) == |line|
  {
    hide IsBreak;
    if line != "" {
      assert (line + rest)[1..] == line[1..] + rest && line[0] in line;
      forall c | c in line[1..] ensures !IsBreak(c) { assert c in line; }
      BreakFirst(line[1..], rest);
    } else {
      assert line + rest == rest;
    }
  }

  function EndAt(s: string, n: nat): string
    requires n < |s|
  {
    if s[n] == '\r' && n + 1 < |s| && s[n + 1] == '\n' then "\r\n" else [s[n]]
  }

  lemma FirstLine(s: string, line: string, end: string, rest: string)
    requires s != "" && Starts(s, line, end, rest)
    ensures var n := BreakAt(s);
            line == s[..n] && (n == |s| ==> end == "" && rest == "") && (n < |s| ==> end == EndAt(s, n) && rest == s[n + |end|..])
  {
    hide IsBreak, BreakAt, OneLine, Ending;
    ThreeParts(s, line, end, rest);
    EndingBreaks(end);
    if end != "" {
      BreakFirst(line, end + rest);
      hide EndAt;
      EndIs(s, |line|, end, rest);
    } else {
      BreakFirst(line, end + rest);
    }
  }

  lemma ThreeParts(s: string, a: string, b: string, c: string)
    requires s == a + b + c
    ensures s == a + (b + c) && s[..|a|] == a && s[|a|..|a| + |b|] == b && s[|a| + |b|..] == c
    ensures b == "" && c == "" ==> |a| == |s|
    ensures b != "" ==> (b + c)[0] == b[0]
  {
  }

  lemma EndingBreaks(end: string)
    ensures Ending(end) ==> end != "" && IsBreak(end[0])
  {
    if end != "" { BreakExactly(end[0]); }
  }

  lemma EndIs(s: string, n: nat, end: string, rest: string)
    requires n < |s| && n + |end| <= |s| && end == s[n..n + |end|] && rest == s[n + |end|..]
    requires Ending(end) && (end == "\r" ==> !("\n" <= rest))
    ensures end == EndAt(s, n)
  {
    if end == "\r" {
      assert s[n] == end[0];
      assert rest != "" ==> rest[..1] == [rest[0]] && rest[0] == s[n + 1];
    } else if end == "\r\n" {
      assert s[n] == end[0] && s[n + 1] == end[1];
    } else {
      assert s[n] == end[0] && end == [end[0]] && end[0] != '\r';
    }
  }

  lemma EndFollows(s: string, n: nat)
    requires n < |s| && s[n] as int in {0x0A, 0x0B, 0x0C, 0x0D, 0x1C, 0x1D, 0x1E, 0x85, 0x2028, 0x2029}
    ensures var end := EndAt(s, n);
            && Ending(end) && n + |end| <= |s| && s == s[..n] + end + s[n + |end|..] && (end == "\r" ==> !("\n" <= s[n + |end|..]))
  {
    var end := EndAt(s, n);
    assert end == s[n..n + |end|];
    assert end == "\r\n" || (|end| == 1 && end[0] == s[n]);
    assert "\n" <= s[n + |end|..] ==> n + |end| < |s| && s[n + |end|] == '\n';
  }

  lemma LineStarts(s: string)
    requires s != ""
    ensures Starts(s, s[..BreakAt(s)], EndOf(s), AfterLine(s))
  {
    var n := BreakAt(s);
    if n == |s| {
      assert s[..n] == s && s == s + "" + "";
    } else {
      BreakExactly(s[n]);
      hide IsBreak, BreakAt, OneLine;
      EndFollows(s, n);
    }
  }

  /** `splitlines` yields the one way to cut the text into lines. */
  lemma {:induction false} LinesExactly(s: string, lines: seq<string>)
    ensures SplitLines(s) == lines <==> SplitsTo(s, lines)
    decreases |s|
  {
    hide Starts, BreakAt;
    if s != "" {
      LineStarts(s);
      if lines != [] {
        OnlyCut(s, lines[0]);
        LinesExactly(AfterLine(s), lines[1..]);
      }
      hide SplitLines, SplitsTo;
      LinesStep(s, lines);
    }
  }

  function AfterLine(s: string): (rest: string)
    requires s != ""
    ensures |rest| < |s|
  {
    var n := BreakAt(s);
    if n == |s| then "" else s[n + |EndAt(s, n)|..]
  }

  function EndOf(s: string): string
    requires s != ""
  {
    var n := BreakAt(s);
    if n == |s| then "" else EndAt(s, n)
  }

  lemma OnlyCut(s: string, line: string)
    requires s != ""
    ensures forall end, rest | Starts(s, line, end, rest) :: line == s[..BreakAt(s)] && end == EndOf(s) && rest == AfterLine(s)
  {
    hide Starts, BreakAt;
    forall end, rest | Starts(s, line, end, rest) ensures line == s[..BreakAt(s)] && end == EndOf(s) && rest == AfterLine(s) {
      FirstLine(s, line, end, rest);
    }
  }

  lemma LinesStep(s: string, lines: seq<string>)
    requires s != "" && Starts(s, s[..BreakAt(s)], EndOf(s), AfterLine(s))
    requires lines != [] ==> forall end, rest | Starts(s, lines[0], end, rest) :: lines[0] == s[..BreakAt(s)] && end == EndOf(s) && rest == AfterLine(s)
    requires lines != [] ==> (SplitLines(AfterLine(s)) == lines[1..] <==> SplitsTo(AfterLine(s), lines[1..]))
    ensures SplitLines(s) == lines <==> SplitsTo(s, lines)
  {
    hide Starts, BreakAt;
    SplitsFirst(s);
    if lines != [] {
      assert lines == [lines[0]] + lines[1..];
      assert ([s[..BreakAt(s)]] + SplitLines(AfterLine(s)))[1..] == SplitLines(AfterLine(s));
    }
  }

  function EndLength(s: string, n: nat): nat
    requires n < |s|
  {
    if s[n] == '\r' && n + 1 < |s| && s[n + 1] == '\n' then 2 else 1
  }

  lemma LinesUnfold(s: string)
    requires s != ""
    ensures SplitLines("") == []
    ensures var n := BreakAt(s); SplitLines(s) == if n == |s| then [s] else [s[..n]] + SplitLines(s[n + EndLength(s, n)..])
  {
    hide BreakAt, OneLine, IsBreak;
  }

  lemma SplitsFirst(s: string)
    requires s != ""
    ensures SplitLines(s) == [s[..BreakAt(s)]] + SplitLines(AfterLine(s))
  {
    hide BreakAt, OneLine, IsBreak, SplitLines;
    var n := BreakAt(s);
    LinesUnfold(s);
    if n == |s| { assert s[..n] == s; } else { assert |EndAt(s, n)| == EndLength(s, n); }
  }

  // ------------------------------------------------------------------ runtime-files.txt

  /** The lines that are not blank, each read as a path. */
  ghost predicate PathsOf(lines: seq<string>, paths: seq<string>) {
    if lines == [] then paths == []
    else if Blank(lines[|lines| - 1]) then PathsOf(lines[..|lines| - 1], paths)
    else paths != [] && SafeRuntimePath(lines[|lines| - 1]) == Ok(paths[|paths| - 1]) && PathsOf(lines[..|lines| - 1], paths[..|paths| - 1])
  }

  lemma BlankExactly(s: string)
    ensures Strip(s) == "" <==> Blank(s)
  {
    StripExactly(s, "");
    if left, right :| Blank(left) && Blank(right) && s == left + "" + right {
      forall c | c in s ensures IsSpace(c) { assert c in left || c in right; }
    }
    if Blank(s) { assert Blank("") && s == s + "" + ""; }
  }

  lemma {:induction false} PathsReadExactly(lines: seq<string>, paths: seq<string>)
    requires forall i, j | 0 <= i < j < |paths| :: paths[i] != paths[j]
    ensures ReadPaths(lines) == Ok(paths) <==> PathsOf(lines, paths)
    decreases |lines|
  {
    hide SafeRuntimePath, Strip, Blank;
    if lines != [] {
      var n := |lines| - 1;
      BlankExactly(lines[n]);
      PathsReadExactly(lines[..n], paths);
      if paths != [] {
        var k := |paths| - 1;
        PathsReadExactly(lines[..n], paths[..k]);
        assert paths == paths[..k] + [paths[k]];
        assert paths[k] !in paths[..k];
      }
    }
  }

  /** The text lists these paths: in strictly ascending order, at least one of them. */
  ghost predicate ListsPaths(text: string, paths: seq<string>) {
    && paths != [] && (forall i, j | 0 <= i < j < |paths| :: Less(paths[i], paths[j]))
    && exists lines :: SplitsTo(text, lines) && PathsOf(lines, paths)
  }

  lemma ListReadExactly(text: string, paths: seq<string>)
    ensures RuntimeList(text) == Ok(paths) <==> ListsPaths(text, paths)
  {
    hide Less, SplitsTo, PathsOf, ReadPaths, SplitLines;
    forall lines ensures SplitLines(text) == lines <==> SplitsTo(text, lines) { LinesExactly(text, lines); }
    if forall i, j | 0 <= i < j < |paths| :: Less(paths[i], paths[j]) {
      AscendingIsPairwise(paths);
      PathsReadExactly(SplitLines(text), paths);
    }
  }

  // ------------------------------------------------------------------ runtime-files.sha256

  predicate HexOf(w: char, d: char) {
    exists i :: 0 <= i < 16 && d == "0123456789abcdef"[i] && (w == d || w == "0123456789ABCDEF"[i])
  }

  predicate Word(word: string) {
    word != "" && forall c | c in word :: !IsSpace(c)
  }

  lemma {:induction false} LowerExactly(word: string, digest: string)
    requires forall c | c in digest :: c in "0123456789abcdef"
    ensures Lower(word) == digest <==> |word| == |digest| && forall k | 0 <= k < |digest| :: HexOf(word[k], digest[k])
  {
    forall k | 0 <= k < |word| && k < |digest| ensures LowerChar(word[k]) == digest[k] <==> HexOf(word[k], digest[k]) {
      assert digest[k] in digest;
      HexCharExactly(word[k], digest[k]);
    }
    if |word| == |digest| && forall k | 0 <= k < |digest| :: HexOf(word[k], digest[k]) {
      assert Lower(word) == digest;
    }
    if Lower(word) == digest {
      forall k | 0 <= k < |digest| ensures HexOf(word[k], digest[k]) { assert Lower(word)[k] == LowerChar(word[k]); }
    }
  }

  lemma HexCharExactly(w: char, d: char)
    requires d in "0123456789abcdef"
    ensures LowerChar(w) == d <==> HexOf(w, d)
  {
    assert d in "0123456789" || d in "abcdef";
    if LowerChar(w) == d && w != d {
      assert 'A' <= w <= 'Z' && d as int == w as int + 32 && 'a' <= d <= 'f';
      assert "0123456789ABCDEF"[d as int - 'a' as int + 10] == w && "0123456789abcdef"[d as int - 'a' as int + 10] == d;
    }
    if LowerChar(w) == d && w == d {
      var i :| 0 <= i < 16 && "0123456789abcdef"[i] == d;
      assert HexOf(w, d);
    }
  }

  lemma {:induction false} WordEnds(word: string, rest: string)
    requires (forall c | c in word :: !IsSpace(c)) && (rest != "" ==> IsSpace(rest[0]))
    ensures SpaceAt(word + rest) == |word|
  {
    hide IsSpace;
    if word != "" {
      assert (word + rest)[1..] == word[1..] + rest && word[0] in word;
      forall c | c in word[1..] ensures !IsSpace(c) { assert c in word; }
      WordEnds(word[1..], rest);
    } else {
      assert word + rest == rest;
    }
  }

  lemma {:induction false} WordIs(s: string)
    ensures (forall c | c in s[..SpaceAt(s)] :: !IsSpace(c)) && (SpaceAt(s) < |s| ==> IsSpace(s[SpaceAt(s)]))
  {
    hide IsSpace;
    if s != "" && !IsSpace(s[0]) {
      WordIs(s[1..]);
      assert s[..SpaceAt(s)] == [s[0]] + s[1..][..SpaceAt(s[1..])];
    }
  }

  lemma {:induction false} LStripLeft(left: string, t: string)
    requires Blank(left)
    ensures LStrip(left + t) == LStrip(t)
  {
    hide IsSpace;
    if left != "" {
      assert left[0] in left && (left + t)[1..] == left[1..] + t;
      forall c | c in left[1..] ensures IsSpace(c) { assert c in left; }
      LStripLeft(left[1..], t);
    } else {
      assert left + t == t;
    }
  }

  /** The part of a line before and behind the first white space after its first word. */
  ghost predicate Halved(line: string, word: string, rest: string) {
    exists left :: line == left + word + rest && Blank(left) && Word(word) && rest != "" && IsSpace(rest[0])
  }

  lemma HalvedExactly(line: string, word: string, rest: string)
    requires Halved(line, word, rest)
    ensures SpaceAt(LStrip(line)) == |word| && LStrip(line) == word + rest
  {
    hide IsSpace;
    var left :| line == left + word + rest && Blank(left) && Word(word) && rest != "" && IsSpace(rest[0]);
    assert line == left + (word + rest) && word[0] in word;
    LStripLeft(left, word + rest);
    assert (word + rest)[0] == word[0];
    WordEnds(word, rest);
  }

  lemma HalvesAre(line: string)
    requires SplitOnce(line).Halves?
    ensures var t := LStrip(line);
            && Halved(line, SplitOnce(line).first, t[SpaceAt(t)..]) && SplitOnce(line).rest == LStrip(t[SpaceAt(t)..])
            && SplitOnce(line).first == t[..SpaceAt(t)]
  {
    hide IsSpace;
    var t := LStrip(line);
    var n := SpaceAt(t);
    LStripDrops(line);
    LStripStarts(line);
    WordIs(t);
    var left :| Blank(left) && line == left + t;
    assert t == t[..n] + t[n..] && line == left + t[..n] + t[n..];
  }

  /** A line with sixty-four hexadecimal digits in either case, white space, and a path. */
  ghost predicate Pairs(line: string, digest: string, path: string) {
    exists word, rest ::
      && Halved(line, word, rest) && SafeRuntimePath(rest) == Ok(path)
      && |word| == |digest| == 64 && forall k | 0 <= k < 64 :: HexOf(word[k], digest[k])
  }

  lemma StrippedOnce(s: string)
    ensures SafeRuntimePath(Strip(LStrip(s))) == SafeRuntimePath(s)
    ensures SafeRuntimePath(s).Ok? ==> LStrip(s) != ""
  {
    hide Parts, IsSpace;
    LStripStarts(s);
    assert LStrip(LStrip(s)) == LStrip(s);
    StripIsStripped(s);
    StripFixesExactly(Strip(s));
  }

  lemma WordIsStripped(word: string)
    requires forall c | c in word :: !IsSpace(c)
    ensures Strip(word) == word
  {
    hide IsSpace;
    StripFixesExactly(word);
  }

  lemma ShaLineExactly(line: string, digest: string, path: string)
    ensures ReadShaLine(line) == ShaLine(path, digest) <==> Pairs(line, digest, path)
    ensures ReadShaLine(line) == BlankLine <==> Blank(line)
  {
    hide SafeRuntimePath, IsSpace, IsHex64, Lower, HexOf, Strip;
    BlankExactly(line);
    if ReadShaLine(line) == ShaLine(path, digest) { ReadIsPair(line, digest, path); }
    if Pairs(line, digest, path) { PairIsRead(line, digest, path); }
  }

  lemma ReadIsPair(line: string, digest: string, path: string)
    requires ReadShaLine(line) == ShaLine(path, digest)
    ensures Pairs(line, digest, path)
  {
    hide SafeRuntimePath, IsSpace, IsHex64, Lower, HexOf, Strip, LStrip;
    HalvesAre(line);
    var t := LStrip(line);
    var word, rest := t[..SpaceAt(t)], t[SpaceAt(t)..];
    WordIs(t);
    WordIsStripped(word);
    StrippedOnce(rest);
    Hex64Exactly(digest);
    LowerExactly(word, digest);
    assert Halved(line, word, rest);
  }

  lemma PairIsRead(line: string, digest: string, path: string)
    requires Pairs(line, digest, path)
    ensures ReadShaLine(line) == ShaLine(path, digest)
  {
    hide SafeRuntimePath, IsSpace, IsHex64, Lower, HexOf, Strip, LStrip;
    var word, rest :|
      && Halved(line, word, rest) && SafeRuntimePath(rest) == Ok(path)
      && |word| == |digest| == 64 && forall k | 0 <= k < 64 :: HexOf(word[k], digest[k]);
    HalvedExactly(line, word, rest);
    assert (word + rest)[|word|..] == rest && (word + rest)[..|word|] == word;
    StrippedOnce(rest);
    WordIsStripped(word);
    HexesAreHex(word, digest);
    LowerExactly(word, digest);
    Hex64Exactly(digest);
    NotBlank(line, word, rest);
  }

  lemma HexesAreHex(word: string, digest: string)
    requires |word| == |digest| && forall k | 0 <= k < |digest| :: HexOf(word[k], digest[k])
    ensures forall c | c in digest :: c in "0123456789abcdef"
  {
    forall c | c in digest ensures c in "0123456789abcdef" {
      var k :| 0 <= k < |digest| && digest[k] == c;
      assert HexOf(word[k], c);
    }
  }

  lemma NotBlank(line: string, word: string, rest: string)
    requires Halved(line, word, rest)
    ensures Strip(line) != ""
  {
    hide IsSpace, Strip;
    BlankExactly(line);
    assert word[0] in word && word[0] in line;
  }

  /** The lines that are not blank, each a digest with its path, no path twice. */
  ghost predicate DigestsOf(lines: seq<string>, digests: map<string, string>)
    decreases |lines|
  {
    if lines == [] then digests == map[]
    else if Blank(lines[|lines| - 1]) then DigestsOf(lines[..|lines| - 1], digests)
    else exists path :: path in digests && Pairs(lines[|lines| - 1], digests[path], path) && DigestsOf(lines[..|lines| - 1], digests - {path})
  }

  lemma {:induction false} DigestsReadExactly(lines: seq<string>, digests: map<string, string>)
    ensures ReadShaLines(lines) == Ok(digests) <==> DigestsOf(lines, digests)
    decreases |lines|
  {
    hide Pairs, Blank, ReadShaLine;
    if lines != [] {
      var n := |lines| - 1;
      forall path, digest ensures ReadShaLine(lines[n]) == ShaLine(path, digest) <==> Pairs(lines[n], digest, path) {
        ShaLineExactly(lines[n], digest, path);
      }
      ShaLineExactly(lines[n], "", "");
      DigestsReadExactly(lines[..n], digests);
      forall path | path in digests ensures ReadShaLines(lines[..n]) == Ok(digests - {path}) <==> DigestsOf(lines[..n], digests - {path}) {
        DigestsReadExactly(lines[..n], digests - {path});
      }
      if ReadShaLines(lines) == Ok(digests) && !Blank(lines[n]) {
        var path, digest := ReadShaLine(lines[n]).path, ReadShaLine(lines[n]).digest;
        assert digests - {path} == ReadShaLines(lines[..n]).value;
      }
      if path :| !Blank(lines[n]) && path in digests && Pairs(lines[n], digests[path], path) && DigestsOf(lines[..n], digests - {path}) {
        assert (digests - {path})[path := digests[path]] == digests;
      }
    }
  }

  ghost predicate ListsDigests(text: string, digests: map<string, string>) {
    exists lines :: SplitsTo(text, lines) && DigestsOf(lines, digests)
  }

  /** The digest file is read exactly when each line that is not blank pairs a digest with a new path. */
  lemma DigestFileExactly(text: string, digests: map<string, string>)
    ensures ReadShaLines(SplitLines(text)) == Ok(digests) <==> ListsDigests(text, digests)
  {
    hide SplitsTo, DigestsOf, ReadShaLines, SplitLines;
    forall lines ensures SplitLines(text) == lines <==> SplitsTo(text, lines) { LinesExactly(text, lines); }
    DigestsReadExactly(SplitLines(text), digests);
  }
}
