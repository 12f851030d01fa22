/** The two text files between the lineage compiler, which prints them, and the package builder,
    which reads them back: `runtime-files.txt` and `runtime-files.sha256`. */
module LineageText {
  import opened Sorting
  import opened TextOrder
  import opened PyText
  import opened PosixPath
  import opened Platform
  import opened Wrappers

  // ------------------------------------------------------------------ lines

  function BreakAt(s: string): (n: nat)
    ensures n <= |s| && OneLine(s[..n]) && (n < |s| ==> IsBreak(s[n]))
  {
    if s == "" || IsBreak(s[0]) then 0 else
      var n := BreakAt(s[1..]);
      assert s[..n + 1] == [s[0]] + s[1..][..n];
      n + 1
  }

  /** `str.splitlines`. */
  function SplitLines(s: string): (r: seq<string>)
    ensures forall line | line in r :: OneLine(line)
  {
    if s == "" then [] else
      var n := BreakAt(s);
      if n == |s| then (assert s[..n] == s; [s])
      else [s[..n]] + SplitLines(s[n + (if s[n] == '\r' && n + 1 < |s| && s[n + 1] == '\n' then 2 else 1)..])
  }

  /** `"".join(f"{line}\n" for line in lines)`. */
  function PrintLines(lines: seq<string>): string {
    if lines == [] then "" else lines[0] + "\n" + PrintLines(lines[1..])
  }

  lemma {:induction false} BreakAtEnd(line: string, rest: string)
    requires OneLine(line)
    ensures BreakAt(line + "\n" + rest) == |line|
  {
    var s := line + "\n" + rest;
    if line != "" {
      assert s[1..] == line[1..] + "\n" + rest;
      BreakAtEnd(line[1..], rest);
    }
  }

  /** Printed lines without breaks of their own are split back as they were. */
  lemma {:induction false} SplitPrinted(lines: seq<string>)
    requires forall line | line in lines :: OneLine(line)
    ensures SplitLines(PrintLines(lines)) == lines
  {
    if lines != [] {
      var s := PrintLines(lines);
      BreakAtEnd(lines[0], PrintLines(lines[1..]));
      assert s[..|lines[0]|] == lines[0];
      assert s[|lines[0]| + 1..] == PrintLines(lines[1..]);
      SplitPrinted(lines[1..]);
      assert lines == [lines[0]] + lines[1..];
    }
  }

  // ------------------------------------------------------------------ runtime-files.txt

  /** The non-blank lines of the list, read as paths; Err where a line is no safe path. */
  function ReadPaths(lines: seq<string>): Result<seq<string>> {
    if lines == [] then Ok([]) else
      var front := ReadPaths(lines[..|lines| - 1]);
      var line := lines[|lines| - 1];
      if front.Err? then Err
      else if Strip(line) == "" then front
      else
        var path := SafeRuntimePath(line);
        if path.Err? || path.value in front.value then Err else Ok(front.value + [path.value])
  }

  /** `runtime_paths`: the list must be non-empty, without duplicates, and sorted. */
  function RuntimeList(text: string): Result<seq<string>> {
    var paths := ReadPaths(SplitLines(text));
    if paths.Err? || paths.value == [] || !Ascending(paths.value, Less) then Err else paths
  }

  method ReadRuntimePaths(text: string) returns (r: Result<seq<string>>)
    ensures r == RuntimeList(text)
  {
    hide SplitLines, SafeRuntimePath, Strip, Less, Ascending, IsBreak, IsSpace;
    var lines := SplitLines(text);
    var result, seen: set<string> := [], {};
    for i := 0 to |lines|
      invariant ReadPaths(lines[..i]) == Ok(result) && seen == Elements(result)
    {
      assert lines[..i + 1][..i] == lines[..i];
      if Strip(lines[i]) != "" {
        var path := SafeRuntimePath(lines[i]);
        if path.Err? || path.value in seen {
          ReadPathsFails(lines, i + 1);
          return Err;
        }
        assert Elements(result + [path.value]) == Elements(result) + {path.value};
        seen, result := seen + {path.value}, result + [path.value];
      }
    }
    assert lines[..|lines|] == lines;
    if result == [] || !Ascending(result, Less) { return Err; }
    r := Ok(result);
  }

  lemma {:induction false} ReadPathsFails(lines: seq<string>, i: nat)
    requires i <= |lines| && ReadPaths(lines[..i]).Err?
    ensures ReadPaths(lines).Err?
    decreases |lines|
  {
    if i < |lines| {
      var front := lines[..|lines| - 1];
      assert front[..i] == lines[..i];
      ReadPathsFails(front, i);
    } else {
      assert lines[..i] == lines;
    }
  }

  lemma {:induction false} ReadPathsShape(lines: seq<string>)
    requires ReadPaths(lines).Ok? && forall line | line in lines :: OneLine(line)
    ensures |ReadPaths(lines).value| <= |lines|
    ensures ReadPaths(lines).value == lines ==> forall line | line in lines :: SafeRuntimePath(line) == Ok(line)
  {
    hide SafeRuntimePath, Strip, OneLine;
    if lines != [] {
      var n := |lines| - 1;
      ReadPathsShape(lines[..n]);
      assert lines == lines[..n] + [lines[n]];
    }
  }

  predicate Pairwise(paths: seq<string>) {
    forall i, j | 0 <= i < j < |paths| :: paths[i] != paths[j]
  }

  lemma AscendingIsPairwise(paths: seq<string>)
    requires Ascending(paths, Less)
    ensures Pairwise(paths)
  {
    forall i, j | 0 <= i < j < |paths| ensures paths[i] != paths[j] {
      LessIrreflexive(paths[i]);
    }
  }

  lemma {:induction false} ReadLegal(paths: seq<string>)
    requires Pairwise(paths) && forall p | p in paths :: Legal(p)
    ensures ReadPaths(paths) == Ok(paths)
  {
    hide Strip, SafeRuntimePath, OneLine;
    if paths != [] {
      var n := |paths| - 1;
      assert forall p | p in paths[..n] :: p in paths;
      ReadLegal(paths[..n]);
      assert paths[n] in paths;
      LegalIsStripped(paths[n]);
      assert paths == paths[..n] + [paths[n]];
    }
  }

  // ------------------------------------------------------------------ reading adds no line breaks

  lemma {:induction false} SplitOneLine(s: string)
    requires OneLine(s)
    ensures forall part | part in Split(s) :: OneLine(part)
  {
    if s != "" {
      SplitOneLine(s[1..]);
      var r := Split(s[1..]);
      assert r[0] in r;
      assert forall part | part in Split(s) :: part in r || part == "" || part == [s[0]] + r[0];
    }
  }

  lemma {:induction false} JoinOneLine(parts: seq<string>)
    requires forall part | part in parts :: OneLine(part)
    ensures OneLine(Join(parts))
  {
    if |parts| > 1 {
      assert parts[0] in parts;
      JoinOneLine(parts[1..]);
    }
  }

  lemma {:induction false} KeepOneLine(parts: seq<string>)
    requires forall part | part in parts :: OneLine(part)
    ensures forall part | part in Keep(parts) :: OneLine(part)
  {
    if parts != [] {
      assert parts[0] in parts;
      KeepOneLine(parts[1..]);
    }
  }

  lemma {:induction false} LStripOneLine(s: string)
    requires OneLine(s)
    ensures OneLine(LStrip(s))
  {
    if s != "" { LStripOneLine(s[1..]); }
  }

  lemma {:induction false} RStripOneLine(s: string)
    requires OneLine(s)
    ensures OneLine(RStrip(s))
  {
    if s != "" { RStripOneLine(s[..|s| - 1]); }
  }

  lemma SafePathIsOneLine(line: string)
    requires OneLine(line) && SafeRuntimePath(line).Ok?
    ensures OneLine(SafeRuntimePath(line).value)
  {
    LStripOneLine(line);
    RStripOneLine(LStrip(line));
    SplitOneLine(Strip(line));
    KeepOneLine(Split(Strip(line)));
    JoinOneLine(Parts(Strip(line)));
  }

  lemma {:induction false} ReadPathsOneLine(lines: seq<string>)
    requires ReadPaths(lines).Ok? && forall line | line in lines :: OneLine(line)
    ensures forall p | p in ReadPaths(lines).value :: OneLine(p)
  {
    hide Strip, SafeRuntimePath, OneLine;
    if lines != [] {
      var n := |lines| - 1;
      assert lines[n] in lines && forall line | line in lines[..n] :: line in lines;
      ReadPathsOneLine(lines[..n]);
      if SafeRuntimePath(lines[n]).Ok? { SafePathIsOneLine(lines[n]); }
    }
  }

  /** Whatever text is read, the paths that come out are one-line paths. */
  lemma ReadMeansOneLine(text: string)
    requires RuntimeList(text).Ok?
    ensures forall p | p in RuntimeList(text).value :: OneLine(p)
  {
    ReadPathsOneLine(SplitLines(text));
  }

  /** Printer and parser are inverse on a list exactly when it is a non-empty sorted list of legal
      paths: that is all the compiler has to guarantee, and nothing less will do. */
  lemma RuntimeListRoundTrip(paths: seq<string>)
    ensures RuntimeList(PrintLines(paths)) == Ok(paths) <==>
            paths != [] && Ascending(paths, Less) && forall p | p in paths :: Legal(p)
  {
    hide Less, SafeRuntimePath, OneLine, Ascending, ReadPaths;
    if RuntimeList(PrintLines(paths)) == Ok(paths) {
      ReadMeansOneLine(PrintLines(paths));
      SplitPrinted(paths);
      ReadPathsShape(paths);
    }
    if paths != [] && Ascending(paths, Less) && forall p | p in paths :: Legal(p) {
      SplitPrinted(paths);
      AscendingIsPairwise(paths);
      ReadLegal(paths);
    }
  }

  // ------------------------------------------------------------------ runtime-files.sha256

  function SpaceAt(s: string): (n: nat)
    ensures n <= |s|
  {
    if s == "" || IsSpace(s[0]) then 0 else 1 + SpaceAt(s[1..])
  }

  datatype Halves = Halves(first: string, rest: string) | Whole

  /** `line.split(None, 1)`, when it has two pieces. */
  function SplitOnce(line: string): Halves {
    var t := LStrip(line);
    var n := SpaceAt(t);
    var rest := LStrip(t[n..]);
    if n == |t| || rest == "" then Whole else Halves(t[..n], rest)
  }

  datatype ShaLine = ShaLine(path: string, digest: string) | BlankLine | Bad

  function ReadShaLine(line: string): ShaLine {
    if Strip(line) == "" then BlankLine else
      var halves := SplitOnce(line);
      if halves.Whole? then Bad else
        var path := SafeRuntimePath(Strip(halves.rest));
        var digest := Lower(Strip(halves.first));
        if path.Err? || !IsHex64(digest) then Bad else ShaLine(path.value, digest)
  }

  function ReadShaLines(lines: seq<string>): Result<map<string, string>> {
    if lines == [] then Ok(map[]) else
      var front := ReadShaLines(lines[..|lines| - 1]);
      if front.Err? then Err else
        match ReadShaLine(lines[|lines| - 1])
        case BlankLine => front
        case Bad => Err
        case ShaLine(path, digest) => if path in front.value then Err else Ok(front.value[path := digest])
  }

  /** `parse_sha_file`. */
  method ParseShaFile(text: string) returns (r: Result<map<string, string>>)
    ensures r == ReadShaLines(SplitLines(text))
  {
    hide ReadShaLine, SplitLines;
    var lines := SplitLines(text);
    var result: map<string, string> := map[];
    for i := 0 to |lines|
      invariant ReadShaLines(lines[..i]) == Ok(result)
    {
      assert lines[..i + 1][..i] == lines[..i];
      match ReadShaLine(lines[i]) {
        case BlankLine =>
        case Bad =>
          ReadShaFails(lines, i + 1);
          return Err;
        case ShaLine(path, digest) =>
          if path in result {
            ReadShaFails(lines, i + 1);
            return Err;
          }
          result := result[path := digest];
      }
    }
    assert lines[..|lines|] == lines;
    r := Ok(result);
  }

  lemma {:induction false} ReadShaFails(lines: seq<string>, i: nat)
    requires i <= |lines| && ReadShaLines(lines[..i]).Err?
    ensures ReadShaLines(lines).Err?
    decreases |lines|
  {
    if i < |lines| {
      var front := lines[..|lines| - 1];
      assert front[..i] == lines[..i];
      ReadShaFails(front, i);
    } else {
      assert lines[..i] == lines;
    }
  }

  /** A line of `runtime-files.sha256` as `write_outputs` prints it. */
  function ShaText(digest: string, path: string): string {
    digest + "  " + path
  }

  lemma {:induction false} SpaceAfterWord(word: string, rest: string)
    requires forall c | c in word :: !IsSpace(c)
    ensures SpaceAt(word + "  " + rest) == |word|
  {
    if word != "" {
      assert (word + "  " + rest)[1..] == word[1..] + "  " + rest;
      SpaceAfterWord(word[1..], rest);
    }
  }

  lemma HexHasNoSpace(digest: string)
    requires IsHex64(digest)
    ensures forall c | c in digest :: !IsSpace(c) && !IsBreak(c)
    ensures Lower(digest) == digest
  {
    forall i | 0 <= i < |digest| ensures !('A' <= digest[i] <= 'Z') { assert digest[i] in digest; }
  }

  lemma LStripOfStart(s: string)
    requires s != "" && !IsSpace(s[0])
    ensures LStrip(s) == s
  {
  }

  lemma SplitPrintedSha(digest: string, path: string)
    requires IsHex64(digest) && Stripped(path) && path != ""
    ensures SplitOnce(ShaText(digest, path)) == Halves(digest, path) && Strip(ShaText(digest, path)) != ""
  {
    hide IsHex64, IsSpace, IsBreak;
    var line := ShaText(digest, path);
    HexHasNoSpace(digest);
    SpaceAfterWord(digest, path);
    assert !IsSpace(path[0]);
    HexStarts(digest);
    assert line[0] == digest[0];
    LStripOfStart(line);
    assert line[64..] == "  " + path && line[..64] == digest;
    LStripOfSpaces(path);
    assert line[|line| - 1] == path[|path| - 1] && Stripped(line);
    StripFixesExactly(line);
  }

  lemma HexStarts(digest: string)
    requires IsHex64(digest)
    ensures |digest| == 64 && !IsSpace(digest[0])
  {
    assert digest[0] in digest;
  }

  lemma LStripOfSpaces(path: string)
    requires path != "" && !IsSpace(path[0])
    ensures LStrip("  " + path) == path
  {
    var one := " " + path;
    assert one[1..] == path && LStrip(path) == path;
    assert ("  " + path)[1..] == one && LStrip(one) == path;
  }

  lemma OneLineConcat(a: string, b: string)
    requires OneLine(a) && OneLine(b)
    ensures OneLine(a + b)
  {
  }

  lemma ReadPrintedSha(digest: string, path: string)
    requires IsHex64(digest) && Legal(path)
    ensures ReadShaLine(ShaText(digest, path)) == ShaLine(path, digest) && OneLine(ShaText(digest, path))
  {
    hide SafeRuntimePath, OneLine, SplitOnce, IsHex64, IsSpace, IsBreak, Lower;
    LegalIsStripped(path);
    HexHasNoSpace(digest);
    SplitPrintedSha(digest, path);
    HexIsOneLine(digest);
    OneLineConcat(digest + "  ", path);
  }

  lemma HexIsOneLine(digest: string)
    requires IsHex64(digest)
    ensures OneLine(digest + "  ") && Strip(digest) == digest
  {
    HexHasNoSpace(digest);
    assert digest[0] in digest && digest[63] in digest;
    StripFixesExactly(digest);
  }

  function ShaLines(paths: seq<string>, digest: string -> string): seq<string> {
    seq(|paths|, i requires 0 <= i < |paths| => ShaText(digest(paths[i]), paths[i]))
  }

  /** The printed digest file is read back as the map it lists. */
  lemma {:induction false} ReadPrintedShas(paths: seq<string>, digest: string -> string)
    requires Pairwise(paths) && forall p | p in paths :: Legal(p) && IsHex64(digest(p))
    ensures ReadShaLines(ShaLines(paths, digest)) == Ok(map p | p in paths :: digest(p))
    ensures forall line | line in ShaLines(paths, digest) :: OneLine(line)
  {
    hide Legal, ReadShaLine, OneLine, ShaText, IsHex64;
    if paths != [] {
      var n := |paths| - 1;
      assert forall p | p in paths[..n] :: p in paths;
      ReadPrintedShas(paths[..n], digest);
      assert paths[n] in paths;
      ReadPrintedSha(digest(paths[n]), paths[n]);
      ShaLinesSplit(paths, digest);
      MapSplit(paths, digest);
    }
  }

  lemma ShaLinesSplit(paths: seq<string>, digest: string -> string)
    requires paths != []
    ensures var n := |paths| - 1;
            ShaLines(paths, digest)[..n] == ShaLines(paths[..n], digest) &&
            ShaLines(paths, digest) == ShaLines(paths[..n], digest) + [ShaText(digest(paths[n]), paths[n])]
  {
    hide ShaText;
  }

  lemma MapSplit(paths: seq<string>, digest: string -> string)
    requires paths != [] && Pairwise(paths)
    ensures var n := |paths| - 1;
            && paths[n] !in paths[..n]
            && (map p | p in paths :: digest(p)) == (map p | p in paths[..n] :: digest(p))[paths[n] := digest(paths[n])]
  {
    assert paths == paths[..|paths| - 1] + [paths[|paths| - 1]];
  }
}
