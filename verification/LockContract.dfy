/** What a line of a lock file is, told by its text: which lines count, which include another file, which
    are exact pins, and under which name; and which installed packages the environment lists. */
module LockContract {
  import opened Sorting
  import opened TextOrder
  import opened PyText
  import opened DependencyLock

  // ------------------------------------------------------------------ lines

  /** The line, less its white space, is blank or a comment. */
  ghost predicate SaysNothing(line: string) {
    line == "" || exists rest :: line == "#" + rest
  }

  ghost predicate IncludesIt(line: string, nested: string) {
    exists rest :: (line == "-r " + rest || line == "--requirement " + rest) && nested == Strip(rest)
  }

  lemma ClassifyExactly(raw: string)
    ensures Classify(raw) == Skip <==> SaysNothing(Strip(raw))
    ensures forall nested :: Classify(raw) == Include(nested) <==> IncludesIt(Strip(raw), nested)
    ensures forall line :: Classify(raw) == Entry(line) <==>
              line == Strip(raw) && !SaysNothing(line) && forall nested :: !IncludesIt(line, nested)
  {
    hide Strip;
    var line := Strip(raw);
    StartsWith(line, "#");
    StartsWith(line, "-r ");
    StartsWith(line, "--requirement ");
    assert "#" <= line <==> line != "" && line[0] == '#';
    assert !("-r " <= line && "--requirement " <= line) by { assert "-r "[1] != "--requirement "[1]; }
    if "-r " <= line { assert IncludesIt(line, Strip(line[3..])); }
    if "--requirement " <= line { assert IncludesIt(line, Strip(line[14..])); }
  }

  lemma StartsWith(line: string, prefix: string)
    ensures prefix <= line ==> line == prefix + line[|prefix|..]
    ensures forall rest :: line == prefix + rest ==> prefix <= line && rest == line[|prefix|..]
  {
  }

  // ------------------------------------------------------------------ pins

  /** The characters of `[A-Za-z0-9_.-]`. */
  predicate InNames(c: char) {
    || c in "ABCDEFGHIJKLM" || c in "NOPQRSTUVWXYZ" || c in "abcdefghijklm" || c in "nopqrstuvwxyz"
    || c in "0123456789" || c in "_.-"
  }

  /** A name, two equals signs, and a version without white space and semicolon. */
  ghost predicate PinIs(line: string, name: string, version: string) {
    && line == name + "==" + version && name != "" && version != ""
    && (forall c | c in name :: InNames(c)) && forall c | c in version :: !IsSpace(c) && c != ';'
  }

  lemma NameCharExactly(c: char)
    ensures IsNameChar(c) <==> InNames(c)
  {
    FirstCapitalsExactly(c);
    LastCapitalsExactly(c);
    FirstLettersExactly(c);
    LastLettersExactly(c);
    DigitExactly(c);
    assert c in "_.-" <==> c == '_' || c == '.' || c == '-' by { SignExactly(c); }
  }

  lemma FirstCapitalsExactly(c: char)
    ensures c in "ABCDEFGHIJKLM" <==> 'A' <= c <= 'M'
  {
    if 'A' <= c <= 'M' { assert "ABCDEFGHIJKLM"[c as int - 'A' as int] == c; }
  }

  lemma LastCapitalsExactly(c: char)
    ensures c in "NOPQRSTUVWXYZ" <==> 'N' <= c <= 'Z'
  {
    if 'N' <= c <= 'Z' { assert "NOPQRSTUVWXYZ"[c as int - 'N' as int] == c; }
  }

  lemma FirstLettersExactly(c: char)
    ensures c in "abcdefghijklm" <==> 'a' <= c <= 'm'
  {
    if 'a' <= c <= 'm' { assert "abcdefghijklm"[c as int - 'a' as int] == c; }
  }

  lemma LastLettersExactly(c: char)
    ensures c in "nopqrstuvwxyz" <==> 'n' <= c <= 'z'
  {
    if 'n' <= c <= 'z' { assert "nopqrstuvwxyz"[c as int - 'n' as int] == c; }
  }

  lemma DigitExactly(c: char)
    ensures c in "0123456789" <==> '0' <= c <= '9'
  {
    if '0' <= c <= '9' { assert "0123456789"[c as int - '0' as int] == c; }
  }

  lemma SignExactly(c: char)
    ensures c in "_.-" <==> c == '_' || c == '.' || c == '-'
  {
    assert "_.-"[0] == '_' && "_.-"[1] == '.' && "_.-"[2] == '-';
  }

  lemma NameIs(line: string, name: string, version: string)
    requires line == name + "==" + version && forall c | c in name :: IsNameChar(c)
    ensures NameLength(line) == |name|
  {
    var n := NameLength(line);
    assert line[|name|] == '=' && !IsNameChar('=');
    assert forall i | 0 <= i < |name| :: line[i] == name[i] && name[i] in name;
  }

  lemma ParsePinExactly(line: string, key: string, version: string)
    ensures ParsePin(line) == Pin(key, version) <==> exists name :: PinIs(line, name, version) && key == CanonicalName(name)
  {
    hide CanonicalName, IsNameChar, IsSpace;
    forall c ensures IsNameChar(c) <==> InNames(c) { NameCharExactly(c); }
    hide InNames;
    var n := NameLength(line);
    if ParsePin(line) == Pin(key, version) {
      assert line == line[..n] + "==" + version;
      assert PinIs(line, line[..n], version);
    }
    if name :| PinIs(line, name, version) && key == CanonicalName(name) {
      NameIs(line, name, version);
      assert line[..n] == name && line[n..n + 2] == "==" && line[n + 2..] == version;
    }
  }

  // ------------------------------------------------------------------ names

  ghost predicate Separators(run: string) {
    run != "" && forall c | c in run :: c == '-' || c == '_' || c == '.'
  }

  /** The same letter, small. */
  predicate Small(c: char, d: char) {
    if 'A' <= c <= 'Z' then d as int == c as int + 32 else d == c
  }

  /** A run of separators becomes one hyphen, and every other character its small letter. */
  lemma CanonicalNameExactly(run: string, c: char, rest: string)
    requires !(c == '-' || c == '_' || c == '.')
    ensures CanonicalName("") == ""
    ensures exists d :: Small(c, d) && CanonicalName([c] + rest) == [d] + CanonicalName(rest)
    ensures Separators(run) ==> CanonicalName(run) == "-" && CanonicalName(run + [c] + rest) == "-" + CanonicalName([c] + rest)
  {
    assert ([c] + rest)[1..] == rest;
    assert Small(c, LowerChar(c));
    if Separators(run) {
      var whole := run + [c] + rest;
      assert whole[0] == run[0] && run[0] in run && whole[1..] == run[1..] + ([c] + rest) && run[1..] + "" == run[1..];
      assert forall x | x in run[1..] :: x in run;
      DropsRun(run[1..], [c] + rest);
      DropsRun(run[1..], "");
    }
  }

  lemma {:induction false} DropsRun(run: string, rest: string)
    requires (forall c | c in run :: c == '-' || c == '_' || c == '.') && (rest == "" || !(rest[0] == '-' || rest[0] == '_' || rest[0] == '.'))
    ensures DropSeparators(run + rest) == rest
  {
    if run == "" {
      assert run + rest == rest;
    } else {
      assert run[0] in run && (run + rest)[1..] == run[1..] + rest && forall x | x in run[1..] :: x in run;
      DropsRun(run[1..], rest);
    }
  }

  // ------------------------------------------------------------------ the environment

  /** Packages that come with the interpreter. */
  predicate ComesWithPython(name: string) {
    name == "pip" || name == "setuptools" || name == "wheel"
  }

  lemma BootstrapExactly(name: string)
    ensures name in BOOTSTRAP <==> ComesWithPython(name)
  {
  }

  /** One line for each installed package that does not come with Python, in the order of the names. */
  lemma EnvironmentExactly(installed: map<string, string>)
    ensures exists names: seq<string> ::
              && Ascending(names, Less) && (forall name :: name in names <==> name in installed && !ComesWithPython(name))
              && |EnvironmentLines(installed)| == |names|
              && forall i | 0 <= i < |names| && names[i] in installed :: EnvironmentLines(installed)[i] == names[i] + "==" + installed[names[i]]
  {
    hide Less, SortText, EnvironmentLines;
    forall name ensures name in BOOTSTRAP <==> ComesWithPython(name) { BootstrapExactly(name); }
    hide ComesWithPython, BOOTSTRAP, Ascending;
    var names := SortText(installed.Keys - BOOTSTRAP);
    assert forall name :: name in names <==> name in Elements(names);
    LinesOf(installed, names);
  }

  lemma LinesOf(installed: map<string, string>, names: seq<string>)
    requires names == SortText(installed.Keys - BOOTSTRAP)
    ensures |EnvironmentLines(installed)| == |names|
    ensures forall i | 0 <= i < |names| && names[i] in installed :: EnvironmentLines(installed)[i] == names[i] + "==" + installed[names[i]]
  {
    hide Less, SortText, BOOTSTRAP;
  }

  /** An environment is strictly verified exactly if it has the pinned packages at the pinned versions, and
      otherwise only what comes with Python. */
  lemma VerifiedExactly(pins: map<string, string>, installed: map<string, string>)
    ensures Matches(pins, installed) <==> forall name :: name in pins ==> name in installed && installed[name] == pins[name]
    ensures NoExtras(pins, installed) <==> forall name :: name in installed ==> name in pins || ComesWithPython(name)
  {
    forall name ensures name in BOOTSTRAP <==> ComesWithPython(name) { BootstrapExactly(name); }
    hide ComesWithPython, BOOTSTRAP;
  }
}
