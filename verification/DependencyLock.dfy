/** scripts/check_dependency_lock.py: a recursive lock file, and the environment it has to describe. */
module DependencyLock {
  import opened Sorting
  import opened TextOrder
  import opened PyText

  type Path = string

  /** The lock files as `read_text().splitlines()` shows them, and the resolution of a nested name. */
  datatype Tree = Tree(files: map<Path, seq<string>>, resolve: (Path, string) -> Path)

  // ------------------------------------------------------------------ one line

  datatype Item = Skip | Include(nested: string) | Entry(line: string)

  function Classify(raw: string): Item {
    var line := Strip(raw);
    if line == "" || line[0] == '#' then Skip
    else if "-r " <= line then Include(Strip(line[3..]))
    else if "--requirement " <= line then Include(Strip(line[14..]))
    else Entry(line)
  }

  datatype Yield = Yield(source: Path, number: nat, line: string)

  /** The lines a file contributes by itself, with their one-based numbers. */
  function OwnLines(source: Path, raws: seq<string>): seq<Yield> {
    if raws == [] then [] else
      OwnLines(source, raws[..|raws| - 1]) +
      match Classify(raws[|raws| - 1])
      case Entry(line) => [Yield(source, |raws|, line)]
      case _ => []
  }

  function Lines(t: Tree, p: Path): seq<string> {
    if p in t.files then t.files[p] else []
  }

  /** The files a file includes. */
  function Targets(t: Tree, p: Path, raws: seq<string>): set<Path> {
    set raw | raw in raws && Classify(raw).Include? :: t.resolve(p, Classify(raw).nested)
  }

  ghost predicate Closed(t: Tree, s: set<Path>) {
    forall p | p in s :: Targets(t, p, Lines(t, p)) <= s
  }

  /** `files` is the least set that holds `root` and every file its members include. */
  ghost predicate IsReach(t: Tree, root: Path, files: set<Path>) {
    root in files && Closed(t, files) && forall s | root in s && Closed(t, s) :: files <= s
  }

  /** The part of a listing that stems from one file. */
  function From(out: seq<Yield>, p: Path): seq<Yield> {
    if out == [] then [] else
      From(out[..|out| - 1], p) + if out[|out| - 1].source == p then [out[|out| - 1]] else []
  }

  lemma {:induction false} FromConcat(a: seq<Yield>, b: seq<Yield>, p: Path)
    ensures From(a + b, p) == From(a, p) + From(b, p)
  {
    if b == [] {
      assert a + b == a;
    } else {
      var n := |b| - 1;
      assert (a + b)[..|a + b| - 1] == a + b[..n];
      FromConcat(a, b[..n], p);
    }
  }

  lemma FromOne(y: Yield, p: Path)
    ensures From([y], p) == if y.source == p then [y] else []
  {
    assert [y][..0] == [];
  }

  // ------------------------------------------------------------------ the walk

  /** The files entered by a walk have been read to the end: their includes are visited too. */
  ghost predicate Entered(t: Tree, before: set<Path>, after: set<Path>) {
    before <= after && forall p | p in after - before :: p in t.files && Targets(t, p, t.files[p]) <= after
  }

  /** Each entered file contributed exactly its own lines, and no other file anything. */
  ghost predicate Contributes(t: Tree, fresh_: set<Path>, out: seq<Yield>) {
    forall p :: From(out, p) == if p in fresh_ && p in t.files then OwnLines(p, t.files[p]) else []
  }

  /** `iter_lock_lines`: a depth-first walk with a shared visited set. It fails only on a file that
      cannot be read. */
  method IterLockLines(t: Tree, path: Path, seen: set<Path>) returns (ok: bool, visited: set<Path>, out: seq<Yield>)
    ensures ok ==> Entered(t, seen, visited) && path in visited && Contributes(t, visited - seen, out)
    ensures forall s | path in s && Closed(t, s) :: visited <= seen + s
    ensures !ok ==> exists p :: p in visited && p !in t.files && p !in seen
    decreases t.files.Keys - seen
  {
    hide Classify, From, OwnLines, Targets, Closed;
    if path in seen {
      NothingFresh(t, seen);
      return true, seen, [];
    }
    visited, out := seen + {path}, [];
    if path !in t.files { return false, visited, []; }
    var raws := t.files[path];
    ProgressStart(t, path, seen);
    for i := 0 to |raws|
      invariant Progress(t, path, raws[..i], seen, visited, out)
      invariant forall s | path in s && Closed(t, s) :: visited <= seen + s
    {
      assert raws[..i + 1] == raws[..i] + [raws[i]];
      match Classify(raws[i]) {
        case Skip =>
          ProgressSkip(t, path, raws[..i], raws[i], seen, visited, out);
        case Include(nested) =>
          var target := t.resolve(path, nested);
          forall s | path in s && Closed(t, s) ensures target in s { IncludedIsReached(t, path, i, s); }
          var ok', visited', out' := IterLockLines(t, target, visited);
          if !ok' { return false, visited', out; }
          ProgressInclude(t, path, raws[..i], raws[i], seen, visited, out, visited', out');
          visited, out := visited', out + out';
        case Entry(line) =>
          ProgressEntry(t, path, raws[..i], raws[i], seen, visited, out);
          out := out + [Yield(path, i + 1, line)];
      }
    }
    assert raws[..|raws|] == raws;
    ok := true;
  }

  lemma NothingFresh(t: Tree, seen: set<Path>)
    ensures Entered(t, seen, seen) && Contributes(t, seen - seen, [])
  {
  }

  /** Half-way through a file: its lines so far are listed, its includes so far are visited, and every
      other file entered since `seen` is done with. */
  ghost predicate Progress(t: Tree, path: Path, read: seq<string>, seen: set<Path>, visited: set<Path>, out: seq<Yield>) {
    && seen + {path} <= visited && path !in seen && path in t.files
    && (forall p | p in visited - seen - {path} :: p in t.files && Targets(t, p, t.files[p]) <= visited)
    && Targets(t, path, read) <= visited
    && (forall p :: From(out, p) ==
          if p == path then OwnLines(path, read)
          else if p in visited - seen && p in t.files then OwnLines(p, t.files[p]) else [])
  }

  lemma ProgressStart(t: Tree, path: Path, seen: set<Path>)
    requires path !in seen && path in t.files
    ensures Progress(t, path, t.files[path][..0], seen, seen + {path}, [])
  {
  }

  lemma ProgressSkip(t: Tree, path: Path, read: seq<string>, raw: string, seen: set<Path>, visited: set<Path>, out: seq<Yield>)
    requires Progress(t, path, read, seen, visited, out) && Classify(raw).Skip?
    ensures Progress(t, path, read + [raw], seen, visited, out)
  {
    hide Classify, From, Targets, OwnLines;
    OwnLinesStep(path, read, raw);
    TargetsStep(t, path, read, raw);
  }

  lemma ProgressEntry(t: Tree, path: Path, read: seq<string>, raw: string, seen: set<Path>, visited: set<Path>, out: seq<Yield>)
    requires Progress(t, path, read, seen, visited, out) && Classify(raw).Entry?
    ensures Progress(t, path, read + [raw], seen, visited, out + [Yield(path, |read| + 1, Classify(raw).line)])
  {
    hide Classify, From, Targets, OwnLines;
    OwnLinesStep(path, read, raw);
    TargetsStep(t, path, read, raw);
    var y := Yield(path, |read| + 1, Classify(raw).line);
    forall p ensures From(out + [y], p) == From(out, p) + (if p == path then [y] else []) {
      FromConcat(out, [y], p);
      FromOne(y, p);
    }
  }

  lemma ProgressInclude(t: Tree, path: Path, read: seq<string>, raw: string, seen: set<Path>, visited: set<Path>, out: seq<Yield>,
                        visited': set<Path>, out': seq<Yield>)
    requires Progress(t, path, read, seen, visited, out) && Classify(raw).Include?
    requires Entered(t, visited, visited') && t.resolve(path, Classify(raw).nested) in visited'
    requires Contributes(t, visited' - visited, out')
    ensures Progress(t, path, read + [raw], seen, visited', out + out')
  {
    hide Classify, From, Targets, OwnLines;
    OwnLinesStep(path, read, raw);
    TargetsStep(t, path, read, raw);
    forall p ensures From(out + out', p) == From(out, p) + From(out', p) { FromConcat(out, out', p); }
  }

  lemma OwnLinesStep(path: Path, read: seq<string>, raw: string)
    ensures OwnLines(path, read + [raw]) ==
              OwnLines(path, read) + if Classify(raw).Entry? then [Yield(path, |read| + 1, Classify(raw).line)] else []
  {
    hide Classify;
    assert (read + [raw])[..|read|] == read;
  }

  lemma TargetsStep(t: Tree, path: Path, read: seq<string>, raw: string)
    ensures Targets(t, path, read + [raw]) ==
              Targets(t, path, read) + if Classify(raw).Include? then {t.resolve(path, Classify(raw).nested)} else {}
  {
    hide Classify;
  }

  lemma IncludedIsReached(t: Tree, path: Path, i: nat, s: set<Path>)
    requires path in s && Closed(t, s) && path in t.files && i < |t.files[path]| && Classify(t.files[path][i]).Include?
    ensures t.resolve(path, Classify(t.files[path][i]).nested) in s
  {
    assert t.resolve(path, Classify(t.files[path][i]).nested) in Targets(t, path, Lines(t, path));
  }

  /** A walk from nothing, if it ends well, has visited exactly the files reachable by includes, and
      lists each one's lines exactly once, in order. */
  method LockLines(t: Tree, root: Path) returns (ok: bool, visited: set<Path>, out: seq<Yield>)
    ensures ok ==> IsReach(t, root, visited) && visited <= t.files.Keys && Contributes(t, visited, out)
    ensures !ok ==> exists p :: p !in t.files && forall s | root in s && Closed(t, s) :: p in s
  {
    ok, visited, out := IterLockLines(t, root, {});
    if ok {
      assert visited - {} == visited;
    } else {
      var p :| p in visited && p !in t.files;
      assert forall s | root in s && Closed(t, s) :: p in {} + s;
    }
  }

  // ------------------------------------------------------------------ names and pins

  predicate IsSeparator(c: char) { c == '-' || c == '_' || c == '.' }

  function DropSeparators(s: string): string {
    if s != "" && IsSeparator(s[0]) then DropSeparators(s[1..]) else s
  }

  lemma {:induction false} DropShrinks(s: string)
    ensures |DropSeparators(s)| <= |s|
  {
    if s != "" { DropShrinks(s[1..]); }
  }

  /** `canonical_name`, the "Normalized Names" rule of PEP 503: every run of separators is one hyphen,
      letters are lower case. */
  function CanonicalName(s: string): string
    decreases |s|
  {
    if s == "" then ""
    else if IsSeparator(s[0]) then
      DropShrinks(s[1..]);
      "-" + CanonicalName(DropSeparators(s[1..]))
    else [LowerChar(s[0])] + CanonicalName(s[1..])
  }

  /** A name in normal form: lower case, and separators only as single hyphens. */
  predicate Normal(s: string) {
    forall i | 0 <= i < |s| :: NormalAt(s, i)
  }

  predicate NormalAt(s: string, i: nat)
    requires i < |s|
  {
    LowerChar(s[i]) == s[i] && (IsSeparator(s[i]) ==> s[i] == '-' && (i + 1 < |s| ==> !IsSeparator(s[i + 1])))
  }

  lemma {:induction false} CanonicalStart(s: string)
    requires s != "" && !IsSeparator(s[0])
    ensures CanonicalName(s) != "" && !IsSeparator(CanonicalName(s)[0])
  {
  }

  lemma {:induction false} DropStops(s: string)
    ensures DropSeparators(s) == "" || !IsSeparator(DropSeparators(s)[0])
  {
    if s != "" { DropStops(s[1..]); }
  }

  lemma NormalPrepend(c: char, s: string)
    requires LowerChar(c) == c && (IsSeparator(c) ==> c == '-' && (s != "" ==> !IsSeparator(s[0])))
    ensures Normal([c] + s) <==> Normal(s)
  {
    var t := [c] + s;
    assert NormalAt(t, 0);
    forall i | 0 <= i < |s| ensures NormalAt(t, i + 1) <==> NormalAt(s, i) {}
    forall i | 1 <= i < |t| ensures NormalAt(t, i) <==> NormalAt(s, i - 1) {}
  }

  /** Canonical names are in normal form. */
  lemma {:induction false} CanonicalNameIsNormal(s: string)
    ensures Normal(CanonicalName(s))
    decreases |s|
  {
    hide Normal;
    if s == "" {
      assert Normal("") by { EmptyIsNormal(); }
    } else if IsSeparator(s[0]) {
      DropShrinks(s[1..]);
      DropStops(s[1..]);
      var rest := DropSeparators(s[1..]);
      CanonicalNameIsNormal(rest);
      if rest != "" { CanonicalStart(rest); }
      NormalPrepend('-', CanonicalName(rest));
    } else {
      CanonicalNameIsNormal(s[1..]);
      NormalPrepend(LowerChar(s[0]), CanonicalName(s[1..]));
    }
  }

  lemma EmptyIsNormal()
    ensures Normal("")
  {
  }

  /** A name in normal form is its own canonical name; so normalising twice is normalising once. */
  lemma {:induction false} NormalIsCanonical(s: string)
    requires Normal(s)
    ensures CanonicalName(s) == s
    decreases |s|
  {
    if s != "" {
      assert s == [s[0]] + s[1..];
      assert NormalAt(s, 0);
      NormalPrepend(s[0], s[1..]);
      if IsSeparator(s[0]) { assert DropSeparators(s[1..]) == s[1..]; }
      NormalIsCanonical(s[1..]);
    }
  }

  predicate IsNameChar(c: char) {
    'A' <= c <= 'Z' || 'a' <= c <= 'z' || '0' <= c <= '9' || c == '_' || c == '.' || c == '-'
  }

  datatype Pin = Pin(key: string, version: string) | NoPin

  function NameLength(line: string): (n: nat)
    ensures n <= |line| && (n < |line| ==> !IsNameChar(line[n])) && forall i | 0 <= i < n :: IsNameChar(line[i])
  {
    if line != "" && IsNameChar(line[0]) then 1 + NameLength(line[1..]) else 0
  }

  /** `_PIN_RE.fullmatch`: name characters, two equals signs, a version without white space or `;`. */
  function ParsePin(line: string): Pin {
    var n := NameLength(line);
    if n == 0 || |line| < n + 3 || line[n..n + 2] != "==" then NoPin
    else
      var version := line[n + 2..];
      if exists c | c in version :: IsSpace(c) || c == ';' then NoPin else Pin(CanonicalName(line[..n]), version)
  }

  /** The pins that a listing declares: every line is an exact pin, and lines on one name agree. */
  ghost predicate Declares(out: seq<Yield>, pins: map<string, string>) {
    && (forall y | y in out :: var pin := ParsePin(y.line); pin.Pin? && pin.key in pins && pins[pin.key] == pin.version)
    && (forall key | key in pins :: exists y :: y in out && ParsePin(y.line).Pin? && ParsePin(y.line).key == key)
  }

  datatype ParseResult = Pins(pins: map<string, string>) | Unreadable | NotExact(at: Yield) | Conflicting(key: string) | Empty

  /** `parse_lock`: it succeeds exactly when the reachable lines declare a non-empty set of pins. */
  method ParseLock(t: Tree, root: Path) returns (r: ParseResult, ghost visited: set<Path>, ghost out: seq<Yield>)
    ensures !r.Unreadable? ==> IsReach(t, root, visited) && visited <= t.files.Keys && Contributes(t, visited, out)
    ensures r.Unreadable? ==> exists p :: p !in t.files && forall s | root in s && Closed(t, s) :: p in s
    ensures r.Pins? ==> Declares(out, r.pins) && r.pins != map[]
    ensures !r.Unreadable? && !r.Pins? ==> out == [] || forall pins :: !Declares(out, pins)
  {
    hide ParsePin, Contributes, IsReach;
    var ok, files, lines := LockLines(t, root);
    visited, out := files, lines;
    if !ok { return Unreadable, visited, out; }
    var pins: map<string, string> := map[];
    for i := 0 to |lines|
      invariant Declares(lines[..i], pins)
    {
      assert lines[..i + 1] == lines[..i] + [lines[i]];
      var pin := ParsePin(lines[i].line);
      if pin.NoPin? {
        assert lines[i] in lines;
        return NotExact(lines[i]), visited, out;
      }
      if pin.key in pins && pins[pin.key] != pin.version {
        var y :| y in lines[..i] && ParsePin(y.line).Pin? && ParsePin(y.line).key == pin.key;
        assert y in lines && lines[i] in lines;
        return Conflicting(pin.key), visited, out;
      }
      DeclaresMore(lines[..i], pins, lines[i]);
      pins := pins[pin.key := pin.version];
    }
    assert lines[..|lines|] == lines;
    if pins == map[] {
      if lines != [] { NoPinsForLines(lines); }
      return Empty, visited, out;
    }
    r := Pins(pins);
  }

  lemma NoPinsForLines(out: seq<Yield>)
    requires out != []
    ensures !Declares(out, map[])
  {
    assert out[0] in out;
  }

  lemma DeclaresMore(out: seq<Yield>, pins: map<string, string>, y: Yield)
    requires Declares(out, pins) && ParsePin(y.line).Pin?
    requires ParsePin(y.line).key in pins ==> pins[ParsePin(y.line).key] == ParsePin(y.line).version
    ensures Declares(out + [y], pins[ParsePin(y.line).key := ParsePin(y.line).version])
  {
    hide ParsePin;
    var pins' := pins[ParsePin(y.line).key := ParsePin(y.line).version];
    assert y in out + [y];
    forall key | key in pins' ensures exists z :: z in out + [y] && ParsePin(z.line).Pin? && ParsePin(z.line).key == key {
      if key in pins {
        var z :| z in out && ParsePin(z.line).Pin? && ParsePin(z.line).key == key;
        assert z in out + [y];
      }
    }
  }

  /** A listing declares at most one set of pins. */
  lemma PinsAreDetermined(out: seq<Yield>, p: map<string, string>, q: map<string, string>)
    requires Declares(out, p) && Declares(out, q)
    ensures p == q
  {
    hide ParsePin;
    forall key | key in p ensures key in q && q[key] == p[key] {
      var y :| y in out && ParsePin(y.line).Pin? && ParsePin(y.line).key == key;
    }
    forall key | key in q ensures key in p {
      var y :| y in out && ParsePin(y.line).Pin? && ParsePin(y.line).key == key;
    }
  }

  // ------------------------------------------------------------------ the environment

  const BOOTSTRAP := {"pip", "setuptools", "wheel"}

  function EnvironmentLines(installed: map<string, string>): seq<string> {
    var names := SortText(installed.Keys - BOOTSTRAP);
    seq(|names|, i requires 0 <= i < |names| =>
      assert names[i] in Elements(names);
      names[i] + "==" + installed[names[i]])
  }

  datatype Report = Report(missing: seq<string>, mismatched: seq<string>, extras: seq<string>, lines: seq<string>, verified: bool)

  /** `verify`, on the parsed pins and the installed versions. */
  method Verify(pins: map<string, string>, installed: map<string, string>, strict: bool) returns (r: Report)
    ensures r.missing == SortText(pins.Keys - installed.Keys)
    ensures r.mismatched == SortText(set k | k in pins && k in installed && installed[k] != pins[k])
    ensures r.extras == if strict then SortText(installed.Keys - pins.Keys - BOOTSTRAP) else []
    ensures r.lines == EnvironmentLines(installed)
    ensures r.verified <==> Matches(pins, installed) && (strict ==> NoExtras(pins, installed))
  {
    hide SortText, Matches, NoExtras, EnvironmentLines;
    var names := SortText(pins.Keys);
    var missing, mismatched := Examine(names, pins, installed);
    AllNames(names, pins, installed);
    var extras := if strict then SortText(installed.Keys - pins.Keys - BOOTSTRAP) else [];
    r := Report(missing, mismatched, extras, EnvironmentLines(installed), missing == [] && mismatched == [] && extras == []);
    VerifiedMeans(pins, installed, strict, missing, mismatched, extras);
  }

  /** The loop over the sorted pins. */
  method Examine(names: seq<string>, pins: map<string, string>, installed: map<string, string>)
    returns (missing: seq<string>, mismatched: seq<string>)
    requires Ascending(names, Less) && Elements(names) == pins.Keys
    ensures missing == SortText(Absent(names, installed)) && mismatched == SortText(Different(names, pins, installed))
  {
    hide Less, SortText, Absent, Different, Ascending;
    NothingYet(pins, installed);
    missing, mismatched := [], [];
    assert names[..0] == [];
    for i := 0 to |names|
      invariant missing == SortText(Absent(names[..i], installed))
      invariant mismatched == SortText(Different(names[..i], pins, installed))
    {
      var name := names[i];
      assert name in Elements(names);
      NamesStep(names, i, pins, installed);
      if name !in installed {
        SortTextAppend(Absent(names[..i], installed), name);
        missing := missing + [name];
      } else if installed[name] != pins[name] {
        SortTextAppend(Different(names[..i], pins, installed), name);
        mismatched := mismatched + [name];
      }
    }
    assert names[..|names|] == names;
  }

  function Absent(names: seq<string>, installed: map<string, string>): set<string> {
    set k | k in names && k !in installed
  }

  function Different(names: seq<string>, pins: map<string, string>, installed: map<string, string>): set<string> {
    set k | k in names && k in installed && k in pins && installed[k] != pins[k]
  }

  lemma NothingYet(pins: map<string, string>, installed: map<string, string>)
    ensures Absent([], installed) == {} == Different([], pins, installed) && SortText({}) == []
  {
  }

  lemma NamesStep(names: seq<string>, i: nat, pins: map<string, string>, installed: map<string, string>)
    requires Ascending(names, Less) && i < |names| && names[i] in pins
    ensures forall k | k in Absent(names[..i], installed) + Different(names[..i], pins, installed) :: Less(k, names[i])
    ensures Absent(names[..i + 1], installed) == Absent(names[..i], installed) + if names[i] in installed then {} else {names[i]}
    ensures Different(names[..i + 1], pins, installed) == Different(names[..i], pins, installed) +
              if names[i] in installed && installed[names[i]] != pins[names[i]] then {names[i]} else {}
  {
    hide Less;
    assert names[..i + 1] == names[..i] + [names[i]];
  }

  lemma AllNames(names: seq<string>, pins: map<string, string>, installed: map<string, string>)
    requires Elements(names) == pins.Keys
    ensures Absent(names, installed) == pins.Keys - installed.Keys
    ensures Different(names, pins, installed) == set k | k in pins && k in installed && installed[k] != pins[k]
  {
    assert forall k :: k in names <==> k in Elements(names);
  }

  /** Every pin is installed at its version. */
  predicate Matches(pins: map<string, string>, installed: map<string, string>) {
    forall k | k in pins :: k in installed && installed[k] == pins[k]
  }

  predicate NoExtras(pins: map<string, string>, installed: map<string, string>) {
    installed.Keys <= pins.Keys + BOOTSTRAP
  }

  lemma VerifiedMeans(pins: map<string, string>, installed: map<string, string>, strict: bool,
                      missing: seq<string>, mismatched: seq<string>, extras: seq<string>)
    requires Elements(missing) == pins.Keys - installed.Keys
    requires Elements(mismatched) == set k | k in pins && k in installed && installed[k] != pins[k]
    requires Elements(extras) == if strict then installed.Keys - pins.Keys - BOOTSTRAP else {}
    ensures missing == [] && mismatched == [] && extras == [] <==> Matches(pins, installed) && (strict ==> NoExtras(pins, installed))
  {
    NoElements(missing);
    NoElements(mismatched);
    NoElements(extras);
    hide Elements;
    if missing == [] && mismatched == [] {
      forall k | k in pins ensures k in installed && installed[k] == pins[k] {
        assert k !in pins.Keys - installed.Keys;
        assert k !in set k | k in pins && k in installed && installed[k] != pins[k];
      }
    }
    if Matches(pins, installed) {
      assert pins.Keys - installed.Keys == {};
      assert (set k | k in pins && k in installed && installed[k] != pins[k]) == {};
    }
    assert installed.Keys - pins.Keys - BOOTSTRAP == {} <==> NoExtras(pins, installed) by {
      if installed.Keys - pins.Keys - BOOTSTRAP == {} {
        forall k | k in installed ensures k in pins.Keys + BOOTSTRAP { assert k !in installed.Keys - pins.Keys - BOOTSTRAP; }
      }
    }
  }

  lemma NoElements(s: seq<string>)
    ensures s == [] <==> Elements(s) == {}
  {
    if s != [] { assert s[0] in Elements(s); }
  }

  /** A strictly verified environment is described by the lock alone. */
  lemma StrictlyVerifiedIsLocked(pins: map<string, string>, installed: map<string, string>)
    requires Matches(pins, installed) && NoExtras(pins, installed)
    ensures EnvironmentLines(installed) == EnvironmentLines(pins)
  {
    assert installed.Keys - BOOTSTRAP == pins.Keys - BOOTSTRAP;
    var names := SortText(pins.Keys - BOOTSTRAP);
    forall i | 0 <= i < |names| ensures EnvironmentLines(installed)[i] == EnvironmentLines(pins)[i] {
      assert names[i] in Elements(names);
    }
  }

  /** Two environments that pass the strict check against one lock tree have the same lines, hence the
      same `pipFreezeHash`, whatever they were built on. */
  lemma EnvironmentIsDetermined(out: seq<Yield>, pins1: map<string, string>, pins2: map<string, string>,
                                installed1: map<string, string>, installed2: map<string, string>, hash: seq<string> -> string)
    requires Declares(out, pins1) && Declares(out, pins2)
    requires Matches(pins1, installed1) && NoExtras(pins1, installed1)
    requires Matches(pins2, installed2) && NoExtras(pins2, installed2)
    ensures EnvironmentLines(installed1) == EnvironmentLines(installed2)
    ensures hash(EnvironmentLines(installed1)) == hash(EnvironmentLines(installed2))
  {
    PinsAreDetermined(out, pins1, pins2);
    StrictlyVerifiedIsLocked(pins1, installed1);
    StrictlyVerifiedIsLocked(pins2, installed2);
  }
}
