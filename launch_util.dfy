/** The pure parts of the launcher's environment utilities: the check that every
    line of a requirements file is already satisfied, the repository directory
    and the pip command lines. */
module LaunchUtil {
  import opened Wrappers
  import opened Text

  // ---------------------------------------------------------------------------
  // The requirement pattern  \s*([-_a-zA-Z0-9]+)\s*(?:==\s*([-+_.a-zA-Z0-9]+))?\s*
  // ---------------------------------------------------------------------------

  /** The class `[-_a-zA-Z0-9]` of the package-name group. */
  predicate IsNameChar(c: char) {
    'a' <= c <= 'z' || 'A' <= c <= 'Z' || '0' <= c <= '9' || c == '-' || c == '_'
  }

  /** The class `[-+_.a-zA-Z0-9]` of the version group. */
  predicate IsVersionChar(c: char) {
    IsNameChar(c) || c == '+' || c == '.'
  }

  /** No character of the version class (and so of the name class) is white space. */
  lemma VersionCharIsNotSpace(c: char)
    ensures IsVersionChar(c) ==> !IsSpace(c)
  {
  }

  /** The groups of the pattern are unchanged by `strip()`. */
  lemma StripOfVersionText(s: string)
    requires forall i :: 0 <= i < |s| ==> IsVersionChar(s[i])
    ensures Strip(s) == s
  {
    if s != [] {
      VersionCharIsNotSpace(s[0]);
      VersionCharIsNotSpace(s[|s| - 1]);
    }
    StripWithoutSpace(s);
  }

  /** A possible text of the package-name group. */
  predicate IsName(s: string) {
    s != [] && forall i :: 0 <= i < |s| ==> IsNameChar(s[i])
  }

  /** A possible text of the version group. */
  predicate IsVersion(s: string) {
    s != [] && forall i :: 0 <= i < |s| ==> IsVersionChar(s[i])
  }

  /** The three character classes of the pattern: `\s`, the name class and the version class. */
  datatype CharClass = Space | NameClass | VersionClass

  predicate InClass(c: char, cls: CharClass) {
    match cls
    case Space => IsSpace(c)
    case NameClass => IsNameChar(c)
    case VersionClass => IsVersionChar(c)
  }

  /** Every character of `s[i..j]` is of class `cls`. */
  predicate RunOf(s: string, i: nat, j: nat, cls: CharClass)
    requires i <= j <= |s|
  {
    forall k :: i <= k < j ==> InClass(s[k], cls)
  }

  /** A run of class `cls` cannot be continued past `j`. */
  predicate StopsAt(s: string, j: nat, cls: CharClass)
    requires j <= |s|
  {
    j == |s| || !InClass(s[j], cls)
  }

  /** The end of the longest run of characters of class `cls` in `s` that starts
      at `i`: what a greedy repetition of the class consumes from there. */
  function Span(s: string, i: nat, cls: CharClass): (j: nat)
    requires i <= |s|
    ensures i <= j <= |s|
    ensures RunOf(s, i, j, cls) && StopsAt(s, j, cls)
    decreases |s| - i
  {
    if i < |s| && InClass(s[i], cls) then Span(s, i + 1, cls) else i
  }

  /** `Span` is the unique end of a maximal run. */
  lemma {:induction false} SpanIs(s: string, i: nat, cls: CharClass, j: nat)
    requires i <= j <= |s|
    requires RunOf(s, i, j, cls) && StopsAt(s, j, cls)
    ensures Span(s, i, cls) == j
    decreases j - i
  {
    if i < j {
      SpanIs(s, i + 1, cls, j);
    }
  }

  /** The two groups of a successful match. */
  datatype Requirement = Requirement(name: string, version: Option<string>)

  /** A pair of groups the pattern can produce: a name and, optionally, a version. */
  predicate IsMatch(req: Requirement) {
    IsName(req.name) && (req.version.Some? ==> IsVersion(req.version.value))
  }

  /** The pattern's literal `==` stands at index `c` of `line`. */
  predicate EqualsAt(line: string, c: nat) {
    c + 2 <= |line| && line[c] == '=' && line[c + 1] == '='
  }

  /** `re.match(re_requirement, line)`: the match is anchored at the start only, so
      whatever follows the optional `==version` part is ignored. */
  function MatchRequirement(line: string): (r: Option<Requirement>)
    ensures var k := Span(line, 0, Space);
      r.None? <==> k == |line| || !IsNameChar(line[k])
    ensures r.Some? ==> IsMatch(r.value)
  {
    var a := Span(line, 0, Space);
    if a == |line| || !IsNameChar(line[a]) then None
    else
      var b := Span(line, a, NameClass);
      var c := Span(line, b, Space);
      var version :=
        if EqualsAt(line, c) then
          var d := Span(line, c + 2, Space);
          var e := Span(line, d, VersionClass);
          if d < e then RunIsVersion(line, d, e); Some(line[d..e]) else None
        else None;
      RunIsName(line, a, b);
      Some(Requirement(line[a..b], version))
  }

  /** A non-empty run of the name class is a name. */
  lemma RunIsName(s: string, i: nat, j: nat)
    requires i < j <= |s| && RunOf(s, i, j, NameClass)
    ensures IsName(s[i..j])
  {
    assert forall k :: 0 <= k < j - i ==> s[i..j][k] == s[i + k];
  }

  /** A non-empty run of the version class is a version. */
  lemma RunIsVersion(s: string, i: nat, j: nat)
    requires i < j <= |s| && RunOf(s, i, j, VersionClass)
    ensures IsVersion(s[i..j])
  {
    assert forall k :: 0 <= k < j - i ==> s[i..j][k] == s[i + k];
  }

  /** A pinned requirement: blank `line[..a]`, the name `line[a..b]`, blank
      `line[b..c]`, `==` at `c`, blank `line[c + 2..d]` and the version
      `line[d..e]`, followed by anything that cannot continue the version. */
  lemma PinnedRequirementParses(line: string, a: nat, b: nat, c: nat, d: nat, e: nat)
    requires a < b <= c && c + 2 <= d < e <= |line|
    requires RunOf(line, 0, a, Space) && RunOf(line, a, b, NameClass) && RunOf(line, b, c, Space)
    requires EqualsAt(line, c)
    requires RunOf(line, c + 2, d, Space) && RunOf(line, d, e, VersionClass) && StopsAt(line, e, VersionClass)
    ensures MatchRequirement(line) == Some(Requirement(line[a..b], Some(line[d..e])))
  {
    if b < c {
      VersionCharIsNotSpace(line[b]);
    }
    NamePart(line, a, b);
    SpanIs(line, b, Space, c);
    VersionPart(line, c, d, e);
  }

  /** Where the leading white space and the name group end. */
  lemma NamePart(line: string, a: nat, b: nat)
    requires a < b <= |line|
    requires RunOf(line, 0, a, Space) && RunOf(line, a, b, NameClass) && StopsAt(line, b, NameClass)
    ensures Span(line, 0, Space) == a && IsNameChar(line[a]) && Span(line, a, NameClass) == b
  {
    VersionCharIsNotSpace(line[a]);
    SpanIs(line, 0, Space, a);
    SpanIs(line, a, NameClass, b);
  }

  /** Where the white space after `==` and the version group end. */
  lemma VersionPart(line: string, c: nat, d: nat, e: nat)
    requires c + 2 <= d < e <= |line|
    requires RunOf(line, c + 2, d, Space) && RunOf(line, d, e, VersionClass) && StopsAt(line, e, VersionClass)
    ensures Span(line, c + 2, Space) == d && Span(line, d, VersionClass) == e
  {
    VersionCharIsNotSpace(line[d]);
    SpanIs(line, c + 2, Space, d);
    SpanIs(line, d, VersionClass, e);
  }

  /** A bare name: blank `line[..a]`, the name `line[a..b]` and blank `line[b..c]`,
      followed by anything but `==` (a comparison such as `>=1.0`, an extras list,
      an environment marker, the end of the line) asks for no version. */
  lemma BareRequirementParses(line: string, a: nat, b: nat, c: nat)
    requires a < b <= c <= |line|
    requires RunOf(line, 0, a, Space) && RunOf(line, a, b, NameClass) && StopsAt(line, b, NameClass)
    requires RunOf(line, b, c, Space) && StopsAt(line, c, Space)
    requires !EqualsAt(line, c)
    ensures MatchRequirement(line) == Some(Requirement(line[a..b], None))
  {
    NamePart(line, a, b);
    SpanIs(line, b, Space, c);
  }

  /** `==` that no version follows (`pkg==`, `pkg== >1`, `pkg===1.0`): the
      optional group backtracks away, so the line asks for no version. */
  lemma EmptyPinRequirementParses(line: string, a: nat, b: nat, c: nat)
    requires a < b <= c && c + 2 <= |line|
    requires RunOf(line, 0, a, Space) && RunOf(line, a, b, NameClass) && StopsAt(line, b, NameClass)
    requires RunOf(line, b, c, Space) && EqualsAt(line, c)
    requires var d := Span(line, c + 2, Space); d == |line| || !IsVersionChar(line[d])
    ensures MatchRequirement(line) == Some(Requirement(line[a..b], None))
  {
    NamePart(line, a, b);
    SpanIs(line, b, Space, c);
  }

  // ---------------------------------------------------------------------------
  // requirements_met
  // ---------------------------------------------------------------------------

  /** What `requirements_met` reports: `True`, `False`, or the `InvalidVersion`
      exception that `packaging.version.parse` raises outside the `try`. */
  datatype Verdict = Met | NotMet | InvalidVersion

  /** A line the loop passes over with `continue`: blank (`strip()` leaves ""; see
      `StripEmptyIffBlank`), or an option line starting with `--` at its very
      first character. */
  predicate IsSkipped(line: string) {
    IsBlank(line) || StartsWith(line, "--")
  }

  /** `re.sub(r"\+.*$", "", v)` on a version without line breaks: the installed
      version with its local label (from the first `+` on) removed. */
  function PublicVersion(v: string): (r: string)
    ensures r <= v && '+' !in r
    ensures |r| < |v| ==> v[|r|] == '+'
  {
    if v == [] || v[0] == '+' then [] else [v[0]] + PublicVersion(v[1..])
  }

  /** The part of the loop body after a successful match (lines 133-151); the
      `strip()` of both groups changes nothing (`StripOfVersionText`).
      `installed` is `importlib.metadata.version` (absent: the lookup raises and
      the function returns `False`); `parse` is `packaging.version.parse`, giving
      a canonical form, or `None` where it raises `InvalidVersion`. */
  function RequirementVerdict(req: Requirement, installed: map<string, string>, parse: string -> Option<string>): (v: Verdict)
    requires IsMatch(req)
    ensures req.name !in installed ==> v == NotMet
    ensures req.name in installed && req.version.None? ==> v == Met
    ensures req.name in installed && req.version.Some? ==>
      var wanted := parse(req.version.value);
      var present := parse(PublicVersion(installed[req.name]));
      (v == InvalidVersion <==> wanted.None? || present.None?)
      && (v == Met <==> wanted.Some? && present.Some? && wanted == present)
  {
    var package := req.name;
    if package !in installed then NotMet
    else
      var versionInstalled := PublicVersion(installed[package]);
      if req.version.None? then Met
      else
        var wanted := parse(req.version.value);
        var present := parse(versionInstalled);
        if wanted.None? || present.None? then InvalidVersion
        else if wanted != present then NotMet
        else Met
  }

  /** What one line contributes: `Met` when the loop moves on to the next line,
      otherwise the value the function returns (or raises) there. */
  function LineVerdict(line: string, installed: map<string, string>, parse: string -> Option<string>): (v: Verdict)
    ensures IsSkipped(line) ==> v == Met
    ensures !IsSkipped(line) && MatchRequirement(line).None? ==> v == NotMet
    ensures !IsSkipped(line) && MatchRequirement(line).Some? ==>
      IsMatch(MatchRequirement(line).value)
      && v == RequirementVerdict(MatchRequirement(line).value, installed, parse)
  {
    if IsSkipped(line) then Met
    else match MatchRequirement(line)
      case None => NotMet
      case Some(req) => RequirementVerdict(req, installed, parse)
  }

  /** The result for a whole file: the verdict of the first line that does not
      pass, or `Met`. */
  function Check(lines: seq<string>, installed: map<string, string>, parse: string -> Option<string>): Verdict
  {
    if lines == [] then Met
    else
      var first := LineVerdict(lines[0], installed, parse);
      if first == Met then Check(lines[1..], installed, parse) else first
  }

  /** The file is satisfied exactly when every line is. */
  lemma {:induction false} CheckMetIff(lines: seq<string>, installed: map<string, string>, parse: string -> Option<string>)
    ensures Check(lines, installed, parse) == Met
        <==> forall i :: 0 <= i < |lines| ==> LineVerdict(lines[i], installed, parse) == Met
  {
    if lines != [] {
      CheckMetIff(lines[1..], installed, parse);
      assert forall i :: 1 <= i < |lines| ==> lines[i] == lines[1..][i - 1];
    }
  }

  /** Lines that pass can be dropped from the front. */
  lemma {:induction false} CheckAfterPassingPrefix(lines: seq<string>, installed: map<string, string>, parse: string -> Option<string>, i: nat)
    requires i <= |lines|
    requires forall j :: 0 <= j < i ==> LineVerdict(lines[j], installed, parse) == Met
    ensures Check(lines, installed, parse) == Check(lines[i..], installed, parse)
  {
    if i > 0 {
      assert lines[1..][i - 1..] == lines[i..];
      CheckAfterPassingPrefix(lines[1..], installed, parse, i - 1);
    }
  }

  /** The first line that does not pass decides the result. */
  lemma FirstFailureDecides(lines: seq<string>, installed: map<string, string>, parse: string -> Option<string>, i: nat)
    requires i < |lines|
    requires forall j :: 0 <= j < i ==> LineVerdict(lines[j], installed, parse) == Met
    requires LineVerdict(lines[i], installed, parse) != Met
    ensures Check(lines, installed, parse) == LineVerdict(lines[i], installed, parse)
  {
    CheckAfterPassingPrefix(lines, installed, parse, i);
  }

  /** Blank and `--` lines never affect the result, wherever they stand. */
  lemma {:induction false} SkippedLineIrrelevant(before: seq<string>, line: string, after: seq<string>,
                                                 installed: map<string, string>, parse: string -> Option<string>)
    requires IsSkipped(line)
    ensures Check(before + [line] + after, installed, parse) == Check(before + after, installed, parse)
  {
    if before == [] {
      assert before + [line] + after == [line] + after && before + after == after;
      assert ([line] + after)[1..] == after;
    } else {
      assert (before + [line] + after)[1..] == before[1..] + [line] + after;
      assert (before + after)[1..] == before[1..] + after;
      SkippedLineIrrelevant(before[1..], line, after, installed, parse);
    }
  }

  /** The body of the loop of `requirements_met` for one line: `Met` where it
      reaches `continue` or the end of the body, otherwise what it returns. */
  method CheckLine(line: string, installed: map<string, string>, parse: string -> Option<string>)
    returns (verdict: Verdict)
    ensures verdict == LineVerdict(line, installed, parse)
  {
    StripEmptyIffBlank(line);
    if Strip(line) == "" || StartsWith(line, "--") {
      return Met;
    }
    var m := MatchRequirement(line);
    if m.None? {
      return NotMet;
    }
    verdict := CheckRequirement(m.value, installed, parse);
  }

  /** The rest of the loop body once the pattern has matched. */
  method CheckRequirement(req: Requirement, installed: map<string, string>, parse: string -> Option<string>)
    returns (verdict: Verdict)
    requires IsMatch(req)
    ensures verdict == RequirementVerdict(req, installed, parse)
  {
    StripOfVersionText(req.name);
    StripOfVersionText(req.version.GetOr(""));
    var package := Strip(req.name);
    var versionRequired := Strip(req.version.GetOr(""));
    if package !in installed {
      return NotMet;
    }
    var versionInstalled := PublicVersion(installed[package]);
    if versionRequired == "" {
      return Met;
    }
    var wanted := parse(versionRequired);
    if wanted.None? {
      return InvalidVersion;
    }
    var present := parse(versionInstalled);
    if present.None? {
      return InvalidVersion;
    }
    if wanted != present {
      return NotMet;
    }
    return Met;
  }

  /** `requirements_met` over the lines of the already opened file. */
  method RequirementsMet(lines: seq<string>, installed: map<string, string>, parse: string -> Option<string>)
    returns (verdict: Verdict)
    ensures verdict == Check(lines, installed, parse)
  {
    for i := 0 to |lines|
      invariant forall j :: 0 <= j < i ==> LineVerdict(lines[j], installed, parse) == Met
    {
      var v := CheckLine(lines[i], installed, parse);
      if v != Met {
        FirstFailureDecides(lines, installed, parse, i);
        return v;
      }
    }
    CheckMetIff(lines, installed, parse);
    return Met;
  }

  // ---------------------------------------------------------------------------
  // repo_dir
  // ---------------------------------------------------------------------------

  const RepositoriesDir := "repositories"

  /** `str(Path(script_path) / "repositories" / name)`. `script_path` is a
      `Path` already (the resolved parent of the modules folder). */
  function RepoDir(scriptPath: PurePath, name: string): string {
    PathString(Slash(Slash(scriptPath, RepositoriesDir), name))
  }

  /** The repositories directory as a path: the script path's parts with
      `repositories` appended. */
  lemma {:induction false} RepositoriesParts(scriptPath: PurePath)
    ensures Slash(scriptPath, RepositoriesDir) == PurePath(scriptPath.root, scriptPath.parts + [RepositoriesDir])
  {
    LonePiece(RepositoriesDir);
  }

  /** The string `repo_dir` returns parses as the name's own path when the name
      has a root, and otherwise as the script path, `repositories` and the
      parts of the name. */
  lemma {:induction false} RepoDirParses(scriptPath: PurePath, name: string)
    requires IsPurePath(scriptPath)
    ensures RootOf(name) != [] ==> ParsePath(RepoDir(scriptPath, name)) == ParsePath(name)
    ensures RootOf(name) == [] ==>
      ParsePath(RepoDir(scriptPath, name)) == PurePath(scriptPath.root, scriptPath.parts + [RepositoriesDir] + Parts(name))
  {
    if RootOf(name) != [] {
      RootedParses(scriptPath, name);
    } else {
      RelativePathIsPure(scriptPath, name);
      RelativeParses(scriptPath, name);
    }
  }

  /** `RepoDirParses` for a name with a root. */
  lemma {:induction false} RootedParses(scriptPath: PurePath, name: string)
    requires RootOf(name) != []
    ensures ParsePath(RepoDir(scriptPath, name)) == ParsePath(name)
  {
    var p := ParsePath(name);
    PartsArePure(name);
    RepoDirOfRootedName(scriptPath, name);
    ParsesBack(p);
  }

  /** The parts appended to the repositories directory are parts pathlib keeps. */
  lemma {:induction false} RelativePathIsPure(scriptPath: PurePath, name: string)
    requires IsPurePath(scriptPath)
    ensures IsPurePath(PurePath(scriptPath.root, scriptPath.parts + [RepositoriesDir] + Parts(name)))
  {
    var parts := scriptPath.parts + [RepositoriesDir];
    PartsArePure(name);
    assert AllParts(parts) by {
      LonePiece(RepositoriesDir);
      AllPartsAppend(scriptPath.parts, [RepositoriesDir]);
    }
    AllPartsAppend(parts, Parts(name));
  }

  /** `RepoDirParses` for a name without a root. */
  lemma {:induction false} RelativeParses(scriptPath: PurePath, name: string)
    requires IsPurePath(PurePath(scriptPath.root, scriptPath.parts + [RepositoriesDir] + Parts(name)))
    requires RootOf(name) == []
    ensures ParsePath(RepoDir(scriptPath, name)) == PurePath(scriptPath.root, scriptPath.parts + [RepositoriesDir] + Parts(name))
  {
    RepoDirOfRelativeName(scriptPath, name);
    ParsesBack(PurePath(scriptPath.root, scriptPath.parts + [RepositoriesDir] + Parts(name)));
  }

  /** A name with a root replaces the whole path. */
  lemma {:induction false} RepoDirOfRootedName(scriptPath: PurePath, name: string)
    requires RootOf(name) != ""
    ensures RepoDir(scriptPath, name) == PathString(ParsePath(name))
  {
  }

  /** A name without a root is appended, part by part, to the repositories directory. */
  lemma {:induction false} RepoDirOfRelativeName(scriptPath: PurePath, name: string)
    requires RootOf(name) == ""
    ensures RepoDir(scriptPath, name) == PathString(PurePath(scriptPath.root, scriptPath.parts + [RepositoriesDir] + Parts(name)))
  {
    RepositoriesParts(scriptPath);
  }

  /** An empty name and `.` both give the repositories directory itself. */
  lemma {:induction false} RepoDirWithoutName(scriptPath: PurePath)
    ensures RepoDir(scriptPath, "") == scriptPath.root + Joined(scriptPath.parts + [RepositoriesDir])
    ensures RepoDir(scriptPath, ".") == RepoDir(scriptPath, "")
  {
    var repos := Slash(scriptPath, RepositoriesDir);
    RepositoriesParts(scriptPath);
    assert Slash(repos, "") == repos;
    PartsOfDot();
    assert Slash(repos, ".") == repos;
  }

  /** A plain name lands directly inside the repositories directory. */
  lemma {:induction false} RepoDirOfPlainName(scriptPath: PurePath, name: string)
    requires IsPart(name)
    ensures RepoDir(scriptPath, name) == RepoDir(scriptPath, "") + "/" + name
  {
    var parts := scriptPath.parts + [RepositoriesDir];
    var root := scriptPath.root;
    var j := Joined(parts);
    assert RepoDir(scriptPath, name) == root + Joined(parts + [name]) by {
      assert name[0] != '/';
      RepoDirOfRelativeName(scriptPath, name);
      LonePiece(name);
    }
    JoinedAppend(parts, name);
    RepoDirWithoutName(scriptPath);
    AppendAssociates(root, j + "/", name);
    AppendAssociates(root, j, "/");
  }

  /** A trailing `/` on the name makes no difference (`foo/`, `/abs/`). */
  lemma {:induction false} RepoDirIgnoresTrailingSlash(scriptPath: PurePath, name: string)
    requires name != [] && name[|name| - 1] != '/'
    ensures RepoDir(scriptPath, name + "/") == RepoDir(scriptPath, name)
  {
    PartsTrailingSlash(name);
    assert RootOf(name + "/") == RootOf(name) by {
      var t := name + "/";
      assert t[0] == name[0];
      if 2 <= |name| { assert t[1] == name[1]; }
      if 3 <= |name| { assert t[2] == name[2]; }
    }
  }

  // ---------------------------------------------------------------------------
  // The command lines of run_pip and pip_rm
  // ---------------------------------------------------------------------------

  /** The arguments `run_pip` and `pip_rm` hand to `run`. */
  datatype Invocation = Invocation(command: string, desc: string, errdesc: string, live: bool)

  /** How an f-string shows an optional argument: `None` prints as `None`. */
  function Shown(x: Option<string>): string {
    x.GetOr("None")
  }

  /** `"<python>" -m pip `, the common head of both command lines. */
  function PipHead(python: string): string {
    "\"" + python + "\" -m pip "
  }

  const PreferBinary := " --prefer-binary"
  const IndexUrlFlag := " --index-url "

  /** The command line of `run_pip`; `indexUrl` is the `INDEX_URL` environment
      setting read at import time (empty when unset). */
  function RunPip(python: string, indexUrl: string, command: string, desc: Option<string>, live: bool): (r: Invocation)
    ensures StartsWith(r.command, PipHead(python) + command + PreferBinary)
    ensures indexUrl == "" ==> r.command == PipHead(python) + command + PreferBinary
    ensures indexUrl != "" ==> EndsWith(r.command, PreferBinary + IndexUrlFlag + indexUrl)
    ensures r.desc == "Installing " + Shown(desc) && r.errdesc == "Couldn't install " + Shown(desc)
    ensures r.live == live
  {
    var indexUrlLine := if indexUrl != "" then IndexUrlFlag + indexUrl else "";
    Invocation(PipHead(python) + command + PreferBinary + indexUrlLine,
               "Installing " + Shown(desc), "Couldn't install " + Shown(desc), live)
  }

  /** The command line of `pip_rm`. */
  function PipRm(python: string, pkgs: string, desc: Option<string>, live: bool): (r: Invocation)
    ensures StartsWith(r.command, PipHead(python))
    ensures r.desc == "Uninstalling " + Shown(desc) && r.errdesc == "Couldn't uninstall " + Shown(desc)
    ensures r.live == live
  {
    Invocation(PipHead(python) + "uninstall -y " + pkgs,
               "Uninstalling " + Shown(desc), "Couldn't uninstall " + Shown(desc), live)
  }

  /** Reads back the pip arguments of a command line built for interpreter `python`. */
  function PipArguments(commandLine: string, python: string): (r: Option<string>)
    ensures r.Some? ==> commandLine == PipHead(python) + r.value
  {
    if StartsWith(commandLine, PipHead(python)) then Some(commandLine[|PipHead(python)|..]) else None
  }

  /** The index option is appended exactly when `INDEX_URL` is set, after
      `--prefer-binary`, and leaves the rest of the command intact. */
  lemma IndexUrlOnlyAppends(python: string, indexUrl: string, command: string, desc: Option<string>, live: bool)
    requires indexUrl != ""
    ensures RunPip(python, indexUrl, command, desc, live)
         == RunPip(python, "", command, desc, live).(command := RunPip(python, "", command, desc, live).command + IndexUrlFlag + indexUrl)
  {
  }

  /** Both command lines pass the caller's text to pip verbatim. */
  lemma PipArgumentsRoundTrip(python: string, indexUrl: string, command: string, pkgs: string, desc: Option<string>, live: bool)
    ensures PipArguments(RunPip(python, indexUrl, command, desc, live).command, python)
         == Some(command + PreferBinary + (if indexUrl != "" then IndexUrlFlag + indexUrl else ""))
    ensures PipArguments(PipRm(python, pkgs, desc, live).command, python) == Some("uninstall -y " + pkgs)
  {
    var head := PipHead(python);
    var tail := command + PreferBinary + (if indexUrl != "" then IndexUrlFlag + indexUrl else "");
    assert RunPip(python, indexUrl, command, desc, live).command == head + tail;
    assert (head + tail)[|head|..] == tail;
    assert PipRm(python, pkgs, desc, live).command == head + ("uninstall -y " + pkgs);
    assert (head + ("uninstall -y " + pkgs))[|head|..] == "uninstall -y " + pkgs;
  }
}
