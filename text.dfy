/** The few Python string and path operations the modelled code relies on. */
module Text {

  /** Python's `str.isspace` on one character; `\s` in a `str` pattern and the
      argument-less `str.strip()` use the same set. */
  predicate IsSpace(c: char) {
    c == ' ' || ('\t' <= c <= '\r') || ('\U{1c}' <= c <= '\U{1f}')
    || c == '\U{85}' || c == '\U{a0}' || c == '\U{1680}'
    || ('\U{2000}' <= c <= '\U{200a}') || c == '\U{2028}' || c == '\U{2029}'
    || c == '\U{202f}' || c == '\U{205f}' || c == '\U{3000}'
  }

  /** Every character of `s` is white space (vacuously true of ""). */
  predicate IsBlank(s: string) {
    forall i :: 0 <= i < |s| ==> IsSpace(s[i])
  }

  /** `s.startswith(prefix)`. */
  predicate StartsWith(s: string, prefix: string) {
    prefix <= s
  }

  /** `s.endswith(suffix)`. */
  predicate EndsWith(s: string, suffix: string) {
    |suffix| <= |s| && s[|s| - |suffix|..] == suffix
  }

  /** `s.lstrip()`: `s` without its leading white space. */
  function TrimStart(s: string): (r: string)
    ensures |r| <= |s|
    ensures r == [] || !IsSpace(r[0])
  {
    if s != [] && IsSpace(s[0]) then TrimStart(s[1..]) else s
  }

  /** `s.rstrip()`: `s` without its trailing white space. */
  function TrimEnd(s: string): (r: string)
    ensures |r| <= |s|
    ensures r == [] || !IsSpace(r[|r| - 1])
  {
    if s != [] && IsSpace(s[|s| - 1]) then TrimEnd(s[..|s| - 1]) else s
  }

  /** `s.strip()`. */
  function Strip(s: string): string {
    TrimEnd(TrimStart(s))
  }

  /** What `lstrip()` removes is blank, and what it keeps is the rest of `s`. */
  lemma {:induction false} TrimStartSplits(s: string)
    ensures var r := TrimStart(s);
      r == s[|s| - |r|..] && IsBlank(s[..|s| - |r|])
    decreases |s|
  {
    if s != [] && IsSpace(s[0]) {
      TrimStartSplits(s[1..]);
      var r := TrimStart(s[1..]);
      assert s[1..][|s| - 1 - |r|..] == s[|s| - |r|..];
      var removed := s[..|s| - |r|];
      assert forall i :: 0 < i < |removed| ==> removed[i] == s[1..][..|s| - 1 - |r|][i - 1];
    }
  }

  /** What `rstrip()` removes is blank, and what it keeps is the start of `s`. */
  lemma {:induction false} TrimEndSplits(s: string)
    ensures var r := TrimEnd(s);
      r == s[..|r|] && IsBlank(s[|r|..])
    decreases |s|
  {
    if s != [] && IsSpace(s[|s| - 1]) {
      var p := s[..|s| - 1];
      TrimEndSplits(p);
      var r := TrimEnd(p);
      assert p[..|r|] == s[..|r|];
      forall i | 0 <= i < |s| - |r| ensures IsSpace(s[|r|..][i]) {
        if i < |s| - 1 - |r| {
          assert s[|r|..][i] == p[|r|..][i];
        }
      }
    }
  }

  /** `lstrip()` leaves nothing exactly of a blank string. */
  lemma {:induction false} TrimStartEmptyIffBlank(s: string)
    ensures TrimStart(s) == [] <==> IsBlank(s)
    decreases |s|
  {
    if s != [] {
      TrimStartEmptyIffBlank(s[1..]);
      assert forall i :: 0 < i < |s| ==> s[i] == s[1..][i - 1];
    }
  }

  /** `rstrip()` leaves nothing exactly of a blank string. */
  lemma {:induction false} TrimEndEmptyIffBlank(s: string)
    ensures TrimEnd(s) == [] <==> IsBlank(s)
    decreases |s|
  {
    if s != [] {
      var p := s[..|s| - 1];
      TrimEndEmptyIffBlank(p);
      assert forall i :: 0 <= i < |s| - 1 ==> s[i] == p[i];
    }
  }

  /** `s.strip() == ""` holds exactly for the blank strings. */
  lemma StripEmptyIffBlank(s: string)
    ensures Strip(s) == "" <==> IsBlank(s)
  {
    TrimStartEmptyIffBlank(s);
    TrimEndEmptyIffBlank(TrimStart(s));
  }

  /** A string that neither starts nor ends with white space is its own `strip()`. */
  lemma StripWithoutSpace(s: string)
    requires s == [] || (!IsSpace(s[0]) && !IsSpace(s[|s| - 1]))
    ensures Strip(s) == s
  {
  }

  /** The first character of `p` occurs nowhere else in it, so no two occurrences
      of `p` can overlap. */
  predicate HeadUnique(p: string) {
    p != [] && forall d :: 0 < d < |p| ==> p[d] != p[0]
  }

  /** `pattern` occurs in `s` at index `i`. */
  predicate OccursAt(s: string, pattern: string, i: nat) {
    i + |pattern| <= |s| && s[i..i + |pattern|] == pattern
  }

  /** `s.replace(pattern, replacement)` for a non-empty pattern: occurrences are found left to
      right and do not overlap. */
  function Replace(s: string, pattern: string, replacement: string): string
    requires pattern != []
    decreases |s|
  {
    if |s| < |pattern| then s
    else if s[..|pattern|] == pattern then replacement + Replace(s[|pattern|..], pattern, replacement)
    else [s[0]] + Replace(s[1..], pattern, replacement)
  }

  /** A string in which the pattern does not occur is left as it is. */
  lemma {:induction false} ReplaceAbsent(s: string, pattern: string, replacement: string)
    requires pattern != []
    requires forall i: nat :: !OccursAt(s, pattern, i)
    ensures Replace(s, pattern, replacement) == s
    decreases |s|
  {
    if |s| >= |pattern| {
      assert !OccursAt(s, pattern, 0);
      forall i: nat ensures !OccursAt(s[1..], pattern, i) {
        if OccursAt(s[1..], pattern, i) {
          assert s[1..][i..i + |pattern|] == s[i + 1..i + 1 + |pattern|];
          assert OccursAt(s, pattern, i + 1);
        }
      }
      ReplaceAbsent(s[1..], pattern, replacement);
    }
  }

  /** Replacing in `t + pattern` replaces the trailing occurrence, provided the
      pattern cannot straddle the boundary. */
  lemma {:induction false} ReplaceTrailing(t: string, pattern: string, replacement: string)
    requires HeadUnique(pattern)
    ensures Replace(t + pattern, pattern, replacement) == Replace(t, pattern, replacement) + replacement
    decreases |t|
  {
    var n := |pattern|;
    if t == [] {
      var s := t + pattern;
      assert s[..n] == pattern && s[n..] == [];
    } else if |t| < n {
      ReplaceTrailing(t[1..], pattern, replacement);
      ReplaceTrailingShort(t, pattern, replacement);
    } else if t[..n] == pattern {
      ReplaceTrailing(t[n..], pattern, replacement);
      ReplaceTrailingAtMatch(t, pattern, replacement);
    } else {
      ReplaceTrailing(t[1..], pattern, replacement);
      ReplaceTrailingPastMismatch(t, pattern, replacement);
    }
  }

  /** `ReplaceTrailing` for a `t` shorter than the pattern: the pattern's head at
      index `|t|` keeps it from starting any earlier. */
  lemma ReplaceTrailingShort(t: string, pattern: string, replacement: string)
    requires HeadUnique(pattern) && 0 < |t| < |pattern|
    requires Replace(t[1..] + pattern, pattern, replacement) == Replace(t[1..], pattern, replacement) + replacement
    ensures Replace(t + pattern, pattern, replacement) == Replace(t, pattern, replacement) + replacement
  {
    var s := t + pattern;
    assert s[..|pattern|] != pattern by {
      assert s[..|pattern|][|t|] == pattern[0] != pattern[|t|];
    }
    assert Replace(t, pattern, replacement) == [t[0]] + Replace(t[1..], pattern, replacement) by {
      assert [t[0]] + t[1..] == t;
    }
    ReplaceSkipsFirst(t, pattern, replacement);
  }

  /** The step shared by the two cases where `Replace` moves on by one character,
      both in `t + pattern` and in `t`. */
  lemma ReplaceSkipsFirst(t: string, pattern: string, replacement: string)
    requires pattern != [] && 0 < |t|
    requires (t + pattern)[..|pattern|] != pattern
    requires Replace(t, pattern, replacement) == [t[0]] + Replace(t[1..], pattern, replacement)
    requires Replace(t[1..] + pattern, pattern, replacement) == Replace(t[1..], pattern, replacement) + replacement
    ensures Replace(t + pattern, pattern, replacement) == Replace(t, pattern, replacement) + replacement
  {
    ReplaceMovesOn(t + pattern, pattern, replacement);
    AppendTail(t, pattern);
    AppendAssociates([t[0]], Replace(t[1..], pattern, replacement), replacement);
  }

  /** The first character and the rest of `t + u`, for a non-empty `t`. */
  lemma AppendTail(t: string, u: string)
    requires t != []
    ensures (t + u)[0] == t[0] && (t + u)[1..] == t[1..] + u
  {
  }

  /** Concatenation is associative. */
  lemma AppendAssociates(a: string, b: string, c: string)
    ensures a + (b + c) == (a + b) + c
  {
  }

  /** Where the pattern does not start `s`, `Replace` keeps the first character. */
  lemma ReplaceMovesOn(s: string, pattern: string, replacement: string)
    requires pattern != [] && |pattern| <= |s| && s[..|pattern|] != pattern
    ensures Replace(s, pattern, replacement) == [s[0]] + Replace(s[1..], pattern, replacement)
  {
  }

  /** `ReplaceTrailing` for a `t` that starts with the pattern. */
  lemma ReplaceTrailingAtMatch(t: string, pattern: string, replacement: string)
    requires pattern != [] && |pattern| <= |t| && t[..|pattern|] == pattern
    requires Replace(t[|pattern|..] + pattern, pattern, replacement) == Replace(t[|pattern|..], pattern, replacement) + replacement
    ensures Replace(t + pattern, pattern, replacement) == Replace(t, pattern, replacement) + replacement
  {
    var s := t + pattern;
    var x := Replace(t[|pattern|..], pattern, replacement);
    assert s[..|pattern|] == t[..|pattern|];
    assert s[|pattern|..] == t[|pattern|..] + pattern;
    assert Replace(s, pattern, replacement) == replacement + (x + replacement);
    assert Replace(t, pattern, replacement) == replacement + x;
    assert replacement + (x + replacement) == (replacement + x) + replacement;
  }

  /** `ReplaceTrailing` for a `t` at least as long as the pattern that does not start with it. */
  lemma ReplaceTrailingPastMismatch(t: string, pattern: string, replacement: string)
    requires pattern != [] && |pattern| <= |t| && t[..|pattern|] != pattern
    requires Replace(t[1..] + pattern, pattern, replacement) == Replace(t[1..], pattern, replacement) + replacement
    ensures Replace(t + pattern, pattern, replacement) == Replace(t, pattern, replacement) + replacement
  {
    assert (t + pattern)[..|pattern|] == t[..|pattern|];
    ReplaceSkipsFirst(t, pattern, replacement);
  }

  /** `posixpath.join(a, b)` for two components. */
  function JoinPath(a: string, b: string): string {
    if StartsWith(b, "/") then b
    else if a == [] || EndsWith(a, "/") then a + b
    else a + "/" + b
  }

  /** The joined path ends with `b`, and starts with `a` unless `b` is absolute,
      in which case it is `b`. */
  lemma JoinPathParts(a: string, b: string)
    ensures EndsWith(JoinPath(a, b), b)
    ensures !StartsWith(b, "/") ==> StartsWith(JoinPath(a, b), a)
    ensures StartsWith(b, "/") ==> JoinPath(a, b) == b
  {
    var r := JoinPath(a, b);
    if !StartsWith(b, "/") {
      if a == [] || EndsWith(a, "/") {
        assert r[|r| - |b|..] == b && r[..|a|] == a;
      } else {
        assert r == a + ("/" + b);
        assert r[|r| - |b|..] == b && r[..|a|] == a;
      }
    }
  }

  // ---------------------------------------------------------------------------
  // pathlib.PurePosixPath
  // ---------------------------------------------------------------------------

  /** A parsed `PurePosixPath`: its root (`""`, `"/"` or `"//"`) and the parts
      that follow it. */
  datatype PurePath = PurePath(root: string, parts: seq<string>)

  /** A part pathlib keeps: not empty, not `.`, and without a separator. */
  predicate IsPart(c: string) {
    c != [] && c != "." && '/' !in c
  }

  /** Every one of `parts` is a part pathlib keeps. */
  predicate AllParts(parts: seq<string>) {
    forall i :: 0 <= i < |parts| ==> IsPart(parts[i])
  }

  /** What parsing produces: one of the three roots, and parts it keeps. */
  predicate IsPurePath(p: PurePath) {
    (p.root == "" || p.root == "/" || p.root == "//") && AllParts(p.parts)
  }

  /** The root `splitroot` finds: exactly two leading slashes are kept, one or
      more than two become a single `/`. */
  function RootOf(s: string): string {
    if s == [] || s[0] != '/' then ""
    else if 2 <= |s| && s[1] == '/' && (|s| == 2 || s[2] != '/') then "//"
    else "/"
  }

  /** Where the first piece of `s` ends: at its first `/`, or at its end. */
  function SlashIndex(s: string): (i: nat)
    ensures i <= |s| && (i < |s| ==> s[i] == '/')
    ensures forall k :: 0 <= k < i ==> s[k] != '/'
  {
    if s == [] || s[0] == '/' then 0 else 1 + SlashIndex(s[1..])
  }

  /** The parts of `s`: the pieces between separators, without the empty ones
      (from leading, repeated or trailing `/`) and without `.`. */
  function Parts(s: string): seq<string>
    decreases |s|
  {
    if s == [] then []
    else
      var i := SlashIndex(s);
      var piece := s[..i];
      var rest := if i < |s| then s[i + 1..] else [];
      (if piece == [] || piece == "." then [] else [piece]) + Parts(rest)
  }

  /** `PurePosixPath(s)`. */
  function ParsePath(s: string): PurePath {
    PurePath(RootOf(s), Parts(s))
  }

  /** The parts separated by `/`. */
  function Joined(parts: seq<string>): string {
    if parts == [] then []
    else if |parts| == 1 then parts[0]
    else parts[0] + "/" + Joined(parts[1..])
  }

  /** `str(p)`: the root followed by the parts, or `.` for the empty relative path. */
  function PathString(p: PurePath): string {
    if p.root == [] && p.parts == [] then "." else p.root + Joined(p.parts)
  }

  /** `p / s`: the parts of `s` appended to those of `p`, or `s` alone when it
      has a root of its own. */
  function Slash(p: PurePath, s: string): PurePath {
    var q := ParsePath(s);
    if q.root != [] then q else PurePath(p.root, p.parts + q.parts)
  }

  /** Two sequences of kept parts make one. */
  lemma AllPartsAppend(a: seq<string>, b: seq<string>)
    requires AllParts(a) && AllParts(b)
    ensures AllParts(a + b)
  {
    assert forall i :: |a| <= i < |a + b| ==> (a + b)[i] == b[i - |a|];
  }

  /** Every part parsing produces is one pathlib keeps. */
  lemma {:induction false} PartsArePure(s: string)
    ensures AllParts(Parts(s))
    decreases |s|
  {
    if s != [] {
      var i := SlashIndex(s);
      var piece := s[..i];
      var rest := if i < |s| then s[i + 1..] else [];
      var head := if piece == [] || piece == "." then [] else [piece];
      assert '/' !in piece by {
        assert forall k :: 0 <= k < |piece| ==> piece[k] == s[k];
      }
      assert AllParts(head);
      PartsArePure(rest);
      AllPartsAppend(head, Parts(rest));
    }
  }

  /** A part followed by a separator is read back as that part. */
  lemma {:induction false} PieceBeforeSlash(c: string, rest: string)
    requires IsPart(c)
    ensures Parts(c + "/" + rest) == [c] + Parts(rest)
  {
    var s := c + "/" + rest;
    assert forall k :: 0 <= k < |c| ==> s[k] == c[k];
    assert s[|c|] == '/';
    assert SlashIndex(s) == |c|;
    assert s[..|c|] == c && s[|c| + 1..] == rest;
  }

  /** A single part is read back as itself. */
  lemma {:induction false} LonePiece(c: string)
    requires IsPart(c)
    ensures Parts(c) == [c]
  {
    assert SlashIndex(c) == |c|;
    assert c[..|c|] == c;
  }

  /** Parsing the parts joined with `/` gives the parts back. */
  lemma {:induction false} PartsOfJoined(parts: seq<string>)
    requires AllParts(parts)
    ensures Parts(Joined(parts)) == parts
    decreases |parts|
  {
    if |parts| == 1 {
      LonePiece(parts[0]);
    } else if 1 < |parts| {
      PartsOfJoined(parts[1..]);
      PieceBeforeSlash(parts[0], Joined(parts[1..]));
    }
  }

  /** A leading separator adds no part. */
  lemma {:induction false} PartsSkipSlash(s: string)
    ensures Parts("/" + s) == Parts(s)
  {
    assert SlashIndex("/" + s) == 0;
    assert ("/" + s)[1..] == s;
  }

  /** Joined parts start with the first part. */
  lemma {:induction false} JoinedStart(parts: seq<string>)
    requires parts != [] && parts[0] != []
    ensures Joined(parts) != [] && Joined(parts)[0] == parts[0][0]
  {
    if 1 < |parts| {
      assert Joined(parts) == parts[0] + ("/" + Joined(parts[1..]));
    }
  }

  /** Joining one more part appends a separator and the part. */
  lemma {:induction false} JoinedAppend(parts: seq<string>, c: string)
    requires parts != []
    ensures Joined(parts + [c]) == Joined(parts) + "/" + c
    decreases |parts|
  {
    var longer := parts + [c];
    if |parts| == 1 {
      assert longer[1..] == [c];
    } else {
      assert longer[1..] == parts[1..] + [c];
      JoinedAppend(parts[1..], c);
      assert Joined(longer) == parts[0] + "/" + (Joined(parts[1..]) + "/" + c);
    }
  }

  /** The empty relative path is written `.`, which parses back to it. */
  lemma {:induction false} PartsOfDot()
    ensures Parts(".") == [] && RootOf(".") == ""
  {
    assert SlashIndex(".") == 1;
    assert "."[..1] == ".";
  }

  /** Joined parts parse back with no root. */
  lemma {:induction false} ParsesBackRelative(parts: seq<string>)
    requires parts != [] && AllParts(parts)
    ensures ParsePath(Joined(parts)) == PurePath("", parts)
  {
    PartsOfJoined(parts);
    JoinedStart(parts);
  }

  /** Joined parts after one `/` parse back with the root `/`. */
  lemma {:induction false} ParsesBackRooted(parts: seq<string>)
    requires AllParts(parts)
    ensures ParsePath("/" + Joined(parts)) == PurePath("/", parts)
  {
    var j := Joined(parts);
    PartsOfJoined(parts);
    PartsSkipSlash(j);
    if parts != [] {
      JoinedStart(parts);
      assert ("/" + j)[1] == j[0];
    }
  }

  /** Two leading slashes followed by a part are the root `//`. */
  lemma {:induction false} DoubleRootOf(j: string)
    requires j == [] || j[0] != '/'
    ensures RootOf("//" + j) == "//"
  {
    if j != [] {
      assert ("//" + j)[2] == j[0];
    }
  }

  /** Joined parts after `//` parse back with the root `//`. */
  lemma {:induction false} ParsesBackDoubleRooted(parts: seq<string>)
    requires AllParts(parts)
    ensures ParsePath("//" + Joined(parts)) == PurePath("//", parts)
  {
    var j := Joined(parts);
    assert Parts("//" + j) == parts by {
      var once := "/" + j;
      PartsOfJoined(parts);
      PartsSkipSlash(j);
      PartsSkipSlash(once);
      assert "//" + j == "/" + once;
    }
    assert RootOf("//" + j) == "//" by {
      if parts != [] {
        JoinedStart(parts);
      }
      DoubleRootOf(j);
    }
  }

  /** `str` and parsing are inverse: a path pathlib can produce is read back from
      its string unchanged. */
  lemma {:induction false} ParsesBack(p: PurePath)
    requires IsPurePath(p)
    ensures ParsePath(PathString(p)) == p
  {
    if p.root == [] && p.parts == [] {
      PartsOfDot();
    } else if p.root == [] {
      ParsesBackRelative(p.parts);
      assert PathString(p) == Joined(p.parts);
    } else if p.root == "/" {
      ParsesBackRooted(p.parts);
    } else {
      ParsesBackDoubleRooted(p.parts);
    }
  }

  /** A trailing separator adds no part. */
  lemma {:induction false} PartsTrailingSlash(s: string)
    ensures Parts(s + "/") == Parts(s)
    decreases |s|
  {
    var t := s + "/";
    if s == [] {
      assert SlashIndex(t) == 0;
      assert t[1..] == [];
    } else {
      var i := SlashIndex(s);
      assert forall k :: 0 <= k < i ==> t[k] == s[k];
      assert t[i] == '/' by {
        if i < |s| { assert t[i] == s[i]; }
      }
      assert SlashIndex(t) == i;
      assert t[..i] == s[..i];
      if i < |s| {
        TailOfAppended(s, "/", i + 1);
        PartsTrailingSlash(s[i + 1..]);
      } else {
        assert t[i + 1..] == [];
      }
    }
  }

  /** Dropping a prefix of `s` from `s + u`. */
  lemma {:induction false} TailOfAppended(s: string, u: string, i: nat)
    requires i <= |s|
    ensures (s + u)[i..] == s[i..] + u
  {
  }
}
