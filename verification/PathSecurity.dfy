/** Canonical paths and containment. What containment means is proved for every kind of root, its order and
    the theorems on resolving for roots that are absolute POSIX paths. */
module PathSecurity {
  import opened Strings

  datatype Result<T> = Ok(value: T) | Err

  function Portable(s: string): (r: string)
    ensures |r| == |s|
  {
    seq(|s|, i requires 0 <= i < |s| => if s[i] == '\\' then '/' else s[i])
  }

  predicate Letter(c: char) { 'A' <= c <= 'Z' || 'a' <= c <= 'z' }

  /** A drive letter, a colon and a slash. */
  predicate DriveAbsolute(s: string) { |s| >= 3 && Letter(s[0]) && s[1] == ':' && s[2] == '/' }

  predicate Rooted(s: string) { s != [] && s[0] == '/' }

  /** The segments kept so far, after one more segment. */
  function Push(kept: seq<string>, segment: string, absolute: bool): seq<string> {
    if segment == "" || segment == "." then kept
    else if segment == ".." then
      if kept != [] && kept[|kept| - 1] != ".." then kept[..|kept| - 1]
      else if !absolute then kept + [".."] else kept
    else kept + [segment]
  }

  function Walk(kept: seq<string>, segments: seq<string>, absolute: bool): seq<string>
    decreases |segments|
  {
    if segments == [] then kept else Walk(Push(kept, segments[0], absolute), segments[1..], absolute)
  }

  function Absolute(portable: string): bool { Rooted(portable) || DriveAbsolute(portable) }

  /** The canonical segments of a path. */
  function Segments(input: string): seq<string> {
    Walk([], Split(Portable(input), '/'), Absolute(Portable(input)))
  }

  function Render(portable: string, segments: seq<string>): string {
    var joined := Join(segments, "/");
    if DriveAbsolute(portable) then joined
    else if Rooted(portable) then "/" + joined
    else if joined == "" then "." else joined
  }

  function CanonicalizePath(input: string): Result<string> {
    if input == "" || '\0' in input then Err else Ok(Render(Portable(input), Segments(input)))
  }

  method Canonicalize(input: string) returns (r: Result<string>)
    ensures r == CanonicalizePath(input)
  {
    if input == "" || '\0' in input { return Err; }
    var portable := Portable(input);
    var absolute := Absolute(portable);
    var parts := Split(portable, '/');
    var kept: seq<string> := [];
    for i := 0 to |parts|
      invariant Walk(kept, parts[i..], absolute) == Walk([], parts, absolute)
    {
      assert parts[i..][1..] == parts[i + 1..];
      kept := Push(kept, parts[i], absolute);
    }
    r := Ok(Render(portable, kept));
  }

  // ---------------------------------------------------------------- the canonical form

  predicate Plain(segment: string) {
    segment != "" && segment != "." && segment != ".." && '/' !in segment && '\\' !in segment
  }

  /** Plain names, in a relative path after some number of `..`. */
  predicate Normal(segments: seq<string>, absolute: bool) {
    forall i :: 0 <= i < |segments| ==>
      Plain(segments[i]) || (!absolute && segments[i] == ".." && forall j :: 0 <= j < i ==> segments[j] == "..")
  }

  predicate Clean(segment: string) { '/' !in segment && '\\' !in segment }

  lemma {:induction false} PushNormal(kept: seq<string>, segment: string, absolute: bool)
    requires Normal(kept, absolute) && Clean(segment)
    ensures Normal(Push(kept, segment, absolute), absolute)
  {
    if segment == ".." && !absolute && (kept == [] || kept[|kept| - 1] == "..") {
      forall j | 0 <= j < |kept| ensures kept[j] == ".." {
        assert !Plain(kept[|kept| - 1]);
      }
    }
  }

  lemma {:induction false} WalkNormal(kept: seq<string>, segments: seq<string>, absolute: bool)
    requires Normal(kept, absolute) && forall i :: 0 <= i < |segments| ==> Clean(segments[i])
    ensures Normal(Walk(kept, segments, absolute), absolute)
    decreases |segments|
  {
    if segments != [] {
      PushNormal(kept, segments[0], absolute);
      WalkNormal(Push(kept, segments[0], absolute), segments[1..], absolute);
    }
  }

  lemma {:induction false} SplitClean(s: string)
    requires '\\' !in s
    ensures forall i :: 0 <= i < |Split(s, '/')| ==> Clean(Split(s, '/')[i])
  {
    SplitWords(s, '/');
    SplitChars(s, '/');
    var parts := Split(s, '/');
    forall i | 0 <= i < |parts| ensures Clean(parts[i]) { assert parts[i] in parts; }
  }

  lemma {:induction false} SplitChars(s: string, sep: char)
    ensures forall w <- Split(s, sep), c <- w :: c in s
  {
    if s != [] {
      SplitChars(s[1..], sep);
      var rest := Split(s[1..], sep);
      assert s == [s[0]] + s[1..];
      forall w <- Split(s, sep), c <- w ensures c in s {
        if s[0] == sep {
          assert w == [] || w in rest;
        } else {
          assert rest == [rest[0]] + rest[1..];
          assert w == [s[0]] + rest[0] || w in rest;
        }
      }
    }
  }

  /** No empty segment, no `.`, and `..` only in front of a relative path. */
  lemma {:induction false} SegmentsNormal(input: string)
    ensures Normal(Segments(input), Absolute(Portable(input)))
  {
    SplitClean(Portable(input));
    WalkNormal([], Split(Portable(input), '/'), Absolute(Portable(input)));
  }

  /** Walking segments that are in normal form already adds them as they are. */
  lemma {:induction false} WalkKeeps(kept: seq<string>, segments: seq<string>, absolute: bool)
    requires forall i :: 0 <= i < |segments| ==> Plain(segments[i])
    ensures Walk(kept, segments, absolute) == kept + segments
    decreases |segments|
  {
    if segments == [] {
      assert kept + [] == kept;
    } else {
      WalkKeeps(kept + [segments[0]], segments[1..], absolute);
      assert (kept + [segments[0]]) + segments[1..] == kept + segments;
    }
  }

  lemma {:induction false} WalkKeepsRelative(kept: seq<string>, segments: seq<string>)
    requires Normal(kept + segments, false)
    ensures Walk(kept, segments, false) == kept + segments
    decreases |segments|
  {
    if segments == [] {
      assert kept + [] == kept;
    } else {
      var all, n := kept + segments, |kept|;
      assert all[n] == segments[0];
      if segments[0] == ".." && n > 0 { assert all[n - 1] == ".."; assert kept[n - 1] == ".."; }
      assert (kept + [segments[0]]) + segments[1..] == all;
      WalkKeepsRelative(kept + [segments[0]], segments[1..]);
    }
  }

  lemma {:induction false} WalkConcat(kept: seq<string>, a: seq<string>, b: seq<string>, absolute: bool)
    ensures Walk(kept, a + b, absolute) == Walk(Walk(kept, a, absolute), b, absolute)
    decreases |a|
  {
    if a == [] {
      assert [] + b == b;
    } else {
      assert (a + b)[1..] == a[1..] + b;
      WalkConcat(Push(kept, a[0], absolute), a[1..], b, absolute);
    }
  }

  lemma {:induction false} JoinFirst(segments: seq<string>)
    requires segments != [] && segments[0] != "" && Clean(segments[0])
    ensures Join(segments, "/") != "" && Join(segments, "/")[0] == segments[0][0] && !Rooted(Join(segments, "/"))
  {
  }

  lemma {:induction false} JoinClean(segments: seq<string>, c: char)
    requires c != '/' && Lack(segments, c)
    ensures c !in Join(segments, "/")
  {
    if |segments| > 1 {
      assert Lack(segments[1..], c);
      JoinClean(segments[1..], c);
    }
  }

  lemma {:induction false} PortableClean(s: string)
    requires '\\' !in s
    ensures Portable(s) == s
  {
  }

  lemma {:induction false} NormalClean(segments: seq<string>, absolute: bool)
    requires Normal(segments, absolute)
    ensures forall w <- segments :: w != "" && Clean(w)
    ensures Lack(segments, '\\')
  {
    forall w <- segments ensures w != "" && Clean(w) {
      var i :| 0 <= i < |segments| && segments[i] == w;
    }
  }

  /** Joined, segments in normal form split into themselves. */
  lemma {:induction false} JoinedNormal(segments: seq<string>, absolute: bool)
    requires Normal(segments, absolute) && segments != []
    ensures var v := Join(segments, "/"); v != "" && !Rooted(v) && Portable(v) == v && Split(v, '/') == segments
  {
    NormalClean(segments, absolute);
    assert segments[0] in segments;
    JoinFirst(segments);
    JoinClean(segments, '\\');
    PortableClean(Join(segments, "/"));
    assert ['/'] == "/";
    SplitJoin(segments, '/');
  }

  /** A path without a `..` in front of it has only plain names. */
  lemma {:induction false} AllPlain(segments: seq<string>, absolute: bool)
    requires Normal(segments, absolute) && (absolute || (segments != [] && segments[0] != ".."))
    ensures forall i :: 0 <= i < |segments| ==> Plain(segments[i])
  {
  }

  /** Reading a rendered path gives its segments back. */
  lemma {:induction false} RenderedAgain(portable: string, segments: seq<string>)
    requires Normal(segments, Absolute(portable)) && (segments != [] || !DriveAbsolute(portable))
    ensures var v := Render(portable, segments);
      v != "" && Portable(v) == v && Segments(v) == segments && Render(v, segments) == v &&
      (Rooted(v) <==> Rooted(portable))
  {
    var v := Render(portable, segments);
    if segments == [] {
      assert v == (if Rooted(portable) then "/" else ".");
      SlashAndDot();
    } else {
      JoinedNormal(segments, Absolute(portable));
      var joined := Join(segments, "/");
      if Rooted(portable) {
        RootedAgain(segments, joined);
      } else {
        if Absolute(joined) {
          assert segments[0] != ".." by { NormalClean(segments, Absolute(portable)); assert segments[0] in segments; JoinFirst(segments); }
          AllPlain(segments, Absolute(portable));
          WalkKeeps([], segments, true);
        } else if Absolute(portable) {
          AllPlain(segments, true);
          WalkKeeps([], segments, false);
        } else {
          assert [] + segments == segments;
          WalkKeepsRelative([], segments);
        }
      }
    }
  }

  lemma {:induction false} SlashAndDot()
    ensures Segments("/") == [] && Segments(".") == [] && Portable("/") == "/" && Portable(".") == "."
  {
    assert Portable("/") == "/" && Portable(".") == ".";
    assert "/"[1..] == "" && "."[1..] == "";
    assert Split("/", '/') == [""] + [""];
    assert ['.'] + "" == ".";
    assert Glue('.', [""]) == ["."];
    assert Split(".", '/') == ["."];
    assert ([""] + [""])[1..] == [""];
    assert Walk([], ["", ""], true) == Walk([], [""], true) == Walk([], [], true);
    assert Walk([], ["."], false) == Walk([], [], false);
  }

  lemma {:induction false} RootedAgain(segments: seq<string>, joined: string)
    requires Normal(segments, true) && segments != [] && joined == Join(segments, "/")
    requires Portable(joined) == joined && Split(joined, '/') == segments
    ensures Portable("/" + joined) == "/" + joined && Segments("/" + joined) == segments
  {
    var v := "/" + joined;
    forall i | 0 <= i < |v| ensures Portable(v)[i] == v[i] {
      if i > 0 { assert v[i] == joined[i - 1] == Portable(joined)[i - 1]; }
    }
    assert Portable(v) == v;
    assert v[1..] == joined;
    assert Split(v, '/') == [""] + segments;
    assert ([""] + segments)[1..] == segments;
    AllPlain(segments, true);
    WalkKeeps([], segments, true);
  }

  predicate Lack(words: seq<string>, c: char) { forall i :: 0 <= i < |words| ==> c !in words[i] }

  lemma {:induction false} WalkLacks(kept: seq<string>, segments: seq<string>, absolute: bool, c: char)
    requires c != '.' && Lack(kept, c) && Lack(segments, c)
    ensures Lack(Walk(kept, segments, absolute), c)
    decreases |segments|
  {
    if segments != [] {
      assert Lack(segments[1..], c);
      WalkLacks(Push(kept, segments[0], absolute), segments[1..], absolute, c);
    }
  }

  /** No character but the separator comes from nowhere. */
  lemma {:induction false} NoNewNul(input: string)
    requires '\0' !in input
    ensures '\0' !in Render(Portable(input), Segments(input))
  {
    var parts := Split(Portable(input), '/');
    assert '\0' !in Portable(input);
    SplitChars(Portable(input), '/');
    forall i | 0 <= i < |parts| ensures '\0' !in parts[i] { assert parts[i] in parts; }
    WalkLacks([], parts, Absolute(Portable(input)), '\0');
    JoinClean(Segments(input), '\0');
  }

  /** Canonicalizing fails exactly for the empty path and for a NUL. A result is in normal form, and
      canonicalizing it again gives it back if and only if it is not empty, which it is exactly when
      the segments of a drive path cancel out. */
  lemma {:induction false} CanonicalExact(input: string)
    ensures CanonicalizePath(input).Err? <==> input == "" || '\0' in input
    ensures CanonicalizePath(input).Ok? ==>
      var v := CanonicalizePath(input).value;
      (CanonicalizePath(v) == Ok(v) <==> v != "") &&
      (v == "" <==> DriveAbsolute(Portable(input)) && Segments(input) == [])
  {
    var r := CanonicalizePath(input);
    if r.Ok? {
      SegmentsNormal(input);
      if DriveAbsolute(Portable(input)) && Segments(input) == [] {
        assert r.value == "";
      } else {
        RenderedAgain(Portable(input), Segments(input));
        NoNewNul(input);
      }
    }
  }

  /** Two words and a slash between them. */
  lemma {:induction false} SplitTwo(a: string, b: string)
    requires '/' !in a && '/' !in b
    ensures Split(a + ['/'] + b, '/') == [a, b]
  {
    SplitConcat(a, b, '/');
    SplitWords(a, '/');
    SplitWords(b, '/');
  }

  /** The top of a drive, reached by going up, has the empty path as its canonical form. */
  lemma {:induction false} DriveTop()
    ensures CanonicalizePath("C:/..") == Ok("") && CanonicalizePath("") == Err
  {
    var path := "C:/..";
    assert Portable(path) == path && path == "C:" + ['/'] + "..";
    SplitTwo("C:", "..");
    UpFromDrive();
    hide Split, Walk, Portable;
    assert DriveAbsolute(path) && '\0' !in path;
    assert Segments(path) == [];
  }

  lemma {:induction false} UpFromDrive()
    ensures Walk([], ["C:", ".."], true) == []
  {
    assert ["C:", ".."][1..] == [".."] && [".."][1..] == [];
    assert Push([], "C:", true) == ["C:"] && Push(["C:"], "..", true) == [];
    assert Walk(["C:"], [".."], true) == Walk([], [], true);
  }

  // ---------------------------------------------------------------- what a path means

  /** Following a segment from a directory, which is given by the names that lead to it. */
  function Follow(dir: seq<string>, segment: string): seq<string> {
    if segment == "" || segment == "." then dir
    else if segment == ".." then (if dir == [] then [] else dir[..|dir| - 1])
    else dir + [segment]
  }

  function Visit(dir: seq<string>, segments: seq<string>): seq<string>
    decreases |segments|
  {
    if segments == [] then dir else Visit(Follow(dir, segments[0]), segments[1..])
  }

  lemma {:induction false} VisitLast(dir: seq<string>, segments: seq<string>, last: string)
    ensures Visit(dir, segments + [last]) == Follow(Visit(dir, segments), last)
    decreases |segments|
  {
    if segments == [] {
      assert [] + [last] == [last];
      assert [last][1..] == [];
      assert Visit(Follow(dir, last), []) == Follow(dir, last);
    } else {
      assert (segments + [last])[1..] == segments[1..] + [last];
      VisitLast(Follow(dir, segments[0]), segments[1..], last);
    }
  }

  lemma {:induction false} PushVisits(dir: seq<string>, kept: seq<string>, segment: string)
    requires Normal(kept, false)
    ensures Visit(dir, Push(kept, segment, false)) == Follow(Visit(dir, kept), segment)
  {
    if segment == "" || segment == "." {
    } else if segment == ".." && kept != [] && kept[|kept| - 1] != ".." {
      var n := |kept| - 1;
      assert kept == kept[..n] + [kept[n]];
      VisitLast(dir, kept[..n], kept[n]);
      assert Plain(kept[n]);
    } else {
      VisitLast(dir, kept, segment);
    }
  }

  lemma {:induction false} WalkVisits(dir: seq<string>, kept: seq<string>, segments: seq<string>)
    requires Normal(kept, false) && forall i :: 0 <= i < |segments| ==> Clean(segments[i])
    ensures Visit(dir, Walk(kept, segments, false)) == Visit(Visit(dir, kept), segments)
    decreases |segments|
  {
    if segments != [] {
      PushNormal(kept, segments[0], false);
      PushVisits(dir, kept, segments[0]);
      WalkVisits(dir, Push(kept, segments[0], false), segments[1..]);
    }
  }

  lemma {:induction false} WalkIsVisit(kept: seq<string>, segments: seq<string>)
    requires Normal(kept, true)
    requires forall i :: 0 <= i < |segments| ==> Clean(segments[i])
    ensures Walk(kept, segments, true) == Visit(kept, segments)
    decreases |segments|
  {
    if segments != [] {
      assert kept != [] ==> Plain(kept[|kept| - 1]);
      PushNormal(kept, segments[0], true);
      WalkIsVisit(Push(kept, segments[0], true), segments[1..]);
    }
  }

  /** A canonical path means what the path meant: an absolute path leads to the same directory from
      the top, and a relative path leads to the same directory from every directory. */
  lemma {:induction false} MeaningKept(input: string)
    ensures Absolute(Portable(input)) ==> Segments(input) == Visit([], Split(Portable(input), '/'))
    ensures !Absolute(Portable(input)) ==>
      forall dir :: Visit(dir, Segments(input)) == Visit(dir, Split(Portable(input), '/'))
  {
    SplitClean(Portable(input));
    if Absolute(Portable(input)) {
      WalkIsVisit([], Split(Portable(input), '/'));
    } else {
      forall dir ensures Visit(dir, Segments(input)) == Visit(dir, Split(Portable(input), '/')) {
        WalkVisits(dir, [], Split(Portable(input), '/'));
      }
    }
  }

  // ---------------------------------------------------------------- containment

  function TrimSlashes(s: string): string
    decreases |s|
  {
    if s != [] && s[|s| - 1] == '/' then TrimSlashes(s[..|s| - 1]) else s
  }

  function RootForm(canonical: string): string {
    if TrimSlashes(canonical) == "" then "/" else TrimSlashes(canonical)
  }

  /** `lower` stands for `toLowerCase`, which only drive paths go through. */
  predicate Within(root: string, candidate: string, lower: string -> string) {
    if root == "/" then Rooted(candidate)
    else if DriveAbsolute(root) then lower(candidate) == lower(root) || lower(root) + "/" <= lower(candidate)
    else candidate == root || root + "/" <= candidate
  }

  predicate IsPathContained(root: string, candidate: string, lower: string -> string) {
    var r, c := CanonicalizePath(root), CanonicalizePath(candidate);
    r.Ok? && c.Ok? && Within(RootForm(r.value), c.value, lower)
  }

  /** A root that is an absolute POSIX path. */
  predicate PosixRoot(root: string) { CanonicalizePath(root).Ok? && Rooted(Portable(root)) }

  lemma {:induction false} JoinLast(segments: seq<string>)
    requires segments != [] && forall w <- segments :: w != "" && Clean(w)
    ensures var v := Join(segments, "/"); v != "" && v[|v| - 1] != '/'
  {
    if |segments| > 1 {
      assert forall w <- segments[1..] :: w in segments;
      JoinLast(segments[1..]);
    } else {
      assert segments[0] in segments;
    }
  }

  lemma {:induction false} RootedForm(segments: seq<string>)
    requires Normal(segments, true)
    ensures RootForm("/" + Join(segments, "/")) == "/" + Join(segments, "/")
  {
    if segments == [] {
      assert "/"[..0] == "";
      assert TrimSlashes("/") == TrimSlashes("") == "";
    } else {
      NormalClean(segments, true);
      JoinLast(segments);
    }
  }

  /** Below a path with at least one name, text that starts with the path and a slash is what lies
      below it segment by segment. */
  lemma {:induction false} PrefixOfSegments(r: seq<string>, c: seq<string>)
    requires Normal(r, true) && Normal(c, true) && r != []
    ensures (Join(c, "/") == Join(r, "/") || Join(r, "/") + "/" <= Join(c, "/")) <==> r <= c
  {
    var a, b := Join(r, "/"), Join(c, "/");
    JoinedNormal(r, true);
    assert "/" == ['/'];
    if r <= c && r != c {
      assert c == r + c[|r|..];
      JoinAppend(r, c[|r|..], "/");
    }
    if c == [] {
    } else {
      JoinedNormal(c, true);
      if a + "/" <= b {
        var rest := b[|a| + 1..];
        assert b == a + ['/'] + rest;
        SplitConcat(a, rest, '/');
        assert c == r + Split(rest, '/');
      }
    }
  }

  /** Containment below an absolute POSIX root is the prefix order on canonical segments. */
  lemma {:induction false} ContainedExact(root: string, candidate: string, lower: string -> string)
    requires PosixRoot(root)
    ensures IsPathContained(root, candidate, lower) <==>
      CanonicalizePath(candidate).Ok? && Rooted(Portable(candidate)) && Segments(root) <= Segments(candidate)
  {
    if CanonicalizePath(candidate).Ok? {
      var r, c := Segments(root), Segments(candidate);
      var p := Portable(candidate);
      SegmentsNormal(root);
      SegmentsNormal(candidate);
      RootedForm(r);
      if Rooted(p) {
        var a, b := Join(r, "/"), Join(c, "/");
        if r == [] {
          assert a == "" && "/" + a == "/";
        } else {
          JoinedNormal(r, true);
          PrefixOfSegments(r, c);
          SlashInFront(a, b);
        }
      } else {
        NotRooted(p, c);
        assert forall s: string :: "/" + s == CanonicalizePath(candidate).value ==> false;
      }
    }
  }

  lemma {:induction false} SlashInFront(a: string, b: string)
    ensures "/" + a == "/" + b <==> a == b
    ensures "/" + a + "/" <= "/" + b <==> a + "/" <= b
  {
    assert ("/" + a)[1..] == a && ("/" + b)[1..] == b;
    assert "/" + a + "/" == "/" + (a + "/");
    assert ("/" + (a + "/"))[1..] == a + "/";
    if a + "/" <= b { assert "/" + b == "/" + (a + "/") + b[|a| + 1..]; }
    if "/" + a + "/" <= "/" + b { assert b == (a + "/") + b[|a| + 1..] by {
        forall i | 0 <= i < |a| + 1 ensures b[i] == (a + "/")[i] { assert ("/" + b)[i + 1] == ("/" + a + "/")[i + 1]; }
      } }
  }

  lemma {:induction false} NotRooted(portable: string, segments: seq<string>)
    requires Normal(segments, Absolute(portable)) && !Rooted(portable)
    ensures !Rooted(Render(portable, segments))
  {
    if segments != [] { JoinedNormal(segments, Absolute(portable)); }
  }

  /** On absolute POSIX paths containment is a partial order, up to canonical form. */
  lemma {:induction false} ContainmentOrder(a: string, b: string, c: string, lower: string -> string)
    requires PosixRoot(a) && PosixRoot(b) && PosixRoot(c)
    ensures IsPathContained(a, a, lower)
    ensures IsPathContained(a, b, lower) && IsPathContained(b, c, lower) ==> IsPathContained(a, c, lower)
    ensures IsPathContained(a, b, lower) && IsPathContained(b, a, lower) <==> CanonicalizePath(a) == CanonicalizePath(b)
  {
    ContainedExact(a, a, lower);
    ContainedExact(a, b, lower);
    ContainedExact(b, c, lower);
    ContainedExact(a, c, lower);
    ContainedExact(b, a, lower);
    SameSegments(a, b);
    hide IsPathContained, CanonicalizePath, Segments, Portable;
    PrefixOrder(Segments(a), Segments(b), Segments(c));
  }

  lemma {:induction false} PrefixOrder(a: seq<string>, b: seq<string>, c: seq<string>)
    ensures a <= b && b <= c ==> a <= c
    ensures a <= b && b <= a <==> a == b
  {
  }

  /** Absolute POSIX paths have the same canonical form exactly when they have the same segments. */
  lemma {:induction false} SameSegments(a: string, b: string)
    requires PosixRoot(a) && PosixRoot(b)
    ensures Segments(a) == Segments(b) <==> CanonicalizePath(a) == CanonicalizePath(b)
  {
    CanonicalFree(a) by { RenderedNotEmpty(a); }
    CanonicalFree(b) by { RenderedNotEmpty(b); }
    hide Segments, Portable;
  }

  // ---------------------------------------------------------------- other roots

  function Each(f: string -> string, words: seq<string>): (r: seq<string>)
    ensures |r| == |words|
  {
    seq(|words|, i requires 0 <= i < |words| => f(words[i]))
  }

  /** What `toLowerCase` does with slashes: it treats the text on both sides of one on its own. */
  ghost predicate SlashWise(lower: string -> string) {
    (forall a, b :: lower(a + "/" + b) == lower(a) + "/" + lower(b)) &&
    forall s :: ('/' !in s ==> '/' !in lower(s)) && (lower(s) == "" <==> s == "")
  }

  lemma {:induction false} LowerSplit(s: string, lower: string -> string)
    requires SlashWise(lower)
    ensures Split(lower(s), '/') == Each(lower, Split(s, '/'))
  {
    var words := Split(s, '/');
    SplitWords(s, '/');
    JoinSplit(s, '/');
    assert ['/'] == "/";
    LowerJoin(words, lower);
    forall w <- Each(lower, words) ensures '/' !in w {
      var i :| 0 <= i < |words| && Each(lower, words)[i] == w;
      assert words[i] in words;
    }
    SplitJoin(Each(lower, words), '/');
  }

  lemma {:induction false} LowerJoin(words: seq<string>, lower: string -> string)
    requires SlashWise(lower) && words != []
    ensures lower(Join(words, "/")) == Join(Each(lower, words), "/")
  {
    if |words| > 1 {
      LowerJoin(words[1..], lower);
      assert Each(lower, words)[1..] == Each(lower, words[1..]);
    }
  }

  /** Text starts with another text and a slash, or is that text, exactly if it does so word by word. */
  lemma {:induction false} PrefixSplit(a: string, b: string)
    ensures a == b || a + "/" <= b <==> Split(a, '/') <= Split(b, '/')
  {
    assert "/" == ['/'];
    var words, more := Split(a, '/'), Split(b, '/');
    if a + "/" <= b {
      var rest := b[|a| + 1..];
      assert b == a + ['/'] + rest;
      SplitConcat(a, rest, '/');
    }
    if words <= more {
      JoinSplit(a, '/');
      JoinSplit(b, '/');
      var rest := more[|words|..];
      assert more == words + rest && (rest == [] ==> more == words);
      if rest != [] {
        JoinAppend(words, rest, "/");
        assert b == a + "/" + Join(rest, "/");
      }
    }
  }

  lemma {:induction false} SplitRendered(portable: string, segments: seq<string>)
    requires Normal(segments, Absolute(portable))
    ensures var v := Split(Render(portable, segments), '/');
      if Rooted(portable) then v[0] == ""
      else if segments != [] then v == segments
      else v == (if DriveAbsolute(portable) then [""] else ["."])
  {
    if segments == [] {
      SplitWords("", '/');
      SplitWords(".", '/');
      assert Split("/", '/') == [[]] + Split("/"[1..], '/');
    } else {
      JoinedNormal(segments, Absolute(portable));
      if Rooted(portable) {
        assert ("/" + Join(segments, "/"))[1..] == Join(segments, "/");
      }
    }
  }

  /** Below a root that does not begin with a slash and has a name, containment is the prefix order on
      canonical segments again: up to the case of letters if the canonical root is a drive path. */
  lemma {:induction false} NamedContained(root: string, candidate: string, lower: string -> string)
    requires CanonicalizePath(root).Ok? && !Rooted(Portable(root)) && Segments(root) != [] && SlashWise(lower)
    ensures var r, c := Segments(root), Segments(candidate);
      IsPathContained(root, candidate, lower) <==>
      CanonicalizePath(candidate).Ok? && !Rooted(Portable(candidate)) &&
      if DriveAbsolute(Join(r, "/")) then Each(lower, r) <= Each(lower, c) else r <= c
  {
    var r := Segments(root);
    SegmentsNormal(root);
    NormalClean(r, Absolute(Portable(root)));
    JoinLast(r);
    JoinedNormal(r, Absolute(Portable(root)));
    var a := Join(r, "/");
    assert RootForm(a) == a && a != "/" && CanonicalizePath(root).value == a;
    if CanonicalizePath(candidate).Ok? {
      var v := CanonicalizePath(candidate).value;
      SegmentsNormal(candidate);
      SplitRendered(Portable(candidate), Segments(candidate));
      assert r[0] in r;
      assert Normal(r, Absolute(Portable(root))) && r[0] != ".";
      if DriveAbsolute(a) {
        PrefixSplit(lower(a), lower(v));
        LowerSplit(a, lower);
        LowerSplit(v, lower);
        DriveHasTwo(r);
      } else {
        PrefixSplit(a, v);
      }
    }
  }

  lemma {:induction false} DriveHasTwo(segments: seq<string>)
    requires DriveAbsolute(Join(segments, "/")) && forall w <- segments :: Clean(w)
    ensures |segments| >= 2
  {
    assert segments != [] ==> segments[0] in segments;
  }

  /** Without a name, `.` contains only itself, and the top of a drive all that begins with a slash. */
  lemma {:induction false} NamelessContained(root: string, candidate: string, lower: string -> string)
    requires CanonicalizePath(root).Ok? && !Rooted(Portable(root)) && Segments(root) == []
    ensures IsPathContained(root, candidate, lower) <==>
      CanonicalizePath(candidate).Ok? &&
      if DriveAbsolute(Portable(root)) then Rooted(Portable(candidate)) else CanonicalizePath(candidate) == Ok(".")
  {
    if CanonicalizePath(candidate).Ok? {
      var v := CanonicalizePath(candidate).value;
      SegmentsNormal(candidate);
      SplitRendered(Portable(candidate), Segments(candidate));
      if DriveAbsolute(Portable(root)) {
        if !Rooted(Portable(candidate)) { NotRooted(Portable(candidate), Segments(candidate)); }
      } else {
        assert RootForm(".") == ".";
        PrefixSplit(".", v);
        SplitWords(".", '/');
        assert Segments(candidate) != [] && !Rooted(Portable(candidate)) ==> Segments(candidate)[0] != ".";
        assert "." != "";
        JoinSplit(v, '/');
      }
    }
  }

  // ---------------------------------------------------------------- what containment means for relative paths

  /** How far a canonical relative path goes up first. */
  function Above(segments: seq<string>): (n: nat)
    ensures n <= |segments| && (forall i :: 0 <= i < n ==> segments[i] == "..") && (n < |segments| ==> segments[n] != "..")
  {
    if segments != [] && segments[0] == ".." then Above(segments[1..]) + 1 else 0
  }

  /** From every directory, the second path leads to or below where the first leads. */
  ghost predicate Below(r: seq<string>, c: seq<string>) { forall dir :: Visit(dir, r) <= Visit(dir, c) }

  function Up(dir: seq<string>, n: nat): seq<string> { if n <= |dir| then dir[..|dir| - n] else [] }

  lemma {:induction false} VisitNames(dir: seq<string>, names: seq<string>)
    requires forall i :: 0 <= i < |names| ==> Plain(names[i])
    ensures Visit(dir, names) == dir + names
    decreases |names|
  {
    if names == [] {
      assert dir + [] == dir;
    } else {
      VisitNames(dir + [names[0]], names[1..]);
      assert (dir + [names[0]]) + names[1..] == dir + names;
    }
  }

  /** A canonical relative path goes up and then down. */
  lemma {:induction false} VisitNormal(dir: seq<string>, s: seq<string>)
    requires Normal(s, false)
    ensures Visit(dir, s) == Up(dir, Above(s)) + s[Above(s)..]
    decreases |s|
  {
    if s != [] && s[0] == ".." {
      VisitNormal(Follow(dir, ".."), s[1..]);
      assert Up(Follow(dir, ".."), Above(s[1..])) == Up(dir, Above(s));
    } else {
      forall i | 0 <= i < |s| ensures Plain(s[i]) { assert s[0] != ".." ==> Plain(s[0]); }
      VisitNames(dir, s);
      assert Up(dir, 0) == dir;
    }
  }

  lemma {:induction false} BelowExact(r: seq<string>, c: seq<string>)
    requires Normal(r, false) && Normal(c, false)
    ensures Below(r, c) <==> if Above(r) == |r| then Above(c) <= Above(r) else r <= c
  {
    var a, b := Above(r), Above(c);
    var p, q := r[a..], c[b..];
    if (if a == |r| then b <= a else r <= c) {
      forall dir ensures Visit(dir, r) <= Visit(dir, c) {
        VisitNormal(dir, r);
        VisitNormal(dir, c);
        if a == |r| {
          assert Up(dir, a) <= Up(dir, b);
        } else {
          assert c[a] == r[a];
          assert a == b && p <= q;
        }
      }
    }
    if Below(r, c) { NotBelow(r, c); }
  }

  /** Directories named like nothing in either path show where one leads elsewhere. */
  lemma {:induction false} NotBelow(r: seq<string>, c: seq<string>)
    requires Normal(r, false) && Normal(c, false) && Below(r, c)
    ensures if Above(r) == |r| then Above(c) <= Above(r) else r <= c
  {
    var a, b := Above(r), Above(c);
    var p, q := r[a..], c[b..];
    var name := (if p == [] then "" else p[0]) + (if q == [] then "" else q[0]) + "x";
    BelowFrom(r, c, name);
    hide Below, Normal, Times;
    assert p != [] ==> |p[0]| < |name|;
    assert q != [] ==> |q[0]| < |name|;
    SameFilling(name, a, b, p, q);
    if p != [] { SameUps(r, c); }
  }

  lemma {:induction false} SameUps(r: seq<string>, c: seq<string>)
    requires Above(r) == Above(c) && r[Above(r)..] <= c[Above(c)..]
    ensures r <= c
  {
    var a := Above(r);
    assert r[..a] == c[..a];
    assert r == r[..a] + r[a..] && c == r[..a] + c[a..];
    hide Above;
  }

  lemma {:induction false} BelowFrom(r: seq<string>, c: seq<string>, name: string)
    requires Normal(r, false) && Normal(c, false) && Below(r, c)
    ensures Times(name, Above(c)) + r[Above(r)..] <= Times(name, Above(r)) + c[Above(c)..]
  {
    var a, b := Above(r), Above(c);
    var dir := Times(name, a + b);
    VisitNormal(dir, r);
    VisitNormal(dir, c);
    assert Visit(dir, r) <= Visit(dir, c);
    hide Visit, Below, Normal, Above;
    assert Up(dir, a) == Times(name, b) && Up(dir, b) == Times(name, a);
  }

  function Times(name: string, n: nat): seq<string> { seq(n, i requires 0 <= i < n => name) }

  lemma {:induction false} SameFilling(name: string, a: nat, b: nat, p: seq<string>, q: seq<string>)
    requires (p != [] ==> p[0] != name) && (q != [] ==> q[0] != name)
    requires Times(name, b) + p <= Times(name, a) + q
    ensures b <= a && (p != [] ==> a == b && p <= q)
  {
    var left, right := Times(name, b) + p, Times(name, a) + q;
    assert forall i :: 0 <= i < |left| ==> left[i] == right[i];
    assert a < |left| ==> left[a] == right[a];
    assert b < |left| ==> left[b] == right[b];
    if p != [] {
      assert a == b;
      assert left[b..] == p && right[b..] == q;
      assert left[b..] <= right[b..];
    }
  }

  /** Containment below a relative root means what it says if and only if the root has a name or goes up as far
      as the candidate does: with a root of `..` only, a candidate that goes up farther is taken to be inside,
      and one that goes up less far is not; and below `.` only `.` itself is. */
  lemma {:induction false} RelativeContained(root: string, candidate: string, lower: string -> string)
    requires CanonicalizePath(root).Ok? && CanonicalizePath(candidate).Ok? && SlashWise(lower)
    requires !Absolute(Portable(root)) && !Absolute(Portable(candidate)) && !DriveAbsolute(Join(Segments(root), "/"))
    ensures var r, c := Segments(root), Segments(candidate);
      if Above(r) < |r| then IsPathContained(root, candidate, lower) <==> Below(r, c)
      else (Below(r, c) <==> Above(c) <= |r|) && (IsPathContained(root, candidate, lower) <==> if r == [] then c == [] else |r| <= Above(c))
  {
    var r, c := Segments(root), Segments(candidate);
    SegmentsNormal(root);
    SegmentsNormal(candidate);
    BelowExact(r, c);
    if r == [] {
      NamelessContained(root, candidate, lower);
      DotExact(candidate);
    } else {
      NamedContained(root, candidate, lower);
      hide IsPathContained, CanonicalizePath, Segments, Below;
      if Above(r) == |r| { AbovePrefix(r, c); }
    }
  }

  lemma {:induction false} AbovePrefix(r: seq<string>, c: seq<string>)
    requires Above(r) == |r|
    ensures r <= c <==> |r| <= Above(c)
  {
    assert r <= c ==> forall i :: 0 <= i < |r| ==> c[i] == r[i] == "..";
  }

  lemma {:induction false} DotExact(candidate: string)
    requires CanonicalizePath(candidate).Ok? && !Absolute(Portable(candidate))
    ensures CanonicalizePath(candidate) == Ok(".") <==> Segments(candidate) == []
  {
    SegmentsNormal(candidate);
    SplitRendered(Portable(candidate), Segments(candidate));
    SplitWords(".", '/');
    if Segments(candidate) != [] { assert Segments(candidate)[0] != "."; }
  }

  /** The parent of the parent is taken to lie below the parent. */
  lemma {:induction false} GrandparentBelow(lower: string -> string)
    requires SlashWise(lower)
    ensures IsPathContained("..", "../..", lower) && !Below(Segments(".."), Segments("../.."))
  {
    assert Portable("..") == ".." && Portable("../..") == ".." + ['/'] + "..";
    SplitTwo("..", "..");
    SplitWords("..", '/');
    assert ["..", ".."][1..] == [".."] && [".."][1..] == [];
    assert Push([], "..", false) == [".."] && Push([".."], "..", false) == ["..", ".."];
    assert Walk([".."], [".."], false) == Walk(["..", ".."], [], false);
    assert Segments("..") == [".."] && Segments("../..") == ["..", ".."];
    assert Above([".."]) == 1 && Above(["..", ".."]) == 2;
    RelativeContained("..", "../..", lower);
  }

  // ---------------------------------------------------------------- resolving and relative paths

  /** The path that is asked for. Only a slash or a drive makes a request absolute, a leading
      backslash does not. */
  function Target(root: string, requested: string): string {
    if Rooted(requested) || DriveAbsolute(Portable(requested)) then requested else TrimSlashes(root) + "/" + requested
  }

  function ResolveContainedPath(root: string, requested: string, lower: string -> string): Result<string> {
    if requested == "" then Err
    else
      var c := CanonicalizePath(Target(root, requested));
      if c.Ok? && IsPathContained(root, c.value, lower) then c else Err
  }

  function Slice(s: string, n: nat): string { if n <= |s| then s[n..] else "" }

  function RelativeContainedPath(root: string, candidate: string, lower: string -> string): Result<string> {
    var r, c := CanonicalizePath(root), ResolveContainedPath(root, candidate, lower);
    if r.Err? || c.Err? then Err
    else if c.value == RootForm(r.value) then Ok("")
    else Ok(Slice(c.value, if RootForm(r.value) == "/" then 1 else |RootForm(r.value)| + 1))
  }

  /** Whatever resolves below an absolute POSIX root is canonical and lies below it. */
  lemma {:induction false} ResolvedInside(root: string, requested: string, lower: string -> string)
    requires PosixRoot(root) && ResolveContainedPath(root, requested, lower).Ok?
    ensures var c := ResolveContainedPath(root, requested, lower).value;
      CanonicalizePath(c) == Ok(c) && Rooted(c) && Segments(root) <= Segments(c)
  {
    var c := ResolveContainedPath(root, requested, lower).value;
    CanonicalExact(Target(root, requested));
    ContainedExact(root, c, lower);
    assert c != "";
    CanonicalFree(Target(root, requested));
    assert Portable(c) == c;
  }

  lemma {:induction false} CanonicalFree(input: string)
    requires CanonicalizePath(input).Ok? && CanonicalizePath(input).value != ""
    ensures Portable(CanonicalizePath(input).value) == CanonicalizePath(input).value
    ensures Segments(CanonicalizePath(input).value) == Segments(input)
  {
    CanonicalExact(input);
    SegmentsNormal(input);
    RenderedAgain(Portable(input), Segments(input));
  }

  /** Trailing slashes of a root do not change its segments. */
  lemma {:induction false} TrimKeepsSegments(root: string)
    ensures Walk([], Split(Portable(TrimSlashes(root)), '/'), true) == Walk([], Split(Portable(root), '/'), true)
    ensures TrimSlashes(root) <= root
    decreases |root|
  {
    if root != [] && root[|root| - 1] == '/' {
      var t := root[..|root| - 1];
      TrimKeepsSegments(t);
      var pt := Portable(t);
      assert Portable(root) == pt + ['/'] + "";
      SplitConcat(pt, "", '/');
      WalkConcat([], Split(pt, '/'), [""], true);
      assert [""][1..] == [];
      assert Walk(Walk([], Split(pt, '/'), true), [""], true) == Walk([], Split(pt, '/'), true);
    }
  }

  /** Text put behind a root and a slash goes on from where the root ends. */
  lemma {:induction false} AppendedText(root: string, text: string)
    requires PosixRoot(root)
    ensures var q := TrimSlashes(root) + "/" + text;
      Rooted(Portable(q)) && Segments(q) == Walk(Segments(root), Split(Portable(text), '/'), true)
  {
    var t := TrimSlashes(root);
    var q := t + "/" + text;
    TrimKeepsSegments(root);
    assert Portable(q) == Portable(t) + ['/'] + Portable(text);
    assert t != "" ==> Portable(t)[0] == Portable(root)[0];
    assert Rooted(Portable(q));
    SplitConcat(Portable(t), Portable(text), '/');
    WalkConcat([], Split(Portable(t), '/'), Split(Portable(text), '/'), true);
  }

  /** Names appended to a root with a slash are appended to its segments. */
  lemma {:induction false} Appended(root: string, names: seq<string>)
    requires PosixRoot(root) && Normal(names, true) && names != []
    ensures var q := TrimSlashes(root) + "/" + Join(names, "/");
      Rooted(Portable(q)) && Segments(q) == Segments(root) + names
  {
    JoinedNormal(names, true);
    AppendedText(root, Join(names, "/"));
    AllPlain(names, true);
    WalkKeeps(Segments(root), names, true);
  }

  /** A request resolves to its target if that lies below the root, and the relative form is what the
      segments of the target add to those of the root. */
  lemma {:induction false} RelativeSegments(root: string, requested: string, lower: string -> string)
    requires PosixRoot(root) && requested != "" && PosixRoot(Target(root, requested))
    ensures var t, n := Target(root, requested), |Segments(root)|;
      if Segments(root) <= Segments(t) then
        ResolveContainedPath(root, requested, lower) == CanonicalizePath(t) && Normal(Segments(t)[n..], true) &&
        RelativeContainedPath(root, requested, lower) == Ok(Join(Segments(t)[n..], "/"))
      else RelativeContainedPath(root, requested, lower) == Err
  {
    var t := Target(root, requested);
    hide Target;
    ResolvedTarget(root, requested, lower);
    PosixCanonical(root);
    PosixCanonical(t);
    hide ResolveContainedPath, CanonicalizePath, Portable;
    if Segments(root) <= Segments(t) {
      SegmentsNormal(t);
      SegmentsNormal(root);
      hide Segments;
      RestNormal(Segments(root), Segments(t));
      RootedForm(Segments(root));
      TextBelow(Segments(root), Segments(t));
      hide RootForm;
    }
  }

  lemma {:induction false} PosixCanonical(path: string)
    requires PosixRoot(path)
    ensures CanonicalizePath(path) == Ok("/" + Join(Segments(path), "/")) && Absolute(Portable(path))
  {
    hide Segments, Portable;
  }

  lemma {:induction false} ResolvedTarget(root: string, requested: string, lower: string -> string)
    requires PosixRoot(root) && requested != "" && PosixRoot(Target(root, requested))
    ensures ResolveContainedPath(root, requested, lower) ==
            if Segments(root) <= Segments(Target(root, requested)) then CanonicalizePath(Target(root, requested)) else Err
  {
    hide Target, IsPathContained, Segments;
    CanonicalContained(root, Target(root, requested), lower);
  }

  lemma {:induction false} RestNormal(r: seq<string>, c: seq<string>)
    requires Normal(c, true) && r <= c
    ensures Normal(c[|r|..], true)
  {
    AllPlain(c, true);
  }

  lemma {:induction false} CanonicalContained(root: string, t: string, lower: string -> string)
    requires PosixRoot(root) && PosixRoot(t)
    ensures IsPathContained(root, CanonicalizePath(t).value, lower) <==> Segments(root) <= Segments(t)
  {
    CanonicalFree(t) by { RenderedNotEmpty(t); }
    CanonicalExact(t) by { RenderedNotEmpty(t); }
    ContainedExact(root, CanonicalizePath(t).value, lower);
  }

  /** The text of a path below a root, without the root and its slash. */
  lemma {:induction false} TextBelow(r: seq<string>, c: seq<string>)
    requires Normal(r, true) && Normal(c, true) && r <= c
    ensures var a, b := "/" + Join(r, "/"), "/" + Join(c, "/");
      if a == b then Join(c[|r|..], "/") == "" else Slice(b, if a == "/" then 1 else |a| + 1) == Join(c[|r|..], "/")
  {
    var a, b, n := Join(r, "/"), Join(c, "/"), |r|;
    if r == c {
      assert c[n..] == [];
    } else if r == [] {
      assert c[0..] == c && a == "" && "/" + a == "/";
      JoinedNormal(c, true);
      assert ("/" + b)[1..] == b;
    } else {
      JoinedNormal(r, true);
      JoinedNormal(c, true);
      assert c == r + c[n..];
      JoinAppend(r, c[n..], "/");
      TextAfter(a, Join(c[n..], "/"));
    }
  }

  lemma {:induction false} TextAfter(a: string, rel: string)
    ensures var b := "/" + (a + "/" + rel); b != "/" + a && Slice(b, |"/" + a| + 1) == rel
  {
    var b := "/" + (a + "/" + rel);
    assert |b| == |a| + |rel| + 2;
    assert b[|a| + 2..] == rel;
  }

  /** How often a path goes up when there is nothing left of it to go back from. */
  function Ups(height: nat, segments: seq<string>): nat
    decreases |segments|
  {
    if segments == [] then 0
    else if segments[0] == "" || segments[0] == "." then Ups(height, segments[1..])
    else if segments[0] == ".." then (if height == 0 then 1 + Ups(0, segments[1..]) else Ups(height - 1, segments[1..]))
    else Ups(height + 1, segments[1..])
  }

  function Climbs(path: string): nat { Ups(0, Split(Portable(path), '/')) }

  /** What is left of `n` names after going up `k` times. */
  function Left(n: nat, k: nat): (r: nat)
    ensures r <= n
  {
    if k < n then n - k else 0
  }

  /** Going on from some names is going on from the top, behind the names that are not climbed over. */
  lemma {:induction false} WalkFrom(base: seq<string>, kept: seq<string>, segments: seq<string>)
    requires Normal(base, true) && Normal(kept, true) && forall i :: 0 <= i < |segments| ==> Clean(segments[i])
    ensures Walk(base + kept, segments, true) == base[..Left(|base|, Ups(|kept|, segments))] + Walk(kept, segments, true)
    decreases |segments|
  {
    if segments == [] {
      assert base[..|base|] == base;
    } else {
      var s, rest := segments[0], segments[1..];
      PushNormal(kept, s, true);
      if s == ".." && kept == [] {
        var lower := if base == [] then [] else base[..|base| - 1];
        assert base + kept == base && lower + [] == lower;
        PushFromTop(base);
        WalkFrom(lower, [], rest);
        hide Normal, Plain, Clean;
        assert lower[..Left(|lower|, Ups(0, rest))] == base[..Left(|base|, 1 + Ups(0, rest))];
      } else {
        PushBehind(base, kept, s);
        UpsPush(kept, segments);
        WalkFrom(base, Push(kept, s, true), rest);
        hide Normal, Plain, Clean, Push, Ups;
      }
    }
  }

  lemma {:induction false} PushFromTop(base: seq<string>)
    requires Normal(base, true)
    ensures Push(base, "..", true) == (if base == [] then [] else base[..|base| - 1]) && Push([], "..", true) == []
  {
    assert base != [] ==> Plain(base[|base| - 1]);
  }

  lemma {:induction false} UpsPush(kept: seq<string>, segments: seq<string>)
    requires Normal(kept, true) && segments != [] && (segments[0] == ".." ==> kept != [])
    ensures Ups(|kept|, segments) == Ups(|Push(kept, segments[0], true)|, segments[1..])
  {
    assert kept != [] ==> Plain(kept[|kept| - 1]);
  }

  lemma {:induction false} PushBehind(base: seq<string>, kept: seq<string>, s: string)
    requires Normal(kept, true) && (s == ".." ==> kept != [])
    ensures Push(base + kept, s, true) == base + Push(kept, s, true)
  {
    if s == ".." {
      assert Plain(kept[|kept| - 1]);
      assert (base + kept)[|base + kept| - 1] == kept[|kept| - 1];
      assert (base + kept)[..|base + kept| - 1] == base + kept[..|kept| - 1];
    } else if s != "" && s != "." {
      assert (base + kept) + [s] == base + (kept + [s]);
    }
  }

  /** Where a path that begins with a backslash leads from the root. */
  lemma {:induction false} BackslashTarget(root: string, candidate: string, lower: string -> string)
    requires PosixRoot(root) && IsPathContained(root, candidate, lower) && !Rooted(candidate)
    ensures var t, r := Target(root, candidate), Segments(root);
      t == TrimSlashes(root) + "/" + candidate && PosixRoot(t) &&
      Segments(t) == r[..Left(|r|, Climbs(candidate))] + Segments(candidate)
  {
    ContainedExact(root, candidate, lower);
    AppendedText(root, candidate);
    TrimKeepsSegments(root);
    SegmentsNormal(root);
    SplitClean(Portable(candidate));
    WalkFrom(Segments(root), [], Split(Portable(candidate), '/'));
    assert Segments(root) + [] == Segments(root);
  }

  lemma {:induction false} PrefixBehind(r: seq<string>, k: nat, c: seq<string>)
    requires r <= c && k <= |r|
    ensures r <= r[..k] + c <==> r[k..] <= r
    ensures r[..k] + c == c <==> k == 0
    ensures r[..k] + c == r <==> k == 0 && c == r
  {
    var t := r[..k] + c;
    assert r == r[..k] + r[k..];
    if r <= t { assert forall i :: 0 <= i < |r| - k ==> r[k..][i] == t[k + i] == c[i] == r[i]; }
    if r[k..] <= r { assert forall i :: 0 <= i < |r| ==> r[i] == t[i]; }
    assert |t| == k + |c|;
  }

  /** The relative form of a contained path exists if and only if the path begins with a slash, or the
      names of the root that a leading backslash leaves standing do not keep it from lying below.
      Resolving it gives the path back if and only if it is not empty, as it is for the root itself,
      does not look like a drive path, and no name of the root is left standing. */
  lemma {:induction false} RoundTrip(root: string, candidate: string, lower: string -> string)
    requires PosixRoot(root) && IsPathContained(root, candidate, lower)
    ensures var r := Segments(root); var left := Left(|r|, Climbs(candidate)); var rel := RelativeContainedPath(root, candidate, lower);
      (rel.Ok? <==> Rooted(candidate) || r[left..] <= r) &&
      (rel.Ok? ==>
        (ResolveContainedPath(root, rel.value, lower) == CanonicalizePath(candidate) <==>
           rel.value != "" && !DriveAbsolute(rel.value) && (Rooted(candidate) || left == 0)) &&
        (rel.value == "" <==> CanonicalizePath(candidate) == CanonicalizePath(root) && (Rooted(candidate) || left == 0)))
  {
    var r, c, t := Segments(root), Segments(candidate), Target(root, candidate);
    var left := Left(|r|, Climbs(candidate));
    ContainedExact(root, candidate, lower);
    if !Rooted(candidate) {
      BackslashTarget(root, candidate, lower);
      PrefixBehind(r, left, c);
    }
    assert candidate != "";
    RelativeSegments(root, candidate, lower);
    SameSegments(candidate, root);
    SameSegments(t, candidate);
    if r <= Segments(t) { RelativeResolved(root, t, lower); }
    hide CanonicalizePath, ResolveContainedPath, RelativeContainedPath, IsPathContained, Segments, Climbs, PosixRoot, Target;
  }

  /** Resolving what the segments of a path add to those of the root gives the path. */
  lemma {:induction false} RelativeResolved(root: string, t: string, lower: string -> string)
    requires PosixRoot(root) && PosixRoot(t) && Segments(root) <= Segments(t)
    ensures var rel := Join(Segments(t)[|Segments(root)|..], "/");
      (rel == "" <==> Segments(t) == Segments(root)) &&
      ResolveContainedPath(root, rel, lower) == if rel == "" || DriveAbsolute(rel) then Err else CanonicalizePath(t)
  {
    var names := Segments(t)[|Segments(root)|..];
    var rel := Join(names, "/");
    assert Segments(t) == Segments(root) + names;
    SegmentsNormal(t);
    if names != [] {
      JoinedNormal(names, true);
      if DriveAbsolute(rel) {
        DriveOutside(root, rel, lower);
      } else {
        Appended(root, names);
        var q := TrimSlashes(root) + "/" + rel;
        assert '\0' !in q by { NoNulBelow(root, t, names); }
        SameSegments(q, t);
        CanonicalContained(root, q, lower);
      }
    }
  }

  /** A name that looks like a drive, below the root: its relative form resolves to nothing. */
  lemma {:induction false} DriveNameBelow(lower: string -> string)
    ensures IsPathContained("/r", "/r/C:/x", lower)
    ensures RelativeContainedPath("/r", "/r/C:/x", lower) == Ok("C:/x")
    ensures ResolveContainedPath("/r", "C:/x", lower) == Err
  {
    var root, path := "/r", "/r/C:/x";
    RootAndDrive();
    ContainedExact(root, path, lower);
    assert Target(root, path) == path;
    RelativeSegments(root, path, lower);
    DriveJoined();
    hide IsPathContained, Segments, ResolveContainedPath, RelativeContainedPath, CanonicalizePath, Split, Join, Portable;
    assert ["r", "C:", "x"][1..] == ["C:", "x"];
    DriveOutside(root, "C:/x", lower);
  }

  lemma {:induction false} DriveJoined()
    ensures Join(["C:", "x"], "/") == "C:/x" && Portable("C:/x") == "C:/x"
  {
    assert ["C:", "x"][1..] == ["x"] && Join(["x"], "/") == "x";
  }

  lemma {:induction false} RootAndDrive()
    ensures PosixRoot("/r") && Segments("/r") == ["r"] && Segments("/r/C:/x") == ["r", "C:", "x"]
    ensures CanonicalizePath("/r/C:/x").Ok? && Rooted(Portable("/r/C:/x"))
  {
    RootWords();
    DriveWords();
    hide Split, Portable;
    RootedNames("/r", ["r"]);
    RootedNames("/r/C:/x", ["r", "C:", "x"]);
    hide Segments;
    assert [""] + ["r"] == ["", "r"] && [""] + ["r", "C:", "x"] == ["", "r", "C:", "x"];
  }

  lemma {:induction false} RootedNames(path: string, names: seq<string>)
    requires Normal(names, true) && Rooted(Portable(path))
    ensures Split(Portable(path), '/') == [""] + names ==> Segments(path) == names
  {
    WalkWords(names);
  }

  lemma {:induction false} RootWords()
    ensures Portable("/r") == "/r" && Split("/r", '/') == ["", "r"]
  {
    assert Portable("/r") == "/r" == "" + ['/'] + "r";
    hide Split;
    SplitTwo("", "r");
  }

  lemma {:induction false} DriveWords()
    ensures Portable("/r/C:/x") == "/r/C:/x" && Split("/r/C:/x", '/') == ["", "r", "C:", "x"]
  {
    assert Portable("/r/C:/x") == "/r/C:/x" == "/r" + ['/'] + "C:/x" && "C:/x" == "C:" + ['/'] + "x";
    hide Split, Portable;
    RootWords();
    SplitTwo("C:", "x");
    SplitConcat("/r", "C:/x", '/');
  }

  /** A path that begins with a backslash lies below the root, but is looked for behind it. */
  lemma {:induction false} BackslashBelow(lower: string -> string)
    ensures IsPathContained("/r", "\\r\\x", lower) && CanonicalizePath("\\r\\x") == Ok("/r/x")
    ensures RelativeContainedPath("/r", "\\r\\x", lower) == Ok("r/x")
    ensures ResolveContainedPath("/r", "r/x", lower) == Ok("/r/r/x")
  {
    var root, path := "/r", "\\r\\x";
    RootAndDrive();
    BackslashNames();
    assert path != "" && !Rooted(path);
    hide Segments, RelativeContainedPath, ResolveContainedPath, IsPathContained, Target, Climbs, Portable, Split, PosixRoot, Rooted, CanonicalizePath;
    ContainedExact(root, path, lower);
    BackslashTarget(root, path, lower);
    NamesBehind();
    RelativeSegments(root, path, lower);
    RelativeResolved(root, Target(root, path), lower);
    TargetText(Target(root, path));
  }

  lemma {:induction false} NamesBehind()
    ensures ["r"][..Left(1, 0)] + ["r", "x"] == ["r", "r", "x"] && ["r", "r", "x"][1..] == ["r", "x"] && ["r"] <= ["r", "x"]
    ensures Join(["r", "x"], "/") == "r/x" && Join(["r", "r", "x"], "/") == "r/r/x" && !DriveAbsolute("r/x")
    ensures "/" + "r/x" == "/r/x" && "/" + "r/r/x" == "/r/r/x"
  {
    assert Left(1, 0) == 1;
    assert ["r", "r", "x"][1..] == ["r", "x"] && ["r", "x"][1..] == ["x"];
    assert Join(["x"], "/") == "x";
    assert Join(["r", "x"], "/") == "r/x";
  }

  lemma {:induction false} TargetText(t: string)
    requires PosixRoot(t) && Segments(t) == ["r", "r", "x"]
    ensures CanonicalizePath(t) == Ok("/r/r/x")
  {
    hide Segments, Portable;
    NamesBehind();
    hide Join;
  }

  lemma {:induction false} BackslashNames()
    ensures Segments("\\r\\x") == ["r", "x"] && Climbs("\\r\\x") == 0
    ensures CanonicalizePath("\\r\\x") == Ok("/r/x") && Rooted(Portable("\\r\\x"))
  {
    var path := "\\r\\x";
    BackslashWords();
    hide Portable, Split;
    RootedNames(path, ["r", "x"]);
    var parts := ["", "r", "x"];
    assert [""] + ["r", "x"] == parts;
    hide Segments;
    assert parts[1..] == ["r", "x"] && ["r", "x"][1..] == ["x"] && ["x"][1..] == [];
    assert Ups(0, parts) == Ups(0, ["r", "x"]) == Ups(1, ["x"]) == Ups(2, []) == 0;
    NamesBehind();
    hide Join, Ups;
  }

  lemma {:induction false} BackslashWords()
    ensures Portable("\\r\\x") == "/r/x" && Split("/r/x", '/') == ["", "r", "x"]
  {
    assert Portable("\\r\\x") == "/r/x" == "/r" + ['/'] + "x";
    RootWords();
    hide Split, Portable;
    SplitConcat("/r", "x", '/');
    SplitWords("x", '/');
    assert ["", "r"] + ["x"] == ["", "r", "x"];
  }

  /** After a leading slash the plain names stay. */
  lemma {:induction false} WalkWords(names: seq<string>)
    requires Normal(names, true)
    ensures Walk([], [""] + names, true) == names
  {
    AllPlain(names, true);
    WalkKeeps([], names, true);
    assert ([""] + names)[1..] == names && [] + names == names;
  }

  lemma {:induction false} RenderedNotEmpty(input: string)
    requires CanonicalizePath(input).Ok? && Rooted(Portable(input))
    ensures CanonicalizePath(input).value != ""
  {
  }

  /** A drive path is never below a POSIX root. */
  lemma {:induction false} DriveOutside(root: string, requested: string, lower: string -> string)
    requires PosixRoot(root) && DriveAbsolute(requested) && Portable(requested) == requested
    ensures ResolveContainedPath(root, requested, lower) == Err
  {
    var c := CanonicalizePath(requested);
    if c.Ok? {
      SegmentsNormal(requested);
      NotRooted(requested, Segments(requested));
      if c.value == "" {
        assert !IsPathContained(root, c.value, lower);
      } else {
        CanonicalFree(requested);
        ContainedExact(root, c.value, lower);
      }
    }
  }

  lemma {:induction false} NoNulBelow(root: string, candidate: string, names: seq<string>)
    requires PosixRoot(root) && CanonicalizePath(candidate).Ok? && Segments(candidate) == Segments(root) + names
    ensures '\0' !in TrimSlashes(root) + "/" + Join(names, "/")
  {
    TrimKeepsSegments(root);
    var parts := Split(Portable(candidate), '/');
    assert '\0' !in Portable(candidate);
    SplitChars(Portable(candidate), '/');
    forall i | 0 <= i < |parts| ensures '\0' !in parts[i] { assert parts[i] in parts; }
    WalkLacks([], parts, Absolute(Portable(candidate)), '\0');
    forall i | 0 <= i < |names| ensures '\0' !in names[i] { assert names[i] == Segments(candidate)[|Segments(root)| + i]; }
    JoinClean(names, '\0');
  }
}
