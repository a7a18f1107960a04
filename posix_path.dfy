/** What `pathlib.PurePosixPath` does to a path string before the batch
    submitter looks at it: it parses the string into a root and a list of
    parts, dropping empty parts and `.`, and `as_posix()` writes them
    back. */
module PosixPath {
  import opened Text

  /** A part a parsed path keeps: not empty, not `.`, without `/`. */
  predicate IsPart(p: string)
  {
    |p| > 0 && p != "." && '/' !in p
  }

  /** The pieces between separators, without the empty ones that repeated
      or trailing `/` leave and without `.`. */
  function Kept(pieces: seq<string>): (r: seq<string>)
    ensures forall k :: 0 <= k < |r| ==> r[k] != "" && r[k] != "." && r[k] in pieces
    decreases |pieces|
  {
    if |pieces| == 0 then []
    else if pieces[0] == "" || pieces[0] == "." then Kept(pieces[1..])
    else [pieces[0]] + Kept(pieces[1..])
  }

  lemma {:induction false} KeptConcat(a: seq<string>, b: seq<string>)
    ensures Kept(a + b) == Kept(a) + Kept(b)
    decreases |a|
  {
    if |a| > 0 {
      assert (a + b)[1..] == a[1..] + b;
      KeptConcat(a[1..], b);
    } else {
      assert a + b == b;
    }
  }

  /** Pieces that are all parts are kept as they are. */
  lemma {:induction false} KeptAll(pieces: seq<string>)
    requires forall k :: 0 <= k < |pieces| ==> IsPart(pieces[k])
    ensures Kept(pieces) == pieces
    decreases |pieces|
  {
    if |pieces| > 0 {
      KeptAll(pieces[1..]);
    }
  }

  /** `PurePosixPath(s).parts` without the root: the non-empty pieces
      between `/` other than `.`. */
  function Parts(s: string): (r: seq<string>)
    ensures forall k :: 0 <= k < |r| ==> IsPart(r[k])
  {
    SplitPiecesFree(s, '/');
    Kept(Split(s, "/"))
  }

  /** The root a parsed path keeps: `//` for exactly two leading `/`
      (POSIX leaves the meaning of that root to the system), `/` for one or
      for three and more, and none for a relative path. */
  function Root(s: string): string
  {
    if |s| == 0 || s[0] != '/' then ""
    else if |s| >= 2 && s[1] == '/' && (|s| == 2 || s[2] != '/') then "//"
    else "/"
  }

  /** `PurePosixPath(s).as_posix()`: the root followed by the parts joined
      with `/`, or `.` for a path with neither. */
  function AsPosix(s: string): string
  {
    var root, parts := Root(s), Parts(s);
    if root == "" && parts == [] then "." else root + Join(parts, "/")
  }

  /** A path and its written-back form have the same root and the same
      parts, so writing back twice is writing back once, and two strings
      name the same path exactly when their roots and parts agree. */
  lemma AsPosixNormal(s: string)
    ensures Root(AsPosix(s)) == Root(s) && Parts(AsPosix(s)) == Parts(s)
    ensures AsPosix(AsPosix(s)) == AsPosix(s)
  {
    var root, parts := Root(s), Parts(s);
    if root == "" && parts == [] {
      SplitNone(".", '/');
    } else {
      RootOfJoin(root, parts);
      PartsOfJoin(root, parts);
    }
  }

  lemma SamePath(s: string, t: string)
    ensures AsPosix(s) == AsPosix(t) <==> Root(s) == Root(t) && Parts(s) == Parts(t)
  {
    AsPosixNormal(s);
    AsPosixNormal(t);
  }

  /** Parts joined with `/` start with the first character of the first
      part, which is not `/`. */
  lemma JoinHead(parts: seq<string>)
    requires |parts| > 0 && forall k :: 0 <= k < |parts| ==> IsPart(parts[k])
    ensures IsPart(parts[0]) && |Join(parts, "/")| > 0 && Join(parts, "/")[0] == parts[0][0] != '/'
  {
    assert IsPart(parts[0]);
    assert parts[0][0] in parts[0];
  }

  lemma RootOfJoin(root: string, parts: seq<string>)
    requires root == "" || root == "/" || root == "//"
    requires root != "" || parts != []
    requires forall k :: 0 <= k < |parts| ==> IsPart(parts[k])
    ensures Root(root + Join(parts, "/")) == root
  {
    if parts != [] {
      JoinHead(parts);
    }
    var s := root + Join(parts, "/");
    if root == "//" {
      assert s[0] == '/' && s[1] == '/';
      assert |s| > 2 ==> s[2] == Join(parts, "/")[0];
    } else if root == "/" {
      assert s[0] == '/';
      assert |s| > 1 ==> s[1] == Join(parts, "/")[0];
    } else {
      assert s[0] == Join(parts, "/")[0];
    }
  }

  lemma PartsOfJoin(root: string, parts: seq<string>)
    requires root == "" || root == "/" || root == "//"
    requires forall k :: 0 <= k < |parts| ==> IsPart(parts[k])
    ensures Parts(root + Join(parts, "/")) == parts
  {
    var j := Join(parts, "/");
    PartsOfJoined(parts);
    if root == "/" {
      PartsAfterSlash(j);
    } else if root == "//" {
      PartsAfterDoubleSlash(j);
    } else {
      assert root + j == j;
    }
  }

  lemma PartsAfterDoubleSlash(j: string)
    ensures Parts("//" + j) == Parts(j)
  {
    assert "//" + j == "/" + ("/" + j);
    PartsAfterSlash("/" + j);
    PartsAfterSlash(j);
  }

  lemma PartsOfJoined(parts: seq<string>)
    requires forall k :: 0 <= k < |parts| ==> IsPart(parts[k])
    ensures Parts(Join(parts, "/")) == parts
  {
    if parts == [] {
      SplitNone("", '/');
      assert [""][1..] == [];
    } else {
      SplitJoin(parts, '/');
      KeptAll(parts);
    }
  }

  /** A leading `/` adds no part. */
  lemma PartsAfterSlash(j: string)
    ensures Parts("/" + j) == Parts(j)
  {
    SplitAfterSlash(j);
    KeptConcat([""], Split(j, "/"));
    assert [""][1..] == [];
  }

  /** The parts of two strings joined by `/` are the parts of each. */
  lemma PartsJoin(x: string, y: string)
    ensures Parts(x + "/" + y) == Parts(x) + Parts(y)
  {
    SplitAtSep(x, '/', y);
    KeptConcat(Split(x, "/"), Split(y, "/"));
  }

  /** A single part is its own only part; an empty string and `.` have
      none. */
  lemma PartsOfWord(w: string)
    requires '/' !in w
    ensures Parts(w) == if w == "" || w == "." then [] else [w]
  {
    SplitNone(w, '/');
    assert Split(w, "/") == [w];
    assert [w][1..] == [];
    assert Kept([w]) == if w == "" || w == "." then [] else [w];
  }

  /** Written back, a rooted path with parts splits on `/` into the empty
      piece before the root and its parts. */
  lemma RootedSplit(s: string)
    requires Root(s) == "/" && Parts(s) != []
    ensures Split(AsPosix(s), "/") == [""] + Parts(s)
  {
    var j := Join(Parts(s), "/");
    SplitJoin(Parts(s), '/');
    assert AsPosix(s) == "/" + j;
    SplitAfterSlash(j);
  }

  lemma SplitAfterSlash(j: string)
    ensures Split("/" + j, "/") == [""] + Split(j, "/")
  {
    assert "/" + j == "" + ['/'] + j;
    SplitFirst("", '/', j);
  }

  /** A string without `/` followed by `/` begins with another such string
      followed by `/` exactly when the two strings are the same and what
      follows begins with what follows the other. */
  lemma SlashPrefix(p: string, x: string, w: string, y: string)
    requires '/' !in p && '/' !in w
    ensures StartsWith(p + "/" + x, w + "/" + y) <==> p == w && StartsWith(x, y)
  {
    var a, b := p + "/" + x, w + "/" + y;
    if |p| < |w| {
      assert a[|p|] == '/' && b[|p|] == w[|p|] && w[|p|] in w;
    } else if |p| > |w| {
      assert a[|w|] == p[|w|] && b[|w|] == '/' && p[|w|] in p;
    } else {
      if p == w && StartsWith(x, y) {
        assert b == p + "/" + y;
        assert b <= a;
      }
      if StartsWith(a, b) {
        assert p == a[..|p|] == b[..|w|] == w;
        assert y == b[|w| + 1..] <= a[|p| + 1..] == x;
      }
    }
  }

  /** Parts joined with `/` begin with a string without `/` exactly when
      the first part does. */
  lemma WordPrefix(parts: seq<string>, t: string)
    requires |parts| > 0 && forall k :: 0 <= k < |parts| ==> IsPart(parts[k])
    requires '/' !in t
    ensures StartsWith(Join(parts, "/"), t) <==> StartsWith(parts[0], t)
  {
    if |parts| > 1 {
      var p, x := parts[0], Join(parts[1..], "/");
      assert Join(parts, "/") == p + "/" + x;
      if |t| > |p| {
        assert (p + "/" + x)[|p|] == '/' && t[|p|] in t;
      } else {
        assert (p + "/" + x)[..|t|] == p[..|t|];
      }
    }
  }

  /** Parts joined with `/` begin with `w/t`, for `w` and `t` without `/`,
      exactly when the first part is `w` and the second begins with `t`. */
  lemma JoinPrefix(parts: seq<string>, w: string, t: string)
    requires forall k :: 0 <= k < |parts| ==> IsPart(parts[k])
    requires '/' !in w && '/' !in t
    ensures StartsWith(Join(parts, "/"), w + "/" + t) <==>
      |parts| >= 2 && parts[0] == w && StartsWith(parts[1], t)
  {
    var b := w + "/" + t;
    assert b[|w|] == '/';
    if |parts| == 1 && |parts[0]| > |w| {
      assert parts[0][|w|] in parts[0];
    } else if |parts| >= 2 {
      var x := Join(parts[1..], "/");
      assert Join(parts, "/") == parts[0] + "/" + x;
      SlashPrefix(parts[0], x, w, t);
      WordPrefix(parts[1..], t);
    }
  }

  /** A written-back path begins with `/w/t`, for a non-empty `w` and a `t`
      without `/`, exactly when it has the root `/`, its first part is `w`
      and its second begins with `t`. */
  lemma PosixPrefix(s: string, w: string, t: string)
    requires |w| > 0 && '/' !in w && '/' !in t
    ensures StartsWith(AsPosix(s), "/" + w + "/" + t) <==>
      Root(s) == "/" && |Parts(s)| >= 2 && Parts(s)[0] == w && StartsWith(Parts(s)[1], t)
  {
    var parts, b := Parts(s), "/" + w + "/" + t;
    assert b[0] == '/' && b[1] == w[0] && w[0] in w;
    if Root(s) == "" && parts != [] {
      JoinHead(parts);
    } else if Root(s) == "/" {
      var x := w + "/" + t;
      assert b == "/" + x;
      JoinPrefix(parts, w, t);
      SlashThenPrefix(Join(parts, "/"), x);
    }
  }

  lemma SlashThenPrefix(a: string, b: string)
    ensures StartsWith("/" + a, "/" + b) <==> StartsWith(a, b)
  {
    if StartsWith("/" + a, "/" + b) {
      assert b == ("/" + b)[1..] <= ("/" + a)[1..] == a;
    }
  }
}
