/**
 * The string form of a POSIX pure path: the root (none, `/`, or exactly two
 * leading slashes kept as `//`), then the non-empty segments other than `.`
 * joined by single slashes; `..` is not resolved. A path with neither root
 * nor segments is `.`.
 */
module PosixPath {

  /** `s.split("/")`: the pieces between slashes, always at least one. */
  function Split(s: string): (r: seq<string>)
    ensures |r| >= 1
    ensures forall i :: 0 <= i < |r| ==> '/' !in r[i]
    decreases |s|
  {
    if s == [] then [[]]
    else
      var rest := Split(s[1..]);
      if s[0] == '/' then [[]] + rest
      else [[s[0]] + rest[0]] + rest[1..]
  }

  /** `"/".join(parts)`. */
  function Join(parts: seq<string>): string
    decreases |parts|
  {
    if parts == [] then []
    else if |parts| == 1 then parts[0]
    else parts[0] + "/" + Join(parts[1..])
  }

  /** Splitting then joining gives back the string. */
  lemma {:induction false} JoinSplit(s: string)
    ensures Join(Split(s)) == s
    decreases |s|
  {
    if s != [] {
      var rest := Split(s[1..]);
      JoinSplit(s[1..]);
      if s[0] == '/' {
        assert Split(s) == [[]] + rest;
        assert ([[]] + rest)[1..] == rest;
      } else {
        var r := Split(s);
        assert r == [[s[0]] + rest[0]] + rest[1..];
        if |rest| == 1 {
          assert Join(r) == [s[0]] + rest[0];
        } else {
          assert r[1..] == rest[1..];
          assert Join(rest) == rest[0] + "/" + Join(rest[1..]);
          assert Join(r) == [s[0]] + rest[0] + "/" + Join(rest[1..]);
        }
        assert s == [s[0]] + s[1..];
      }
    }
  }

  /** A slash-free prefix is glued to the first piece. */
  lemma {:induction false} SplitPrefix(a: string, t: string)
    requires '/' !in a
    ensures Split(a + t) == [a + Split(t)[0]] + Split(t)[1..]
    decreases |a|
  {
    if a != [] {
      assert (a + t)[0] == a[0];
      assert (a + t)[1..] == a[1..] + t;
      SplitPrefix(a[1..], t);
      assert [a[0]] + (a[1..] + Split(t)[0]) == a + Split(t)[0];
    } else {
      assert a + t == t;
      assert a + Split(t)[0] == Split(t)[0];
      assert [a + Split(t)[0]] + Split(t)[1..] == Split(t);
    }
  }

  /** A slash-free piece followed by a slash is one segment. */
  lemma SplitSlash(a: string, t: string)
    requires '/' !in a
    ensures Split(a + "/" + t) == [a] + Split(t)
  {
    SplitPrefix(a, "/" + t);
    assert a + "/" + t == a + ("/" + t);
    assert ("/" + t)[1..] == t;
    assert Split("/" + t) == [[]] + Split(t);
    assert a + [] == a;
  }

  /** A slash-free string is a single segment. */
  lemma SplitWhole(a: string)
    requires '/' !in a
    ensures Split(a) == [a]
  {
    SplitPrefix(a, "");
    assert a + "" == a;
  }

  /** Joining slash-free pieces and splitting again gives back the pieces. */
  lemma {:induction false} SplitJoin(parts: seq<string>)
    requires |parts| >= 1
    requires forall i :: 0 <= i < |parts| ==> '/' !in parts[i]
    ensures Split(Join(parts)) == parts
    decreases |parts|
  {
    var a := parts[0];
    if |parts| == 1 {
      SplitWhole(a);
    } else {
      SplitJoin(parts[1..]);
      SplitSlash(a, Join(parts[1..]));
      assert [a] + parts[1..] == parts;
    }
  }

  /**
   * The root: `//` when the string starts with exactly two slashes, `/` when
   * it starts with one or with three or more, and nothing otherwise.
   */
  function Root(s: string): (r: string)
    ensures r == "" || r == "/" || r == "//"
    ensures |r| <= |s| && s[..|r|] == r
    ensures r == "" <==> (|s| == 0 || s[0] != '/')
  {
    if |s| >= 1 && s[0] == '/' then
      if |s| >= 2 && s[1] == '/' && !(|s| >= 3 && s[2] == '/') then "//" else "/"
    else ""
  }

  /** A segment that survives: neither empty nor `.`. */
  predicate Kept(seg: string) {
    seg != "" && seg != "."
  }

  function KeepParts(segs: seq<string>): (r: seq<string>)
    ensures |r| <= |segs|
    ensures forall i :: 0 <= i < |r| ==> Kept(r[i]) && r[i] in segs
  {
    if segs == [] then []
    else if Kept(segs[0]) then [segs[0]] + KeepParts(segs[1..])
    else KeepParts(segs[1..])
  }

  /** The kept segments are exactly the input's segments that are neither empty nor `.`. */
  lemma {:induction false} KeepPartsMembers(segs: seq<string>, x: string)
    ensures x in KeepParts(segs) <==> x in segs && Kept(x)
  {
    if segs != [] {
      KeepPartsMembers(segs[1..], x);
      assert segs == [segs[0]] + segs[1..];
    }
  }

  lemma {:induction false} KeepPartsClean(segs: seq<string>)
    requires forall i :: 0 <= i < |segs| ==> Kept(segs[i])
    ensures KeepParts(segs) == segs
  {
    if segs != [] {
      KeepPartsClean(segs[1..]);
    }
  }

  /** The path's segments after the root, with empty and `.` segments dropped. */
  function Parts(s: string): (r: seq<string>)
    ensures forall i :: 0 <= i < |r| ==> Kept(r[i]) && '/' !in r[i]
  {
    var segs := Split(s[|Root(s)|..]);
    KeepParts(segs)
  }

  /**
   * `str(PurePosixPath(s))`: never empty, it starts with the input's root, and
   * after the root it has no slash at the end and no two slashes in a row.
   */
  function Normalize(s: string): (r: string)
    ensures |r| > 0
    ensures |Root(s)| <= |r| && r[..|Root(s)|] == Root(s)
    ensures r[|r| - 1] == '/' ==> r == Root(s)
    ensures forall i :: |Root(s)| <= i < |r| - 1 ==> !(r[i] == '/' && r[i + 1] == '/')
  {
    var root := Root(s);
    var parts := Parts(s);
    if root == "" && parts == [] then "."
    else if parts == [] then root
    else
      JoinClean(parts);
      root + Join(parts)
  }

  /** The joined segments: non-empty, no slash at either end and no two slashes in a row. */
  lemma {:induction false} JoinClean(parts: seq<string>)
    requires |parts| >= 1
    requires forall i :: 0 <= i < |parts| ==> Kept(parts[i]) && '/' !in parts[i]
    ensures var j := Join(parts);
      |j| > 0 && j[0] != '/' && j[|j| - 1] != '/' &&
      forall i :: 0 <= i < |j| - 1 ==> !(j[i] == '/' && j[i + 1] == '/')
    decreases |parts|
  {
    var a := parts[0];
    assert a[0] in a;
    assert a[|a| - 1] in a;
    if |parts| > 1 {
      var t := Join(parts[1..]);
      JoinClean(parts[1..]);
      var j := Join(parts);
      assert j == a + "/" + t;
      forall i | 0 <= i < |j| - 1
        ensures !(j[i] == '/' && j[i + 1] == '/')
      {
        if i < |a| {
          assert j[i] == a[i];
          assert a[i] in a;
        } else if i == |a| {
          assert j[i + 1] == t[0];
        } else {
          assert j[i] == t[i - |a| - 1] && j[i + 1] == t[i - |a|];
        }
      }
      assert j[|j| - 1] == t[|t| - 1];
    }
  }

  /** The normal form keeps the root and the segments of the input. */
  lemma NormalizeKeepsStructure(s: string)
    ensures Root(Normalize(s)) == Root(s)
    ensures Parts(Normalize(s)) == Parts(s)
  {
    var root := Root(s);
    var parts := Parts(s);
    var n := Normalize(s);
    if root == "" && parts == [] {
      assert n == ".";
      SplitWhole(".");
      assert Parts(n) == KeepParts(["."]);
    } else {
      var j := Join(parts);
      assert n == root + j;
      if parts == [] {
        assert n == root;
        assert n[|Root(n)|..] == [];
      } else {
        JoinClean(parts);
        assert n[|root|] == j[0];
        assert Root(n) == root;
        assert n[|root|..] == j;
        SplitJoin(parts);
        KeepPartsClean(parts);
      }
    }
  }

  /** Normalisation is idempotent. */
  lemma NormalizeIdempotent(s: string)
    ensures Normalize(Normalize(s)) == Normalize(s)
  {
    NormalizeKeepsStructure(s);
  }

  /** The normal form: a root alone, `.`, or a root followed by kept segments
   * with single slashes between them and no slash at the end. */
  lemma NormalizeClean(s: string)
    ensures var n := Normalize(s);
      |n| > 0 &&
      (n[|n| - 1] == '/' ==> n == "/" || n == "//") &&
      (forall i :: 1 <= i < |n| - 1 ==> !(n[i] == '/' && n[i + 1] == '/')) &&
      (n != "/" && n != "//" && n != "." ==>
        var segs := Split(n[|Root(n)|..]);
        forall k :: 0 <= k < |segs| ==> Kept(segs[k]))
  {
    var root := Root(s);
    var parts := Parts(s);
    var n := Normalize(s);
    NormalizeKeepsStructure(s);
    if parts != [] {
      var j := Join(parts);
      JoinClean(parts);
      assert n == root + j;
      assert n[|n| - 1] == j[|j| - 1];
      forall i | 1 <= i < |n| - 1
        ensures !(n[i] == '/' && n[i + 1] == '/')
      {
        if i >= |root| {
          assert n[i] == j[i - |root|] && n[i + 1] == j[i - |root| + 1];
        } else {
          assert n[i + 1] == j[0];
        }
      }
      assert n[|Root(n)|..] == j;
      SplitJoin(parts);
    } else if root != "" {
      assert n == root;
    }
  }

  /** `..` segments are not resolved: they stay in the normal form. */
  lemma DotDotKept(s: string)
    requires ".." in Split(s[|Root(s)|..])
    ensures ".." in Parts(Normalize(s))
  {
    NormalizeKeepsStructure(s);
    KeepPartsMembers(Split(s[|Root(s)|..]), "..");
  }

  lemma NormalizeRootAlone()
    ensures Normalize("/") == "/"
    ensures Normalize("") == "."
  {
    assert "/"[1..] == "";
  }

  lemma NormalizeTrailingSlash()
    ensures Normalize("/users/") == "/users"
  {
    assert "/users/"[1..] == "users" + "/" + "";
    SplitSlash("users", "");
  }

  lemma KeepCons(x: string, r: seq<string>)
    ensures KeepParts([x] + r) == if Kept(x) then [x] + KeepParts(r) else KeepParts(r)
  {
    assert ([x] + r)[1..] == r;
  }

  lemma JoinThree(a: string, b: string, c: string)
    ensures Join([a, b, c]) == a + "/" + b + "/" + c
  {
    assert [a, b, c][1..] == [b, c];
    assert [b, c][1..] == [c];
    assert Join([b, c]) == b + "/" + c;
    assert a + "/" + (b + "/" + c) == a + "/" + b + "/" + c;
  }

  /** The segments of `a//b/./c/`, as successive single pieces. */
  function CollapseSegments(a: string, b: string, c: string): seq<string> {
    [a] + ([""] + ([b] + (["."] + ([c] + [""]))))
  }

  lemma SplitCollapses(a: string, b: string, c: string)
    requires '/' !in a && '/' !in b && '/' !in c
    ensures Split(a + "//" + b + "/./" + c + "/") == CollapseSegments(a, b, c)
  {
    var t4 := c + "/" + "";
    var t3 := "." + "/" + t4;
    var t2 := b + "/" + t3;
    var t1 := "" + "/" + t2;
    assert a + "//" + b + "/./" + c + "/" == a + "/" + t1;
    assert Split("") == [""];
    SplitSlash(c, "");
    SplitSlash(".", t4);
    SplitSlash(b, t3);
    SplitSlash("", t2);
    SplitSlash(a, t1);
  }

  lemma KeepCollapses(a: string, b: string, c: string)
    requires Kept(a) && Kept(b) && Kept(c)
    ensures KeepParts(CollapseSegments(a, b, c)) == [a] + ([b] + [c])
  {
    var r1 := [c] + [""];
    var r2 := ["."] + r1;
    var r3 := [b] + r2;
    var r4 := [""] + r3;
    assert KeepParts([""]) == [];
    KeepCons(c, [""]);
    assert KeepParts(r1) == [c];
    KeepCons(".", r1);
    assert KeepParts(r2) == [c];
    KeepCons(b, r2);
    assert KeepParts(r3) == [b] + [c];
    KeepCons("", r3);
    assert KeepParts(r4) == [b] + [c];
    KeepCons(a, r4);
  }

  /** Doubled slashes, `.` segments and a trailing slash all disappear. */
  lemma NormalizeCollapses(a: string, b: string, c: string)
    requires Kept(a) && Kept(b) && Kept(c)
    requires '/' !in a && '/' !in b && '/' !in c
    ensures Normalize(a + "//" + b + "/./" + c + "/") == a + "/" + b + "/" + c
  {
    var s := a + "//" + b + "/./" + c + "/";
    SplitCollapses(a, b, c);
    KeepCollapses(a, b, c);
    assert [a] + ([b] + [c]) == [a, b, c];
    assert s[0] == a[0];
    assert Root(s) == "" && s[0..] == s;
    JoinThree(a, b, c);
  }

  lemma NormalizeDoubleRoot()
    ensures Normalize("//a") == "//a"
    ensures Normalize("///a") == "/a"
  {
    assert "//a"[2..] == "a";
    SplitWhole("a");
    assert "/a" == "" + "/" + "a";
    SplitSlash("", "a");
    assert "///a"[1..] == "" + "/" + "/a";
    SplitSlash("", "/a");
    assert Split("///a"[1..]) == ["", "", "a"];
    assert KeepParts(["", "", "a"]) == ["a"];
  }

  lemma NormalizeKeepsDotDot()
    ensures Normalize("a/../b") == "a/../b"
  {
    SplitWhole("b");
    assert "../b" == ".." + "/" + "b";
    SplitSlash("..", "b");
    assert "a/../b" == "a" + "/" + "../b";
    SplitSlash("a", "../b");
    assert Split("a/../b") == ["a", "..", "b"];
    KeepPartsClean(["a", "..", "b"]);
  }
}
