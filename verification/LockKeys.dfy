/** Lock keys: how paths are normalized and when two keys conflict. */
module LockKeys {

  const PATH := "path:"

  predicate NoSlash(s: string) {
    '/' !in s
  }

  /** The position of the first slash, or |s|. */
  function Slash(s: string): (n: nat)
    ensures n <= |s| && NoSlash(s[..n]) && (n < |s| ==> s[n] == '/')
  {
    if s == [] || s[0] == '/' then 0 else 1 + Slash(s[1..])
  }

  // One name of a rooted path joins the names before it.
  function Resolve(done: seq<string>, name: string): seq<string> {
    if name == "" || name == "." then done
    else if name == ".." then (if done == [] then [] else done[..|done| - 1])
    else done + [name]
  }

  // The names of s, each resolved after those in done.
  function ResolveAll(done: seq<string>, s: string): seq<string>
    decreases |s|
  {
    var n := Slash(s);
    if n == |s| then Resolve(done, s) else ResolveAll(Resolve(done, s[..n]), s[n + 1..])
  }

  /** The names a path: key stands for, from the root. */
  function Names(key: string): seq<string>
    requires PATH <= key
  {
    ResolveAll([], key[|PATH|..])
  }

  predicate Clean(name: string) {
    name != "" && name != "." && name != ".." && NoSlash(name)
  }

  predicate AllClean(names: seq<string>) {
    forall n :: n in names ==> Clean(n)
  }

  function Joined(names: seq<string>): string {
    if names == [] then "" else "/" + names[0] + Joined(names[1..])
  }

  // path.Clean of a rooted path with these names.
  function Render(names: seq<string>): string {
    if names == [] then "/" else Joined(names)
  }

  function Normalize(key: string): string {
    if PATH <= key then PATH + Render(Names(key)) else key
  }

  predicate Overlaps(left: string, right: string) {
    left == right || (PATH <= left && PATH <= right &&
      (left == PATH + "/" || right == PATH + "/" || right + "/" <= left || left + "/" <= right))
  }

  /** What overlapping means: the same key, or one path is the other or lies
    * inside it. */
  predicate Conflict(left: string, right: string) {
    if PATH <= left && PATH <= right then Names(left) <= Names(right) || Names(right) <= Names(left) else left == right
  }

  lemma {:induction false} ResolvedClean(done: seq<string>, s: string)
    requires AllClean(done)
    ensures AllClean(ResolveAll(done, s))
    decreases |s|
  {
    var n := Slash(s);
    assert NoSlash(s[..n]);
    if n == |s| {
      assert s[..n] == s;
    } else {
      ResolvedClean(Resolve(done, s[..n]), s[n + 1..]);
    }
  }

  lemma {:induction false} SlashAt(a: string, u: string)
    requires NoSlash(a) && (u != "" ==> u[0] == '/')
    ensures Slash(a + u) == |a|
  {
    if a == "" {
      assert a + u == u;
    } else {
      assert a[0] in a;
      SlashAt(a[1..], u);
      assert (a + u)[1..] == a[1..] + u;
    }
  }

  lemma {:induction false} SlashPrefix(s: string, t: string)
    requires s <= t && Slash(s) < |s|
    ensures Slash(t) == Slash(s)
  {
  }

  // Names without slashes end where the first slash is.
  lemma FirstName(a: string, u: string, b: string, v: string)
    requires NoSlash(a) && NoSlash(b)
    requires (u != "" ==> u[0] == '/') && (v != "" ==> v[0] == '/')
    ensures a + u == b + v <==> a == b && u == v
    ensures u != "" ==> (a + u <= b + v <==> a == b && u <= v)
  {
    SlashAt(a, u);
    SlashAt(b, v);
    if u != "" && a + u <= b + v {
      SlashPrefix(a + u, b + v);
    }
    if a + u <= b + v && |a| == |b| {
      assert a == (a + u)[..|a|] && b == (b + v)[..|a|];
      assert u == (a + u)[|a|..] && v == (b + v)[|a|..];
    }
  }

  lemma JoinedStart(names: seq<string>)
    ensures Joined(names) != "" ==> Joined(names)[0] == '/'
  {
  }

  lemma {:induction false} JoinedPrefix(x: seq<string>, y: seq<string>)
    requires AllClean(x) && AllClean(y)
    ensures Joined(x) == Joined(y) <==> x == y
    ensures Joined(y) + "/" <= Joined(x) <==> |y| < |x| && y <= x
  {
    if x != [] && y != [] {
      var u, v := Joined(x[1..]), Joined(y[1..]);
      JoinedPrefix(x[1..], y[1..]);
      JoinedStart(x[1..]);
      JoinedStart(y[1..]);
      assert x[0] in x && y[0] in y;
      JoinedStep(x[0], u, y[0], v);
      assert x == [x[0]] + x[1..] && y == [y[0]] + y[1..];
    }
  }

  lemma JoinedStep(a: string, u: string, b: string, v: string)
    requires NoSlash(a) && NoSlash(b)
    requires (u != "" ==> u[0] == '/') && (v != "" ==> v[0] == '/')
    ensures "/" + a + u == "/" + b + v <==> a == b && u == v
    ensures "/" + b + v + "/" <= "/" + a + u <==> a == b && v + "/" <= u
  {
    FirstName(a, u, b, v);
    FirstName(b, v + "/", a, u);
    assert "/" + b + v + "/" == "/" + (b + (v + "/"));
    assert "/" + a + u == "/" + (a + u) && "/" + b + v == "/" + (b + v);
    Lead(a + u, b + v);
    Lead(b + (v + "/"), a + u);
  }

  lemma Lead(s: string, t: string)
    ensures "/" + s == "/" + t <==> s == t
    ensures "/" + s <= "/" + t <==> s <= t
  {
    var s1, t1 := "/" + s, "/" + t;
    assert s1[1..] == s && t1[1..] == t;
    if s1 <= t1 {
      assert t1[..|s1|][1..] == t[..|s|];
    }
  }

  lemma ResolveFirst(done: seq<string>, name: string, rest: string)
    requires Clean(name) && (rest != "" ==> rest[0] == '/')
    ensures ResolveAll(done, name + rest) == if rest == "" then done + [name] else ResolveAll(done + [name], rest[1..])
  {
    var s := name + rest;
    SlashAt(name, rest);
    assert s[..|name|] == name;
    if rest != "" {
      assert s[|name| + 1..] == rest[1..];
    } else {
      assert s == name;
    }
  }

  lemma {:induction false} CleanResolves(done: seq<string>, names: seq<string>)
    requires AllClean(names) && names != []
    ensures ResolveAll(done, Joined(names)[1..]) == done + names
    decreases names
  {
    hide ResolveAll, Clean;
    var name, rest := names[0], Joined(names[1..]);
    assert name in names && Joined(names)[1..] == name + rest;
    JoinedStart(names[1..]);
    ResolveFirst(done, name, rest);
    if |names| == 1 {
      assert names == [name];
    } else {
      CleanResolves(done + [name], names[1..]);
      assert done + [name] + names[1..] == done + names;
    }
  }

  /** A normalized key stands for the same path, and is its only spelling. */
  lemma NormalizeKeepsNames(key: string)
    requires PATH <= key
    ensures PATH <= Normalize(key) && AllClean(Names(key)) && Names(Normalize(key)) == Names(key)
    ensures Normalize(Normalize(key)) == Normalize(key)
  {
    var names := Names(key);
    ResolvedClean([], key[|PATH|..]);
    var s := Normalize(key)[|PATH|..];
    assert s == Render(names);
    // A rooted path starts with an empty name.
    assert Slash(s) == 0 && s[..0] == "";
    assert ResolveAll([], s) == ResolveAll([], s[1..]);
    if names != [] {
      CleanResolves([], names);
      assert [] + names == names;
    }
  }

  lemma SameNormal(left: string, right: string)
    ensures Normalize(left) == Normalize(right) <==>
            Conflict(left, right) && (PATH <= left && PATH <= right ==> Names(left) == Names(right))
  {
    if PATH <= left && PATH <= right {
      NormalizeKeepsNames(left);
      NormalizeKeepsNames(right);
    } else if PATH <= left {
      NormalizeKeepsNames(left);
    } else if PATH <= right {
      NormalizeKeepsNames(right);
    }
  }

  /** The string test on normalized keys is the conflict of what they stand for. */
  lemma OverlapsIsConflict(left: string, right: string)
    ensures Overlaps(Normalize(left), Normalize(right)) <==> Conflict(left, right)
  {
    hide Names;
    if PATH <= left && PATH <= right {
      NormalizeKeepsNames(left);
      NormalizeKeepsNames(right);
      var x, y := Names(left), Names(right);
      RenderPrefix(x, y);
      RenderPrefix(y, x);
      LeadPath(Render(x), Render(y));
      LeadPath(Render(y), Render(x));
    } else if PATH <= left {
      NormalizeKeepsNames(left);
    } else if PATH <= right {
      NormalizeKeepsNames(right);
    }
  }

  lemma RenderPrefix(x: seq<string>, y: seq<string>)
    requires AllClean(x) && AllClean(y)
    ensures Render(x) == Render(y) <==> x == y
    ensures Render(x) == "/" <==> x == []
    ensures y != [] ==> (Render(y) + "/" <= Render(x) <==> |y| < |x| && y <= x)
  {
    JoinedPrefix(x, y);
    if x != [] {
      assert x[0] in x && |Joined(x)| > 1;
    }
    if y != [] {
      assert y[0] in y && |Joined(y)| > 1;
    }
  }

  lemma LeadPath(s: string, t: string)
    ensures PATH + s == PATH + t <==> s == t
    ensures PATH + s == PATH + "/" <==> s == "/"
    ensures PATH + t + "/" <= PATH + s <==> t + "/" <= s
  {
    var a, b, c := PATH + s, PATH + t, PATH + t + "/";
    assert a[|PATH|..] == s && b[|PATH|..] == t && c[|PATH|..] == t + "/" && (PATH + "/")[|PATH|..] == "/";
    assert c == PATH + (t + "/");
    if c <= a {
      assert a[..|c|][|PATH|..] == s[..|t + "/"|];
    }
  }
}
