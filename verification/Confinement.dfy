/**
  The test that keeps an archive entry inside its destination (handleFile in
  internal/compression/compression.go), over the lexical path functions it calls:
  filepath.Clean, filepath.Join and filepath.Rel of Go on Unix.
*/
module Confinement {
  import opened Basics

  // ---- Paths --------------------------------------------------------------------------

  /** A cleaned path: where it starts, how far it climbs, and the names it descends into. */
  datatype Cleaned = Cleaned(rooted: bool, ups: nat, names: seq<string>)

  function Push(c: Cleaned, element: string): Cleaned
  {
    if element == "" || element == "." then c
    else if element != ".." then c.(names := c.names + [element])
    else if c.names != [] then c.(names := c.names[..|c.names| - 1])
    else if c.rooted then c
    else c.(ups := c.ups + 1)
  }

  function PushAll(c: Cleaned, elements: seq<string>): Cleaned
    decreases |elements|
  {
    if elements == [] then c else PushAll(Push(c, elements[0]), elements[1..])
  }

  function Clean(s: string): Cleaned
  {
    PushAll(Cleaned(s != "" && s[0] == '/', 0, []), Split(s, '/'))
  }

  /** filepath.Join leaves an empty first element out. */
  function Joined(dir: string, name: string): string
  {
    if dir == "" then name else dir + "/" + name
  }

  function Join(dir: string, name: string): Cleaned
  {
    Clean(Joined(dir, name))
  }

  /** The elements of a cleaned path as it is written out; "." has none. */
  function Elements(c: Cleaned): seq<string>
  {
    seq(c.ups, i => "..") + c.names
  }

  predicate Proper(c: Cleaned)
  {
    && (c.rooted ==> c.ups == 0)
    && forall i | 0 <= i < |c.names| ::
         c.names[i] != "" && c.names[i] != "." && c.names[i] != ".." && '/' !in c.names[i]
  }

  function Common(a: seq<string>, b: seq<string>): (k: nat)
    ensures k <= |a| && k <= |b| && a[..k] == b[..k]
    ensures k < |a| && k < |b| ==> a[k] != b[k]
    decreases |a|
  {
    if a == [] || b == [] || a[0] != b[0] then 0 else 1 + Common(a[1..], b[1..])
  }

  /** filepath.Rel: the elements of a path from `base` to `target`, or an error. */
  function Rel(base: Cleaned, target: Cleaned): Option<seq<string>>
  {
    if base == target then Some(["."])
    else if base.rooted != target.rooted then None
    else Route(Elements(base), Written(target))
  }

  /** Up from what the two do not share, then down. */
  function Route(b: seq<string>, t: seq<string>): Option<seq<string>>
  {
    var k := Common(b, t);
    if k < |b| && k < |t| && b[k] == ".." then None
    else if k < |b| then Some(seq(|b| - k, i => "..") + t[k..])
    else Some(t[k..])
  }

  /** The elements of the written form, in which the empty path is "." and the root has none. */
  function Written(c: Cleaned): seq<string>
  {
    if !c.rooted && Elements(c) == [] then ["."] else Elements(c)
  }

  function Text(elements: seq<string>): string
    decreases |elements|
  {
    if elements == [] then ""
    else if |elements| == 1 then elements[0]
    else elements[0] + "/" + Text(elements[1..])
  }

  /** The check on an entry: no way down, or a way that starts by going up, is refused. */
  predicate Accepted(dir: string, name: string)
  {
    match Rel(Clean(dir), Join(dir, name))
    case None => false
    case Some(rel) => Text(rel) != ".." && !("../" <= Text(rel))
  }

  // ---- Facts about cleaning -----------------------------------------------------------

  lemma {:induction false} PushAllAppend(c: Cleaned, a: seq<string>, b: seq<string>)
    ensures PushAll(c, a + b) == PushAll(PushAll(c, a), b)
    decreases |a|
  {
    if a == [] {
      assert a + b == b;
    } else {
      assert (a + b)[1..] == a[1..] + b;
      PushAllAppend(Push(c, a[0]), a[1..], b);
    }
  }

  /** Joining goes on cleaning where the directory left off. */
  lemma JoinContinues(dir: string, name: string)
    requires dir != ""
    ensures Join(dir, name) == PushAll(Clean(dir), Split(name, '/'))
  {
    SplitAtSeparator(dir, '/', name);
    assert (dir + "/" + name)[0] == dir[0];
    PushAllAppend(Cleaned(dir[0] == '/', 0, []), Split(dir, '/'), Split(name, '/'));
  }

  lemma {:induction false} PushAllProper(c: Cleaned, elements: seq<string>)
    requires Proper(c) && forall i | 0 <= i < |elements| :: '/' !in elements[i]
    ensures Proper(PushAll(c, elements))
    ensures PushAll(c, elements).rooted == c.rooted && PushAll(c, elements).ups >= c.ups
    decreases |elements|
  {
    if elements != [] { PushAllProper(Push(c, elements[0]), elements[1..]); }
  }

  lemma CleanProper(s: string)
    ensures Proper(Clean(s)) && Clean(s).rooted == (s != "" && s[0] == '/')
  {
    SplitPartsHaveNone(s, '/');
    PushAllProper(Cleaned(s != "" && s[0] == '/', 0, []), Split(s, '/'));
  }

  /** What the test can rely on about the two paths it compares. */
  lemma Operands(dir: string, name: string)
    ensures Proper(Clean(dir)) && Proper(Join(dir, name)) && Join(dir, name).ups >= Clean(dir).ups
    ensures dir != "" ==> Clean(dir).rooted == Join(dir, name).rooted
  {
    CleanProper(dir);
    if dir == "" {
      CleanProper(name);
    } else {
      JoinContinues(dir, name);
      SplitPartsHaveNone(name, '/');
      PushAllProper(Clean(dir), Split(name, '/'));
    }
  }

  // ---- What the test decides ----------------------------------------------------------

  lemma TextStartsUp(elements: seq<string>)
    requires elements != [] && forall i | 0 <= i < |elements| :: '/' !in elements[i]
    ensures (Text(elements) == ".." || "../" <= Text(elements)) <==> elements[0] == ".."
  {
    var t := Text(elements);
    if |elements| == 1 {
      assert |t| > 2 ==> t[2] in elements[0];
    } else {
      assert t == elements[0] + "/" + Text(elements[1..]);
      assert t[|elements[0]|] == '/';
      if "../" <= t {
        assert t[0] == '.' && t[1] == '.' && t[2] == '/';
        assert |elements[0]| <= 2 && (|elements[0]| == 2 ==> elements[0] == [t[0], t[1]]);
      }
      if elements[0] == ".." { assert t[..3] == "../"; }
    }
  }

  predicate Beneath(base: Cleaned, target: Cleaned)
  {
    base.rooted == target.rooted && base.ups == target.ups && base.names <= target.names
  }

  lemma ElementsOf(base: Cleaned, target: Cleaned)
    requires Proper(base) && Proper(target) && base.ups <= target.ups
    ensures Elements(base) <= Elements(target)
         && (|Elements(base)| < |Elements(target)| ==> Elements(target)[|Elements(base)|] != "..")
      <==> base.ups == target.ups && base.names <= target.names
  {
    var b, t := Elements(base), Elements(target);
    if base.ups == target.ups {
      assert b[base.ups..] == base.names && t[base.ups..] == target.names && b[..base.ups] == t[..base.ups];
      if b <= t { assert base.names == t[base.ups..|b|]; }
    } else if base.names == [] {
      assert t[|b|] == "..";
    } else {
      assert base.ups < |t| && t[base.ups] == ".." && b[base.ups] == base.names[0];
    }
  }

  lemma WrittenHasNoSlash(c: Cleaned)
    requires Proper(c)
    ensures forall i | 0 <= i < |Written(c)| :: '/' !in Written(c)[i]
  {
  }

  lemma ElementsDiffer(base: Cleaned, target: Cleaned)
    requires Proper(base) && Proper(target) && base.ups <= target.ups && base.rooted == target.rooted && base != target
    ensures Elements(base) != Elements(target)
  {
    var b, t := Elements(base), Elements(target);
    if base.ups == target.ups {
      assert b[base.ups..] == base.names && t[base.ups..] == target.names;
    } else if base.names != [] {
      assert b[base.ups] == base.names[0] && (base.ups < |t| ==> t[base.ups] == "..");
    }
  }

  lemma RouteGoesDown(b: seq<string>, t: seq<string>)
    requires b != t && forall i | 0 <= i < |t| :: '/' !in t[i]
    ensures
      var rel := Route(b, t);
      && (rel.Some? ==> rel.value != [] && forall i | 0 <= i < |rel.value| :: '/' !in rel.value[i])
      && (rel.Some? && rel.value[0] != ".." <==> b <= t && t[|b|] != "..")
  {
    var k := Common(b, t);
    if k == |b| {
      assert b <= t && Route(b, t) == Some(t[k..]);
    } else {
      assert k >= |t| || b[k] != t[k];
    }
  }

  /** When the relative path does not begin by going up. */
  lemma RelGoesDown(base: Cleaned, target: Cleaned)
    requires Proper(base) && Proper(target) && base.ups <= target.ups && base.rooted == target.rooted && base != target
    ensures
      var rel := Rel(base, target);
      && (rel.Some? ==> rel.value != [] && forall i | 0 <= i < |rel.value| :: '/' !in rel.value[i])
      && (rel.Some? && rel.value[0] != ".." <==> base.ups == target.ups && base.names <= target.names)
  {
    hide Route, Proper;
    ElementsOf(base, target);
    WrittenHasNoSlash(target);
    WrittenPrefix(base, target);
    hide Elements, Written;
    RouteGoesDown(Elements(base), Written(target));
  }

  /** Writing the empty path as "." makes it begin with no other path. */
  lemma WrittenPrefix(base: Cleaned, target: Cleaned)
    requires Proper(base) && Proper(target) && base.ups <= target.ups && base.rooted == target.rooted && base != target
    ensures Elements(base) <= Written(target) <==> Elements(base) <= Elements(target)
    ensures Elements(target) != [] ==> Written(target) == Elements(target)
    ensures Elements(target) == [] ==> !(Elements(base) <= Written(target))
    ensures Elements(base) != Written(target)
  {
    ElementsDiffer(base, target);
    if Elements(target) == [] {
      assert Elements(base) != [];
      assert base.ups == 0 && Elements(base)[0] == base.names[0];
    }
  }

  // ---- The relative path leads there --------------------------------------------------

  /** What the first `j` written elements of a path make. */
  function Upward(c: Cleaned, j: nat): Cleaned
    requires j <= c.ups + |c.names|
  {
    if j <= c.ups then Cleaned(c.rooted, j, []) else Cleaned(c.rooted, c.ups, c.names[..j - c.ups])
  }

  lemma {:induction false} PushUps(c: Cleaned, n: nat)
    requires n <= |c.names|
    ensures PushAll(c, seq(n, i => "..")) == c.(names := c.names[..|c.names| - n])
    decreases n
  {
    var ups := seq(n, i => "..");
    if n == 0 {
      assert c.names[..|c.names|] == c.names;
    } else {
      var popped := c.(names := c.names[..|c.names| - 1]);
      assert ups[0] == ".." && ups[1..] == seq(n - 1, i => "..");
      PushUps(popped, n - 1);
    }
  }

  lemma {:induction false} PushRest(c: Cleaned, j: nat)
    requires Proper(c) && j <= c.ups + |c.names|
    ensures PushAll(Upward(c, j), Elements(c)[j..]) == c
    decreases c.ups + |c.names| - j
  {
    var rest := Elements(c)[j..];
    if j < c.ups + |c.names| {
      assert rest[0] == Elements(c)[j] && rest[1..] == Elements(c)[j + 1..];
      assert Push(Upward(c, j), rest[0]) == Upward(c, j + 1);
      PushRest(c, j + 1);
    } else {
      assert c.names[..|c.names|] == c.names;
    }
  }

  /** Where two written paths agree, they have made the same. */
  lemma SharedStart(base: Cleaned, target: Cleaned, k: nat)
    requires Proper(base) && Proper(target) && base.rooted == target.rooted && base.ups <= target.ups
    requires base.ups <= k <= |Elements(base)| && k <= |Elements(target)|
    requires Elements(base)[..k] == Elements(target)[..k]
    ensures base.(names := base.names[..k - base.ups]) == Upward(target, k)
  {
    var b, t := Elements(base), Elements(target);
    assert forall i | 0 <= i < k :: b[i] == b[..k][i] && t[i] == t[..k][i];
    assert forall i | base.ups <= i < |b| :: b[i] == base.names[i - base.ups];
    assert forall i | 0 <= i < target.ups :: t[i] == "..";
    assert forall i | base.ups <= i < k :: t[i] != "..";
    var first := if base.ups < |t| then t[base.ups] else "";
    assert base.ups < target.ups ==> first == "..";
    if base.ups == target.ups {
      assert b[..k][base.ups..] == base.names[..k - base.ups] && t[..k][base.ups..] == target.names[..k - base.ups];
    }
  }

  /** Going up to where the two part, and down from there. */
  lemma RouteLeadsDown(base: Cleaned, target: Cleaned, k: nat)
    requires Proper(base) && Proper(target) && base.rooted == target.rooted && base.ups <= target.ups
    requires base.ups <= k <= |Elements(base)| && k <= |Elements(target)|
    requires Elements(base)[..k] == Elements(target)[..k]
    ensures PushAll(base, seq(|Elements(base)| - k, i => "..") + Elements(target)[k..]) == target
  {
    hide Proper, PushAll, Upward;
    SharedStart(base, target, k);
    PushUps(base, |Elements(base)| - k);
    PushRest(target, k);
    PushAllAppend(base, seq(|Elements(base)| - k, i => ".."), Elements(target)[k..]);
  }

  lemma RouteToNothing(base: Cleaned)
    requires base.ups == 0
    ensures PushAll(base, seq(|base.names|, i => "..") + ["."]) == Cleaned(base.rooted, 0, [])
  {
    PushUps(base, |base.names|);
    PushAllAppend(base, seq(|base.names|, i => ".."), ["."]);
  }

  /** The two share at least the climbs of the first. */
  lemma SharedClimbs(base: Cleaned, target: Cleaned)
    requires Proper(base) && Proper(target) && base.ups <= target.ups
    ensures
      var k := Common(Elements(base), Written(target));
      && base.ups <= k && (k < |Elements(base)| ==> Elements(base)[k] != "..")
      && (Elements(target) == [] && !target.rooted ==> k == 0)
  {
    var b, t := Elements(base), Written(target);
    var k := Common(b, t);
    assert forall i | 0 <= i < base.ups :: b[i] == ".." && t[i] == "..";
    assert forall i | 0 <= i < k :: b[i] == b[..k][i] && t[i] == t[..k][i];
  }

  /** From the destination, the relative path leads to the entry: there always is one, and it is right. */
  lemma RelLeadsThere(base: Cleaned, target: Cleaned)
    requires Proper(base) && Proper(target) && base.rooted == target.rooted && base.ups <= target.ups
    ensures Rel(base, target).Some? && PushAll(base, Rel(base, target).value) == target
  {
    if base != target {
      var b, t := Elements(base), Written(target);
      var k := Common(b, t);
      SharedClimbs(base, target);
      assert seq(0, i => "..") + t[k..] == t[k..];
      if !target.rooted && Elements(target) == [] {
        assert t[0..] == ["."];
        RouteToNothing(base);
      } else {
        hide Proper, PushAll, Elements;
        RouteLeadsDown(base, target, k);
      }
    }
  }

  /** The test accepts exactly the names whose cleaned path has the directory as a prefix of elements. */
  lemma AcceptedIffBeneath(dir: string, name: string)
    ensures Accepted(dir, name) <==> Beneath(Clean(dir), Join(dir, name))
  {
    Operands(dir, name);
    var base, target := Clean(dir), Join(dir, name);
    if base != target && base.rooted == target.rooted {
      RelGoesDown(base, target);
      var rel := Rel(base, target);
      if rel.Some? { TextStartsUp(rel.value); }
    }
  }

  // ---- What that means on disk --------------------------------------------------------

  /** Where a cleaned path leads, lexically, for a process whose working directory is `cwd`. */
  function Location(cwd: seq<string>, c: Cleaned): seq<string>
  {
    if c.rooted then c.names
    else (if c.ups <= |cwd| then cwd[..|cwd| - c.ups] else []) + c.names
  }

  /** One step of a walk through a tree of folders: the root is its own parent. */
  function Enter(at: seq<string>, element: string): seq<string>
  {
    if element == "" || element == "." then at
    else if element == ".." then (if at == [] then [] else at[..|at| - 1])
    else at + [element]
  }

  function Walk(at: seq<string>, elements: seq<string>): seq<string>
    decreases |elements|
  {
    if elements == [] then at else Walk(Enter(at, elements[0]), elements[1..])
  }

  /** Where a path as it was written leads, element by element, from a working directory. */
  function Resolved(cwd: seq<string>, path: string): seq<string>
  {
    Walk(if "/" <= path then [] else cwd, Split(path, '/'))
  }

  lemma PushIsEnter(cwd: seq<string>, c: Cleaned, element: string)
    ensures Location(cwd, Push(c, element)) == Enter(Location(cwd, c), element)
  {
    var at := Location(cwd, c);
    if element == ".." && c.names != [] {
      assert at[..|at| - 1] == Location(cwd, c.(names := c.names[..|c.names| - 1]));
    } else if element != "" && element != "." && element != ".." {
      assert at + [element] == Location(cwd, c.(names := c.names + [element]));
    }
  }

  lemma {:induction false} PushAllIsWalk(cwd: seq<string>, c: Cleaned, elements: seq<string>)
    ensures Location(cwd, PushAll(c, elements)) == Walk(Location(cwd, c), elements)
    decreases |elements|
  {
    if elements != [] {
      PushIsEnter(cwd, c, elements[0]);
      PushAllIsWalk(cwd, Push(c, elements[0]), elements[1..]);
    }
  }

  /** Cleaning a path does not change where it leads, from anywhere. */
  lemma CleanLeadsThere(cwd: seq<string>, path: string)
    ensures Location(cwd, Clean(path)) == Resolved(cwd, path)
  {
    var start := Cleaned(path != "" && path[0] == '/', 0, []);
    assert Location(cwd, start) == if "/" <= path then [] else cwd;
    PushAllIsWalk(cwd, start, Split(path, '/'));
  }

  /** From every working directory the entry lies in the destination, or is it. */
  ghost predicate AlwaysInside(dir: string, name: string)
  {
    forall cwd :: Resolved(cwd, dir) <= Resolved(cwd, Joined(dir, name))
  }

  lemma BeneathIsInside(base: Cleaned, target: Cleaned, cwd: seq<string>)
    requires Beneath(base, target)
    ensures Location(cwd, base) <= Location(cwd, target)
  {
  }

  /** A name no element of these paths has. */
  function Foreign(a: seq<string>, b: seq<string>): (f: string)
    ensures f !in a && f !in b
  {
    Longer(a, Longer(b, "x"))
  }

  function Longer(names: seq<string>, f: string): (r: string)
    ensures |r| >= |f| && forall i | 0 <= i < |names| :: |names[i]| < |r|
    decreases |names|
  {
    if names == [] then f
    else Longer(names[1..], if |names[0]| < |f| then f else names[0] + "x")
  }

  /** From a deep enough working directory with names of its own, nothing else leads inside. */
  lemma OutsideSomewhere(base: Cleaned, target: Cleaned) returns (cwd: seq<string>)
    requires Proper(base) && Proper(target) && base.ups <= target.ups && !Beneath(base, target)
    requires base.rooted ==> target.rooted
    ensures !(Location(cwd, base) <= Location(cwd, target))
  {
    var f := Foreign(base.names, target.names);
    var n := target.ups + 1;
    cwd := seq(n, i => f);
    var b, t := Location(cwd, base), Location(cwd, target);
    if target.rooted && !base.rooted {
      assert b[0] == f;
      if t != [] { assert t[0] in target.names; }
    } else if base.rooted {
      assert b == base.names && t == target.names;
    } else if base.ups == target.ups {
      assert b[n - base.ups..] == base.names && t[n - base.ups..] == target.names;
      assert b <= t <==> base.names <= target.names;
    } else {
      var k := n - target.ups;
      assert b[k] == f;
      if k < |t| { assert t[k] == target.names[0] && t[k] in target.names; }
    }
  }

  /**
    For every destination and entry name: the test accepts the entry exactly when it would
    be written inside the destination whatever the working directory is.
  */
  lemma AcceptedIffAlwaysInside(dir: string, name: string)
    ensures Accepted(dir, name) <==> AlwaysInside(dir, name)
  {
    AcceptedIffBeneath(dir, name);
    Operands(dir, name);
    var base, target := Clean(dir), Join(dir, name);
    hide Accepted, Clean, Resolved, Location;
    if Beneath(base, target) {
      forall cwd ensures Resolved(cwd, dir) <= Resolved(cwd, Joined(dir, name)) {
        BeneathIsInside(base, target, cwd);
        CleanLeadsThere(cwd, dir);
        CleanLeadsThere(cwd, Joined(dir, name));
      }
    } else {
      CleanProper(dir);
      var cwd := OutsideSomewhere(base, target);
      CleanLeadsThere(cwd, dir);
      CleanLeadsThere(cwd, Joined(dir, name));
    }
  }
}
