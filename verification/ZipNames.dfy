/** Names in a zip archive, and the paths that path/filepath makes of them. */
module ZipNames {
  import opened Options
  import opened Trees

  /** A cleaned path, absolute or relative; without segments it is "/" or ".". */
  datatype Name = Name(rooted: bool, segs: Path)

  /** A slash-separated name, cut at its slashes. */
  function Segments(name: string): (s: seq<string>)
    ensures s != []
  {
    if name == "" then [""] else
      var rest := Segments(name[1..]);
      if name[0] == '/' then [""] + rest else [[name[0]] + rest[0]] + rest[1..]
  }

  /** filepath.Clean, one segment after the other: "." and empty ones go, ".." takes the one before it, and stays
      only at the front of a name that is not absolute. */
  function Cleaned(done: Path, segments: seq<string>, rooted: bool): Path
    decreases |segments|
  {
    if segments == [] then done else Cleaned(CleanedBy(done, segments[0], rooted), segments[1..], rooted)
  }

  function CleanedBy(done: Path, s: string, rooted: bool): Path {
    if s == "" || s == "." then done
    else if s != ".." then done + [s]
    else if done != [] && done[|done| - 1] != ".." then done[..|done| - 1]
    else if rooted then done
    else done + [s]
  }

  function CleanName(name: string): Name {
    var rooted := name != "" && name[0] == '/';
    Name(rooted, Cleaned([], Segments(name), rooted))
  }

  /** filepath.Join(target, n) for cleaned paths. */
  function Join(target: Name, n: Name): Name {
    Name(target.rooted, Cleaned(target.segs, n.segs, target.rooted))
  }

  /** The path a name stands for in a working directory. */
  function Resolve(cwd: Path, n: Name): Path { if n.rooted then n.segs else Cleaned(cwd, n.segs, true) }

  function Common(a: Path, b: Path): (n: nat)
    ensures n <= |a| && n <= |b| && a[..n] == b[..n]
  {
    if a == [] || b == [] || a[0] != b[0] then 0 else
      var n := Common(a[1..], b[1..]);
      assert a[..n + 1] == [a[0]] + a[1..][..n] && b[..n + 1] == [b[0]] + b[1..][..n];
      n + 1
  }

  function Ups(n: nat): Path { if n == 0 then [] else [".."] + Ups(n - 1) }

  /** filepath.Rel between cleaned paths; it fails if one is absolute and the other is not, or if it would have to know
      the name of a directory above. */
  function Rel(base: Name, target: Name): Option<Path> {
    var n := Common(base.segs, target.segs);
    if base.rooted != target.rooted || (n < |base.segs| && base.segs[n] == "..") then None
    else Some(Ups(|base.segs| - n) + target.segs[n..])
  }

  /** isWithin: there is a relative path, and it does not start with "..". */
  predicate IsWithin(target: Name, dest: Name) {
    var rel := Rel(target, dest);
    rel.Some? && (rel.value == [] || rel.value[0] != "..")
  }

  // ---------------------------------------------------------------------------------------------
  // Cleaned paths
  // ---------------------------------------------------------------------------------------------

  predicate Clean(p: Path) { forall i :: 0 <= i < |p| ==> p[i] != "" && p[i] != "." && p[i] != ".." }

  /** How often a path climbs before it goes down. */
  function Climbs(p: Path): (k: nat)
    ensures k <= |p|
  {
    if p == [] || p[0] != ".." then 0 else 1 + Climbs(p[1..])
  }

  /** Some climbs and then a path without any; an absolute path has no climbs. */
  predicate IsClean(n: Name) { Clean(n.segs[Climbs(n.segs)..]) && (n.rooted ==> Climbs(n.segs) == 0) }

  lemma {:induction false} UpsAt(k: nat)
    ensures |Ups(k)| == k && forall i :: 0 <= i < k ==> Ups(k)[i] == ".."
  {
    if k > 0 { UpsAt(k - 1); }
  }

  lemma {:induction false} MoreUps(k: nat)
    ensures Ups(k) + [".."] == Ups(k + 1)
  {
    if k > 0 {
      MoreUps(k - 1);
      assert Ups(k) + [".."] == [".."] + (Ups(k - 1) + [".."]);
    }
  }

  lemma {:induction false} ClimbsFirst(p: Path)
    ensures p == Ups(Climbs(p)) + p[Climbs(p)..]
  {
    if p != [] && p[0] == ".." {
      ClimbsFirst(p[1..]);
      assert p == [".."] + p[1..];
    }
  }

  lemma {:induction false} ClimbsOfUps(k: nat, rest: Path)
    requires Clean(rest)
    ensures Climbs(Ups(k) + rest) == k && (Ups(k) + rest)[k..] == rest
  {
    UpsAt(k);
    if k == 0 {
      assert Ups(0) + rest == rest;
    } else {
      ClimbsOfUps(k - 1, rest);
      assert (Ups(k) + rest)[1..] == Ups(k - 1) + rest;
    }
  }

  lemma {:induction false} CleanStays(done: Path, segments: seq<string>, rooted: bool)
    requires Clean(segments)
    ensures Cleaned(done, segments, rooted) == done + segments
    decreases |segments|
  {
    if segments != [] {
      CleanStays(done + [segments[0]], segments[1..], rooted);
      assert done + segments == done + [segments[0]] + segments[1..];
    }
  }

  lemma {:induction false} CleanedAppend(done: Path, a: seq<string>, b: seq<string>, rooted: bool)
    ensures Cleaned(done, a + b, rooted) == Cleaned(Cleaned(done, a, rooted), b, rooted)
    decreases |a|
  {
    if a == [] {
      assert a + b == b;
    } else {
      assert (a + b)[1..] == a[1..] + b;
      CleanedAppend(CleanedBy(done, a[0], rooted), a[1..], b, rooted);
    }
  }

  /** Climbing takes away what there is, and then stops at the root or adds up. */
  function AfterClimbing(j: nat, t: Path, k: nat, rooted: bool): Path {
    if k <= |t| then Ups(j) + t[..|t| - k] else if rooted then Ups(j) else Ups(j + k - |t|)
  }

  // One climb, from so many climbs and then a path.

  function ClimbsUp(j: nat, t: Path, rooted: bool): nat { if t != [] || rooted then j else j + 1 }

  function PathUp(t: Path): Path { if t != [] then t[..|t| - 1] else [] }

  lemma OneClimb(j: nat, t: Path, rooted: bool)
    requires Clean(t) && (rooted ==> j == 0)
    ensures CleanedBy(Ups(j) + t, "..", rooted) == Ups(ClimbsUp(j, t, rooted)) + PathUp(t)
  {
    UpsAt(j);
    MoreUps(j);
    if t == [] { assert Ups(j) + t == Ups(j); } else { assert (Ups(j) + t)[..j + |t| - 1] == Ups(j) + t[..|t| - 1]; }
  }

  lemma UpsPopped(j: nat, t: Path, k: nat, rooted: bool)
    requires k > 0
    ensures AfterClimbing(j, t, k, rooted) == AfterClimbing(ClimbsUp(j, t, rooted), PathUp(t), k - 1, rooted)
  {
    if t != [] && k <= |t| { assert t[..|t| - 1][..|t| - k] == t[..|t| - k]; }
    assert Ups(j) + [] == Ups(j) && Ups(j + 1) + [] == Ups(j + 1);
  }

  lemma {:induction false} UpsPop(j: nat, t: Path, k: nat, rest: Path, rooted: bool)
    requires Clean(t) && Clean(rest) && (rooted ==> j == 0)
    ensures Cleaned(Ups(j) + t, Ups(k) + rest, rooted) == AfterClimbing(j, t, k, rooted) + rest
    decreases k
  {
    if k == 0 {
      NoClimb(j, t, rest, rooted);
    } else {
      PopOne(Ups(j) + t, k, rest, rooted);
      OneClimb(j, t, rooted);
      UpsPopped(j, t, k, rooted);
      UpsPop(ClimbsUp(j, t, rooted), PathUp(t), k - 1, rest, rooted);
    }
  }

  lemma NoClimb(j: nat, t: Path, rest: Path, rooted: bool)
    requires Clean(rest)
    ensures Cleaned(Ups(j) + t, Ups(0) + rest, rooted) == AfterClimbing(j, t, 0, rooted) + rest
  {
    assert Ups(0) + rest == rest && t[..|t|] == t;
    CleanStays(Ups(j) + t, rest, rooted);
  }

  lemma PopOne(done: Path, k: nat, rest: Path, rooted: bool)
    requires k > 0
    ensures Cleaned(done, Ups(k) + rest, rooted) == Cleaned(CleanedBy(done, "..", rooted), Ups(k - 1) + rest, rooted)
  {
    FirstUp(k, rest);
  }

  lemma FirstUp(k: nat, rest: Path)
    requires k > 0
    ensures Ups(k) + rest != [] && (Ups(k) + rest)[0] == ".." && (Ups(k) + rest)[1..] == Ups(k - 1) + rest
  {
  }

  /** Whatever is cleaned on top of some climbs and a clean path is of that shape again. */
  lemma {:induction false} CleanedShape(k: nat, done: Path, segments: seq<string>, rooted: bool)
      returns (k': nat, rest: Path)
    requires Clean(done) && (rooted ==> k == 0)
    ensures Cleaned(Ups(k) + done, segments, rooted) == Ups(k') + rest && Clean(rest) && (rooted ==> k' == 0)
    decreases |segments|
  {
    k', rest := k, done;
    if segments != [] {
      var s := segments[0];
      if s == "" || s == "." {
        k', rest := CleanedShape(k, done, segments[1..], rooted);
      } else if s != ".." {
        assert Ups(k) + done + [s] == Ups(k) + (done + [s]);
        k', rest := CleanedShape(k, done + [s], segments[1..], rooted);
      } else {
        OneClimb(k, done, rooted);
        k', rest := CleanedShape(ClimbsUp(k, done, rooted), PathUp(done), segments[1..], rooted);
      }
    }
  }

  lemma CleanNameIsClean(name: string)
    ensures IsClean(CleanName(name))
  {
    var n := CleanName(name);
    assert Ups(0) + [] == [];
    var k, rest := CleanedShape(0, [], Segments(name), n.rooted);
    ClimbsOfUps(k, rest);
  }

  lemma JoinIsClean(target: Name, n: Name)
    requires IsClean(target)
    ensures IsClean(Join(target, n))
  {
    var j := Climbs(target.segs);
    ClimbsFirst(target.segs);
    var k, rest := CleanedShape(j, target.segs[j..], n.segs, target.rooted);
    ClimbsOfUps(k, rest);
  }

  // ---------------------------------------------------------------------------------------------
  // The guard
  // ---------------------------------------------------------------------------------------------

  /** The target, or a path that goes on from it without climbing. */
  predicate Beneath(target: Name, dest: Name) {
    dest.rooted == target.rooted && Above(target.segs, dest.segs) && Clean(dest.segs[|target.segs|..])
  }

  lemma {:induction false} CommonIsLongest(a: Path, b: Path)
    ensures a <= b ==> Common(a, b) == |a|
  {
    if a != [] && a <= b { CommonIsLongest(a[1..], b[1..]); }
  }

  /** Beyond a part of a clean path there is no climb, or one at once. */
  lemma CleanBeyond(p: Path, n: nat)
    requires n <= |p| && Clean(p[Climbs(p)..])
    ensures Clean(p[n..]) <==> p[n..] == [] || p[n..][0] != ".."
  {
    var k := Climbs(p);
    if n < k { ClimbsAt(p, n); } else { assert p[n..] == p[k..][n - k..]; }
  }

  lemma ClimbsAt(p: Path, n: nat)
    requires n < Climbs(p)
    ensures p[n..][0] == ".."
  {
    ClimbsFirst(p);
    UpsAt(Climbs(p));
  }

  /** The zip-slip guard lets through exactly the target and what lies beneath it. */
  lemma WithinIsBeneath(target: Name, dest: Name)
    requires IsClean(dest)
    ensures IsWithin(target, dest) <==> Beneath(target, dest)
  {
    CommonIsLongest(target.segs, dest.segs);
    var n := Common(target.segs, dest.segs);
    UpsAt(|target.segs| - n);
    if n == |target.segs| {
      assert dest.segs[..n] == target.segs;
      assert Ups(0) + dest.segs[n..] == dest.segs[n..];
      CleanBeyond(dest.segs, n);
    }
  }

  /** And that is so of the directories they stand for, wherever a relative one is resolved. */
  lemma BeneathResolves(cwd: Path, target: Name, dest: Name)
    requires Beneath(target, dest)
    ensures Resolve(cwd, dest) == Resolve(cwd, target) + dest.segs[|target.segs|..]
  {
    var rel := dest.segs[|target.segs|..];
    assert dest.segs == target.segs + rel;
    CleanedAppend(cwd, target.segs, rel, true);
    CleanStays(Cleaned(cwd, target.segs, true), rel, true);
  }

  /** A name that does not climb lands beneath the target, even an absolute one, at its cleaned path. */
  lemma LandsBeneath(target: Name, name: string)
    requires Clean(CleanName(name).segs)
    ensures var dest := Join(target, CleanName(name));
            dest == Name(target.rooted, target.segs + CleanName(name).segs) && Beneath(target, dest)
  {
    CleanStays(target.segs, CleanName(name).segs, target.rooted);
  }

  /** The way down leads back to where so many climbs began. Above a relative path there is no way back, since the names
      there are not known; above an absolute one the way starts at the root. */
  predicate Returns(target: Name, k: nat, rest: Path) {
    var t := target.segs[Climbs(target.segs)..];
    if k <= |t| then Above(t[|t| - k..], rest) else target.rooted && Above(t, rest)
  }

  /** Which names the guard refuses. A name is some climbs and then a path without any; it is let through exactly when it
      comes back down the way it went up. */
  lemma RefusedNames(target: Name, name: string) returns (k: nat, rest: Path)
    requires IsClean(target)
    ensures CleanName(name).segs == Ups(k) + rest && Clean(rest)
    ensures IsWithin(target, Join(target, CleanName(name))) <==> Returns(target, k, rest)
  {
    CleanNameIsClean(name);
    JoinIsClean(target, CleanName(name));
    WithinIsBeneath(target, Join(target, CleanName(name)));
    k, rest := BeneathIff(target, CleanName(name));
  }

  /** When one cleaned path on top of another stays beneath it. */
  lemma BeneathIff(target: Name, n: Name) returns (k: nat, rest: Path)
    requires IsClean(target) && IsClean(n)
    ensures n.segs == Ups(k) + rest && Clean(rest)
    ensures Beneath(target, Join(target, n)) <==> Returns(target, k, rest)
  {
    k, rest := Climbs(n.segs), n.segs[Climbs(n.segs)..];
    ClimbsFirst(n.segs);
    JoinClimbs(target, n);
    WayBack(Climbs(target.segs), target.segs[Climbs(target.segs)..], k, rest, target.rooted);
  }

  lemma JoinClimbs(target: Name, n: Name)
    requires IsClean(target) && IsClean(n)
    ensures var j, k := Climbs(target.segs), Climbs(n.segs);
            && target.segs == Ups(j) + target.segs[j..]
            && Join(target, n).segs == AfterClimbing(j, target.segs[j..], k, target.rooted) + n.segs[k..]
  {
    var j, k := Climbs(target.segs), Climbs(n.segs);
    ClimbsFirst(target.segs);
    ClimbsFirst(n.segs);
    UpsPop(j, target.segs[j..], k, n.segs[k..], target.rooted);
  }

  /** From where a climb ended, the way down leads to where it began, or not. */
  lemma WayBack(j: nat, t: Path, k: nat, rest: Path, rooted: bool)
    requires Clean(t) && Clean(rest) && (rooted ==> j == 0)
    ensures var d := AfterClimbing(j, t, k, rooted) + rest;
            Above(Ups(j) + t, d) && Clean(d[|Ups(j) + t|..])
            <==> if k <= |t| then Above(t[|t| - k..], rest) else rooted && Above(t, rest)
  {
    if k <= |t| {
      ReturnsBeneath(j, t, k, rest);
    } else if rooted {
      assert Ups(0) + rest == rest && Ups(0) + t == t;
    } else {
      NoWayBack(j, t, j + k - |t|, rest);
    }
  }

  /** Down again from where a climb within the target ended. */
  lemma ReturnsBeneath(j: nat, t: Path, k: nat, rest: Path)
    requires k <= |t| && Clean(t) && Clean(rest)
    ensures var d := Ups(j) + t[..|t| - k] + rest;
            Above(Ups(j) + t, d) && Clean(d[|Ups(j) + t|..]) <==> Above(t[|t| - k..], rest)
  {
    var up := Ups(j) + t[..|t| - k];
    assert Ups(j) + t == up + t[|t| - k..];
    AboveBelow(up, t[|t| - k..], rest);
    if Above(t[|t| - k..], rest) { assert (up + rest)[|Ups(j) + t|..] == rest[k..]; }
  }

  lemma NoWayBack(j: nat, t: Path, k: nat, rest: Path)
    requires k > j && Clean(t)
    ensures var d := Ups(k) + rest; !(Above(Ups(j) + t, d) && Clean(d[|Ups(j) + t|..]))
  {
    UpsAt(j);
    UpsAt(k);
    var a, d := Ups(j) + t, Ups(k) + rest;
    assert d[j] == d[j..][0] == "..";
    if t != [] { assert a[j] == t[0] != ".."; }
  }

  // ---------------------------------------------------------------------------------------------
  // Names below a directory
  // ---------------------------------------------------------------------------------------------

  /** filepath.Join(dir, below, name) for a cleaned directory, a plain segment and any name at all. */
  function JoinBelow(dir: Name, below: string, name: string): Name {
    Name(dir.rooted, Cleaned(dir.segs + [below], Segments(name), dir.rooted))
  }

  /** What a name amounts to on top of a directory, whether or not it starts with a slash. */
  function Relative(name: string): Path { Cleaned([], Segments(name), false) }

  /** One more segment, after some climbs and a path, is one more segment on top of whatever came before. */
  lemma {:induction false} CleanFirst(base: Path, done: Path, segments: seq<string>, rooted: bool)
    requires Clean(base[Climbs(base)..]) && (rooted ==> Climbs(base) == 0) && Clean(done[Climbs(done)..])
    ensures Cleaned(Cleaned(base, done, rooted), segments, rooted) == Cleaned(base, Cleaned(done, segments, false), rooted)
    decreases |segments|
  {
    if segments != [] {
      var s := segments[0];
      OneOnTop(base, done, s, rooted);
      CleanedByShape(done, s);
      CleanFirst(base, CleanedBy(done, s, false), segments[1..], rooted);
    }
  }

  lemma CleanedByShape(done: Path, s: string)
    requires Clean(done[Climbs(done)..])
    ensures var p := CleanedBy(done, s, false); Clean(p[Climbs(p)..])
  {
    var k := Climbs(done);
    ClimbsFirst(done);
    assert Cleaned(CleanedBy(done, s, false), [], false) == CleanedBy(done, s, false);
    assert [s][1..] == [];
    var k', rest := CleanedShape(k, done[k..], [s], false);
    ClimbsOfUps(k', rest);
  }

  lemma OneOnTop(base: Path, done: Path, s: string, rooted: bool)
    requires Clean(base[Climbs(base)..]) && (rooted ==> Climbs(base) == 0) && Clean(done[Climbs(done)..])
    ensures CleanedBy(Cleaned(base, done, rooted), s, rooted) == Cleaned(base, CleanedBy(done, s, false), rooted)
  {
    if s == "" || s == "." {
    } else if s != ".." || done == [] || done[|done| - 1] == ".." {
      AppendOne(base, done, s, rooted);
    } else {
      var front, last := done[..|done| - 1], done[|done| - 1];
      assert done == front + [last];
      AppendOne(base, front, last, rooted);
      LastIsPlain(done);
      assert CleanedBy(Cleaned(base, front, rooted) + [last], "..", rooted) == Cleaned(base, front, rooted);
    }
  }

  lemma AppendOne(base: Path, done: Path, s: string, rooted: bool)
    ensures Cleaned(base, done + [s], rooted) == CleanedBy(Cleaned(base, done, rooted), s, rooted)
  {
    CleanedAppend(base, done, [s], rooted);
    assert [s][1..] == [];
  }

  lemma LastIsPlain(done: Path)
    requires done != [] && Clean(done[Climbs(done)..]) && done[|done| - 1] != ".."
    ensures done[|done| - 1] != "" && done[|done| - 1] != "."
  {
    NotAllClimbs(done);
    LastOfClean(done, Climbs(done));
  }

  lemma NotAllClimbs(done: Path)
    requires done != [] && done[|done| - 1] != ".."
    ensures Climbs(done) < |done|
  {
    ClimbsFirst(done);
    UpsAt(Climbs(done));
  }

  lemma LastOfClean(p: Path, n: nat)
    requires n < |p| && Clean(p[n..])
    ensures p[|p| - 1] != "" && p[|p| - 1] != "."
  {
    assert p[n..][|p| - 1 - n] == p[|p| - 1];
  }

  lemma {:induction false} SegmentsPlain(a: string)
    requires '/' !in a
    ensures Segments(a) == [a]
  {
    if a != "" {
      SegmentsPlain(a[1..]);
      assert a == [a[0]] + a[1..];
    }
  }

  lemma {:induction false} SegmentsSlash(a: string, rest: string)
    requires '/' !in a
    ensures Segments(a + ("/" + rest)) == [a] + Segments(rest)
  {
    if a == "" {
      assert "" + ("/" + rest) == "/" + rest && ("/" + rest)[1..] == rest;
    } else {
      SegmentsSlash(a[1..], rest);
      assert (a + ("/" + rest))[1..] == a[1..] + ("/" + rest);
      assert a == [a[0]] + a[1..];
    }
  }

  lemma RelativeIsClean(name: string)
    ensures IsClean(Name(false, Relative(name)))
  {
    assert Ups(0) + [] == [];
    var k, rest := CleanedShape(0, [], Segments(name), false);
    ClimbsOfUps(k, rest);
  }

  lemma OneBelowIsClean(dir: Name, below: string)
    requires IsClean(dir) && Clean([below])
    ensures IsClean(Name(dir.rooted, dir.segs + [below]))
  {
    var k := Climbs(dir.segs);
    ClimbsFirst(dir.segs);
    assert dir.segs + [below] == Ups(k) + (dir.segs[k..] + [below]);
    assert [below][0] == below;
    ClimbsOfUps(k, dir.segs[k..] + [below]);
  }

  /** The name is cleaned first, and then joined. */
  lemma JoinBelowIsJoin(dir: Name, below: string, name: string)
    requires IsClean(dir) && Clean([below])
    ensures var base := Name(dir.rooted, dir.segs + [below]);
            && IsClean(base) && IsClean(JoinBelow(dir, below, name))
            && JoinBelow(dir, below, name) == Join(base, Name(false, Relative(name)))
  {
    var base := Name(dir.rooted, dir.segs + [below]);
    OneBelowIsClean(dir, below);
    CleanFirst(base.segs, [], Segments(name), dir.rooted);
    JoinIsClean(base, Name(false, Relative(name)));
  }

  /** When a name leads out of its directory: exactly when it climbs, and does not come back the way it went up. */
  lemma StaysBelow(dir: Name, below: string, name: string) returns (k: nat, rest: Path)
    requires IsClean(dir) && Clean([below])
    ensures Relative(name) == Ups(k) + rest && Clean(rest)
    ensures var base := Name(dir.rooted, dir.segs + [below]);
            Beneath(base, JoinBelow(dir, below, name)) <==> Returns(base, k, rest)
  {
    var base, n := Name(dir.rooted, dir.segs + [below]), Name(false, Relative(name));
    JoinBelowIsJoin(dir, below, name);
    RelativeIsClean(name);
    k, rest := BeneathIff(base, n);
  }

  /** One that does not climb is where it says. */
  lemma PlainNameBelow(dir: Name, below: string, name: string)
    requires IsClean(dir) && Clean([below]) && Clean(Relative(name))
    ensures JoinBelow(dir, below, name) == Name(dir.rooted, dir.segs + [below] + Relative(name))
    ensures Beneath(Name(dir.rooted, dir.segs + [below]), JoinBelow(dir, below, name))
  {
    JoinBelowIsJoin(dir, below, name);
    CleanStays(dir.segs + [below], Relative(name), dir.rooted);
    assert (dir.segs + [below] + Relative(name))[|dir.segs + [below]|..] == Relative(name);
  }

  /** One directory holds another exactly when its cleaned name begins the other's, of names that do not climb. */
  lemma OneBeneathOther(cwd: Path, dir: Name, below: string, a: string, b: string)
    requires IsClean(dir) && Clean([below]) && Clean(Relative(a)) && Clean(Relative(b))
    ensures Above(Resolve(cwd, JoinBelow(dir, below, a)), Resolve(cwd, JoinBelow(dir, below, b)))
            <==> Above(Relative(a), Relative(b))
  {
    var base := Name(dir.rooted, dir.segs + [below]);
    PlainNameBelow(dir, below, a);
    PlainNameBelow(dir, below, b);
    BeneathResolves(cwd, base, JoinBelow(dir, below, a));
    BeneathResolves(cwd, base, JoinBelow(dir, below, b));
    assert JoinBelow(dir, below, a).segs[|base.segs|..] == Relative(a);
    assert JoinBelow(dir, below, b).segs[|base.segs|..] == Relative(b);
    AboveBelow(Resolve(cwd, base), Relative(a), Relative(b));
  }

  // ---------------------------------------------------------------------------------------------
  // Where names lead, one segment after the other
  // ---------------------------------------------------------------------------------------------

  /** The directory that one comes to: "" and "." stay, ".." goes up, but not from the root, any other goes down. */
  function Walk(from: Path, segments: seq<string>): Path
    decreases |segments|
  {
    if segments == [] then from else
      var s := segments[0];
      Walk(if s == "" || s == "." then from
           else if s == ".." then if from == [] then [] else from[..|from| - 1]
           else from + [s],
           segments[1..])
  }

  lemma {:induction false} CleanedWalks(from: Path, segments: seq<string>)
    requires Clean(from)
    ensures Cleaned(from, segments, true) == Walk(from, segments) && Clean(Walk(from, segments))
    decreases |segments|
  {
    if segments != [] {
      var next := CleanedBy(from, segments[0], true);
      assert from != [] ==> from[|from| - 1] != "..";
      assert Clean(next);
      CleanedWalks(next, segments[1..]);
    }
  }

  /** A cleaned name leads where the name does, from any directory. */
  lemma CleanedLeadsThere(cwd: Path, n: Name, segments: seq<string>)
    requires Clean(cwd) && IsClean(n)
    ensures Resolve(cwd, Name(n.rooted, Cleaned(n.segs, segments, n.rooted))) == Walk(Resolve(cwd, n), segments)
  {
    if n.rooted {
      CleanedWalks(n.segs, segments);
    } else {
      NoClimbs(cwd);
      CleanFirst(cwd, n.segs, segments, true);
      CleanedWalks(cwd, n.segs);
      CleanedWalks(Walk(cwd, n.segs), segments);
    }
  }

  lemma NoClimbs(p: Path)
    requires Clean(p)
    ensures Climbs(p) == 0 && p[0..] == p
  {
  }

  /** A zip entry lands where its name leads from the target; one whose name is absolute, where it leads from the root,
      put beneath the target. */
  lemma LandsWhereItLeads(cwd: Path, target: Name, name: string)
    requires Clean(cwd) && IsClean(target)
    ensures var there := if target.rooted then target.segs else Walk(cwd, target.segs);
            Resolve(cwd, Join(target, CleanName(name)))
            == if "/" <= name then there + Walk([], Segments(name)) else Walk(there, Segments(name))
  {
    var n, d := CleanName(name), Resolve(cwd, target);
    CleanNameIsClean(name);
    CleanedLeadsThere(cwd, target, n.segs);
    CleanedWalks(cwd, target.segs);
    NoClimbs(d);
    CleanedWalks(d, n.segs);
    if "/" <= name {
      CleanedWalks([], Segments(name));
      CleanStays(d, n.segs, true);
    } else {
      assert n == Name(false, Cleaned([], Segments(name), false));
      CleanFirst(d, [], Segments(name), true);
      CleanedWalks(d, Segments(name));
    }
  }

  /** A name below a directory leads there from it, with or without a slash at its front. */
  lemma BelowLeadsThere(cwd: Path, dir: Name, below: string, name: string)
    requires Clean(cwd) && IsClean(dir) && Clean([below])
    ensures var there := if dir.rooted then dir.segs else Walk(cwd, dir.segs);
            Resolve(cwd, JoinBelow(dir, below, name)) == Walk(there + [below], Segments(name))
  {
    var base := Name(dir.rooted, dir.segs + [below]);
    OneBelowIsClean(dir, below);
    CleanedLeadsThere(cwd, base, Segments(name));
    AppendOne(cwd, dir.segs, below, true);
    CleanedWalks(cwd, dir.segs);
    assert [below][0] == below;
  }

  /** What its segments are: the one before the first slash, and those of what is after it. */
  lemma SegmentsAre(first: string, rest: string)
    requires '/' !in first
    ensures Segments(first) == [first] && Segments(first + ("/" + rest)) == [first] + Segments(rest)
  {
    SegmentsPlain(first);
    SegmentsSlash(first, rest);
  }
}
