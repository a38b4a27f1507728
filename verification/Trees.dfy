/** File trees as maps from paths, and the part of one that lies beneath a directory. */
module Trees {
  type Path = seq<string>
  type Bytes = seq<bv8>
  type Perm = bv9

  datatype Node = Dir | File(data: Bytes, perm: Perm)
  type Tree = map<Path, Node>

  /** q is p, or a directory above it. */
  predicate Above(q: Path, p: Path) { q <= p }

  /** Every path in the tree has its parents in it, and they are directories. */
  ghost predicate Closed(t: Tree) {
    && [] in t && t[[]].Dir?
    && forall p, q :: p in t && Above(q, p) && q != p ==> q in t && t[q].Dir?
  }

  /** A node with the directories above it. */
  function Chain(p: Path, n: Node): (c: Tree)
    ensures forall q :: q in c <==> Above(q, p)
    ensures forall q :: q in c ==> c[q] == if q == p then n else Dir
  {
    map q | q in Prefixes(p) :: if q == p then n else Dir
  }

  function Prefixes(p: Path): (s: set<Path>)
    ensures forall q :: q in s <==> Above(q, p)
  {
    if p == [] then {[]} else
      var front := p[..|p| - 1];
      assert forall q :: Above(q, p) ==> q == p || Above(q, front);
      Prefixes(front) + {p}
  }

  /** Where both trees have a path, both have a directory there or both have a file. */
  ghost predicate Compatible(t: Tree, u: Tree) {
    forall p :: p in t && p in u ==> (t[p].Dir? <==> u[p].Dir?)
  }

  /** What lies at or beneath a directory, by the path from there. */
  function Sub(t: Tree, d: Path): (s: Tree)
    ensures forall p :: p in s <==> d + p in t
    ensures forall p :: p in s ==> s[p] == t[d + p]
  {
    SplitAt(d);
    map q | q in t && Above(d, q) :: q[|d|..] := t[q]
  }

  lemma SplitAt(d: Path)
    ensures forall q :: Above(d, q) ==> q == d + q[|d|..]
    ensures forall p :: Above(d, d + p) && (d + p)[|d|..] == p
  {
  }

  /** Everything else. */
  function Outside(t: Tree, d: Path): Tree {
    map q | q in t && !Above(d, q) :: t[q]
  }

  lemma {:induction false} ClosedAfterChain(t: Tree, p: Path, n: Node)
    requires Closed(t) && Compatible(t, Chain(p, n))
    ensures Closed(t + Chain(p, n))
  {
  }

  lemma AboveBelow(d: Path, q: Path, p: Path)
    ensures Above(d + q, d + p) <==> Above(q, p)
    ensures d + q == d + p <==> q == p
  {
    assert (d + p)[|d|..] == p && (d + q)[|d|..] == q;
    if Above(q, p) { assert d + p == (d + q) + p[|q|..]; }
    if Above(d + q, d + p) { assert forall i :: 0 <= i < |q| ==> q[i] == (d + q)[|d| + i] == (d + p)[|d| + i]; }
  }

  lemma ChainBelow(d: Path, p: Path, n: Node)
    ensures forall q :: d + q in Chain(d + p, n) <==> q in Chain(p, n)
    ensures forall q :: q in Chain(p, n) ==> Chain(d + p, n)[d + q] == Chain(p, n)[q]
  {
    forall q ensures d + q in Chain(d + p, n) <==> q in Chain(p, n) { AboveBelow(d, q, p); }
    forall q | q in Chain(p, n) ensures Chain(d + p, n)[d + q] == Chain(p, n)[q] { AboveBelow(d, q, p); }
  }

  /** A chain written at a directory is a chain written into its part of the tree, and nowhere else. */
  lemma SubOfChain(t: Tree, d: Path, p: Path, n: Node)
    ensures Sub(t + Chain(d + p, n), d) == Sub(t, d) + Chain(p, n)
  {
    ChainBelow(d, p, n);
  }

  lemma ShorterIsAbove(q: Path, d: Path, p: Path)
    requires Above(q, d + p) && !Above(d, q)
    ensures Above(q, d) && q != d && q != d + p
  {
    assert q == (d + p)[..|q|];
    if |q| < |d| { assert q == d[..|q|]; }
  }

  lemma CompatibleBelow(t: Tree, d: Path, p: Path, n: Node)
    requires Closed(t) && d in t && t[d].Dir?
    ensures Compatible(t, Chain(d + p, n)) <==> Compatible(Sub(t, d), Chain(p, n))
  {
    ChainBelow(d, p, n);
    if Compatible(Sub(t, d), Chain(p, n)) {
      forall q | q in t && q in Chain(d + p, n) ensures t[q].Dir? <==> Chain(d + p, n)[q].Dir? {
        if Above(d, q) {
          SplitAt(d);
          assert q == d + q[|d|..];
          assert q[|d|..] in Sub(t, d);
        } else {
          ShorterIsAbove(q, d, p);
        }
      }
    }
    if Compatible(t, Chain(d + p, n)) {
      forall q | q in Sub(t, d) && q in Chain(p, n) ensures Sub(t, d)[q].Dir? <==> Chain(p, n)[q].Dir? {
        assert d + q in Chain(d + p, n);
      }
    }
  }

  lemma ClosedBelow(t: Tree, d: Path)
    requires Closed(t) && d in t && t[d].Dir?
    ensures Closed(Sub(t, d))
  {
    assert d + [] == d;
    forall p, q | p in Sub(t, d) && Above(q, p) && q != p ensures q in Sub(t, d) && Sub(t, d)[q].Dir? {
      AboveBelow(d, q, p);
      assert d + p in t;
    }
  }
}
