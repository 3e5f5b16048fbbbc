/** Who was delegated from whom. Strictly shrinking scopes make parent links a
    forest; nothing here depends on status or time. */
module Forest {
  import opened Core
  import opened Domain

  datatype Node = Node(parent: Option<string>, scope: set<string>)

  type Genealogy = map<string, Node>

  function ScopeSet(scope: seq<string>): set<string> {
    set a | a in scope
  }

  function GenealogyOf(tokens: map<string, Token>): Genealogy {
    map id | id in tokens :: Node(tokens[id].parentTokenId, ScopeSet(tokens[id].scope))
  }

  /** The parent of d, when d names one that exists. */
  ghost predicate HasParent(g: Genealogy, d: string) {
    d in g && g[d].parent.Some? && g[d].parent.value in g
  }

  /** Every scope is non-empty and strictly inside its parent's. */
  ghost predicate Narrow(g: Genealogy) {
    && (forall d :: d in g ==> g[d].scope != {})
    && (forall d :: HasParent(g, d) ==> g[d].scope < g[g[d].parent.value].scope)
  }

  function Universe(g: Genealogy): set<string> {
    set d, a | d in g && a in g[d].scope :: a
  }

  /** How far d's scope is from everything: it falls on the way to the root. */
  ghost function Height(g: Genealogy, d: string): set<string> {
    if d in g then Universe(g) - g[d].scope else Universe(g)
  }

  lemma HeightFalls(g: Genealogy, d: string)
    requires Narrow(g) && HasParent(g, d)
    ensures Height(g, g[d].parent.value) < Height(g, d)
  {
    var p := g[d].parent.value;
    var a :| a in g[p].scope && a !in g[d].scope;
    assert a in Height(g, d) && a !in Height(g, p);
  }

  /** d descends from p by one delegation or more. */
  ghost predicate Below(g: Genealogy, p: string, d: string)
    requires Narrow(g)
    decreases Height(g, d)
  {
    HasParent(g, d) && (HeightFalls(g, d); g[d].parent.value == p || Below(g, p, g[d].parent.value))
  }

  /** The ids from the root down to d. */
  ghost function Path(g: Genealogy, d: string): (path: seq<string>)
    requires Narrow(g) && d in g
    ensures |path| >= 1 && path[|path| - 1] == d
    decreases Height(g, d)
  {
    if HasParent(g, d) then HeightFalls(g, d); Path(g, g[d].parent.value) + [d] else [d]
  }

  /** What it is to be the root-first parent path to d. */
  ghost predicate IsPath(g: Genealogy, path: seq<string>, d: string) {
    && path != [] && path[|path| - 1] == d
    && (forall i :: 0 <= i < |path| ==> path[i] in g)
    && !HasParent(g, path[0])
    && (forall i :: 0 < i < |path| ==> g[path[i]].parent == Some(path[i - 1]))
  }

  lemma {:induction false} PathIsPath(g: Genealogy, d: string)
    requires Narrow(g) && d in g
    ensures IsPath(g, Path(g, d), d)
    decreases Height(g, d)
  {
    if HasParent(g, d) {
      HeightFalls(g, d);
      PathIsPath(g, g[d].parent.value);
    }
  }

  lemma {:induction false} PathIsUnique(g: Genealogy, path: seq<string>, d: string)
    requires Narrow(g) && IsPath(g, path, d)
    ensures path == Path(g, d)
    decreases |path|
  {
    var n := |path| - 1;
    assert path == path[..n] + [d];
    if n > 0 {
      assert g[path[n]].parent == Some(path[n - 1]);
      assert HasParent(g, d);
      PathIsUnique(g, path[..n], path[n - 1]);
    }
  }

  lemma SmallerSet(a: set<string>, b: set<string>)
    requires a < b
    ensures |a| < |b|
  {
    var x :| x in b && x !in a;
    Subset(a, b - {x});
  }

  lemma Subset(a: set<string>, b: set<string>)
    requires a <= b
    ensures |a| <= |b|
  {
    if a != {} {
      var x :| x in a;
      Subset(a - {x}, b - {x});
    }
  }

  /** A chain is no longer than the number of distinct permissions at its root. */
  lemma {:induction false} PathLength(g: Genealogy, d: string)
    requires Narrow(g) && d in g
    ensures Path(g, d)[0] in g
    ensures |Path(g, d)| + |g[d].scope| <= |g[Path(g, d)[0]].scope| + 1
    ensures |Path(g, d)| <= |g[Path(g, d)[0]].scope|
    decreases Height(g, d)
  {
    assert |g[d].scope| >= 1;
    if HasParent(g, d) {
      var p := g[d].parent.value;
      HeightFalls(g, d);
      PathLength(g, p);
      SmallerSet(g[d].scope, g[p].scope);
    }
  }

  lemma {:induction false} BelowIffOnPath(g: Genealogy, p: string, d: string)
    requires Narrow(g) && d in g
    ensures p in Path(g, d) <==> p == d || Below(g, p, d)
    decreases Height(g, d)
  {
    if HasParent(g, d) {
      HeightFalls(g, d);
      BelowIffOnPath(g, p, g[d].parent.value);
    }
  }

  lemma {:induction false} BelowNarrows(g: Genealogy, p: string, d: string)
    requires Narrow(g) && Below(g, p, d)
    ensures p in g && d in g && g[d].scope < g[p].scope && p != d
    decreases Height(g, d)
  {
    HeightFalls(g, d);
    if g[d].parent.value != p {
      BelowNarrows(g, p, g[d].parent.value);
    }
  }

  lemma {:induction false} BelowTransitive(g: Genealogy, p: string, q: string, d: string)
    requires Narrow(g) && Below(g, p, q) && Below(g, q, d)
    ensures Below(g, p, d)
    decreases Height(g, d)
  {
    HeightFalls(g, d);
    if g[d].parent.value != q {
      BelowTransitive(g, p, q, g[d].parent.value);
    }
  }

  ghost predicate AtOrBelow(g: Genealogy, p: string, d: string)
    requires Narrow(g)
  {
    d == p || Below(g, p, d)
  }

  /** The subtrees of two children of one parent share nothing. */
  lemma {:induction false} SiblingsDisjoint(g: Genealogy, p: string, a: string, b: string, d: string)
    requires Narrow(g) && HasParent(g, a) && HasParent(g, b)
    requires g[a].parent == g[b].parent == Some(p) && a != b
    ensures !(AtOrBelow(g, a, d) && AtOrBelow(g, b, d))
    decreases Height(g, d)
  {
    if AtOrBelow(g, a, d) && AtOrBelow(g, b, d) {
      if d == a {
        NotBelowSibling(g, p, a, b);
      } else if d == b {
        NotBelowSibling(g, p, b, a);
      } else {
        HeightFalls(g, d);
        SiblingsDisjoint(g, p, a, b, g[d].parent.value);
      }
    }
  }

  lemma {:induction false} NotBelowSibling(g: Genealogy, p: string, a: string, b: string)
    requires Narrow(g) && HasParent(g, a) && HasParent(g, b)
    requires g[a].parent == g[b].parent == Some(p) && a != b
    ensures !Below(g, b, a)
  {
    if Below(g, b, a) {
      HeightFalls(g, a);
      if p != b {
        BelowNarrows(g, b, p);
      }
    }
  }

  /** Descending from p goes through exactly the children of p. */
  lemma {:induction false} BelowThroughChild(g: Genealogy, p: string, d: string)
    requires Narrow(g) && Below(g, p, d)
    ensures exists c :: c in g && g[c].parent == Some(p) && AtOrBelow(g, c, d)
    decreases Height(g, d)
  {
    HeightFalls(g, d);
    var q := g[d].parent.value;
    if q == p {
      assert AtOrBelow(g, d, d);
    } else {
      BelowThroughChild(g, p, q);
      var c :| c in g && g[c].parent == Some(p) && AtOrBelow(g, c, q);
      assert AtOrBelow(g, c, d);
    }
  }
}
