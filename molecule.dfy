/** The molecule container of src/core/molecule.rs: an undirected graph whose
    nodes are atoms and whose edges are bonds, with at most one bond between any
    two atoms, and equality defined as label-preserving graph isomorphism. */
module Core {
  import opened Wrappers

  /** A chemical element. The element table (symbols, atomic numbers) is not part
      of this model, so elements are only compared for equality. */
  type Element(==)

  /** The atom label stored on each node. */
  datatype Atom = Atom(element: Element)

  /** The bond label stored on each edge. */
  datatype Bond = Single | Double | Triple | Aromatic

  /** The handle `add_atom` returns: the position of the node in insertion order. */
  type AtomIndex = nat

  /** One undirected edge; `a` and `b` are the endpoints in the order given to `add_bond`. */
  datatype Edge = Edge(a: AtomIndex, b: AtomIndex, bond: Bond)

  /** The value held by a molecule: its nodes and its edges, each in insertion order. */
  datatype Graph = Graph(atoms: seq<Atom>, bonds: seq<Edge>)

  /** Edge `e` connects `a` and `b`, in either orientation. */
  predicate Joins(e: Edge, a: AtomIndex, b: AtomIndex) {
    (e.a == a && e.b == b) || (e.a == b && e.b == a)
  }

  /** Some edge of `g` connects `a` and `b` (what the graph's `contains_edge` reports). */
  ghost predicate HasEdge(g: Graph, a: AtomIndex, b: AtomIndex) {
    exists k :: 0 <= k < |g.bonds| && Joins(g.bonds[k], a, b)
  }

  /** Some edge of `g` connects `a` and `b` and carries the label `bond`. */
  ghost predicate Bonded(g: Graph, a: AtomIndex, b: AtomIndex, bond: Bond) {
    exists k :: 0 <= k < |g.bonds| && Joins(g.bonds[k], a, b) && g.bonds[k].bond == bond
  }

  /** Every edge ends at existing atoms and no two edges share an unordered pair of endpoints. */
  ghost predicate ValidGraph(g: Graph) {
    && (forall k :: 0 <= k < |g.bonds| ==> g.bonds[k].a < |g.atoms| && g.bonds[k].b < |g.atoms|)
    && (forall i, j :: 0 <= i < j < |g.bonds| ==> !Joins(g.bonds[j], g.bonds[i].a, g.bonds[i].b))
  }

  class Molecule {
    var graph: Graph

    ghost predicate Valid()
      reads this
    {
      ValidGraph(graph)
    }

    /** `Molecule::new`: no atoms and no bonds. */
    constructor ()
      ensures Valid()
      ensures graph.atoms == [] && graph.bonds == []
    {
      graph := Graph([], []);
    }

    /** `add_atom`: appends one node and returns its fresh index. */
    method AddAtom(atom: Atom) returns (index: AtomIndex)
      requires Valid()
      modifies this
      ensures Valid()
      ensures index == |old(graph.atoms)|
      ensures graph.atoms == old(graph.atoms) + [atom]
      ensures graph.bonds == old(graph.bonds)
      ensures AtomAt(index) == atom
    {
      index := |graph.atoms|;
      graph := graph.(atoms := graph.atoms + [atom]);
    }

    /** The graph's `contains_edge` on an undirected graph: is there an edge
        between `a` and `b` in either orientation? */
    method ContainsEdge(a: AtomIndex, b: AtomIndex) returns (found: bool)
      ensures found <==> HasEdge(graph, a, b)
    {
      found := false;
      var k := 0;
      while k < |graph.bonds| && !found
        invariant 0 <= k <= |graph.bonds|
        invariant found <==> exists j :: 0 <= j < k && Joins(graph.bonds[j], a, b)
      {
        found := Joins(graph.bonds[k], a, b);
        k := k + 1;
      }
    }

    /** `add_bond`: refuses a second edge between the same two atoms and then
        changes nothing; otherwise appends exactly one edge. The graph's
        `add_edge` panics on an index out of range, hence the precondition. */
    method AddBond(a: AtomIndex, b: AtomIndex, bond: Bond) returns (r: Result<(), ()>)
      requires Valid()
      requires a < |graph.atoms| && b < |graph.atoms|
      modifies this
      ensures Valid()
      ensures r.Err? <==> old(HasEdge(graph, a, b))
      ensures r.Err? ==> graph == old(graph)
      ensures r.Ok? ==> graph.atoms == old(graph.atoms)
      ensures r.Ok? ==> graph.bonds == old(graph.bonds) + [Edge(a, b, bond)]
    {
      var present := ContainsEdge(a, b);
      if present {
        r := Err(());
      } else {
        var e := Edge(a, b, bond);
        forall i | 0 <= i < |graph.bonds|
          ensures !Joins(e, graph.bonds[i].a, graph.bonds[i].b)
        {
          assert !Joins(graph.bonds[i], a, b);
        }
        graph := graph.(bonds := graph.bonds + [e]);
        r := Ok(());
      }
    }

    /** `atom`: the atom stored under a handle. */
    function AtomAt(index: AtomIndex): (atom: Atom)
      reads this
      requires index < |graph.atoms|
      ensures atom == graph.atoms[index]
    {
      graph.atoms[index]
    }

    /** `PartialEq::eq`: the two molecules are isomorphic. */
    ghost predicate Equals(other: Molecule): (equal: bool)
      reads this, other
      ensures this == other ==> equal
      ensures equal ==> |graph.atoms| == |other.graph.atoms| && |graph.bonds| == |other.graph.bonds|
    {
      IsomorphicReflexive(graph);
      Isomorphic(graph, other.graph)
    }
  }

  // ---------------------------------------------------------------------------
  // Equality: isomorphism under atom-label and bond-label equality

  /** `p` and `q` are mutually inverse permutations of 0..n-1. */
  ghost predicate IsBijection(p: seq<nat>, q: seq<nat>, n: nat) {
    && |p| == n && |q| == n
    && (forall i :: 0 <= i < n ==> p[i] < n && q[p[i]] == i)
    && (forall j :: 0 <= j < n ==> q[j] < n && p[q[j]] == j)
  }

  /** Renaming atom `i` of `g` to atom `p[i]` of `h` keeps every atom label and
      maps the labelled edges of `g` exactly onto those of `h`. */
  ghost predicate IsomorphismWitness(g: Graph, h: Graph, p: seq<nat>, q: seq<nat>) {
    && |g.atoms| == |h.atoms|
    && IsBijection(p, q, |g.atoms|)
    && (forall i :: 0 <= i < |g.atoms| ==> h.atoms[p[i]] == g.atoms[i])
    && (forall a, b, bond :: 0 <= a < |g.atoms| && 0 <= b < |g.atoms| ==>
          (Bonded(g, a, b, bond) <==> Bonded(h, p[a], p[b], bond)))
  }

  /** Molecule equality: equal node and edge counts (checked first by the
      matcher) and a label-preserving bijection of atoms mapping edges to edges. */
  ghost predicate Isomorphic(g: Graph, h: Graph) {
    && |g.atoms| == |h.atoms|
    && |g.bonds| == |h.bonds|
    && exists p, q :: IsomorphismWitness(g, h, p, q)
  }

  function Identity(n: nat): (p: seq<nat>)
    ensures |p| == n && forall i :: 0 <= i < n ==> p[i] == i
  {
    seq(n, i => i)
  }

  /** Equality is reflexive. */
  lemma IsomorphicReflexive(g: Graph)
    ensures Isomorphic(g, g)
  {
    var id := Identity(|g.atoms|);
    forall a, b, bond | 0 <= a < |g.atoms| && 0 <= b < |g.atoms|
      ensures Bonded(g, a, b, bond) <==> Bonded(g, id[a], id[b], bond)
    {
    }
    assert IsomorphismWitness(g, g, id, id);
  }

  /** The inverse of a renaming that witnesses equality witnesses it the other way. */
  lemma WitnessInverse(g: Graph, h: Graph, p: seq<nat>, q: seq<nat>)
    requires IsomorphismWitness(g, h, p, q)
    ensures IsomorphismWitness(h, g, q, p)
  {
    var n := |g.atoms|;
    forall j | 0 <= j < n
      ensures g.atoms[q[j]] == h.atoms[j]
    {
      assert h.atoms[p[q[j]]] == g.atoms[q[j]];
    }
    forall a, b, bond | 0 <= a < n && 0 <= b < n
      ensures Bonded(h, a, b, bond) <==> Bonded(g, q[a], q[b], bond)
    {
      assert Bonded(g, q[a], q[b], bond) <==> Bonded(h, p[q[a]], p[q[b]], bond);
    }
  }

  /** Equality is symmetric. */
  lemma IsomorphicSymmetric(g: Graph, h: Graph)
    requires Isomorphic(g, h)
    ensures Isomorphic(h, g)
  {
    var p, q :| IsomorphismWitness(g, h, p, q);
    WitnessInverse(g, h, p, q);
  }

  /** Equality is transitive: renamings compose. */
  lemma IsomorphicTransitive(f: Graph, g: Graph, h: Graph)
    requires Isomorphic(f, g) && Isomorphic(g, h)
    ensures Isomorphic(f, h)
  {
    var p1, q1 :| IsomorphismWitness(f, g, p1, q1);
    var p2, q2 :| IsomorphismWitness(g, h, p2, q2);
    var n := |f.atoms|;
    var p := seq(n, i requires 0 <= i < n => p2[p1[i]]);
    var q := seq(n, j requires 0 <= j < n => q1[q2[j]]);
    assert IsBijection(p, q, n);
    forall i | 0 <= i < n
      ensures h.atoms[p[i]] == f.atoms[i]
    {
      assert h.atoms[p2[p1[i]]] == g.atoms[p1[i]];
    }
    forall a, b, bond | 0 <= a < n && 0 <= b < n
      ensures Bonded(f, a, b, bond) <==> Bonded(h, p[a], p[b], bond)
    {
      assert Bonded(f, a, b, bond) <==> Bonded(g, p1[a], p1[b], bond);
      assert Bonded(g, p1[a], p1[b], bond) <==> Bonded(h, p2[p1[a]], p2[p1[b]], bond);
    }
    assert IsomorphismWitness(f, h, p, q);
  }

  /** A sequence of distinct numbers below `n` has at most `n` entries. */
  lemma {:induction false} DistinctBelow(f: seq<nat>, n: nat)
    requires forall i :: 0 <= i < |f| ==> f[i] < n
    requires forall i, j :: 0 <= i < j < |f| ==> f[i] != f[j]
    ensures |f| <= n
    decreases |f|
  {
    if |f| > 0 {
      var v := f[|f| - 1];
      var f' := seq(|f| - 1, i requires 0 <= i < |f| - 1 => if f[i] > v then f[i] - 1 else f[i]);
      forall i, j | 0 <= i < j < |f'|
        ensures f'[i] != f'[j]
      {
        assert f[i] != v && f[j] != v;
      }
      DistinctBelow(f', n - 1);
    }
  }

  /** The position in `h` of the image of bond `k` of `g` under a witness. */
  ghost function ImageBond(g: Graph, h: Graph, p: seq<nat>, q: seq<nat>, k: nat): (m: nat)
    requires ValidGraph(g) && IsomorphismWitness(g, h, p, q)
    requires k < |g.bonds|
    ensures m < |h.bonds|
    ensures Joins(h.bonds[m], p[g.bonds[k].a], p[g.bonds[k].b])
  {
    var e := g.bonds[k];
    assert Bonded(g, e.a, e.b, e.bond);
    assert Bonded(h, p[e.a], p[e.b], e.bond);
    var m :| 0 <= m < |h.bonds| && Joins(h.bonds[m], p[e.a], p[e.b]) && h.bonds[m].bond == e.bond;
    m
  }

  /** Two edges whose endpoints a bijection maps onto the same edge join the same atoms. */
  lemma SameImageSamePair(p: seq<nat>, q: seq<nat>, n: nat, x: Edge, y: Edge, e: Edge)
    requires IsBijection(p, q, n)
    requires x.a < n && x.b < n && y.a < n && y.b < n
    requires Joins(e, p[x.a], p[x.b])
    ensures Joins(e, p[y.a], p[y.b]) ==> Joins(y, x.a, x.b)
  {
    assert q[p[x.a]] == x.a && q[p[x.b]] == x.b;
    assert q[p[y.a]] == y.a && q[p[y.b]] == y.b;
  }

  /** Under a witness, distinct bonds of a valid `g` have distinct images in `h`,
      so `g` has at most as many bonds as `h`. */
  lemma WitnessBondsInject(g: Graph, h: Graph, p: seq<nat>, q: seq<nat>)
    requires ValidGraph(g) && IsomorphismWitness(g, h, p, q)
    ensures |g.bonds| <= |h.bonds|
  {
    var f := seq(|g.bonds|, k requires 0 <= k < |g.bonds| => ImageBond(g, h, p, q, k));
    forall i, j | 0 <= i < j < |f|
      ensures f[i] != f[j]
    {
      var ei, ej := g.bonds[i], g.bonds[j];
      SameImageSamePair(p, q, |g.atoms|, ei, ej, h.bonds[f[i]]);
    }
    DistinctBelow(f, |h.bonds|);
  }

  /** On molecules (graphs without duplicate bonds) a label-preserving renaming
      alone makes them equal: the matcher's preliminary count check never
      changes its answer. */
  lemma WitnessForcesCounts(g: Graph, h: Graph, p: seq<nat>, q: seq<nat>)
    requires ValidGraph(g) && ValidGraph(h)
    requires IsomorphismWitness(g, h, p, q)
    ensures |g.bonds| == |h.bonds|
    ensures Isomorphic(g, h)
  {
    WitnessBondsInject(g, h, p, q);
    WitnessInverse(g, h, p, q);
    WitnessBondsInject(h, g, q, p);
  }

  /** The graph obtained by inserting the atoms of `g` in another order: atom
      `i` of `g` becomes atom `p[i]`, and every edge is renamed accordingly. */
  function Renumber(g: Graph, p: seq<nat>, q: seq<nat>): (h: Graph)
    requires ValidGraph(g)
    requires IsBijection(p, q, |g.atoms|)
    ensures |h.atoms| == |g.atoms| && |h.bonds| == |g.bonds|
    ensures forall i :: 0 <= i < |g.atoms| ==> h.atoms[p[i]] == g.atoms[i]
    ensures ValidGraph(h)
  {
    Graph(
      seq(|g.atoms|, j requires 0 <= j < |g.atoms| => g.atoms[q[j]]),
      seq(|g.bonds|, k requires 0 <= k < |g.bonds| =>
        Edge(p[g.bonds[k].a], p[g.bonds[k].b], g.bonds[k].bond)))
  }

  /** A graph that holds atom `i` of `g` at position `p[i]` and every bond of
      `g` with its endpoints renamed by `p` equals `g`. */
  lemma RenamingIsomorphic(g: Graph, h: Graph, p: seq<nat>, q: seq<nat>)
    requires ValidGraph(g)
    requires IsBijection(p, q, |g.atoms|)
    requires |h.atoms| == |g.atoms| && |h.bonds| == |g.bonds|
    requires forall i :: 0 <= i < |g.atoms| ==> h.atoms[p[i]] == g.atoms[i]
    requires forall k :: 0 <= k < |g.bonds| ==>
      h.bonds[k] == Edge(p[g.bonds[k].a], p[g.bonds[k].b], g.bonds[k].bond)
    ensures Isomorphic(g, h)
  {
    var n := |g.atoms|;
    forall a, b, bond | 0 <= a < n && 0 <= b < n
      ensures Bonded(g, a, b, bond) <==> Bonded(h, p[a], p[b], bond)
    {
      if Bonded(g, a, b, bond) {
        var k :| 0 <= k < |g.bonds| && Joins(g.bonds[k], a, b) && g.bonds[k].bond == bond;
        assert Joins(h.bonds[k], p[a], p[b]);
      }
      if Bonded(h, p[a], p[b], bond) {
        var k :| 0 <= k < |h.bonds| && Joins(h.bonds[k], p[a], p[b]) && h.bonds[k].bond == bond;
        var e := g.bonds[k];
        assert q[p[e.a]] == e.a && q[p[e.b]] == e.b;
        assert Joins(g.bonds[k], a, b);
      }
    }
    assert IsomorphismWitness(g, h, p, q);
  }

  /** Equality does not depend on the order in which atoms were inserted. */
  lemma RenumberIsomorphic(g: Graph, p: seq<nat>, q: seq<nat>)
    requires ValidGraph(g)
    requires IsBijection(p, q, |g.atoms|)
    ensures Isomorphic(g, Renumber(g, p, q))
  {
    RenamingIsomorphic(g, Renumber(g, p, q), p, q);
  }

  /** Equality does not depend on the order in which bonds were inserted. */
  lemma ReorderedBondsIsomorphic(g: Graph, h: Graph)
    requires g.atoms == h.atoms
    requires multiset(g.bonds) == multiset(h.bonds)
    ensures Isomorphic(g, h)
  {
    var n := |g.atoms|;
    var id := Identity(n);
    assert |g.bonds| == |multiset(g.bonds)| == |h.bonds|;
    forall a, b, bond | 0 <= a < n && 0 <= b < n
      ensures Bonded(g, a, b, bond) <==> Bonded(h, id[a], id[b], bond)
    {
      if Bonded(g, a, b, bond) {
        var k :| 0 <= k < |g.bonds| && Joins(g.bonds[k], a, b) && g.bonds[k].bond == bond;
        assert g.bonds[k] in multiset(h.bonds);
        var k' :| 0 <= k' < |h.bonds| && h.bonds[k'] == g.bonds[k];
        assert Joins(h.bonds[k'], a, b);
      }
      if Bonded(h, a, b, bond) {
        var k :| 0 <= k < |h.bonds| && Joins(h.bonds[k], a, b) && h.bonds[k].bond == bond;
        assert h.bonds[k] in multiset(g.bonds);
        var k' :| 0 <= k' < |g.bonds| && g.bonds[k'] == h.bonds[k];
        assert Joins(g.bonds[k'], a, b);
      }
    }
    assert IsomorphismWitness(g, h, id, id);
  }

  /** Equality does not depend on the orientation in which a bond was added. */
  lemma FlippedBondIsomorphic(g: Graph, k: nat)
    requires k < |g.bonds|
    ensures Isomorphic(g, g.(bonds := g.bonds[k := Edge(g.bonds[k].b, g.bonds[k].a, g.bonds[k].bond)]))
  {
    var h := g.(bonds := g.bonds[k := Edge(g.bonds[k].b, g.bonds[k].a, g.bonds[k].bond)]);
    var n := |g.atoms|;
    var id := Identity(n);
    forall a, b, bond | 0 <= a < n && 0 <= b < n
      ensures Bonded(g, a, b, bond) <==> Bonded(h, id[a], id[b], bond)
    {
      if Bonded(g, a, b, bond) {
        var j :| 0 <= j < |g.bonds| && Joins(g.bonds[j], a, b) && g.bonds[j].bond == bond;
        assert Joins(h.bonds[j], a, b);
      }
      if Bonded(h, a, b, bond) {
        var j :| 0 <= j < |h.bonds| && Joins(h.bonds[j], a, b) && h.bonds[j].bond == bond;
        assert Joins(g.bonds[j], a, b);
      }
    }
    assert IsomorphismWitness(g, h, id, id);
  }
}
