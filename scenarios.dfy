/** The molecules the repository's tests build (src/lib.rs), and what the
    model proves about them: handles return the stored atoms, a second bond
    between the same atoms is refused, equality ignores insertion order but
    not connectivity, and "CN" reads as the carbon-nitrogen single bond. */
module Scenarios {
  import opened Wrappers
  import opened Core
  import opened Parse
  import opened ParseProperties

  /** Methylamine as the tests build it: carbon, then nitrogen, then the bond. */
  method Methylamine(c: Element, n: Element) returns (molecule: Molecule, ci: AtomIndex, ni: AtomIndex)
    ensures fresh(molecule) && molecule.Valid()
    ensures ci < |molecule.graph.atoms| && ni < |molecule.graph.atoms|
    ensures molecule.AtomAt(ci) == Atom(c) && molecule.AtomAt(ni) == Atom(n)
    ensures ci == 0 && ni == 1
    ensures molecule.graph == Graph([Atom(c), Atom(n)], [Edge(0, 1, Single)])
  {
    molecule := new Molecule();
    ci := molecule.AddAtom(Atom(c));
    ni := molecule.AddAtom(Atom(n));
    var added := molecule.AddBond(ci, ni, Single);
    assert added.Ok?;
  }

  /** Adding the carbon-nitrogen bond a second time is refused. */
  method MoleculesHaveUniqueBonds(c: Element, n: Element) returns (r: Result<(), ()>)
    ensures r.Err?
  {
    var molecule, ci, ni := Methylamine(c, n);
    assert Joins(molecule.graph.bonds[0], ci, ni);
    r := molecule.AddBond(ci, ni, Single);
  }

  function MolA(c: Element, n: Element): Graph {
    Graph([Atom(c), Atom(n)], [Edge(0, 1, Single)])
  }

  /** Nitrogen added first, bond written from carbon to nitrogen. */
  function MolB(c: Element, n: Element): Graph {
    Graph([Atom(n), Atom(c)], [Edge(1, 0, Single)])
  }

  /** N, C1, C2 with bonds C1-N and C2-C1: the chain C-C-N. */
  function MolC(c: Element, n: Element): Graph {
    Graph([Atom(n), Atom(c), Atom(c)], [Edge(1, 0, Single), Edge(2, 1, Single)])
  }

  /** N, C1, C2 with bonds C1-N and C2-N: the chain C-N-C. */
  function MolD(c: Element, n: Element): Graph {
    Graph([Atom(n), Atom(c), Atom(c)], [Edge(1, 0, Single), Edge(2, 0, Single)])
  }

  /** The chain C-C-N again, with the two carbons added in the other order. */
  function MolE(c: Element, n: Element): Graph {
    Graph([Atom(n), Atom(c), Atom(c)], [Edge(1, 2, Single), Edge(2, 0, Single)])
  }

  /** Molecule `molb` of the comparison test: nitrogen first, then carbon. */
  method BuildMolB(c: Element, n: Element) returns (molecule: Molecule)
    ensures fresh(molecule) && molecule.Valid()
    ensures molecule.graph == MolB(c, n)
  {
    molecule := new Molecule();
    var ni := molecule.AddAtom(Atom(n));
    var ci := molecule.AddAtom(Atom(c));
    var added := molecule.AddBond(ci, ni, Single);
    assert added.Ok?;
  }

  /** Molecule `molc`: N, C1, C2, then C1-N and C2-C1. */
  method BuildMolC(c: Element, n: Element) returns (molecule: Molecule)
    ensures fresh(molecule) && molecule.Valid()
    ensures molecule.graph == MolC(c, n)
  {
    molecule := new Molecule();
    var ni := molecule.AddAtom(Atom(n));
    var c1 := molecule.AddAtom(Atom(c));
    var c2 := molecule.AddAtom(Atom(c));
    var added := molecule.AddBond(c1, ni, Single);
    assert added.Ok?;
    added := molecule.AddBond(c2, c1, Single);
    assert added.Ok?;
  }

  /** Molecule `mold`: N, C1, C2, then C1-N and C2-N. */
  method BuildMolD(c: Element, n: Element) returns (molecule: Molecule)
    ensures fresh(molecule) && molecule.Valid()
    ensures molecule.graph == MolD(c, n)
  {
    molecule := new Molecule();
    var ni := molecule.AddAtom(Atom(n));
    var c1 := molecule.AddAtom(Atom(c));
    var c2 := molecule.AddAtom(Atom(c));
    var added := molecule.AddBond(c1, ni, Single);
    assert added.Ok?;
    added := molecule.AddBond(c2, ni, Single);
    assert added.Ok?;
  }

  /** Molecule `mole`: N, C2, C1, then C2-C1 and C1-N. */
  method BuildMolE(c: Element, n: Element) returns (molecule: Molecule)
    ensures fresh(molecule) && molecule.Valid()
    ensures molecule.graph == MolE(c, n)
  {
    molecule := new Molecule();
    var ni := molecule.AddAtom(Atom(n));
    var c2 := molecule.AddAtom(Atom(c));
    var c1 := molecule.AddAtom(Atom(c));
    var added := molecule.AddBond(c2, c1, Single);
    assert added.Ok?;
    added := molecule.AddBond(c1, ni, Single);
    assert added.Ok?;
  }

  /** Methylamine equals itself built in the other order. */
  lemma MethylamineInsertionOrder(c: Element, n: Element)
    ensures Isomorphic(MolA(c, n), MolB(c, n))
  {
    var swap := [1, 0];
    assert IsBijection(swap, swap, 2);
    RenamingIsomorphic(MolA(c, n), MolB(c, n), swap, swap);
  }

  /** Molecules of different sizes differ. */
  lemma MethylamineIsNotMolC(c: Element, n: Element)
    ensures !Isomorphic(MolA(c, n), MolC(c, n))
  {
  }

  /** C-C-N with its two carbons swapped and each bond renamed in place. */
  lemma ChainCarbonsSwapped(c: Element, n: Element)
    ensures Isomorphic(MolC(c, n), Graph(MolE(c, n).atoms, [Edge(2, 0, Single), Edge(1, 2, Single)]))
  {
    var p := [0, 2, 1];
    assert IsBijection(p, p, 3);
    RenamingIsomorphic(MolC(c, n), Graph(MolE(c, n).atoms, [Edge(2, 0, Single), Edge(1, 2, Single)]), p, p);
  }

  /** C-C-N equals itself with the carbons added in the other order and the
      bonds added in the other order. */
  lemma ChainInsertionOrder(c: Element, n: Element)
    ensures Isomorphic(MolC(c, n), MolE(c, n))
  {
    var h := Graph(MolE(c, n).atoms, [Edge(2, 0, Single), Edge(1, 2, Single)]);
    ChainCarbonsSwapped(c, n);
    assert multiset(h.bonds) == multiset(MolE(c, n).bonds);
    ReorderedBondsIsomorphic(h, MolE(c, n));
    IsomorphicTransitive(MolC(c, n), h, MolE(c, n));
  }

  /** In C-C-N the nitrogen (atom 0) has exactly one neighbour, atom 1,
      joined by a single bond. */
  lemma NitrogenNeighbourInChain(c: Element, n: Element)
    ensures Bonded(MolC(c, n), 0, 1, Single)
    ensures forall x, bond :: Bonded(MolC(c, n), 0, x, bond) ==> x == 1
  {
    var g := MolC(c, n);
    assert Joins(g.bonds[0], 0, 1);
    forall x, bond | Bonded(g, 0, x, bond)
      ensures x == 1
    {
      var k :| 0 <= k < |g.bonds| && Joins(g.bonds[k], 0, x) && g.bonds[k].bond == bond;
      assert k == 0;
    }
  }

  /** A renaming of C-C-N onto C-N-C keeps the nitrogen in place. */
  lemma NitrogenStaysPut(c: Element, n: Element, p: seq<nat>, q: seq<nat>)
    requires c != n
    requires IsomorphismWitness(MolC(c, n), MolD(c, n), p, q)
    ensures p[0] == 0
  {
    assert MolD(c, n).atoms[p[0]] == Atom(n);
  }

  /** Under such a renaming each carbon of C-N-C, being bonded to the
      nitrogen, comes from a neighbour of the nitrogen in C-C-N. */
  lemma CarbonComesFromNeighbour(c: Element, n: Element, p: seq<nat>, q: seq<nat>, x: AtomIndex)
    requires c != n
    requires IsomorphismWitness(MolC(c, n), MolD(c, n), p, q)
    requires x == 1 || x == 2
    ensures q[x] == 1
  {
    var g, h := MolC(c, n), MolD(c, n);
    NitrogenStaysPut(c, n, p, q);
    assert Bonded(h, p[0], p[q[x]], Single) by {
      assert Joins(h.bonds[x - 1], 0, x);
    }
    assert Bonded(g, 0, q[x], Single);
    NitrogenNeighbourInChain(c, n);
  }

  /** No renaming maps C-C-N onto C-N-C: both carbons of C-N-C would have to
      come from atom 1 of C-C-N. */
  lemma NoChainToStarWitness(c: Element, n: Element, p: seq<nat>, q: seq<nat>)
    requires c != n
    ensures !IsomorphismWitness(MolC(c, n), MolD(c, n), p, q)
  {
    if IsomorphismWitness(MolC(c, n), MolD(c, n), p, q) {
      CarbonComesFromNeighbour(c, n, p, q, 1);
      CarbonComesFromNeighbour(c, n, p, q, 2);
      assert false;
    }
  }

  /** Same atoms, different connectivity: the nitrogen has one neighbour in
      C-C-N and two in C-N-C, so the two molecules differ. */
  lemma ConnectivityMatters(c: Element, n: Element)
    requires c != n
    ensures !Isomorphic(MolC(c, n), MolD(c, n))
  {
    forall p, q
      ensures !IsomorphismWitness(MolC(c, n), MolD(c, n), p, q)
    {
      NoChainToStarWitness(c, n, p, q);
    }
  }

  /** "CN" reads as nitrogen at index 0 and carbon at index 1 with a single bond. */
  lemma ParsedMethylamine(table: ElementTable, c: Element, n: Element)
    requires table("C") == Some(c) && table("N") == Some(n)
    ensures SmilesGraph(table, "CN") == Some(Graph([Atom(n), Atom(c)], [Edge(0, 1, Single)]))
  {
    assert "C" + LinkText(Link(None, "N")) + "" == "CN";
    TwoAtomChain(table, "C", Link(None, "N"), "");
  }

  /** "CN" equals methylamine built by hand. */
  lemma ParseMethylamine(table: ElementTable, c: Element, n: Element)
    requires table("C") == Some(c) && table("N") == Some(n)
    ensures SmilesGraph(table, "CN").Some?
    ensures Isomorphic(SmilesGraph(table, "CN").value, MolA(c, n))
  {
    ParsedMethylamine(table, c, n);
    var g := Graph([Atom(n), Atom(c)], [Edge(0, 1, Single)]);
    MethylamineInsertionOrder(c, n);
    FlippedBondIsomorphic(MolB(c, n), 0);
    assert MolB(c, n).(bonds := MolB(c, n).bonds[0 := Edge(0, 1, Single)]) == g;
    IsomorphicTransitive(MolA(c, n), MolB(c, n), g);
    IsomorphicSymmetric(MolA(c, n), g);
  }

  /** "CCN" reads as a three-atom path with two single bonds. */
  lemma ParseEthylamine(table: ElementTable, c: Element, n: Element)
    requires table("C") == Some(c) && table("N") == Some(n)
    ensures SmilesGraph(table, "CCN") ==
      Some(Graph([Atom(n), Atom(c), Atom(c)], [Edge(0, 1, Single), Edge(1, 2, Single)]))
  {
    assert "C" + LinkText(Link(None, "C")) + LinkText(Link(None, "N")) + "" == "CCN";
    ThreeAtomChain(table, "C", Link(None, "C"), Link(None, "N"), "");
  }

  /** "C=N-" written as its first symbol, one link and a dangling bond. */
  lemma DanglingText(table: ElementTable)
    requires table("C").Some? && table("N").Some?
    ensures "C" + ChainText([Link(Some(Double), "N")]) + [BondSymbol(Single)] == "C=N-"
    ensures AllKnown(table, [Link(Some(Double), "N")])
    ensures EndsChain(table, [BondSymbol(Single)])
  {
    assert ChainText([Link(Some(Double), "N")]) == "=N";
    DanglingBondEndsChain(table, Single);
  }

  /** In "C=N-" the trailing bond symbol is left unconsumed. */
  lemma DanglingBondLeftOver(table: ElementTable, c: Element, n: Element)
    requires table("C") == Some(c) && table("N") == Some(n)
    ensures ParseTree(table, "C=N-").Some?
    ensures ParseTree(table, "C=N-").value.0 == "-"
  {
    DanglingText(table);
    ParseTreeRoundTrip(table, "C", [Link(Some(Double), "N")], [BondSymbol(Single)]);
  }

  /** ... and discarded: "C=N-" builds the nitrogen-carbon double bond. */
  lemma DanglingBondDiscarded(table: ElementTable, c: Element, n: Element)
    requires table("C") == Some(c) && table("N") == Some(n)
    ensures SmilesGraph(table, "C=N-") == Some(Graph([Atom(n), Atom(c)], [Edge(0, 1, Double)]))
  {
    DanglingText(table);
    assert ChainText([Link(Some(Double), "N")]) == LinkText(Link(Some(Double), "N"));
    TwoAtomChain(table, "C", Link(Some(Double), "N"), [BondSymbol(Single)]);
  }

  /** The comparison test: the five molecules built through `AddAtom` and
      `AddBond` compare as the test asserts, for any two distinct elements. */
  method MoleculesCanBeCompared(c: Element, n: Element)
    returns (mola: Molecule, molb: Molecule, molc: Molecule, mold: Molecule, mole: Molecule)
    requires c != n
    ensures mola.Equals(molb)
    ensures !mola.Equals(molc)
    ensures !molc.Equals(mold)
    ensures molc.Equals(mole)
  {
    var ci, ni;
    mola, ci, ni := Methylamine(c, n);
    molb := BuildMolB(c, n);
    molc := BuildMolC(c, n);
    mold := BuildMolD(c, n);
    mole := BuildMolE(c, n);
    MethylamineInsertionOrder(c, n);
    MethylamineIsNotMolC(c, n);
    ConnectivityMatters(c, n);
    ChainInsertionOrder(c, n);
  }
}
