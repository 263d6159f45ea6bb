# chem-rs core in Dafny

This project models the two pieces of behaviour at the heart of chem-rs:

- the **molecule container** of `src/core/molecule.rs`: an undirected graph of
  atoms labelled with their element and bonds labelled Single, Double, Triple
  or Aromatic, to which atoms are appended, which refuses a second bond
  between the same two atoms, and whose equality is isomorphism under equal
  atom and bond labels;
- the **straight-chain SMILES reader** of `src/daylight/parse.rs`: element
  tokens joined by the bond symbols `-`, `=`, `#` and `:` (OpenSMILES
  specification, section 3.2, Bonds). The reader folds the chain into a
  `BondNode` list whose root is the atom read last, then walks that list
  recursively and builds a path-shaped molecule.

Files:

- `wrappers.dfy` — `Option` and `Result`.
- `molecule.dfy` — module `Core`: `Atom`, `Bond`, `Edge`, the `Graph` value,
  the class `Molecule` (its `graph` field is what `add_atom` and `add_bond`
  update in place), the isomorphism predicate and its lemmas.
- `parse.dfy` — module `Parse`: one function per parse rule over `seq<char>`,
  each returning the unconsumed rest with its value; `Collapse`,
  `ParseMolecule` and `MoleculeFromSmiles` as methods that build a
  `Molecule`. Module `ParseProperties`: the shape of the built graph
  (reversed atom order, bonds joining the right neighbours) and round trips
  from chain text back to the graph.
- `scenarios.dfy` — module `Scenarios`: the molecules the repository's tests
  build and compare, and what is proved about them.

The element lookup (`el.parse()` on the recognised token) is a parameter
`table: seq<char> -> Option<Element>`, and `Element` is an abstract type with
equality: the element table is not part of this model.

The reader's atom order differs from a plain reading of the grammar: the atom
read last gets index 0, the first atom read gets the highest index
(`ParseProperties.PathGraphShape`). Trailing text after the chain is
discarded by `molecule_from_smiles` (`complete` only turns an incomplete
parse into an error), so `"C=N-"` reads as the C=N molecule and the dangling
`-` is dropped. So atoms are numbered against writing order, and trailing
text is not rejected.

## Model

| member | source | states |
|---|---|---|
| Core.Molecule.constructor | src/core/molecule.rs:31-35 | a new molecule has no atoms and no bonds, and satisfies the no-duplicate-bond invariant |
| Core.Molecule.AddAtom | src/core/molecule.rs:37-39 | appends exactly the given atom, returns the previous atom count as its index, leaves the bonds unchanged, keeps the invariant, and `AtomAt` of the returned index is the added atom |
| Core.Molecule.ContainsEdge | src/core/molecule.rs:42 | answers true exactly when some stored bond joins the two atoms, in either orientation |
| Core.Molecule.AddBond | src/core/molecule.rs:41-48 | returns `Err` exactly when the two atoms are already bonded in either orientation, and then changes nothing; otherwise appends exactly the edge `{a, b}` with its label and leaves the atoms alone; the no-duplicate-bond invariant is preserved |
| Core.Molecule.AtomAt | src/core/molecule.rs:50-52 | returns the atom stored under a valid handle; with `AddAtom`'s contract, the handle `add_atom` returned yields the atom added |
| Core.Molecule.Equals | src/core/molecule.rs:59-68 | defined as: the atom and bond counts agree and some label- and bond-preserving bijection of atoms exists; its contract: a molecule equals itself, and equal molecules have the same atom and bond counts |
| Core.IsomorphicReflexive | src/core/molecule.rs:59-68 | every molecule graph equals itself |
| Core.WitnessInverse | src/core/molecule.rs:59-68 | the inverse of a label- and bond-preserving renaming is one in the other direction |
| Core.IsomorphicSymmetric | src/core/molecule.rs:59-68 | equality is symmetric: the inverse renaming is again label- and bond-preserving |
| Core.IsomorphicTransitive | src/core/molecule.rs:59-68 | equality is transitive: composed renamings are again label- and bond-preserving |
| Core.WitnessForcesCounts | src/core/molecule.rs:61-66 | on graphs without duplicate bonds a label- and bond-preserving renaming forces equal bond counts, so the matcher's preliminary count check never changes its verdict on molecules |
| Core.Renumber | src/lib.rs:57-64 | the same molecule with its atoms inserted in another order: atom `i` lands at position `p[i]`, the counts are kept and no duplicate bond appears |
| Core.RenamingIsomorphic | src/core/molecule.rs:59-68 | a graph holding each atom at its renamed position and each bond with renamed endpoints equals the original |
| Core.RenumberIsomorphic | src/core/molecule.rs:59-68 | a molecule equals any renumbering of its atoms: equality does not depend on the order atoms were added |
| Core.ReorderedBondsIsomorphic | src/core/molecule.rs:59-68 | the same atoms with the same bonds added in another order give an equal molecule |
| Core.FlippedBondIsomorphic | src/core/molecule.rs:59-68 | writing one bond from its other end gives an equal molecule: bonds are undirected |
| Parse.Elements | src/daylight/parse.rs:28-34 | the chain holds at least one element |
| Parse.Bonds | src/daylight/parse.rs:28-34 | a chain of n elements holds n - 1 bonds |
| Parse.ParseBond | src/daylight/parse.rs:81-89 | succeeds exactly when the input starts with one of `- = # :`, consumes that one character, and returns the bond written by that symbol |
| Parse.ParseElement | src/daylight/parse.rs:71-79 | on success consumes a non-empty prefix |
| Parse.ParseLink | src/daylight/parse.rs:29 | on success consumes a non-empty prefix |
| Parse.ChainFold | src/daylight/parse.rs:28-34 | returns a suffix of its input at which no further link matches, and only extends the accumulated chain (its elements and bonds keep their order as a prefix) |
| Parse.ParseTree | src/daylight/parse.rs:26-34 | fails exactly when the leading element fails, consumes a non-empty prefix, stops where no link matches, and the first element of the chain is the leading element |
| Parse.Collapse | src/daylight/parse.rs:37-55 | appends the atoms of the chain root first and links each new atom to the one added before it with the bond read between them; every `add_bond` succeeds, so the `expect` cannot fail |
| Parse.ParseMolecule | src/daylight/parse.rs:25-68 | fails exactly when the chain cannot start, returns the rest the chain loop left, and builds a fresh valid molecule whose graph is the path of the chain |
| Parse.MoleculeFromSmiles | src/daylight/parse.rs:18-23 | fails exactly when the leading element fails, otherwise returns a fresh valid molecule whose graph is the one the reader builds, whatever text trails the chain |
| ParseProperties.RootFirstReversed | src/daylight/parse.rs:57-66 | atoms are inserted in reverse reading order: the k-th atom of the molecule is the (n-1-k)-th element read |
| ParseProperties.LinksAlongPath | src/daylight/parse.rs:37-55 | the k-th bond added joins atoms k and k+1 and carries the bond read between the corresponding elements |
| ParseProperties.PathGraphShape | src/daylight/parse.rs:25-68 | a chain of n elements becomes n atoms in reverse reading order and n-1 bonds forming a simple path, each with the bond written between its two atoms, with no duplicate bond |
| ParseProperties.LinkElements | src/daylight/parse.rs:77 | the elements a sequence of known symbols looks up to, one per symbol |
| ParseProperties.LinkBonds | src/daylight/parse.rs:29 | the bond of each link is the symbol written before its element, or Single when none was written |
| ParseProperties.BondRoundTrip | src/daylight/parse.rs:81-89 | reading the symbol of a bond gives back that bond and the text after it |
| ParseProperties.ElementRoundTrip | src/daylight/parse.rs:71-79 | a known symbol not followed by a lowercase letter (when one letter long) reads back as its element, consuming just the symbol |
| ParseProperties.ElementNoFallback | src/daylight/parse.rs:73-77 | an uppercase letter followed by a lowercase letter whose two-letter token is unknown fails; the single uppercase letter is never tried alone |
| ParseProperties.ElementUnknownFails | src/daylight/parse.rs:71-79 | when the token `element` recognises, one or two letters long, is unknown, it fails |
| ParseProperties.ElementSuccessShape | src/daylight/parse.rs:71-79 | every success consumed exactly one known symbol (uppercase letter, optional lowercase letter), returned that symbol's element, and left no lowercase letter that could have extended a one-letter symbol |
| ParseProperties.ElementNeedsUppercase | src/daylight/parse.rs:74 | an element must start with an ASCII uppercase letter |
| ParseProperties.LinkRoundTrip | src/daylight/parse.rs:29 | a link written with or without its bond symbol reads back as its bond (Single by default) and its element |
| ParseProperties.ChainFoldStep | src/daylight/parse.rs:28-34 | one link read by the loop pushes one branch onto the chain |
| ParseProperties.ChainFoldRoundTrip | src/daylight/parse.rs:28-34 | a chain of links followed by text no link matches is read completely, its elements and bonds appended in writing order, and the loop stops exactly at that text |
| ParseProperties.ParseTreeRoundTrip | src/daylight/parse.rs:26-34 | a leading element and links followed by text that ends the chain read back as exactly those elements and bonds, leaving that text |
| ParseProperties.ReadElements | src/daylight/parse.rs:26-34 | the elements of a written chain, one more than its links |
| ParseProperties.SmilesChainIsPath | src/daylight/parse.rs:18-68 | a written chain of n elements becomes the path whose atom k is the (n-1-k)-th element written and whose bond k joins atoms k and k+1 with the bond written before element n-1-k |
| ParseProperties.TwoAtomChain | src/daylight/parse.rs:18-68 | two written elements become the second element at index 0, the first at index 1, joined by the written bond |
| ParseProperties.ThreeAtomChain | src/daylight/parse.rs:18-68 | three written elements become a reversed three-atom path with the written bonds |
| ParseProperties.DanglingBondEndsChain | src/daylight/parse.rs:28-34 | a lone trailing bond symbol matches no link, so the chain loop stops before it |
| Scenarios.Methylamine | src/lib.rs:21-28 | the test molecule: carbon at index 0, nitrogen at index 1, one single bond between them |
| Scenarios.MoleculesHaveUniqueBonds | src/lib.rs:47-52 | adding the carbon-nitrogen bond of methylamine a second time is refused |
| Scenarios.BuildMolB | src/lib.rs:57-64 | built through `AddAtom` and `AddBond`: nitrogen at 0, carbon at 1, the bond written from carbon to nitrogen |
| Scenarios.BuildMolC | src/lib.rs:65-74 | built through the methods: the chain C-C-N with the nitrogen at 0 |
| Scenarios.BuildMolD | src/lib.rs:75-84 | built through the methods: C-N-C with the nitrogen at 0 |
| Scenarios.BuildMolE | src/lib.rs:85-94 | built through the methods: C-C-N with the carbons and bonds added in the other order |
| Scenarios.MoleculesCanBeCompared | src/lib.rs:55-100 | the five molecules built through the methods compare as the test asserts: mola equals molb, mola differs from molc, molc differs from mold, molc equals mole |
| Scenarios.MethylamineInsertionOrder | src/lib.rs:96 | methylamine equals itself built nitrogen first |
| Scenarios.MethylamineIsNotMolC | src/lib.rs:97 | methylamine differs from a three-atom molecule |
| Scenarios.ChainInsertionOrder | src/lib.rs:99 | C-C-N equals itself with the carbons and the bonds added in the other order |
| Scenarios.NitrogenNeighbourInChain | src/lib.rs:65-74 | in C-C-N the nitrogen is single-bonded to atom 1 and bonded to no other atom |
| Scenarios.NoChainToStarWitness | src/lib.rs:98 | no renaming maps C-C-N onto C-N-C |
| Scenarios.ConnectivityMatters | src/lib.rs:98 | C-C-N and C-N-C, with the same atoms, are not equal |
| Scenarios.ParsedMethylamine | src/lib.rs:104-109 | `"CN"` reads as nitrogen at index 0, carbon at index 1 and a single bond |
| Scenarios.ParseMethylamine | src/lib.rs:104-109 | `"CN"` equals methylamine built by hand |
| Scenarios.ParseEthylamine | src/daylight/parse.rs:25-68 | `"CCN"` reads as the path N-C-C with two single bonds |
| Scenarios.DanglingText | src/daylight/parse.rs:28-34 | `"C=N-"` is a leading element, one double-bond link and a dangling bond symbol |
| Scenarios.DanglingBondLeftOver | src/daylight/parse.rs:28-34 | in `"C=N-"` the chain loop leaves the trailing `-` unconsumed |
| Scenarios.DanglingBondDiscarded | src/daylight/parse.rs:18-23 | `"C=N-"` builds the nitrogen-carbon double bond and the trailing `-` is dropped without error |

## Left out

- Element table and atomic numbers: the `Element` enum and its `FromStr` live in a module that is not part of this model; `Element` is an abstract type and the lookup a parameter.
- petgraph's VF2 matcher behind `is_isomorphic_matching` is not reimplemented: `Molecule.Equals` is the ghost predicate "some bijection of atom indices preserves atom labels and maps bonds to bonds with equal labels", together with petgraph's check of equal atom and bond counts.
- Core.Molecule.AddBond: requires both indices to be in range, where petgraph's `add_edge` panics; the panic itself is not modelled.
- Node indices are unbounded `nat`; petgraph's `u32` index width and its overflow panic are not modelled.
- nom's error kinds and positions are collapsed to `None`, as `molecule_from_smiles` collapses them to `Err(())`.
- Parse.ParseElement: its own contract states only progress; what it reads is stated by `ElementRoundTrip` and `ElementSuccessShape` (both directions of a success) and by `ElementUnknownFails`, `ElementNoFallback` and `ElementNeedsUppercase` (the failures).
- Parse.ParseLink: its own contract states only progress; what it reads is stated by `LinkRoundTrip`.
- ParseProperties.ChainFoldRoundTrip: assumes (through `EndsChain`) that the text after the chain matches no link and does not start with a lowercase letter, a little stronger than the loop needs, so that a one-letter symbol is never extended by the following text; ParseProperties.ParseTreeRoundTrip, ParseProperties.SmilesChainIsPath, ParseProperties.TwoAtomChain and ParseProperties.ThreeAtomChain inherit the same assumption.
- Bracket atoms, aromatic lowercase atoms, branches and ring closures are not modelled: the parser in `src/daylight/parse.rs` does not implement them.
- Recursion depth and allocation of the boxed `BondNode` chain are not modelled.
