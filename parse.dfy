/** The straight-chain SMILES reader of src/daylight/parse.rs: element tokens
    joined by the bond symbols `-`, `=`, `#` and `:` of the OpenSMILES
    specification (section 3.2, Bonds). The chain is first accumulated into a
    `BondNode` list whose root is the atom read last, then collapsed into a
    path-shaped molecule. */
module Parse {
  import opened Wrappers
  import opened Core

  /** The element table: maps a one- or two-letter symbol to its element, or
      rejects it. Its contents are not part of this model. */
  type ElementTable = seq<char> -> Option<Element>

  /** The chain as accumulated by the fold: `Leaf` is the first atom read, and
      `Branch(bond, element, next)` an atom read after the chain `next`, joined
      to the last atom of `next` by `bond`. */
  datatype BondNode = Leaf(element: Element) | Branch(bond: Bond, element: Element, next: BondNode)

  predicate IsAsciiUpper(c: char) { 'A' <= c <= 'Z' }

  predicate IsAsciiLower(c: char) { 'a' <= c <= 'z' }

  /** `rest` is what remains of `input` after a non-empty prefix was consumed. */
  predicate IsProperSuffix(rest: seq<char>, input: seq<char>) {
    |rest| < |input| && input[|input| - |rest|..] == rest
  }

  /** `rest` is what remains of `input` after a possibly empty prefix was consumed. */
  predicate IsSuffix(rest: seq<char>, input: seq<char>) {
    |rest| <= |input| && input[|input| - |rest|..] == rest
  }

  // ---------------------------------------------------------------------------
  // Reading order of a `BondNode` chain

  /** The elements of the chain in the order they were read. */
  function Elements(t: BondNode): (r: seq<Element>)
    ensures |r| >= 1
  {
    match t
    case Leaf(e) => [e]
    case Branch(_, e, next) => Elements(next) + [e]
  }

  /** The bonds of the chain in reading order: `Bonds(t)[j]` joins the
      elements `Elements(t)[j]` and `Elements(t)[j + 1]`. */
  function Bonds(t: BondNode): (r: seq<Bond>)
    ensures |r| + 1 == |Elements(t)|
  {
    match t
    case Leaf(_) => []
    case Branch(b, _, next) => Bonds(next) + [b]
  }

  // ---------------------------------------------------------------------------
  // Parse rules: each consumes a prefix and returns the rest, or fails

  /** The symbol the OpenSMILES specification writes for a bond. */
  function BondSymbol(b: Bond): char {
    match b
    case Single => '-'
    case Double => '='
    case Triple => '#'
    case Aromatic => ':'
  }

  /** `bond`: one of the four bond symbols. */
  function ParseBond(input: seq<char>): (r: Option<(seq<char>, Bond)>)
    ensures r.Some? <==> |input| > 0 && input[0] in {'-', '=', '#', ':'}
    ensures r.Some? ==> r.value.0 == input[1..] && BondSymbol(r.value.1) == input[0]
  {
    if |input| == 0 then None
    else if input[0] == '-' then Some((input[1..], Single))
    else if input[0] == '=' then Some((input[1..], Double))
    else if input[0] == '#' then Some((input[1..], Triple))
    else if input[0] == ':' then Some((input[1..], Aromatic))
    else None
  }

  /** Length of the token `element` recognises at the head of `input`: an
      uppercase letter and, if one follows, a single lowercase letter. */
  function SymbolLength(input: seq<char>): nat
    requires |input| > 0
  {
    if |input| >= 2 && IsAsciiLower(input[1]) then 2 else 1
  }

  /** `element`: recognises the token, then looks it up; an unknown token
      fails as a whole. */
  function ParseElement(table: ElementTable, input: seq<char>): (r: Option<(seq<char>, Element)>)
    ensures r.Some? ==> IsProperSuffix(r.value.0, input)
  {
    if |input| == 0 || !IsAsciiUpper(input[0]) then None
    else
      var n := SymbolLength(input);
      match table(input[..n])
      case None => None
      case Some(e) => Some((input[n..], e))
  }

  /** One step of the chain loop: `bond` then `element`, or else `element`
      alone with an implied single bond. */
  function ParseLink(table: ElementTable, input: seq<char>): (r: Option<(seq<char>, (Bond, Element))>)
    ensures r.Some? ==> IsProperSuffix(r.value.0, input)
  {
    var explicit :=
      match ParseBond(input)
      case None => None
      case Some((afterBond, b)) =>
        match ParseElement(table, afterBond)
        case None => None
        case Some((rest, e)) => Some((rest, (b, e)));
    if explicit.Some? then explicit
    else
      match ParseElement(table, input)
      case None => None
      case Some((rest, e)) => Some((rest, (Single, e)))
  }

  /** `fold_many0`: repeats `ParseLink`, pushing each new atom on top of the
      chain, until it no longer matches; that position is returned unconsumed. */
  function ChainFold(table: ElementTable, input: seq<char>, acc: BondNode): (r: (seq<char>, BondNode))
    ensures IsSuffix(r.0, input)
    ensures ParseLink(table, r.0).None?
    ensures |Elements(acc)| <= |Elements(r.1)|
    ensures Elements(r.1)[..|Elements(acc)|] == Elements(acc)
    ensures Bonds(r.1)[..|Bonds(acc)|] == Bonds(acc)
    decreases |input|
  {
    match ParseLink(table, input)
    case None => (input, acc)
    case Some((rest, (b, e))) =>
      var r := ChainFold(table, rest, Branch(b, e, acc));
      SuffixTransitive(r.0, rest, input);
      PrefixOfPrefix(Elements(r.1), Elements(acc) + [e], Elements(acc));
      PrefixOfPrefix(Bonds(r.1), Bonds(acc) + [b], Bonds(acc));
      r
  }

  lemma SuffixTransitive(r: seq<char>, s: seq<char>, t: seq<char>)
    requires IsSuffix(r, s) && IsProperSuffix(s, t)
    ensures IsSuffix(r, t)
  {
    assert t[|t| - |r|..] == t[|t| - |s|..][|s| - |r|..];
  }

  lemma PrefixOfPrefix<T>(s: seq<T>, u: seq<T>, v: seq<T>)
    requires |u| <= |s| && s[..|u|] == u
    requires |v| <= |u| && u[..|v|] == v
    ensures s[..|v|] == v
  {
    assert s[..|v|] == s[..|u|][..|v|];
  }

  /** The combinator part of `molecule`: a leading element, then the chain loop. */
  function ParseTree(table: ElementTable, input: seq<char>): (r: Option<(seq<char>, BondNode)>)
    ensures r.None? <==> ParseElement(table, input).None?
    ensures r.Some? ==> IsProperSuffix(r.value.0, input)
    ensures r.Some? ==> ParseLink(table, r.value.0).None?
    ensures r.Some? ==> Elements(r.value.1)[0] == ParseElement(table, input).value.1
  {
    match ParseElement(table, input)
    case None => None
    case Some((rest, init)) => Some(ChainFold(table, rest, Leaf(init)))
  }

  // ---------------------------------------------------------------------------
  // Building the molecule

  /** The atoms `collapse` adds, in the order it adds them: root first. */
  function RootFirst(t: BondNode): seq<Atom> {
    match t
    case Leaf(e) => [Atom(e)]
    case Branch(_, e, next) => [Atom(e)] + RootFirst(next)
  }

  /** The bonds `collapse` adds below the atom with index `base`: each joins one
      atom to the atom added right after it. */
  function Links(base: AtomIndex, t: BondNode): seq<Edge>
    decreases t
  {
    match t
    case Leaf(_) => []
    case Branch(b, _, next) => [Edge(base, base + 1, b)] + Links(base + 1, next)
  }

  /** The molecule built from a chain. */
  function PathGraph(t: BondNode): Graph {
    Graph(RootFirst(t), Links(0, t))
  }

  /** `collapse`: adds the atoms of `node` root first, bonding the first of
      them to `last` with `lastBond` and each later one to its predecessor.
      Every `add_bond` joins an existing atom to one just added, so none is
      refused and `expect("Couldn't add bond")` never fires. */
  method Collapse(molecule: Molecule, last: AtomIndex, lastBond: Bond, node: BondNode)
    requires molecule.Valid()
    requires last < |molecule.graph.atoms|
    modifies molecule
    ensures molecule.Valid()
    ensures molecule.graph.atoms == old(molecule.graph.atoms) + RootFirst(node)
    ensures molecule.graph.bonds ==
      old(molecule.graph.bonds) + [Edge(last, |old(molecule.graph.atoms)|, lastBond)]
      + Links(|old(molecule.graph.atoms)|, node)
    decreases node
  {
    match node
    case Branch(bond, element, next) =>
      var index := molecule.AddAtom(Atom(element));
      var added := molecule.AddBond(last, index, lastBond);
      assert added.Ok?;
      Collapse(molecule, index, bond, next);
    case Leaf(element) =>
      var index := molecule.AddAtom(Atom(element));
      var added := molecule.AddBond(last, index, lastBond);
      assert added.Ok?;
  }

  /** `molecule`: parses a chain and builds its molecule, returning the
      unconsumed rest of the input. */
  method ParseMolecule(table: ElementTable, input: seq<char>) returns (r: Option<(seq<char>, Molecule)>)
    ensures r.None? <==> ParseTree(table, input).None?
    ensures r.Some? ==> r.value.0 == ParseTree(table, input).value.0
    ensures r.Some? ==> fresh(r.value.1) && r.value.1.Valid()
    ensures r.Some? ==> r.value.1.graph == PathGraph(ParseTree(table, input).value.1)
  {
    match ParseTree(table, input)
    case None =>
      r := None;
    case Some((rest, tree)) =>
      var molecule := new Molecule();
      match tree {
        case Branch(bond, element, next) =>
          var index := molecule.AddAtom(Atom(element));
          Collapse(molecule, index, bond, next);
        case Leaf(element) =>
          var _ := molecule.AddAtom(Atom(element));
      }
      r := Some((rest, molecule));
  }

  /** The molecule `molecule_from_smiles` builds, as a value. */
  ghost function SmilesGraph(table: ElementTable, smiles: seq<char>): Option<Graph> {
    match ParseTree(table, smiles)
    case None => None
    case Some((_, tree)) => Some(PathGraph(tree))
  }

  /** `molecule_from_smiles`: fails exactly when the leading element does;
      unconsumed trailing text is discarded. */
  method MoleculeFromSmiles(table: ElementTable, smiles: seq<char>) returns (r: Option<Molecule>)
    ensures r.None? <==> ParseElement(table, smiles).None?
    ensures r.Some? ==> fresh(r.value) && r.value.Valid()
    ensures r.Some? ==> SmilesGraph(table, smiles) == Some(r.value.graph)
  {
    var parsed := ParseMolecule(table, smiles);
    match parsed
    case None => r := None;
    case Some((_, molecule)) => r := Some(molecule);
  }
}

// Properties of the reader, stated against chain text written out link by link.
module ParseProperties {
  import opened Wrappers
  import opened Core
  import opened Parse

  // ---------------------------------------------------------------------------
  // The molecule built from a chain is a simple path in reverse reading order

  lemma {:induction false} RootFirstReversed(t: BondNode)
    ensures |RootFirst(t)| == |Elements(t)|
    ensures forall k :: 0 <= k < |Elements(t)| ==>
      RootFirst(t)[k] == Atom(Elements(t)[|Elements(t)| - 1 - k])
  {
    match t
    case Leaf(_) =>
    case Branch(_, e, next) =>
      RootFirstReversed(next);
  }

  lemma {:induction false} LinksAlongPath(base: AtomIndex, t: BondNode)
    ensures |Links(base, t)| == |Bonds(t)|
    ensures forall k :: 0 <= k < |Bonds(t)| ==>
      Links(base, t)[k] == Edge(base + k, base + k + 1, Bonds(t)[|Bonds(t)| - 1 - k])
    decreases t
  {
    match t
    case Leaf(_) =>
    case Branch(_, _, next) =>
      LinksAlongPath(base + 1, next);
  }

  /** For a chain reading elements e0..e(n-1), the molecule has n atoms and
      n-1 bonds; e(n-1) gets index 0 and e0 index n-1; bond k joins atoms k
      and k+1 and carries the bond read between them; no pair is bonded twice. */
  lemma PathGraphShape(t: BondNode)
    ensures var g, n := PathGraph(t), |Elements(t)|;
      && |g.atoms| == n
      && |g.bonds| == n - 1
      && (forall k :: 0 <= k < n ==> g.atoms[k] == Atom(Elements(t)[n - 1 - k]))
      && (forall k :: 0 <= k < n - 1 ==> g.bonds[k] == Edge(k, k + 1, Bonds(t)[n - 2 - k]))
      && ValidGraph(g)
  {
    RootFirstReversed(t);
    LinksAlongPath(0, t);
  }

  // ---------------------------------------------------------------------------
  // Chain text

  /** One link of chain text: an optional bond symbol, then an element symbol. */
  datatype Link = Link(bond: Option<Bond>, symbol: seq<char>)

  /** A symbol of the shape `element` recognises that the table knows. */
  predicate KnownSymbol(table: ElementTable, symbol: seq<char>) {
    && (|symbol| == 1 || |symbol| == 2)
    && IsAsciiUpper(symbol[0])
    && (|symbol| == 2 ==> IsAsciiLower(symbol[1]))
    && table(symbol).Some?
  }

  predicate AllKnown(table: ElementTable, links: seq<Link>) {
    forall i :: 0 <= i < |links| ==> KnownSymbol(table, links[i].symbol)
  }

  function LinkText(l: Link): seq<char> {
    (if l.bond.Some? then [BondSymbol(l.bond.value)] else []) + l.symbol
  }

  function ChainText(links: seq<Link>): seq<char> {
    if links == [] then [] else LinkText(links[0]) + ChainText(links[1..])
  }

  /** The elements the links name, in reading order. */
  function LinkElements(table: ElementTable, links: seq<Link>): (r: seq<Element>)
    requires AllKnown(table, links)
    ensures |r| == |links|
    ensures forall i :: 0 <= i < |links| ==> Some(r[i]) == table(links[i].symbol)
  {
    if links == [] then [] else [table(links[0].symbol).value] + LinkElements(table, links[1..])
  }

  /** The bonds the links write, with Single where no symbol is written. */
  function LinkBonds(links: seq<Link>): (r: seq<Bond>)
    ensures |r| == |links|
    ensures forall i :: 0 <= i < |links| ==> r[i] == links[i].bond.GetOr(Single)
  {
    if links == [] then [] else [links[0].bond.GetOr(Single)] + LinkBonds(links[1..])
  }

  /** Text at which the chain loop stops, and which cannot extend a one-letter
      symbol written just before it. */
  predicate EndsChain(table: ElementTable, rest: seq<char>) {
    ParseLink(table, rest).None? && (|rest| > 0 ==> !IsAsciiLower(rest[0]))
  }

  /** `bond` reads back the symbol of every bond. */
  lemma BondRoundTrip(b: Bond, rest: seq<char>)
    ensures ParseBond([BondSymbol(b)] + rest) == Some((rest, b))
  {
    assert ([BondSymbol(b)] + rest)[1..] == rest;
  }

  /** `element` reads a known symbol in full. */
  lemma ElementRoundTrip(table: ElementTable, symbol: seq<char>, rest: seq<char>)
    requires KnownSymbol(table, symbol)
    requires |symbol| == 1 && |rest| > 0 ==> !IsAsciiLower(rest[0])
    ensures ParseElement(table, symbol + rest) == Some((rest, table(symbol).value))
  {
    var input := symbol + rest;
    assert SymbolLength(input) == |symbol|;
    assert input[..|symbol|] == symbol;
    assert input[|symbol|..] == rest;
  }

  /** `element` does not retry with the uppercase letter alone when the
      two-letter token is unknown, even if the one-letter symbol is known. */
  lemma ElementNoFallback(table: ElementTable, input: seq<char>)
    requires |input| >= 2 && IsAsciiUpper(input[0]) && IsAsciiLower(input[1])
    requires table(input[..2]).None?
    ensures ParseElement(table, input).None?
  {
  }

  /** `element` fails whenever the token it recognises (longest match) is
      unknown, whether one or two letters long. */
  lemma ElementUnknownFails(table: ElementTable, input: seq<char>)
    requires |input| > 0 && IsAsciiUpper(input[0])
    requires table(input[..SymbolLength(input)]).None?
    ensures ParseElement(table, input).None?
  {
  }

  /** Conversely, every success of `element` consumed exactly one known
      symbol, an uppercase letter with at most one lowercase letter after it,
      and could not have taken one more letter. */
  lemma ElementSuccessShape(table: ElementTable, input: seq<char>)
    requires ParseElement(table, input).Some?
    ensures var (rest, e) := ParseElement(table, input).value;
      var symbol := input[..|input| - |rest|];
      && input == symbol + rest
      && KnownSymbol(table, symbol)
      && table(symbol) == Some(e)
      && (|symbol| == 1 && |rest| > 0 ==> !IsAsciiLower(rest[0]))
  {
    var n := SymbolLength(input);
    assert input == input[..n] + input[n..];
  }

  /** `element` fails on input that does not start with an uppercase letter. */
  lemma ElementNeedsUppercase(table: ElementTable, input: seq<char>)
    requires |input| == 0 || !IsAsciiUpper(input[0])
    ensures ParseElement(table, input).None?
  {
  }

  lemma LinkRoundTrip(table: ElementTable, l: Link, rest: seq<char>)
    requires KnownSymbol(table, l.symbol)
    requires |l.symbol| == 1 && |rest| > 0 ==> !IsAsciiLower(rest[0])
    ensures ParseLink(table, LinkText(l) + rest) ==
      Some((rest, (l.bond.GetOr(Single), table(l.symbol).value)))
  {
    ElementRoundTrip(table, l.symbol, rest);
    match l.bond
    case Some(b) =>
      assert LinkText(l) + rest == [BondSymbol(b)] + (l.symbol + rest);
      BondRoundTrip(b, l.symbol + rest);
    case None =>
      assert LinkText(l) + rest == l.symbol + rest;
  }

  lemma ConcatAssociative<T>(x: seq<T>, y: seq<T>, z: seq<T>)
    ensures (x + y) + z == x + (y + z)
  {
  }

  lemma AllKnownTail(table: ElementTable, links: seq<Link>)
    requires links != [] && AllKnown(table, links)
    ensures AllKnown(table, links[1..])
  {
    forall i | 0 <= i < |links| - 1
      ensures KnownSymbol(table, links[1..][i].symbol)
    {
      assert links[1..][i] == links[i + 1];
    }
  }

  lemma ChainTextStart(table: ElementTable, links: seq<Link>)
    requires links != [] && AllKnown(table, links)
    ensures |ChainText(links)| > 0 && !IsAsciiLower(ChainText(links)[0])
  {
    assert KnownSymbol(table, links[0].symbol);
  }

  lemma ChainFoldStep(table: ElementTable, l: Link, tail: seq<char>, acc: BondNode)
    requires KnownSymbol(table, l.symbol)
    requires |l.symbol| == 1 && |tail| > 0 ==> !IsAsciiLower(tail[0])
    ensures ChainFold(table, LinkText(l) + tail, acc) ==
      ChainFold(table, tail, Branch(l.bond.GetOr(Single), table(l.symbol).value, acc))
  {
    LinkRoundTrip(table, l, tail);
  }

  /** The chain loop reads written-out links back, one atom per link, and
      stops where the links end. */
  lemma {:induction false} ChainFoldRoundTrip(table: ElementTable, links: seq<Link>, rest: seq<char>, acc: BondNode)
    requires AllKnown(table, links)
    requires EndsChain(table, rest)
    ensures ChainFold(table, ChainText(links) + rest, acc).0 == rest
    ensures Elements(ChainFold(table, ChainText(links) + rest, acc).1) ==
      Elements(acc) + LinkElements(table, links)
    ensures Bonds(ChainFold(table, ChainText(links) + rest, acc).1) ==
      Bonds(acc) + LinkBonds(links)
    decreases |links|
  {
    if links == [] {
      assert ChainText(links) + rest == rest;
    } else {
      var tail := ChainText(links[1..]) + rest;
      var b, e := links[0].bond.GetOr(Single), table(links[0].symbol).value;
      assert ChainFold(table, ChainText(links) + rest, acc) == ChainFold(table, tail, Branch(b, e, acc)) by {
        assert ChainText(links) + rest == LinkText(links[0]) + tail;
        if links[1..] != [] {
          AllKnownTail(table, links);
          ChainTextStart(table, links[1..]);
          assert tail[0] == ChainText(links[1..])[0];
        } else {
          assert tail == rest;
        }
        assert KnownSymbol(table, links[0].symbol);
        ChainFoldStep(table, links[0], tail, acc);
      }
      AllKnownTail(table, links);
      ChainFoldRoundTrip(table, links[1..], rest, Branch(b, e, acc));
      var t := ChainFold(table, tail, Branch(b, e, acc)).1;
      assert Elements(t) == (Elements(acc) + [e]) + LinkElements(table, links[1..]);
      assert LinkElements(table, links) == [e] + LinkElements(table, links[1..]);
      ConcatAssociative(Elements(acc), [e], LinkElements(table, links[1..]));
      assert Bonds(t) == (Bonds(acc) + [b]) + LinkBonds(links[1..]);
      assert LinkBonds(links) == [b] + LinkBonds(links[1..]);
      ConcatAssociative(Bonds(acc), [b], LinkBonds(links[1..]));
    }
  }

  /** A chain written as `first` followed by `links` parses to the chain that
      reads those elements and bonds, and leaves `rest` unconsumed. */
  lemma ParseTreeRoundTrip(table: ElementTable, first: seq<char>, links: seq<Link>, rest: seq<char>)
    requires KnownSymbol(table, first) && AllKnown(table, links)
    requires EndsChain(table, rest)
    ensures ParseTree(table, first + ChainText(links) + rest).Some?
    ensures var (r, t) := ParseTree(table, first + ChainText(links) + rest).value;
      && r == rest
      && Elements(t) == [table(first).value] + LinkElements(table, links)
      && Bonds(t) == LinkBonds(links)
  {
    var tail := ChainText(links) + rest;
    assert first + ChainText(links) + rest == first + tail;
    if links != [] {
      ChainTextStart(table, links);
      assert tail[0] == ChainText(links)[0];
    }
    ElementRoundTrip(table, first, tail);
    ChainFoldRoundTrip(table, links, rest, Leaf(table(first).value));
  }

  /** The elements a written-out chain names, in reading order. */
  function ReadElements(table: ElementTable, first: seq<char>, links: seq<Link>): (r: seq<Element>)
    requires KnownSymbol(table, first) && AllKnown(table, links)
    ensures |r| == |links| + 1
  {
    [table(first).value] + LinkElements(table, links)
  }

  /** `molecule_from_smiles` on a written-out chain reading elements
      e0..e(n-1): n atoms in reverse reading order, and n-1 bonds forming a
      path, where the bond between e(j) and e(j+1) carries the symbol written
      before e(j+1), or Single where none is written. */
  lemma SmilesChainIsPath(table: ElementTable, first: seq<char>, links: seq<Link>, rest: seq<char>)
    requires KnownSymbol(table, first) && AllKnown(table, links)
    requires EndsChain(table, rest)
    ensures SmilesGraph(table, first + ChainText(links) + rest).Some?
    ensures var g, n := SmilesGraph(table, first + ChainText(links) + rest).value, |links| + 1;
      && |g.atoms| == n
      && |g.bonds| == n - 1
      && ValidGraph(g)
      && (forall k :: 0 <= k < n ==> g.atoms[k] == Atom(ReadElements(table, first, links)[n - 1 - k]))
      && (forall k :: 0 <= k < n - 1 ==> g.bonds[k] == Edge(k, k + 1, LinkBonds(links)[n - 2 - k]))
  {
    ParseTreeRoundTrip(table, first, links, rest);
    var t := ParseTree(table, first + ChainText(links) + rest).value.1;
    assert Elements(t) == ReadElements(table, first, links);
    assert Bonds(t) == LinkBonds(links);
    PathGraphShape(t);
  }

  /** The two-atom case: `first`, then one link, read as one bond between the
      atom read second (index 0) and the atom read first (index 1). */
  lemma TwoAtomChain(table: ElementTable, first: seq<char>, l: Link, rest: seq<char>)
    requires KnownSymbol(table, first) && KnownSymbol(table, l.symbol)
    requires EndsChain(table, rest)
    ensures SmilesGraph(table, first + LinkText(l) + rest) ==
      Some(Graph([Atom(table(l.symbol).value), Atom(table(first).value)], [Edge(0, 1, l.bond.GetOr(Single))]))
  {
    var links := [l];
    assert ChainText(links) == LinkText(l);
    assert AllKnown(table, links);
    SmilesChainIsPath(table, first, links, rest);
    var es := ReadElements(table, first, links);
    assert es == [table(first).value, table(l.symbol).value];
    var g := SmilesGraph(table, first + LinkText(l) + rest).value;
    assert g.atoms[0] == Atom(es[1]) && g.atoms[1] == Atom(es[0]);
    assert g.atoms == [Atom(table(l.symbol).value), Atom(table(first).value)];
    assert g.bonds == [Edge(0, 1, LinkBonds(links)[0])];
  }

  lemma TwoLinkText(table: ElementTable, first: seq<char>, l1: Link, l2: Link, rest: seq<char>)
    requires KnownSymbol(table, l1.symbol) && KnownSymbol(table, l2.symbol)
    ensures first + ChainText([l1, l2]) + rest == first + LinkText(l1) + LinkText(l2) + rest
    ensures AllKnown(table, [l1, l2])
  {
    assert ChainText([l1, l2][1..]) == LinkText(l2);
  }

  /** The three-atom case: `first`, then two links. */
  lemma ThreeAtomChain(table: ElementTable, first: seq<char>, l1: Link, l2: Link, rest: seq<char>)
    requires KnownSymbol(table, first) && KnownSymbol(table, l1.symbol) && KnownSymbol(table, l2.symbol)
    requires EndsChain(table, rest)
    ensures SmilesGraph(table, first + LinkText(l1) + LinkText(l2) + rest) ==
      Some(Graph(
        [Atom(table(l2.symbol).value), Atom(table(l1.symbol).value), Atom(table(first).value)],
        [Edge(0, 1, l2.bond.GetOr(Single)), Edge(1, 2, l1.bond.GetOr(Single))]))
  {
    var links := [l1, l2];
    TwoLinkText(table, first, l1, l2, rest);
    SmilesChainIsPath(table, first, links, rest);
    var es := ReadElements(table, first, links);
    var g := SmilesGraph(table, first + ChainText(links) + rest).value;
    assert g.atoms == [Atom(table(l2.symbol).value), Atom(table(l1.symbol).value), Atom(table(first).value)] by {
      assert es == [table(first).value, table(l1.symbol).value, table(l2.symbol).value];
      assert g.atoms[0] == Atom(es[2]) && g.atoms[1] == Atom(es[1]) && g.atoms[2] == Atom(es[0]);
    }
    assert g.bonds == [Edge(0, 1, LinkBonds(links)[1]), Edge(1, 2, LinkBonds(links)[0])];
  }

  /** A dangling bond symbol ends the chain and stays in the unconsumed rest. */
  lemma DanglingBondEndsChain(table: ElementTable, b: Bond)
    ensures EndsChain(table, [BondSymbol(b)])
  {
    assert ParseBond([BondSymbol(b)]) == Some(([], b));
  }
}
