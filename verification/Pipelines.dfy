/** What a pipeline says: which variables each of its functions declares and refers to, and which edges
    its graph must therefore have. */
module Pipelines {
  import opened Graphs
  import opened References
  import opened Wrappers

  type Name = string

  /** The range and the condition of a function, which can nest. */
  datatype Block = Block(range: Option<Nested>, condition: Option<Nested>)

  datatype Nested = Nested(text: string, inner: Block)

  datatype Input = Input(
    hasResource: bool,
    key: string,
    value: string,
    expression: string,
    generic: map<string, string>,
    labels: Option<map<string, string>>)

  /** outputs is None where the configuration has no output section. */
  datatype Function = Function(
    vars: map<Name, string>,
    block: Block,
    input: Option<Input>,
    outputs: Option<set<Name>>,
    dependsOn: seq<Vertex>)

  datatype Pipeline = Pipeline(vars: map<Vertex, Function>, tasks: map<Vertex, Function>)

  type Functions = map<Vertex, Function>

  /** What the variable table knows of a variable: vertexName is never filled in, outputVertex is the
      vertex that declares it. */
  datatype VarInfo = VarInfo(vertexName: string, outputVertex: Vertex, blockIndex: nat, blockVertexName: string)

  type Table = map<Name, VarInfo>

  function Info(v: Vertex): VarInfo {
    VarInfo("", v, 0, "")
  }

  // ----- declarations -----

  /** A function without an output section declares its own name. */
  function Declared(v: Vertex, f: Function): set<Name> {
    match f.outputs
    case Some(names) => names
    case None => {v}
  }

  ghost predicate Declares(fns: Functions, v: Vertex, x: Name) {
    v in fns && x in Declared(v, fns[v])
  }

  /** The names are new, and no two functions declare the same. */
  ghost predicate Fresh(known: set<Name>, vertices: set<Vertex>, fns: Functions) {
    && fns.Keys !! vertices
    && (forall v, x :: Declares(fns, v, x) ==> x !in known)
    && (forall u, v, x :: Declares(fns, u, x) && Declares(fns, v, x) ==> u == v)
  }

  /** g adds to g0 exactly what fns declare. */
  ghost predicate Tabulates(g0: Table, g: Table, fns: Functions) {
    && (forall x :: x in g0 ==> x in g && g[x] == g0[x])
    && (forall v, x :: Declares(fns, v, x) ==> x in g && g[x] == Info(v))
    && (forall x :: x in g && x !in g0 ==> Declares(fns, g[x].outputVertex, x))
  }

  // ----- references -----

  /** A name that the compiler looks up: neither a range variable nor one of jq. */
  predicate Regular(x: Name) {
    KindOf(x).RegularReferenceKind? && x != "" && x[0] != '_'
  }

  /** The names in texts that the compiler treats as variables. */
  ghost function NamesIn(texts: set<string>): set<Name> {
    set t, x | t in texts && x in Refs(t) && Regular(x) :: x
  }

  /** No `$` without a name: on an empty name the code indexes out of range. */
  predicate Named(t: string) {
    "" !in Refs(t)
  }

  function BlockTexts(b: Block): set<string> {
    NestedTexts(b.range) + NestedTexts(b.condition)
  }

  function NestedTexts(n: Option<Nested>): set<string> {
    match n
    case None => {}
    case Some(m) => {m.text} + BlockTexts(m.inner)
  }

  function Nonempty(t: string): set<string> {
    if t == "" then {} else {t}
  }

  function LabelTexts(labels: Option<map<string, string>>): set<string> {
    match labels
    case None => {}
    case Some(m) => m.Keys + m.Values
  }

  function InputTexts(i: Input): set<string> {
    Nonempty(i.key) + Nonempty(i.value) + Nonempty(i.expression) + i.generic.Values + LabelTexts(i.labels)
  }

  function Texts(f: Function): set<string> {
    f.vars.Values + BlockTexts(f.block) + match f.input { case None => {} case Some(i) => InputTexts(i) }
  }

  /** The names that f looks up in the variable table; its own variables come first. */
  ghost function Wanted(f: Function): set<Name> {
    NamesIn(Texts(f)) - f.vars.Keys
  }

  predicate TextsNamed(f: Function) {
    forall t :: t in Texts(f) ==> Named(t)
  }

  predicate AllNamed(fns: Functions) {
    forall v :: v in fns ==> TextsNamed(fns[v])
  }

  // ----- edges -----

  /** From the vertices that declare names to v. */
  ghost function RefEdges(g: Table, names: set<Name>, v: Vertex): Edges {
    set x | x in names && x in g :: Edge(g[x].outputVertex, v)
  }

  ghost function RootEdges(root: Vertex, v: Vertex, f: Function): Edges {
    if f.input.Some? && f.input.value.hasResource then {Edge(root, v)} else {}
  }

  ghost function AfterEdges(v: Vertex, deps: seq<Vertex>): Edges {
    set u | u in deps :: Edge(u, v)
  }

  ghost function EdgesOf(root: Vertex, g: Table, v: Vertex, f: Function): Edges {
    RefEdges(g, Wanted(f), v) + RootEdges(root, v, f) + AfterEdges(v, f.dependsOn)
  }

  ghost function AllEdges(root: Vertex, g: Table, fns: Functions): Edges {
    set v, e | v in fns && e in EdgesOf(root, g, v, fns[v]) :: e
  }

  /** Every name that a function looks up is declared. */
  ghost predicate AllResolve(g: Table, fns: Functions) {
    forall v :: v in fns ==> Wanted(fns[v]) <= g.Keys
  }

  lemma NamesInUnion(a: set<string>, b: set<string>)
    ensures NamesIn(a + b) == NamesIn(a) + NamesIn(b)
  {}

  lemma NamesInOne(t: string)
    ensures NamesIn({t}) == set x | x in Refs(t) && Regular(x)
  {
    assert t in {t};
  }
}
