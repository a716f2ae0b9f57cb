/** Two emitters of one code graph (scripts/index_code.py:242-422). Each statement is modelled as
    the upsert it denotes on a graph with one node per key; a statement the database rejects changes
    nothing, and the next one is run. */
module Indexer {
  import opened Prelude

  // ----- what the parser hands over -------------------------------------

  datatype FunctionDef = FunctionDef(
    name: string, qualifiedName: string, signature: string, docstring: string,
    lineStart: int, lineEnd: int, isAsync: bool, calls: set<string>)

  datatype ClassDef = ClassDef(
    name: string, qualifiedName: string, docstring: string, lineStart: int, lineEnd: int,
    bases: seq<string>, methodDefs: seq<FunctionDef>)

  datatype ImportDef = ImportDef(moduleName: string, qualifiedName: string, alias: Option<string>)

  datatype FileDef = FileDef(
    path: string, name: string, language: string, lines: int,
    classes: seq<ClassDef>, functions: seq<FunctionDef>, imports: seq<ImportDef>)

  // ----- the graph -------------------------------------------------------

  datatype NodeKind = FileNode | ImportNode | ClassNode | FunctionNode
  datatype Key = Key(kind: NodeKind, id: string)
  datatype Value = Text(text: string) | Number(n: int) | Flag(b: bool)
  datatype Relation = Imports | Contains
  datatype Edge = Edge(source: Key, relation: Relation, target: Key)
  datatype Property = Property(key: Key, name: string)

  datatype Graph = Graph(nodes: set<Key>, properties: map<Property, Value>, edges: set<Edge>)

  /** Setting a property; `None` stands for null, which removes it. */
  datatype Write = Write(property: Property, value: Option<Value>)

  datatype Assignment = Assignment(name: string, value: Option<Value>)

  function Put(properties: map<Property, Value>, w: Write): map<Property, Value> {
    if w.value.Some? then properties[w.property := w.value.value] else properties - {w.property}
  }

  function PutAll(properties: map<Property, Value>, ws: seq<Write>): map<Property, Value> {
    if ws == [] then properties
    else Put(PutAll(properties, ws[..|ws| - 1]), ws[|ws| - 1])
  }

  function WritesTo(key: Key, sets: seq<Assignment>): (ws: seq<Write>)
    ensures |ws| == |sets|
    ensures forall i :: 0 <= i < |ws| ==> ws[i] == Write(Property(key, sets[i].name), sets[i].value)
  {
    seq(|sets|, i requires 0 <= i < |sets| => Write(Property(key, sets[i].name), sets[i].value))
  }

  /** `MERGE (n {id}) SET ...` and `MATCH a, b MERGE (a)-[r]->(b)`; and a statement that names an
      identifier nothing binds, which the database rejects. */
  datatype Statement = MergeNode(key: Key, sets: seq<Assignment>) | MergeEdge(edge: Edge) | Unbound(identifier: string)

  function Run(g: Graph, s: Statement): Graph {
    match s
    case MergeNode(key, sets) => g.(nodes := g.nodes + {key}, properties := PutAll(g.properties, WritesTo(key, sets)))
    case MergeEdge(e) =>
      if e.source in g.nodes && e.target in g.nodes then g.(edges := g.edges + {e}) else g
    case Unbound(_) => g
  }

  function RunAll(g: Graph, ss: seq<Statement>): Graph {
    if ss == [] then g else Run(RunAll(g, ss[..|ss| - 1]), ss[|ss| - 1])
  }

  // ----- the emitted statements -----------------------------------------

  /** `.replace("\n", " ")`. */
  function Flatten(s: string): (r: string)
    ensures |r| == |s|
  {
    seq(|s|, i requires 0 <= i < |s| => if s[i] == '\n' then ' ' else s[i])
  }

  function FileKey(f: FileDef): Key { Key(FileNode, f.path) }

  function FileSets(f: FileDef): seq<Assignment> {
    [Assignment("name", Some(Text(f.name))), Assignment("language", Some(Text(f.language))),
     Assignment("lines", Some(Number(f.lines)))]
  }

  function ImportSets(i: ImportDef): seq<Assignment> {
    [Assignment("module", Some(Text(i.moduleName))),
     Assignment("alias", if i.alias.Some? then Some(Text(i.alias.value)) else None)]
  }

  function ClassSets(c: ClassDef, docstring: string): seq<Assignment> {
    [Assignment("name", Some(Text(c.name))), Assignment("docstring", Some(Text(docstring))),
     Assignment("line_start", Some(Number(c.lineStart))), Assignment("line_end", Some(Number(c.lineEnd)))]
  }

  function FunctionSets(f: FunctionDef, docstring: string, isMethod: bool): seq<Assignment> {
    [Assignment("name", Some(Text(f.name))), Assignment("signature", Some(Text(f.signature))),
     Assignment("docstring", Some(Text(docstring))),
     Assignment("line_start", Some(Number(f.lineStart))), Assignment("line_end", Some(Number(f.lineEnd))),
     Assignment("is_async", Some(Flag(f.isAsync))), Assignment("is_method", Some(Flag(isMethod)))]
  }

  /** One upsert of the direct indexer: a node, and the edge from its owner if it has one. */
  datatype Upsert = Upsert(key: Key, sets: seq<Assignment>, owner: Option<(Key, Relation)>)

  function ImportUpsert(f: FileDef, i: ImportDef): Upsert {
    Upsert(Key(ImportNode, i.qualifiedName), ImportSets(i), Some((FileKey(f), Imports)))
  }

  function ClassUpsert(f: FileDef, c: ClassDef): Upsert {
    Upsert(Key(ClassNode, c.qualifiedName), ClassSets(c, c.docstring), Some((FileKey(f), Contains)))
  }

  function FunctionUpsert(f: FunctionDef, owner: Key, isMethod: bool): Upsert {
    Upsert(Key(FunctionNode, f.qualifiedName), FunctionSets(f, f.docstring, isMethod), Some((owner, Contains)))
  }

  function ImportUpserts(f: FileDef, n: nat): seq<Upsert>
    requires n <= |f.imports|
  {
    if n == 0 then [] else ImportUpserts(f, n - 1) + [ImportUpsert(f, f.imports[n - 1])]
  }

  function MethodUpserts(c: ClassDef, n: nat): seq<Upsert>
    requires n <= |c.methodDefs|
  {
    if n == 0 then []
    else MethodUpserts(c, n - 1) + [FunctionUpsert(c.methodDefs[n - 1], Key(ClassNode, c.qualifiedName), true)]
  }

  function ClassUpserts(f: FileDef, n: nat): seq<Upsert>
    requires n <= |f.classes|
  {
    if n == 0 then []
    else
      var c := f.classes[n - 1];
      ClassUpserts(f, n - 1) + [ClassUpsert(f, c)] + MethodUpserts(c, |c.methodDefs|)
  }

  function FunctionUpserts(f: FileDef, n: nat): seq<Upsert>
    requires n <= |f.functions|
  {
    if n == 0 then []
    else FunctionUpserts(f, n - 1) + [FunctionUpsert(f.functions[n - 1], FileKey(f), false)]
  }

  function FileUpserts(f: FileDef): seq<Upsert> {
    [Upsert(FileKey(f), FileSets(f), None)] +
    ImportUpserts(f, |f.imports|) + ClassUpserts(f, |f.classes|) + FunctionUpserts(f, |f.functions|)
  }

  /** Everything the direct indexer does, in order. */
  function UpsertsOf(files: seq<FileDef>): seq<Upsert> {
    if files == [] then []
    else UpsertsOf(files[..|files| - 1]) + FileUpserts(files[|files| - 1])
  }

  function EdgeOf(u: Upsert): Edge
    requires u.owner.Some?
  {
    Edge(u.owner.value.0, u.owner.value.1, u.key)
  }

  /** The node, then the edge from the owner if the owner exists. */
  function Perform(g: Graph, u: Upsert): Graph {
    var merged := Run(g, MergeNode(u.key, u.sets));
    if u.owner.Some? then Run(merged, MergeEdge(EdgeOf(u))) else merged
  }

  function PerformAll(g: Graph, us: seq<Upsert>): Graph {
    if us == [] then g else Perform(PerformAll(g, us[..|us| - 1]), us[|us| - 1])
  }

  /** How an upsert becomes statements: with its values passed as parameters, the same with
      docstrings on one line, or as a script. */
  datatype Style = Parameters | OneLine | Script

  /** Every value can be written down as text. */
  predicate Written(sets: seq<Assignment>) {
    forall i :: 0 <= i < |sets| ==> sets[i].value.Some?
  }

  /** The statement that merges the node. A script writes an absent value as `None`, which Cypher takes
      for an identifier. */
  function NodeStatement(u: Upsert, style: Style): Statement {
    match style
    case Parameters => MergeNode(u.key, u.sets)
    case OneLine => MergeNode(u.key, FlatSets(u.sets))
    case Script => if Written(u.sets) then MergeNode(u.key, FlatSets(u.sets)) else Unbound("None")
  }

  function AsStatements(u: Upsert, style: Style): seq<Statement> {
    [NodeStatement(u, style)] + (if u.owner.Some? then [MergeEdge(EdgeOf(u))] else [])
  }

  function AllStatements(us: seq<Upsert>, style: Style): seq<Statement> {
    if us == [] then [] else AllStatements(us[..|us| - 1], style) + AsStatements(us[|us| - 1], style)
  }

  function FlatAssignment(a: Assignment): Assignment {
    if a.name == "docstring" && a.value.Some? && a.value.value.Text?
    then Assignment(a.name, Some(Text(Flatten(a.value.value.text)))) else a
  }

  function FlatSets(sets: seq<Assignment>): (r: seq<Assignment>)
    ensures |r| == |sets| && forall i :: 0 <= i < |r| ==> r[i] == FlatAssignment(sets[i])
  {
    seq(|sets|, i requires 0 <= i < |sets| => FlatAssignment(sets[i]))
  }

  /** `generate_cypher`. */
  method GenerateCypher(files: seq<FileDef>) returns (statements: seq<Statement>)
    ensures statements == AllStatements(UpsertsOf(files), Script)
  {
    statements := [];
    ghost var done: seq<Upsert> := [];
    for k := 0 to |files|
      invariant done == UpsertsOf(files[..k]) && statements == AllStatements(done, Script)
    {
      hide AllStatements;
      var f := files[k];
      assert files[..k + 1][..k] == files[..k];
      FlatNoDoc(FileSets(f));
      ghost var u := Upsert(FileKey(f), FileSets(f), None);
      OneMoreUpsert(done, u, Script);
      statements := statements + [MergeNode(FileKey(f), FileSets(f))];
      statements := EmitImports(f, statements, done + [u]);
      statements := EmitClasses(f, statements, done + [u] + ImportUpserts(f, |f.imports|));
      statements := EmitFunctions(f, statements,
        done + [u] + ImportUpserts(f, |f.imports|) + ClassUpserts(f, |f.classes|));
      FileUpsertsConcat(done, f);
      done := done + FileUpserts(f);
    }
    assert files[..|files|] == files;
  }

  lemma {:induction false} FileUpsertsConcat(done: seq<Upsert>, f: FileDef)
    ensures done + [Upsert(FileKey(f), FileSets(f), None)] + ImportUpserts(f, |f.imports|)
            + ClassUpserts(f, |f.classes|) + FunctionUpserts(f, |f.functions|) == done + FileUpserts(f)
  {
  }

  /** Appends the two statements of one upsert. */
  method EmitPair(before: seq<Statement>, node: Statement, edge: Edge, ghost done: seq<Upsert>, ghost u: Upsert)
    returns (statements: seq<Statement>)
    requires before == AllStatements(done, Script) && AsStatements(u, Script) == [node, MergeEdge(edge)]
    ensures statements == AllStatements(done + [u], Script)
  {
    OneMoreUpsert(done, u, Script);
    statements := before + [node];
    statements := statements + [MergeEdge(edge)];
    assert before + [node] + [MergeEdge(edge)] == before + [node, MergeEdge(edge)];
    hide AllStatements, AsStatements;
  }

  /** The loop of `generate_cypher` over the imports of one file. */
  method EmitImports(f: FileDef, before: seq<Statement>, ghost base: seq<Upsert>) returns (statements: seq<Statement>)
    requires before == AllStatements(base, Script)
    ensures statements == AllStatements(base + ImportUpserts(f, |f.imports|), Script)
  {
    hide AllStatements;
    statements := before;
    ghost var done := base;
    for n := 0 to |f.imports|
      invariant done == base + ImportUpserts(f, n) && statements == AllStatements(done, Script)
    {
      var imp := f.imports[n];
      var key := Key(ImportNode, imp.qualifiedName);
      FlatNoDoc(ImportSets(imp));
      var node := if imp.alias.Some? then MergeNode(key, ImportSets(imp)) else Unbound("None");
      ImportText(f, imp);
      statements := EmitPair(statements, node, Edge(FileKey(f), Imports, key), done, ImportUpsert(f, imp));
      done := done + [ImportUpsert(f, imp)];
    }
  }

  /** The loop over its classes. */
  method EmitClasses(f: FileDef, before: seq<Statement>, ghost base: seq<Upsert>) returns (statements: seq<Statement>)
    requires before == AllStatements(base, Script)
    ensures statements == AllStatements(base + ClassUpserts(f, |f.classes|), Script)
  {
    hide AllStatements;
    statements := before;
    ghost var done := base;
    for n := 0 to |f.classes|
      invariant done == base + ClassUpserts(f, n) && statements == AllStatements(done, Script)
    {
      var cls := f.classes[n];
      var key := Key(ClassNode, cls.qualifiedName);
      FlatClassSets(cls);
      statements := EmitPair(statements, MergeNode(key, ClassSets(cls, Flatten(cls.docstring))),
        Edge(FileKey(f), Contains, key), done, ClassUpsert(f, cls));
      done := done + [ClassUpsert(f, cls)];
      statements := EmitMethods(cls, statements, done);
      done := done + MethodUpserts(cls, |cls.methodDefs|);
    }
  }

  /** The loop over the methods of one class. */
  method EmitMethods(cls: ClassDef, before: seq<Statement>, ghost base: seq<Upsert>)
    returns (statements: seq<Statement>)
    requires before == AllStatements(base, Script)
    ensures statements == AllStatements(base + MethodUpserts(cls, |cls.methodDefs|), Script)
  {
    hide AllStatements;
    statements := before;
    ghost var done := base;
    var owner := Key(ClassNode, cls.qualifiedName);
    for m := 0 to |cls.methodDefs|
      invariant done == base + MethodUpserts(cls, m) && statements == AllStatements(done, Script)
    {
      var fn := cls.methodDefs[m];
      var key := Key(FunctionNode, fn.qualifiedName);
      FlatFunctionSets(fn, true);
      statements := EmitPair(statements, MergeNode(key, FunctionSets(fn, Flatten(fn.docstring), true)),
        Edge(owner, Contains, key), done, FunctionUpsert(fn, owner, true));
      done := done + [FunctionUpsert(fn, owner, true)];
    }
  }

  /** The loop over the functions of one file. */
  method EmitFunctions(f: FileDef, before: seq<Statement>, ghost base: seq<Upsert>) returns (statements: seq<Statement>)
    requires before == AllStatements(base, Script)
    ensures statements == AllStatements(base + FunctionUpserts(f, |f.functions|), Script)
  {
    hide AllStatements;
    statements := before;
    ghost var done := base;
    for n := 0 to |f.functions|
      invariant done == base + FunctionUpserts(f, n) && statements == AllStatements(done, Script)
    {
      var fn := f.functions[n];
      var key := Key(FunctionNode, fn.qualifiedName);
      FlatFunctionSets(fn, false);
      statements := EmitPair(statements, MergeNode(key, FunctionSets(fn, Flatten(fn.docstring), false)),
        Edge(FileKey(f), Contains, key), done, FunctionUpsert(fn, FileKey(f), false));
      done := done + [FunctionUpsert(fn, FileKey(f), false)];
    }
  }

  lemma {:induction false} ImportText(f: FileDef, i: ImportDef)
    ensures Written(ImportSets(i)) <==> i.alias.Some?
  {
    assert ImportSets(i)[1].value.Some? <==> i.alias.Some?;
  }

  lemma {:induction false} OneMoreUpsert(us: seq<Upsert>, u: Upsert, style: Style)
    ensures AllStatements(us + [u], style) == AllStatements(us, style) + AsStatements(u, style)
  {
    assert (us + [u])[..|us|] == us;
  }

  lemma {:induction false} FlatNoDoc(sets: seq<Assignment>)
    requires forall i :: 0 <= i < |sets| ==> sets[i].name != "docstring"
    ensures FlatSets(sets) == sets
  {
  }

  lemma {:induction false} FlatClassSets(c: ClassDef)
    ensures FlatSets(ClassSets(c, c.docstring)) == ClassSets(c, Flatten(c.docstring))
  {
  }

  lemma {:induction false} FlatFunctionSets(f: FunctionDef, isMethod: bool)
    ensures FlatSets(FunctionSets(f, f.docstring, isMethod)) == FunctionSets(f, Flatten(f.docstring), isMethod)
  {
  }

  /** The database, updated statement by statement. */
  class GraphStore {
    var graph: Graph

    constructor (graph: Graph)
      ensures this.graph == graph
    {
      this.graph := graph;
    }

    /** One `session.run`. */
    method RunOne(u: Upsert, ghost start: Graph, ghost done: seq<Upsert>)
      requires graph == PerformAll(start, done)
      modifies this
      ensures graph == PerformAll(start, done + [u])
    {
      graph := Perform(graph, u);
      assert (done + [u])[..|done|] == done;
    }

    /** `index_to_memgraph`. */
    method IndexToMemgraph(files: seq<FileDef>)
      modifies this
      ensures graph == PerformAll(old(graph), UpsertsOf(files))
    {
      ghost var start := graph;
      ghost var done: seq<Upsert> := [];
      for k := 0 to |files|
        invariant done == UpsertsOf(files[..k]) && graph == PerformAll(start, done)
      {
        assert files[..k + 1][..k] == files[..k];
        IndexFile(files[k], start, done);
        done := done + FileUpserts(files[k]);
      }
      assert files[..|files|] == files;
    }

    /** Its loop body. */
    method IndexFile(f: FileDef, ghost start: Graph, ghost base: seq<Upsert>)
      requires graph == PerformAll(start, base)
      modifies this
      ensures graph == PerformAll(start, base + FileUpserts(f))
    {
      hide PerformAll;
      RunOne(Upsert(FileKey(f), FileSets(f), None), start, base);
      ghost var done := base + [Upsert(FileKey(f), FileSets(f), None)];
      ghost var upToFile := done;
      for n := 0 to |f.imports|
        invariant done == upToFile + ImportUpserts(f, n) && graph == PerformAll(start, done)
      {
        RunOne(ImportUpsert(f, f.imports[n]), start, done);
        done := done + [ImportUpsert(f, f.imports[n])];
      }
      IndexClasses(f, start, done);
      done := done + ClassUpserts(f, |f.classes|);
      ghost var upToClasses := done;
      for n := 0 to |f.functions|
        invariant done == upToClasses + FunctionUpserts(f, n) && graph == PerformAll(start, done)
      {
        RunOne(FunctionUpsert(f.functions[n], FileKey(f), false), start, done);
        done := done + [FunctionUpsert(f.functions[n], FileKey(f), false)];
      }
      FileUpsertsConcat(base, f);
    }

    method IndexClasses(f: FileDef, ghost start: Graph, ghost base: seq<Upsert>)
      requires graph == PerformAll(start, base)
      modifies this
      ensures graph == PerformAll(start, base + ClassUpserts(f, |f.classes|))
    {
      hide PerformAll;
      ghost var done := base;
      for n := 0 to |f.classes|
        invariant done == base + ClassUpserts(f, n) && graph == PerformAll(start, done)
      {
        var cls := f.classes[n];
        RunOne(ClassUpsert(f, cls), start, done);
        done := done + [ClassUpsert(f, cls)];
        ghost var upToClass := done;
        for m := 0 to |cls.methodDefs|
          invariant done == upToClass + MethodUpserts(cls, m) && graph == PerformAll(start, done)
        {
          var u := FunctionUpsert(cls.methodDefs[m], Key(ClassNode, cls.qualifiedName), true);
          RunOne(u, start, done);
          done := done + [u];
        }
      }
    }
  }
}
