/** What indexing leaves in the graph: what a list of statements denotes, when the generated script
    finds every endpoint, can be repeated, and agrees with indexing directly
    (scripts/index_code.py:242-422). */
module IndexingLaws {
  import opened Prelude
  import opened Indexer

  // ----- what a list of statements denotes ------------------------------

  function Lookup(properties: map<Property, Value>, p: Property): Option<Value> {
    if p in properties then Some(properties[p]) else None
  }

  /** The last value written to a property, if any. */
  ghost function LastWrite(ws: seq<Write>, p: Property): Option<Option<Value>> {
    if ws == [] then None
    else if ws[|ws| - 1].property == p then Some(ws[|ws| - 1].value)
    else LastWrite(ws[..|ws| - 1], p)
  }

  lemma {:induction false} LastWriteWins(properties: map<Property, Value>, ws: seq<Write>, p: Property)
    ensures Lookup(PutAll(properties, ws), p) ==
      if LastWrite(ws, p).Some? then LastWrite(ws, p).value else Lookup(properties, p)
  {
    if ws == [] {
    } else {
      LastWriteWins(properties, ws[..|ws| - 1], p);
    }
  }

  lemma {:induction false} PutAllConcat(properties: map<Property, Value>, a: seq<Write>, b: seq<Write>)
    ensures PutAll(properties, a + b) == PutAll(PutAll(properties, a), b)
  {
    if b == [] {
      assert a + b == a;
    } else {
      assert (a + b)[..|a + b| - 1] == a + b[..|b| - 1];
      PutAllConcat(properties, a, b[..|b| - 1]);
    }
  }

  lemma {:induction false} SameLookups(a: map<Property, Value>, b: map<Property, Value>)
    requires forall p :: Lookup(a, p) == Lookup(b, p)
    ensures a == b
  {
    assert forall p :: p in a <==> Lookup(a, p).Some?;
    assert forall p :: p in b <==> Lookup(b, p).Some?;
    forall p | p in a ensures a[p] == b[p] {
      assert Lookup(a, p) == Some(a[p]) && Lookup(b, p) == Some(b[p]);
    }
  }

  /** Repeating a list of writes changes nothing. */
  lemma {:induction false} WritesAreIdempotent(properties: map<Property, Value>, ws: seq<Write>)
    ensures PutAll(PutAll(properties, ws), ws) == PutAll(properties, ws)
  {
    var once := PutAll(properties, ws);
    forall p ensures Lookup(PutAll(once, ws), p) == Lookup(once, p) {
      LastWriteWins(once, ws, p);
      LastWriteWins(properties, ws, p);
    }
    SameLookups(PutAll(once, ws), once);
  }

  ghost function NodesOf(ss: seq<Statement>): set<Key> {
    set s | s in ss && s.MergeNode? :: s.key
  }

  ghost function EdgesOf(ss: seq<Statement>): set<Edge> {
    set s | s in ss && s.MergeEdge? :: s.edge
  }

  ghost function WritesOf(ss: seq<Statement>): seq<Write> {
    if ss == [] then []
    else
      var s := ss[|ss| - 1];
      WritesOf(ss[..|ss| - 1]) + (if s.MergeNode? then WritesTo(s.key, s.sets) else [])
  }

  /** Every edge is merged after both its endpoints. */
  ghost predicate EndpointsFirst(ss: seq<Statement>) {
    forall i :: 0 <= i < |ss| && ss[i].MergeEdge? ==>
      ss[i].edge.source in NodesOf(ss[..i]) && ss[i].edge.target in NodesOf(ss[..i])
  }

  lemma {:induction false} NodesAndEdgesSnoc(ss: seq<Statement>, s: Statement)
    ensures NodesOf(ss + [s]) == NodesOf(ss) + (if s.MergeNode? then {s.key} else {})
    ensures EdgesOf(ss + [s]) == EdgesOf(ss) + (if s.MergeEdge? then {s.edge} else {})
  {
    assert forall x :: x in ss + [s] <==> x in ss || x == s;
  }

  lemma {:induction false} EndpointsFirstPrefix(ss: seq<Statement>)
    requires EndpointsFirst(ss) && ss != []
    ensures EndpointsFirst(ss[..|ss| - 1])
  {
    var past := ss[..|ss| - 1];
    forall i | 0 <= i < |past| && past[i].MergeEdge?
      ensures past[i].edge.source in NodesOf(past[..i]) && past[i].edge.target in NodesOf(past[..i])
    {
      assert past[..i] == ss[..i] && past[i] == ss[i];
    }
  }

  /** The edges that find both endpoints when they are merged. */
  ghost function LiveEdges(nodes: set<Key>, ss: seq<Statement>): set<Edge> {
    if ss == [] then {}
    else
      var n := |ss| - 1;
      LiveEdges(nodes, ss[..n]) + LiveEdge(nodes + NodesOf(ss[..n]), ss[n])
  }

  ghost function LiveEdge(nodes: set<Key>, s: Statement): set<Edge> {
    if s.MergeEdge? && s.edge.source in nodes && s.edge.target in nodes then {s.edge} else {}
  }

  /** What a list of statements adds to a graph. */
  ghost function Denoted(g: Graph, ss: seq<Statement>): Graph {
    Graph(g.nodes + NodesOf(ss), PutAll(g.properties, WritesOf(ss)), g.edges + LiveEdges(g.nodes, ss))
  }

  lemma {:induction false} DenotedStep(g: Graph, past: seq<Statement>, s: Statement)
    ensures Run(Denoted(g, past), s) == Denoted(g, past + [s])
  {
    NodesAndEdgesSnoc(past, s);
    assert (past + [s])[..|past|] == past;
    if s.MergeNode? {
      PutAllConcat(g.properties, WritesOf(past), WritesTo(s.key, s.sets));
    } else {
      assert WritesOf(past) + [] == WritesOf(past);
    }
    hide PutAll, NodesOf, EdgesOf;
  }

  /** Any list of statements adds the nodes it merges and the edges that find their endpoints, and
      leaves each property at its last write. */
  lemma {:induction false} Denotation(g: Graph, ss: seq<Statement>)
    ensures RunAll(g, ss) == Denoted(g, ss)
  {
    if ss == [] {
      assert NodesOf(ss) == {} && EdgesOf(ss) == {};
    } else {
      var n := |ss| - 1;
      Denotation(g, ss[..n]);
      assert ss == ss[..n] + [ss[n]];
      DenotedStep(g, ss[..n], ss[n]);
      hide Run, Denoted;
    }
  }

  lemma {:induction false} AllEdgesLive(nodes: set<Key>, ss: seq<Statement>)
    requires EndpointsFirst(ss)
    ensures LiveEdges(nodes, ss) == EdgesOf(ss)
  {
    if ss == [] {
      assert EdgesOf(ss) == {};
    } else {
      var n := |ss| - 1;
      EndpointsFirstPrefix(ss);
      AllEdgesLive(nodes, ss[..n]);
      assert ss == ss[..n] + [ss[n]];
      NodesAndEdgesSnoc(ss[..n], ss[n]);
      assert ss[n].MergeEdge? ==> ss[n].edge.source in NodesOf(ss[..n]) && ss[n].edge.target in NodesOf(ss[..n]);
      hide EndpointsFirst, NodesOf, EdgesOf;
    }
  }

  /** Running a list that merges endpoints first a second time changes nothing. */
  lemma {:induction false} RunTwice(g: Graph, ss: seq<Statement>)
    requires EndpointsFirst(ss)
    ensures RunAll(RunAll(g, ss), ss) == RunAll(g, ss)
  {
    Denotation(g, ss);
    Denotation(RunAll(g, ss), ss);
    AllEdgesLive(g.nodes, ss);
    AllEdgesLive(RunAll(g, ss).nodes, ss);
    WritesAreIdempotent(g.properties, WritesOf(ss));
  }

  // ----- every owner comes first ----------------------------------------

  ghost function KeysOf(us: seq<Upsert>): set<Key> {
    set u | u in us :: u.key
  }

  ghost predicate OwnersFirst(us: seq<Upsert>) {
    us != [] ==>
      var n := |us| - 1;
      OwnersFirst(us[..n]) && (us[n].owner.Some? ==> us[n].owner.value.0 in KeysOf(us[..n]))
  }

  lemma {:induction false} OwnersFirstSnoc(us: seq<Upsert>, u: Upsert)
    ensures OwnersFirst(us + [u]) <==> OwnersFirst(us) && (u.owner.Some? ==> u.owner.value.0 in KeysOf(us))
    ensures KeysOf(us + [u]) == KeysOf(us) + {u.key}
  {
    assert (us + [u])[..|us|] == us;
    assert forall x :: x in us + [u] <==> x in us || x == u;
  }

  lemma {:induction false} ImportsFollowFile(us: seq<Upsert>, f: FileDef, n: nat)
    requires OwnersFirst(us) && FileKey(f) in KeysOf(us) && n <= |f.imports|
    ensures OwnersFirst(us + ImportUpserts(f, n)) && FileKey(f) in KeysOf(us + ImportUpserts(f, n))
  {
    hide OwnersFirst, KeysOf;
    if n == 0 {
      assert us + [] == us;
    } else {
      ImportsFollowFile(us, f, n - 1);
      var before := us + ImportUpserts(f, n - 1);
      OwnersFirstSnoc(before, ImportUpsert(f, f.imports[n - 1]));
      assert us + ImportUpserts(f, n) == before + [ImportUpsert(f, f.imports[n - 1])];
    }
  }

  lemma {:induction false} MethodsFollowClass(us: seq<Upsert>, c: ClassDef, n: nat, file: Key)
    requires OwnersFirst(us) && Key(ClassNode, c.qualifiedName) in KeysOf(us) && file in KeysOf(us)
    requires n <= |c.methodDefs|
    ensures OwnersFirst(us + MethodUpserts(c, n))
    ensures Key(ClassNode, c.qualifiedName) in KeysOf(us + MethodUpserts(c, n))
      && file in KeysOf(us + MethodUpserts(c, n))
  {
    hide OwnersFirst, KeysOf;
    if n == 0 {
      assert us + [] == us;
    } else {
      MethodsFollowClass(us, c, n - 1, file);
      var before := us + MethodUpserts(c, n - 1);
      var u := FunctionUpsert(c.methodDefs[n - 1], Key(ClassNode, c.qualifiedName), true);
      OwnersFirstSnoc(before, u);
      assert us + MethodUpserts(c, n) == before + [u];
    }
  }

  lemma {:induction false} ClassesFollowFile(us: seq<Upsert>, f: FileDef, n: nat)
    requires OwnersFirst(us) && FileKey(f) in KeysOf(us) && n <= |f.classes|
    ensures OwnersFirst(us + ClassUpserts(f, n)) && FileKey(f) in KeysOf(us + ClassUpserts(f, n))
  {
    hide OwnersFirst, KeysOf;
    if n == 0 {
      assert us + [] == us;
    } else {
      ClassesFollowFile(us, f, n - 1);
      var c := f.classes[n - 1];
      var before := us + ClassUpserts(f, n - 1);
      OwnersFirstSnoc(before, ClassUpsert(f, c));
      MethodsFollowClass(before + [ClassUpsert(f, c)], c, |c.methodDefs|, FileKey(f));
      assert us + ClassUpserts(f, n) == before + [ClassUpsert(f, c)] + MethodUpserts(c, |c.methodDefs|);
    }
  }

  lemma {:induction false} FunctionsFollowFile(us: seq<Upsert>, f: FileDef, n: nat)
    requires OwnersFirst(us) && FileKey(f) in KeysOf(us) && n <= |f.functions|
    ensures OwnersFirst(us + FunctionUpserts(f, n)) && FileKey(f) in KeysOf(us + FunctionUpserts(f, n))
  {
    hide OwnersFirst, KeysOf;
    if n == 0 {
      assert us + [] == us;
    } else {
      FunctionsFollowFile(us, f, n - 1);
      var before := us + FunctionUpserts(f, n - 1);
      var u := FunctionUpsert(f.functions[n - 1], FileKey(f), false);
      OwnersFirstSnoc(before, u);
      assert us + FunctionUpserts(f, n) == before + [u];
    }
  }

  /** For any files, each upsert's owner has been merged before it. */
  lemma {:induction false} OwnersComeFirst(files: seq<FileDef>)
    ensures OwnersFirst(UpsertsOf(files))
  {
    if files == [] {
    } else {
      var f, done := files[|files| - 1], UpsertsOf(files[..|files| - 1]);
      OwnersComeFirst(files[..|files| - 1]);
      var u := Upsert(FileKey(f), FileSets(f), None);
      OwnersFirstSnoc(done, u);
      ImportsFollowFile(done + [u], f, |f.imports|);
      ClassesFollowFile(done + [u] + ImportUpserts(f, |f.imports|), f, |f.classes|);
      FunctionsFollowFile(done + [u] + ImportUpserts(f, |f.imports|) + ClassUpserts(f, |f.classes|), f, |f.functions|);
      FileUpsertsConcat(done, f);
      hide OwnersFirst, FileUpserts;
    }
  }

  lemma {:induction false} EndpointsFirstSnoc(ss: seq<Statement>, s: Statement)
    requires EndpointsFirst(ss) && (s.MergeEdge? ==> s.edge.source in NodesOf(ss) && s.edge.target in NodesOf(ss))
    ensures EndpointsFirst(ss + [s])
  {
    var all := ss + [s];
    forall i | 0 <= i < |all| && all[i].MergeEdge?
      ensures all[i].edge.source in NodesOf(all[..i]) && all[i].edge.target in NodesOf(all[..i])
    {
      assert all[..i] == ss[..i];
      assert i == |ss| ==> ss[..i] == ss;
    }
  }

  lemma {:induction false} PairKeepsOrder(ss: seq<Statement>, u: Upsert, keys: set<Key>, style: Style)
    requires EndpointsFirst(ss) && NodesOf(ss) == keys && (u.owner.Some? ==> u.owner.value.0 in keys)
    requires NodeStatement(u, style).MergeNode?
    ensures EndpointsFirst(ss + AsStatements(u, style)) && NodesOf(ss + AsStatements(u, style)) == keys + {u.key}
  {
    var node := NodeStatement(u, style);
    NodesAndEdgesSnoc(ss, node);
    EndpointsFirstSnoc(ss, node);
    if u.owner.Some? {
      var edge := MergeEdge(EdgeOf(u));
      EndpointsFirstSnoc(ss + [node], edge);
      NodesAndEdgesSnoc(ss + [node], edge);
      assert ss + AsStatements(u, style) == ss + [node] + [edge];
    } else {
      assert ss + AsStatements(u, style) == ss + [node];
    }
    hide EndpointsFirst, NodesOf;
  }

  lemma {:induction false} StatementsInOrder(us: seq<Upsert>, style: Style)
    requires OwnersFirst(us) && !style.Script?
    ensures EndpointsFirst(AllStatements(us, style)) && NodesOf(AllStatements(us, style)) == KeysOf(us)
  {
    if us == [] {
      assert NodesOf([]) == {} && KeysOf(us) == {};
    } else {
      var n := |us| - 1;
      StatementsInOrder(us[..n], style);
      OwnersFirstSnoc(us[..n], us[n]);
      assert us == us[..n] + [us[n]];
      PairKeepsOrder(AllStatements(us[..n], style), us[n], KeysOf(us[..n]), style);
      hide AsStatements, EndpointsFirst, NodesOf;
    }
  }

  // ----- both emitters denote the same graph ----------------------------

  function FlatValue(p: Property, v: Value): Value {
    if p.name == "docstring" && v.Text? then Text(Flatten(v.text)) else v
  }

  /** The graph with every docstring on one line. */
  function FlatProperties(m: map<Property, Value>): map<Property, Value> {
    map p | p in m :: FlatValue(p, m[p])
  }

  function FlatGraph(g: Graph): Graph {
    g.(properties := FlatProperties(g.properties))
  }

  lemma {:induction false} FlatPutAll(m: map<Property, Value>, key: Key, sets: seq<Assignment>, n: nat)
    requires n <= |sets|
    ensures FlatProperties(PutAll(m, WritesTo(key, sets)[..n])) ==
      PutAll(FlatProperties(m), WritesTo(key, FlatSets(sets))[..n])
  {
    if n == 0 {
    } else {
      var ws, flat := WritesTo(key, sets), WritesTo(key, FlatSets(sets));
      FlatPutAll(m, key, sets, n - 1);
      assert ws[..n][..n - 1] == ws[..n - 1] && flat[..n][..n - 1] == flat[..n - 1];
      FlatPut(PutAll(m, ws[..n - 1]), ws[n - 1], flat[n - 1]);
    }
  }

  lemma {:induction false} FlatPut(m: map<Property, Value>, w: Write, flat: Write)
    requires flat.property == w.property
    requires flat.value == if w.value.Some? then Some(FlatValue(w.property, w.value.value)) else None
    ensures FlatProperties(Put(m, w)) == Put(FlatProperties(m), flat)
  {
  }

  lemma {:induction false} FlatPerform(g: Graph, u: Upsert)
    ensures FlatGraph(Perform(g, u)) == RunAll(FlatGraph(g), AsStatements(u, OneLine))
  {
    var n := |u.sets|;
    FlatPutAll(g.properties, u.key, u.sets, n);
    assert WritesTo(u.key, u.sets)[..n] == WritesTo(u.key, u.sets);
    assert WritesTo(u.key, FlatSets(u.sets))[..n] == WritesTo(u.key, FlatSets(u.sets));
    var node := MergeNode(u.key, FlatSets(u.sets));
    assert RunAll(FlatGraph(g), [node]) == Run(FlatGraph(g), node) by { assert [node][..0] == []; }
    if u.owner.Some? {
      var edge := MergeEdge(EdgeOf(u));
      assert AsStatements(u, OneLine) == [node, edge] && [node, edge][..1] == [node];
    } else {
      assert AsStatements(u, OneLine) == [node];
    }
    hide PutAll, FlatProperties;
  }

  lemma {:induction false} RunAllConcat(g: Graph, a: seq<Statement>, b: seq<Statement>)
    ensures RunAll(g, a + b) == RunAll(RunAll(g, a), b)
  {
    if b == [] {
      assert a + b == a;
    } else {
      assert (a + b)[..|a + b| - 1] == a + b[..|b| - 1];
      RunAllConcat(g, a, b[..|b| - 1]);
      hide Run;
    }
  }

  /** Indexing directly is, up to the line breaks in docstrings, running its upserts as statements
      with docstrings on one line. */
  lemma {:induction false} DirectOnOneLine(us: seq<Upsert>, g: Graph)
    ensures FlatGraph(PerformAll(g, us)) == RunAll(FlatGraph(g), AllStatements(us, OneLine))
  {
    if us == [] {
    } else {
      var n := |us| - 1;
      DirectOnOneLine(us[..n], g);
      FlatPerform(PerformAll(g, us[..n]), us[n]);
      RunAllConcat(FlatGraph(g), AllStatements(us[..n], OneLine), AsStatements(us[n], OneLine));
      hide FlatGraph, Perform, AsStatements;
    }
  }

  lemma {:induction false} PerformAsStatements(g: Graph, u: Upsert)
    ensures Perform(g, u) == RunAll(g, AsStatements(u, Parameters))
  {
    var node := MergeNode(u.key, u.sets);
    assert RunAll(g, [node]) == Run(g, node) by { assert [node][..0] == []; }
    if u.owner.Some? {
      var edge := MergeEdge(EdgeOf(u));
      assert AsStatements(u, Parameters) == [node, edge] && [node, edge][..1] == [node];
    } else {
      assert AsStatements(u, Parameters) == [node];
    }
    hide PutAll;
  }

  lemma {:induction false} DirectAsStatements(us: seq<Upsert>, g: Graph)
    ensures PerformAll(g, us) == RunAll(g, AllStatements(us, Parameters))
  {
    if us == [] {
    } else {
      var n := |us| - 1;
      DirectAsStatements(us[..n], g);
      PerformAsStatements(PerformAll(g, us[..n]), us[n]);
      RunAllConcat(g, AllStatements(us[..n], Parameters), AsStatements(us[n], Parameters));
      hide Perform, AsStatements;
    }
  }

  /** Indexing directly merges both endpoints of every edge before it, and doing so a second time
      changes nothing. */
  lemma {:induction false} DirectIndexingIsIdempotent(files: seq<FileDef>, g: Graph)
    ensures var us := UpsertsOf(files);
      && PerformAll(g, us) == RunAll(g, AllStatements(us, Parameters))
      && EndpointsFirst(AllStatements(us, Parameters))
      && PerformAll(PerformAll(g, us), us) == PerformAll(g, us)
  {
    var us := UpsertsOf(files);
    OwnersComeFirst(files);
    StatementsInOrder(us, Parameters);
    RunTwice(g, AllStatements(us, Parameters));
    DirectAsStatements(us, g);
    DirectAsStatements(us, PerformAll(g, us));
  }
}
