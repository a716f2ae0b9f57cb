/** Exactly when the generated script finds its endpoints, can be repeated, and agrees with indexing
    directly (scripts/index_code.py:242-422). The script writes an import without alias as
    `imp.alias = None`, and no statement of that form is accepted. */
module ScriptLaws {
  import opened Prelude
  import opened Indexer
  import opened IndexingLaws

  // ----- the upserts of a run -------------------------------------------

  /** Only an import's alias can be absent, and nothing belongs to an import. */
  ghost predicate Shaped(u: Upsert) {
    && (!Written(u.sets) ==> u.key.kind == ImportNode)
    && (u.owner.Some? ==> u.owner.value.0.kind != ImportNode)
    && (u.key.kind == ImportNode ==>
          && u.owner.Some? && |u.sets| == 2
          && u.sets[0].name == "module" && u.sets[0].value.Some? && u.sets[1].name == "alias")
  }

  ghost predicate AllShaped(us: seq<Upsert>) {
    forall i :: 0 <= i < |us| ==> Shaped(us[i])
  }

  lemma {:induction false} ImportsShaped(f: FileDef, n: nat)
    requires n <= |f.imports|
    ensures AllShaped(ImportUpserts(f, n))
  {
    if n == 0 {
    } else {
      ImportsShaped(f, n - 1);
      assert Shaped(ImportUpsert(f, f.imports[n - 1]));
      hide Shaped, ImportUpsert;
    }
  }

  lemma {:induction false} FunctionShaped(d: FunctionDef, owner: Key, isMethod: bool)
    requires owner.kind != ImportNode
    ensures Shaped(FunctionUpsert(d, owner, isMethod))
  {
  }

  lemma {:induction false} MethodsShaped(c: ClassDef, n: nat)
    requires n <= |c.methodDefs|
    ensures AllShaped(MethodUpserts(c, n))
  {
    if n == 0 {
    } else {
      MethodsShaped(c, n - 1);
      FunctionShaped(c.methodDefs[n - 1], Key(ClassNode, c.qualifiedName), true);
      hide Shaped, FunctionUpsert;
    }
  }

  lemma {:induction false} ClassesShaped(f: FileDef, n: nat)
    requires n <= |f.classes|
    ensures AllShaped(ClassUpserts(f, n))
  {
    if n == 0 {
    } else {
      var c := f.classes[n - 1];
      ClassesShaped(f, n - 1);
      assert Shaped(ClassUpsert(f, c));
      MethodsShaped(c, |c.methodDefs|);
      hide Shaped, ClassUpsert, MethodUpserts;
    }
  }

  lemma {:induction false} FunctionsShaped(f: FileDef, n: nat)
    requires n <= |f.functions|
    ensures AllShaped(FunctionUpserts(f, n))
  {
    if n == 0 {
    } else {
      FunctionsShaped(f, n - 1);
      FunctionShaped(f.functions[n - 1], FileKey(f), false);
      hide Shaped, FunctionUpsert;
    }
  }

  lemma {:induction false} UpsertsShaped(files: seq<FileDef>)
    ensures AllShaped(UpsertsOf(files))
  {
    if files == [] {
    } else {
      var f := files[|files| - 1];
      UpsertsShaped(files[..|files| - 1]);
      ImportsShaped(f, |f.imports|);
      ClassesShaped(f, |f.classes|);
      FunctionsShaped(f, |f.functions|);
      assert Shaped(Upsert(FileKey(f), FileSets(f), None));
      hide Shaped, ImportUpserts, ClassUpserts, FunctionUpserts;
    }
  }

  // ----- what the script merges -----------------------------------------

  /** The nodes merged so far. */
  ghost function Merged(us: seq<Upsert>): set<Key> {
    set u | u in us && Written(u.sets) :: u.key
  }

  lemma {:induction false} MergedSnoc(us: seq<Upsert>, u: Upsert)
    ensures Merged(us + [u]) == Merged(us) + (if Written(u.sets) then {u.key} else {})
  {
    assert forall x :: x in us + [u] <==> x in us || x == u;
    hide Written;
  }

  lemma {:induction false} MergedGrows(us: seq<Upsert>, i: nat, j: nat)
    requires i <= j <= |us|
    ensures Merged(us[..i]) <= Merged(us[..j])
  {
    assert us[..i] == us[..j][..i];
    assert forall x :: x in us[..i] ==> x in us[..j];
  }

  lemma {:induction false} WrittenIsMerged(us: seq<Upsert>, i: nat)
    requires i < |us| && Written(us[i].sets)
    ensures us[i].key in Merged(us[..i + 1])
  {
    assert us[..i + 1][i] == us[i] && us[i] in us[..i + 1];
    hide Written;
  }

  /** Owners are files and classes, which every script merges. */
  lemma {:induction false} OwnerIsMerged(us: seq<Upsert>, k: Key)
    requires AllShaped(us) && k in KeysOf(us) && k.kind != ImportNode
    ensures k in Merged(us)
  {
    var u :| u in us && u.key == k;
    assert Shaped(u);
    hide Written;
  }

  lemma {:induction false} ScriptNodes(us: seq<Upsert>)
    ensures NodesOf(AllStatements(us, Script)) == Merged(us)
  {
    if us == [] {
      assert NodesOf([]) == {} && Merged([]) == {};
    } else {
      var n := |us| - 1;
      ScriptNodes(us[..n]);
      assert us == us[..n] + [us[n]];
      MergedSnoc(us[..n], us[n]);
      PairNodes(AllStatements(us[..n], Script), us[n]);
      hide Merged, NodesOf, AsStatements;
    }
  }

  lemma {:induction false} PairNodes(ss: seq<Statement>, u: Upsert)
    ensures NodesOf(ss + AsStatements(u, Script)) == NodesOf(ss) + (if Written(u.sets) then {u.key} else {})
  {
    var node := NodeStatement(u, Script);
    NodesAndEdgesSnoc(ss, node);
    if u.owner.Some? {
      NodesAndEdgesSnoc(ss + [node], MergeEdge(EdgeOf(u)));
      assert ss + AsStatements(u, Script) == ss + [node] + [MergeEdge(EdgeOf(u))];
    } else {
      assert ss + AsStatements(u, Script) == ss + [node];
    }
    hide NodesOf, EdgesOf, Written;
  }

  // ----- endpoints -------------------------------------------------------

  /** Every import without alias follows one of the same name that carries an alias. */
  ghost predicate AliasesPrecede(us: seq<Upsert>) {
    forall i :: 0 <= i < |us| && !Written(us[i].sets) ==> us[i].key in Merged(us[..i])
  }

  lemma {:induction false} PairEndpoints(ss: seq<Statement>, u: Upsert)
    requires u.owner.Some? ==> u.owner.value.0 in NodesOf(ss)
    requires u.owner.None? ==> Written(u.sets)
    ensures EndpointsFirst(ss + AsStatements(u, Script)) <==>
      EndpointsFirst(ss) && (Written(u.sets) || u.key in NodesOf(ss))
  {
    var node := NodeStatement(u, Script);
    NodesAndEdgesSnoc(ss, node);
    EndpointsSnocIff(ss, node);
    if u.owner.Some? {
      EndpointsSnocIff(ss + [node], MergeEdge(EdgeOf(u)));
      assert ss + AsStatements(u, Script) == ss + [node] + [MergeEdge(EdgeOf(u))];
    } else {
      assert ss + AsStatements(u, Script) == ss + [node];
    }
    hide EndpointsFirst, NodesOf, EdgesOf, Written;
  }

  lemma {:induction false} EndpointsSnocIff(ss: seq<Statement>, s: Statement)
    ensures EndpointsFirst(ss + [s]) <==>
      EndpointsFirst(ss) && (s.MergeEdge? ==> s.edge.source in NodesOf(ss) && s.edge.target in NodesOf(ss))
  {
    var all := ss + [s];
    assert all[..|ss|] == ss && all[|ss|] == s;
    if EndpointsFirst(all) {
      EndpointsFirstPrefix(all);
    } else if EndpointsFirst(ss) && (s.MergeEdge? ==> s.edge.source in NodesOf(ss) && s.edge.target in NodesOf(ss)) {
      EndpointsFirstSnoc(ss, s);
    }
    hide NodesOf;
  }

  lemma {:induction false} EndpointsUpTo(us: seq<Upsert>)
    requires OwnersFirst(us) && AllShaped(us)
    ensures EndpointsFirst(AllStatements(us, Script)) <==> AliasesPrecede(us)
  {
    if us == [] {
    } else {
      var n := |us| - 1;
      var past, u := us[..n], us[n];
      EndpointsUpTo(past);
      assert us == past + [u] && Shaped(u);
      ScriptNodes(past);
      if u.owner.Some? {
        OwnerIsMerged(past, u.owner.value.0);
      }
      PairEndpoints(AllStatements(past, Script), u);
      PrecedeSnoc(past, u);
      hide AliasesPrecede, Merged, EndpointsFirst, NodesOf, AsStatements, KeysOf, Written;
    }
  }

  lemma {:induction false} PrecedeSnoc(us: seq<Upsert>, u: Upsert)
    ensures AliasesPrecede(us + [u]) <==> AliasesPrecede(us) && (Written(u.sets) || u.key in Merged(us))
  {
    var all := us + [u];
    assert all[..|us|] == us && all[|us|] == u;
    assert forall i :: 0 <= i < |us| ==> all[i] == us[i] && all[..i] == us[..i];
    hide Merged, Written;
  }

  /** The generated script merges both endpoints of every edge before it exactly when every import
      without alias follows one of the same name with an alias. */
  lemma {:induction false} EndpointsIff(files: seq<FileDef>)
    ensures EndpointsFirst(AllStatements(UpsertsOf(files), Script)) <==> AliasesPrecede(UpsertsOf(files))
  {
    OwnersComeFirst(files);
    UpsertsShaped(files);
    EndpointsUpTo(UpsertsOf(files));
  }

  // ----- edges -----------------------------------------------------------

  /** The edges the script adds to a graph with the given nodes. */
  ghost function Landed(nodes: set<Key>, us: seq<Upsert>): set<Edge> {
    if us == [] then {}
    else
      var u := us[|us| - 1];
      Landed(nodes, us[..|us| - 1]) + (if u.owner.Some? && u.key in nodes + Merged(us) then {EdgeOf(u)} else {})
  }

  lemma {:induction false} PairEdges(nodes: set<Key>, ss: seq<Statement>, u: Upsert)
    requires u.owner.Some? ==> u.owner.value.0 in NodesOf(ss)
    ensures LiveEdges(nodes, ss + AsStatements(u, Script)) == LiveEdges(nodes, ss) +
      (if u.owner.Some? && u.key in nodes + NodesOf(ss) + (if Written(u.sets) then {u.key} else {})
       then {EdgeOf(u)} else {})
  {
    var node := NodeStatement(u, Script);
    NodesAndEdgesSnoc(ss, node);
    assert (ss + [node])[..|ss|] == ss;
    if u.owner.Some? {
      var edge := MergeEdge(EdgeOf(u));
      assert ss + AsStatements(u, Script) == ss + [node] + [edge];
      assert (ss + [node] + [edge])[..|ss| + 1] == ss + [node];
    } else {
      assert ss + AsStatements(u, Script) == ss + [node];
    }
    hide NodesOf, EdgesOf, Written;
  }

  lemma {:induction false} ScriptEdges(nodes: set<Key>, us: seq<Upsert>)
    requires OwnersFirst(us) && AllShaped(us)
    ensures LiveEdges(nodes, AllStatements(us, Script)) == Landed(nodes, us)
  {
    if us == [] {
    } else {
      var n := |us| - 1;
      var past, u := us[..n], us[n];
      ScriptEdges(nodes, past);
      assert us == past + [u] && Shaped(u);
      ScriptNodes(past);
      if u.owner.Some? {
        OwnerIsMerged(past, u.owner.value.0);
      }
      PairEdges(nodes, AllStatements(past, Script), u);
      MergedSnoc(past, u);
      hide Merged, LiveEdges, NodesOf, AsStatements, KeysOf, Written;
    }
  }

  /** Upsert number `i` merges the edge `e`. */
  ghost predicate Merges(us: seq<Upsert>, i: nat, e: Edge) {
    i < |us| && us[i].owner.Some? && EdgeOf(us[i]) == e
  }

  /** It does so when the edge's target is there. */
  ghost predicate LandsAt(nodes: set<Key>, us: seq<Upsert>, i: nat, e: Edge) {
    Merges(us, i, e) && e.target in nodes + Merged(us[..i + 1])
  }

  lemma {:induction false} LandsAtPrefix(nodes: set<Key>, us: seq<Upsert>, n: nat, i: nat, e: Edge)
    requires i < n <= |us|
    ensures LandsAt(nodes, us[..n], i, e) <==> LandsAt(nodes, us, i, e)
  {
    assert us[..n][..i + 1] == us[..i + 1];
    hide Merged;
  }

  lemma {:induction false} LandedIff(nodes: set<Key>, us: seq<Upsert>, e: Edge)
    ensures e in Landed(nodes, us) <==> exists i: nat :: LandsAt(nodes, us, i, e)
  {
    if us == [] {
    } else {
      var n := |us| - 1;
      LandedIff(nodes, us[..n], e);
      assert us[..n + 1] == us;
      assert LandsAt(nodes, us, n, e) <==> us[n].owner.Some? && EdgeOf(us[n]) == e && us[n].key in nodes + Merged(us);
      hide Merged;
      if i: nat :| LandsAt(nodes, us, i, e) {
        if i < n {
          LandsAtPrefix(nodes, us, n, i, e);
        }
      }
      if i: nat :| LandsAt(nodes, us[..n], i, e) {
        LandsAtPrefix(nodes, us, n, i, e);
      }
    }
  }

  /** The edge of import number `i` is merged, by it or another import of the same file, at a point
      where some import of its name has carried an alias. */
  ghost predicate Lands(us: seq<Upsert>, i: nat)
    requires i < |us| && us[i].owner.Some?
  {
    exists j: nat :: LandsAt({}, us, j, EdgeOf(us[i]))
  }

  lemma {:induction false} LandsIsLanded(us: seq<Upsert>, i: nat)
    requires i < |us| && us[i].owner.Some?
    ensures Lands(us, i) <==> EdgeOf(us[i]) in Landed({}, us)
  {
    LandedIff({}, us, EdgeOf(us[i]));
    hide Landed, LandsAt;
  }

  lemma {:induction false} LandedMonotone(nodes: set<Key>, us: seq<Upsert>)
    ensures Landed({}, us) <= Landed(nodes, us)
  {
    if us == [] {
    } else {
      LandedMonotone(nodes, us[..|us| - 1]);
      hide Merged;
    }
  }

  // ----- running the script again ---------------------------------------

  /** Every import without alias whose name the run gives a node has its edge all the same. */
  ghost predicate EdgesLand(us: seq<Upsert>) {
    forall i :: 0 <= i < |us| && !Written(us[i].sets) && us[i].owner.Some? && us[i].key in Merged(us) ==> Lands(us, i)
  }

  /** A second run finds no new edge. */
  lemma {:induction false} NoNewEdges(nodes: set<Key>, us: seq<Upsert>)
    requires EdgesLand(us)
    ensures Landed(nodes + Merged(us), us) <= Landed(nodes, us)
  {
    forall e | e in Landed(nodes + Merged(us), us) ensures e in Landed(nodes, us) {
      LandedIff(nodes + Merged(us), us, e);
      LandedIff(nodes, us, e);
      var i: nat :| LandsAt(nodes + Merged(us), us, i, e);
      if !LandsAt(nodes, us, i, e) {
        MergedGrows(us, i + 1, |us|);
        assert us[..|us|] == us;
        if Written(us[i].sets) {
          WrittenIsMerged(us, i);
        } else {
          LandsIsLanded(us, i);
          LandedMonotone(nodes, us);
        }
      }
      hide Merged, Landed, Lands;
    }
  }

  lemma {:induction false} NewEdge(us: seq<Upsert>, i: nat)
    requires i < |us| && us[i].owner.Some? && us[i].key in Merged(us) && !Lands(us, i)
    ensures EdgeOf(us[i]) in Landed(Merged(us), us) && EdgeOf(us[i]) !in Landed({}, us)
  {
    LandsIsLanded(us, i);
    LandedIff(Merged(us), us, EdgeOf(us[i]));
    hide Merged, Landed, Lands;
    assert LandsAt(Merged(us), us, i, EdgeOf(us[i]));
  }

  ghost function ScriptOf(us: seq<Upsert>): seq<Statement> {
    AllStatements(us, Script)
  }

  const EMPTY := Graph({}, map[], {})

  lemma {:induction false} RunScript(g: Graph, us: seq<Upsert>)
    requires OwnersFirst(us) && AllShaped(us)
    ensures RunAll(g, ScriptOf(us)) ==
      Graph(g.nodes + Merged(us), PutAll(g.properties, WritesOf(ScriptOf(us))), g.edges + Landed(g.nodes, us))
  {
    Denotation(g, ScriptOf(us));
    ScriptNodes(us);
    ScriptEdges(g.nodes, us);
    hide RunAll, NodesOf, LiveEdges, WritesOf, PutAll, Merged, Landed, AllStatements;
  }

  lemma {:induction false} ScriptTwice(g: Graph, us: seq<Upsert>)
    requires OwnersFirst(us) && AllShaped(us)
    ensures RunAll(RunAll(g, ScriptOf(us)), ScriptOf(us)) == RunAll(g, ScriptOf(us)) <==>
      Landed(g.nodes + Merged(us), us) <= g.edges + Landed(g.nodes, us)
  {
    RunScript(g, us);
    RunScript(RunAll(g, ScriptOf(us)), us);
    WritesAreIdempotent(g.properties, WritesOf(ScriptOf(us)));
    hide RunAll, WritesOf, PutAll, Merged, Landed, ScriptOf;
    assert g.nodes + Merged(us) + Merged(us) == g.nodes + Merged(us);
  }

  /** Running the generated script a second time changes nothing, whatever graph it starts from,
      exactly when every import without alias has its edge if some other import, even a later one,
      gives its name a node. */
  lemma {:induction false} ScriptIsIdempotentIff(files: seq<FileDef>)
    ensures var us := UpsertsOf(files);
      EdgesLand(us) <==> forall g :: RunAll(RunAll(g, ScriptOf(us)), ScriptOf(us)) == RunAll(g, ScriptOf(us))
  {
    var us := UpsertsOf(files);
    OwnersComeFirst(files);
    UpsertsShaped(files);
    hide UpsertsOf, ScriptOf, RunAll, Merged, Landed, Lands, OwnersFirst, AllShaped, Written;
    if EdgesLand(us) {
      forall g ensures RunAll(RunAll(g, ScriptOf(us)), ScriptOf(us)) == RunAll(g, ScriptOf(us)) {
        ScriptTwice(g, us);
        NoNewEdges(g.nodes, us);
      }
    } else {
      var i :| 0 <= i < |us| && !Written(us[i].sets) && us[i].owner.Some? && us[i].key in Merged(us) && !Lands(us, i);
      ScriptTwice(EMPTY, us);
      NewEdge(us, i);
      assert {} + Merged(us) == Merged(us) && {} + Landed({}, us) == Landed({}, us);
    }
  }

  // ----- properties ------------------------------------------------------

  /** What a list of assignments gives to one name, if anything. */
  ghost function Assigned(sets: seq<Assignment>, name: string): Option<Option<Value>> {
    if sets == [] then None
    else if sets[|sets| - 1].name == name then Some(sets[|sets| - 1].value)
    else Assigned(sets[..|sets| - 1], name)
  }

  /** What the last of the statements' nodes with this key gives to a property. */
  ghost function LastGiven(us: seq<Upsert>, p: Property, style: Style): Option<Option<Value>> {
    if us == [] then None
    else
      var u := us[|us| - 1];
      var given := if u.key == p.key && NodeStatement(u, style).MergeNode?
                   then Assigned(NodeStatement(u, style).sets, p.name) else None;
      if given.Some? then given else LastGiven(us[..|us| - 1], p, style)
  }

  lemma {:induction false} LastWriteConcat(a: seq<Write>, b: seq<Write>, p: Property)
    ensures LastWrite(a + b, p) == if LastWrite(b, p).Some? then LastWrite(b, p) else LastWrite(a, p)
  {
    if b == [] {
      assert a + b == a;
    } else {
      assert (a + b)[..|a + b| - 1] == a + b[..|b| - 1];
      LastWriteConcat(a, b[..|b| - 1], p);
    }
  }

  lemma {:induction false} LastOfWrites(key: Key, sets: seq<Assignment>, n: nat, p: Property)
    requires n <= |sets|
    ensures LastWrite(WritesTo(key, sets)[..n], p) == if key == p.key then Assigned(sets[..n], p.name) else None
  {
    if n == 0 {
    } else {
      LastOfWrites(key, sets, n - 1, p);
      var ws := WritesTo(key, sets);
      assert ws[..n][..n - 1] == ws[..n - 1] && sets[..n][..n - 1] == sets[..n - 1];
    }
  }

  lemma {:induction false} PairWrites(ss: seq<Statement>, u: Upsert, style: Style)
    ensures WritesOf(ss + AsStatements(u, style)) == WritesOf(ss) +
      (if NodeStatement(u, style).MergeNode? then WritesTo(u.key, NodeStatement(u, style).sets) else [])
  {
    var node := NodeStatement(u, style);
    assert (ss + [node])[..|ss|] == ss;
    if u.owner.Some? {
      var edge := MergeEdge(EdgeOf(u));
      assert ss + AsStatements(u, style) == ss + [node] + [edge];
      assert (ss + [node] + [edge])[..|ss| + 1] == ss + [node];
      assert WritesOf(ss + [node]) + [] == WritesOf(ss + [node]);
    } else {
      assert ss + AsStatements(u, style) == ss + [node];
    }
  }

  lemma {:induction false} PairGives(ws: seq<Write>, u: Upsert, p: Property, style: Style)
    ensures var node := NodeStatement(u, style);
      var more := if node.MergeNode? then WritesTo(u.key, node.sets) else [];
      var given := if u.key == p.key && node.MergeNode? then Assigned(node.sets, p.name) else None;
      LastWrite(ws + more, p) == if given.Some? then given else LastWrite(ws, p)
  {
    hide Assigned;
    var node := NodeStatement(u, style);
    if node.MergeNode? {
      LastOfWrites(u.key, node.sets, |node.sets|, p);
      assert WritesTo(u.key, node.sets)[..|node.sets|] == WritesTo(u.key, node.sets)
        && node.sets[..|node.sets|] == node.sets;
      LastWriteConcat(ws, WritesTo(u.key, node.sets), p);
    } else {
      assert ws + [] == ws;
    }
    hide LastWrite, NodeStatement, WritesTo;
  }

  lemma {:induction false} LastWriteIsGiven(us: seq<Upsert>, p: Property, style: Style)
    ensures LastWrite(WritesOf(AllStatements(us, style)), p) == LastGiven(us, p, style)
  {
    if us == [] {
    } else {
      var n := |us| - 1;
      LastWriteIsGiven(us[..n], p, style);
      PairWrites(AllStatements(us[..n], style), us[n], style);
      PairGives(WritesOf(AllStatements(us[..n], style)), us[n], p, style);
      hide WritesOf, LastWrite, NodeStatement, AsStatements, Assigned, WritesTo;
    }
  }

  /** The last import of a name, if any, carries an alias. */
  ghost predicate LastIsWritten(us: seq<Upsert>, k: Key) {
    us != [] ==>
      var u := us[|us| - 1];
      if u.key == k then Written(u.sets) else LastIsWritten(us[..|us| - 1], k)
  }

  lemma {:induction false} ImportAssigns(u: Upsert, name: string)
    requires Shaped(u) && u.key.kind == ImportNode
    ensures Assigned(FlatSets(u.sets), name).Some? <==> name in {"module", "alias"}
    ensures Assigned(FlatSets(u.sets), "alias") == Some(FlatAssignment(u.sets[1]).value)
    ensures Written(u.sets) <==> u.sets[1].value.Some?
    ensures FlatAssignment(u.sets[1]).value.Some? <==> u.sets[1].value.Some?
  {
    var flat := FlatSets(u.sets);
    assert flat[0].name == "module" && flat[1].name == "alias";
    assert flat[..1][..0] == [] && flat[..1][0] == flat[0] && |flat| == 2;
    assert Assigned(flat[..1], name).Some? <==> name == "module";
  }

  /** No import gives anything to another property. */
  lemma {:induction false} NothingElseGiven(us: seq<Upsert>, p: Property, style: Style)
    requires AllShaped(us) && p.key.kind == ImportNode && p.name !in {"module", "alias"} && !style.Parameters?
    ensures LastGiven(us, p, style) == None
  {
    if us == [] {
    } else {
      var u := us[|us| - 1];
      NothingElseGiven(us[..|us| - 1], p, style);
      assert Shaped(u);
      if u.key == p.key {
        ImportAssigns(u, p.name);
      }
      hide Assigned, Written;
    }
  }

  /** If the last import of a name carries an alias, both emitters give it the same properties. */
  lemma {:induction false} SameGiven(us: seq<Upsert>, p: Property)
    requires AllShaped(us) && LastIsWritten(us, p.key)
    ensures LastGiven(us, p, OneLine) == LastGiven(us, p, Script)
  {
    if p.key.kind == ImportNode && p.name !in {"module", "alias"} {
      NothingElseGiven(us, p, OneLine);
      NothingElseGiven(us, p, Script);
    } else if us == [] {
    } else {
      var past, u := us[..|us| - 1], us[|us| - 1];
      assert Shaped(u);
      if u.key != p.key {
        SameGiven(past, p);
      } else if u.key.kind == ImportNode {
        ImportAssigns(u, p.name);
      } else {
        NonImportsAreWritten(past, p.key);
        SameGiven(past, p);
      }
      hide Assigned, Written, Shaped;
    }
  }

  lemma {:induction false} NonImportsAreWritten(us: seq<Upsert>, k: Key)
    requires AllShaped(us) && k.kind != ImportNode
    ensures LastIsWritten(us, k)
  {
    if us == [] {
    } else {
      assert Shaped(us[|us| - 1]);
      NonImportsAreWritten(us[..|us| - 1], k);
      hide Written;
    }
  }

  /** If it does not, indexing directly removes the alias, and the script keeps an earlier one. */
  lemma {:induction false} AliasDiffers(us: seq<Upsert>, k: Key)
    requires AllShaped(us) && k.kind == ImportNode && !LastIsWritten(us, k)
    ensures LastGiven(us, Property(k, "alias"), OneLine) == Some(None)
    ensures k in Merged(us) ==>
      var given := LastGiven(us, Property(k, "alias"), Script); given.Some? && given.value.Some?
  {
    var past, u := us[..|us| - 1], us[|us| - 1];
    assert Shaped(u) && us == past + [u];
    MergedSnoc(past, u);
    if u.key == k {
      ImportAssigns(u, "alias");
      if k in Merged(past) {
        AliasOnceGiven(past, k);
      }
    } else {
      AliasDiffers(past, k);
    }
    hide Assigned, Written, Merged, Shaped;
  }

  lemma {:induction false} AliasOnceGiven(us: seq<Upsert>, k: Key)
    requires AllShaped(us) && k.kind == ImportNode && k in Merged(us)
    ensures var given := LastGiven(us, Property(k, "alias"), Script); given.Some? && given.value.Some?
  {
    var past, u := us[..|us| - 1], us[|us| - 1];
    assert Shaped(u) && us == past + [u];
    MergedSnoc(past, u);
    if u.key == k && Written(u.sets) {
      ImportAssigns(u, "alias");
    } else {
      AliasOnceGiven(past, k);
    }
    hide Assigned, Written, Merged, Shaped;
  }

  // ----- agreement -------------------------------------------------------

  /** Every import without alias is followed by one of the same name that carries an alias, and has
      its edge all the same. */
  ghost predicate AliasesPrevail(us: seq<Upsert>) {
    forall i :: 0 <= i < |us| && !Written(us[i].sets) && us[i].owner.Some? ==>
      LastIsWritten(us, us[i].key) && Lands(us, i)
  }

  /** Both emitters leave the same graph, up to the line breaks in docstrings. */
  ghost predicate AgreeFrom(g: Graph, us: seq<Upsert>) {
    FlatGraph(PerformAll(g, us)) == RunAll(FlatGraph(g), ScriptOf(us))
  }

  /** The edges of all upserts. */
  ghost function AllEdges(us: seq<Upsert>): set<Edge> {
    if us == [] then {}
    else
      var u := us[|us| - 1];
      AllEdges(us[..|us| - 1]) + (if u.owner.Some? then {EdgeOf(u)} else {})
  }

  lemma {:induction false} AllEdgesIff(us: seq<Upsert>, e: Edge)
    ensures e in AllEdges(us) <==> exists i: nat :: Merges(us, i, e)
  {
    if us == [] {
    } else {
      var n := |us| - 1;
      AllEdgesIff(us[..n], e);
      assert forall i: nat :: i < n ==> Merges(us[..n], i, e) == Merges(us, i, e);
      assert Merges(us, n, e) <==> us[n].owner.Some? && EdgeOf(us[n]) == e;
      if i: nat :| Merges(us[..n], i, e) {
        assert Merges(us, i, e);
      }
    }
  }

  lemma {:induction false} OneLineEdges(us: seq<Upsert>)
    ensures EdgesOf(AllStatements(us, OneLine)) == AllEdges(us)
  {
    if us == [] {
      assert EdgesOf([]) == {};
    } else {
      var n := |us| - 1;
      var ss, u := AllStatements(us[..n], OneLine), us[n];
      OneLineEdges(us[..n]);
      NodesAndEdgesSnoc(ss, NodeStatement(u, OneLine));
      if u.owner.Some? {
        NodesAndEdgesSnoc(ss + [NodeStatement(u, OneLine)], MergeEdge(EdgeOf(u)));
        assert ss + AsStatements(u, OneLine) == ss + [NodeStatement(u, OneLine)] + [MergeEdge(EdgeOf(u))];
      } else {
        assert ss + AsStatements(u, OneLine) == ss + [NodeStatement(u, OneLine)];
      }
      hide EdgesOf, NodesOf;
    }
  }

  /** What indexing directly leaves. */
  lemma {:induction false} RunDirect(g: Graph, us: seq<Upsert>)
    requires OwnersFirst(us)
    ensures FlatGraph(PerformAll(g, us)) ==
      Graph(FlatGraph(g).nodes + KeysOf(us), PutAll(FlatGraph(g).properties, WritesOf(AllStatements(us, OneLine))),
            FlatGraph(g).edges + AllEdges(us))
  {
    var ss := AllStatements(us, OneLine);
    DirectOnOneLine(us, g);
    Denotation(FlatGraph(g), ss);
    StatementsInOrder(us, OneLine);
    AllEdgesLive(FlatGraph(g).nodes, ss);
    OneLineEdges(us);
    hide FlatGraph, PerformAll, RunAll, NodesOf, EdgesOf, LiveEdges, WritesOf, PutAll, KeysOf, AllStatements, AllEdges;
  }

  lemma {:induction false} SameNodes(us: seq<Upsert>)
    requires AllShaped(us) && forall i :: 0 <= i < |us| ==> us[i].key in Merged(us)
    ensures KeysOf(us) == Merged(us)
  {
    hide Written;
  }

  lemma {:induction false} LastWrittenIsMerged(us: seq<Upsert>, k: Key)
    requires LastIsWritten(us, k) && k in KeysOf(us)
    ensures k in Merged(us)
  {
    var past, u := us[..|us| - 1], us[|us| - 1];
    assert us == past + [u];
    MergedSnoc(past, u);
    OwnersFirstSnoc(past, u);
    if u.key == k {
    } else {
      LastWrittenIsMerged(past, k);
    }
    hide Merged, KeysOf, OwnersFirst, Written;
  }

  lemma {:induction false} PrevailingNodes(us: seq<Upsert>)
    requires AllShaped(us) && AliasesPrevail(us)
    ensures KeysOf(us) == Merged(us)
  {
    forall i | 0 <= i < |us| ensures us[i].key in Merged(us) {
      assert Shaped(us[i]) && us[i] in us;
      if Written(us[i].sets) {
        WrittenIsMerged(us, i);
        MergedGrows(us, i + 1, |us|);
        assert us[..|us|] == us;
      } else {
        LastWrittenIsMerged(us, us[i].key);
      }
    }
    SameNodes(us);
  }

  lemma {:induction false} PrevailingEdges(nodes: set<Key>, us: seq<Upsert>)
    requires AllShaped(us) && AliasesPrevail(us)
    ensures AllEdges(us) == Landed(nodes, us)
  {
    forall e ensures e in AllEdges(us) <==> e in Landed(nodes, us) {
      AllEdgesIff(us, e);
      LandedIff(nodes, us, e);
      hide Merged, Landed, AllEdges, Lands, LastIsWritten;
      if i: nat :| Merges(us, i, e) {
        if Written(us[i].sets) {
          WrittenIsMerged(us, i);
          assert LandsAt(nodes, us, i, e);
        } else {
          LandsIsLanded(us, i);
          LandedMonotone(nodes, us);
        }
      }
    }
  }

  lemma {:induction false} PrevailingProperties(properties: map<Property, Value>, us: seq<Upsert>)
    requires AllShaped(us) && AliasesPrevail(us)
    ensures PutAll(properties, WritesOf(AllStatements(us, OneLine))) == PutAll(properties, WritesOf(ScriptOf(us)))
  {
    var one, two := WritesOf(AllStatements(us, OneLine)), WritesOf(ScriptOf(us));
    forall p ensures Lookup(PutAll(properties, one), p) == Lookup(PutAll(properties, two), p) {
      LastWriteWins(properties, one, p);
      LastWriteWins(properties, two, p);
      LastWriteIsGiven(us, p, OneLine);
      LastWriteIsGiven(us, p, Script);
      AlwaysWritten(us, p.key);
      SameGiven(us, p);
      hide PutAll, WritesOf, LastWrite, LastGiven, LastIsWritten, AllStatements, AliasesPrevail, AllShaped;
    }
    SameLookups(PutAll(properties, one), PutAll(properties, two));
  }

  lemma {:induction false} AlwaysWritten(us: seq<Upsert>, k: Key)
    requires AllShaped(us) && AliasesPrevail(us)
    ensures LastIsWritten(us, k)
  {
    if !LastIsWritten(us, k) {
      var i := LastUnwritten(us, k);
    }
    hide LastIsWritten, Written, Lands;
  }

  lemma {:induction false} LastUnwritten(us: seq<Upsert>, k: Key) returns (i: nat)
    requires AllShaped(us) && !LastIsWritten(us, k)
    ensures i < |us| && us[i].key == k && !Written(us[i].sets) && us[i].owner.Some?
  {
    var n := |us| - 1;
    if us[n].key == k {
      assert Shaped(us[n]);
      i := n;
    } else {
      i := LastUnwritten(us[..n], k);
    }
    hide Written;
  }

  lemma {:induction false} PrevailingAgree(g: Graph, us: seq<Upsert>)
    requires OwnersFirst(us) && AllShaped(us) && AliasesPrevail(us)
    ensures AgreeFrom(g, us)
  {
    RunDirect(g, us);
    RunScript(FlatGraph(g), us);
    PrevailingNodes(us);
    PrevailingEdges(FlatGraph(g).nodes, us);
    PrevailingProperties(FlatGraph(g).properties, us);
    hide FlatGraph, PerformAll, RunAll, WritesOf, PutAll, Merged, KeysOf, Landed, AllEdges, AllStatements, ScriptOf;
  }

  /** Without the condition the emitters already differ on the empty graph. */
  lemma {:induction false} OtherwiseDiffer(us: seq<Upsert>)
    requires OwnersFirst(us) && AllShaped(us) && !AliasesPrevail(us)
    ensures !AgreeFrom(EMPTY, us)
  {
    var i :| 0 <= i < |us| && !Written(us[i].sets) && us[i].owner.Some?
      && !(LastIsWritten(us, us[i].key) && Lands(us, i));
    assert FlatGraph(EMPTY) == EMPTY;
    RunDirect(EMPTY, us);
    RunScript(EMPTY, us);
    assert Shaped(us[i]);
    if Lands(us, i) {
      var k := us[i].key;
      LandsIsMerged(us, i);
      AliasDiffers(us, k);
      LastWriteIsGiven(us, Property(k, "alias"), OneLine);
      LastWriteIsGiven(us, Property(k, "alias"), Script);
      LastWriteWins(map[], WritesOf(AllStatements(us, OneLine)), Property(k, "alias"));
      LastWriteWins(map[], WritesOf(ScriptOf(us)), Property(k, "alias"));
    } else {
      LandsIsLanded(us, i);
      AllEdgesIff(us, EdgeOf(us[i]));
      assert Merges(us, i, EdgeOf(us[i]));
    }
    hide FlatGraph, PerformAll, RunAll, WritesOf, PutAll, Merged, KeysOf, Landed, AllEdges, AllStatements, Lands,
      LastGiven, LastWrite;
  }

  lemma {:induction false} LandsIsMerged(us: seq<Upsert>, i: nat)
    requires i < |us| && us[i].owner.Some? && Lands(us, i)
    ensures us[i].key in Merged(us)
  {
    var j: nat :| LandsAt({}, us, j, EdgeOf(us[i]));
    MergedGrows(us, j + 1, |us|);
    assert us[..|us|] == us;
  }

  /** Up to the line breaks in docstrings, running the generated script and indexing directly leave
      the same nodes, properties and edges, from any graph, exactly when every import without alias
      is followed by one of the same name with an alias, and has its edge all the same. */
  lemma {:induction false} EmittersAgreeIff(files: seq<FileDef>)
    ensures AliasesPrevail(UpsertsOf(files)) <==> forall g :: AgreeFrom(g, UpsertsOf(files))
    ensures AliasesPrevail(UpsertsOf(files)) <==> AgreeFrom(EMPTY, UpsertsOf(files))
  {
    var us := UpsertsOf(files);
    OwnersComeFirst(files);
    UpsertsShaped(files);
    hide UpsertsOf, AgreeFrom, OwnersFirst, AllShaped, AliasesPrevail;
    if AliasesPrevail(us) {
      forall g ensures AgreeFrom(g, us) {
        PrevailingAgree(g, us);
      }
    } else {
      OtherwiseDiffer(us);
    }
  }

  // ----- what that means for files --------------------------------------

  ghost predicate AllAliased(files: seq<FileDef>) {
    forall i, n :: 0 <= i < |files| && 0 <= n < |files[i].imports| ==> files[i].imports[n].alias.Some?
  }

  ghost predicate AllWritten(us: seq<Upsert>) {
    forall i :: 0 <= i < |us| ==> Written(us[i].sets)
  }

  lemma {:induction false} FileWritten(f: FileDef)
    requires forall n :: 0 <= n < |f.imports| ==> f.imports[n].alias.Some?
    ensures AllWritten(FileUpserts(f))
  {
    ImportsWritten(f, |f.imports|);
    ClassesShaped(f, |f.classes|);
    FunctionsShaped(f, |f.functions|);
    ClassesAreNotImports(f, |f.classes|);
    FunctionsAreNotImports(f, |f.functions|);
    assert Written(FileSets(f));
    hide ImportUpserts, ClassUpserts, FunctionUpserts, Written;
  }

  lemma {:induction false} ImportsWritten(f: FileDef, n: nat)
    requires n <= |f.imports| && forall m :: 0 <= m < |f.imports| ==> f.imports[m].alias.Some?
    ensures AllWritten(ImportUpserts(f, n))
  {
    if n == 0 {
    } else {
      ImportsWritten(f, n - 1);
      ImportText(f, f.imports[n - 1]);
      hide Written, ImportSets;
    }
  }

  ghost predicate NoImports(us: seq<Upsert>) {
    forall i :: 0 <= i < |us| ==> us[i].key.kind != ImportNode
  }

  lemma {:induction false} MethodsAreNotImports(c: ClassDef, n: nat)
    requires n <= |c.methodDefs|
    ensures NoImports(MethodUpserts(c, n))
  {
    if n == 0 {
    } else {
      MethodsAreNotImports(c, n - 1);
      hide FunctionSets;
    }
  }

  lemma {:induction false} ClassesAreNotImports(f: FileDef, n: nat)
    requires n <= |f.classes|
    ensures NoImports(ClassUpserts(f, n))
  {
    if n == 0 {
    } else {
      ClassesAreNotImports(f, n - 1);
      MethodsAreNotImports(f.classes[n - 1], |f.classes[n - 1].methodDefs|);
      hide ClassSets, MethodUpserts;
    }
  }

  lemma {:induction false} FunctionsAreNotImports(f: FileDef, n: nat)
    requires n <= |f.functions|
    ensures NoImports(FunctionUpserts(f, n))
  {
    if n == 0 {
    } else {
      FunctionsAreNotImports(f, n - 1);
      hide FunctionSets;
    }
  }

  lemma {:induction false} UpsertsWritten(files: seq<FileDef>)
    requires AllAliased(files)
    ensures AllWritten(UpsertsOf(files))
  {
    if files == [] {
    } else {
      UpsertsWritten(files[..|files| - 1]);
      FileWritten(files[|files| - 1]);
      hide FileUpserts, Written;
    }
  }

  /** If every import carries an alias, the script finds every endpoint, can be repeated, and
      agrees with indexing directly. */
  lemma {:induction false} AliasedFilesAgree(files: seq<FileDef>, g: Graph)
    requires AllAliased(files)
    ensures EndpointsFirst(AllStatements(UpsertsOf(files), Script))
    ensures RunAll(RunAll(g, ScriptOf(UpsertsOf(files))), ScriptOf(UpsertsOf(files))) ==
      RunAll(g, ScriptOf(UpsertsOf(files)))
    ensures AgreeFrom(g, UpsertsOf(files))
  {
    UpsertsWritten(files);
    EndpointsIff(files);
    ScriptIsIdempotentIff(files);
    EmittersAgreeIff(files);
    hide UpsertsOf, AgreeFrom, RunAll, AllStatements, EndpointsFirst, Written, Merged, Lands, LastIsWritten;
    assert AliasesPrecede(UpsertsOf(files)) && EdgesLand(UpsertsOf(files)) && AliasesPrevail(UpsertsOf(files));
  }

  /** A file whose one import carries none, as in `import os`: indexing directly gives the module a
      node and an edge, the script gives it neither. */
  lemma {:induction false} PlainImportIsLost(f: FileDef, name: string)
    requires f.imports == [ImportDef(name, name, None)] && f.classes == [] && f.functions == []
    ensures var us, k := UpsertsOf([f]), Key(ImportNode, name);
      && k in PerformAll(EMPTY, us).nodes && Edge(FileKey(f), Imports, k) in PerformAll(EMPTY, us).edges
      && RunAll(EMPTY, ScriptOf(us)).nodes == {FileKey(f)} && RunAll(EMPTY, ScriptOf(us)).edges == {}
  {
    var us, imp := UpsertsOf([f]), ImportUpsert(f, ImportDef(name, name, None));
    OneImport(f, ImportDef(name, name, None));
    OwnersComeFirst([f]);
    UpsertsShaped([f]);
    hide UpsertsOf, RunAll, PerformAll, PutAll, WritesOf, ScriptOf, OwnersFirst, AllShaped, Merged, Landed, Written;
    RunScript(EMPTY, us);
    OneMerged(us);
    RunDirect(EMPTY, us);
    SecondIsAdded(us);
    hide AllEdges, KeysOf, AllStatements;
  }

  lemma {:induction false} SecondIsAdded(us: seq<Upsert>)
    requires |us| == 2 && us[1].owner.Some?
    ensures us[1].key in KeysOf(us) && EdgeOf(us[1]) in AllEdges(us)
  {
    assert us[1] in us;
  }

  lemma {:induction false} OneImport(f: FileDef, i: ImportDef)
    requires f.imports == [i] && f.classes == [] && f.functions == [] && i.alias.None?
    ensures UpsertsOf([f]) == [Upsert(FileKey(f), FileSets(f), None), ImportUpsert(f, i)]
    ensures Written(FileSets(f)) && !Written(ImportUpsert(f, i).sets)
  {
    ImportText(f, i);
    assert [f][..0] == [] && ImportUpserts(f, 1) == ImportUpserts(f, 0) + [ImportUpsert(f, i)];
  }

  lemma {:induction false} OneMerged(us: seq<Upsert>)
    requires |us| == 2 && Written(us[0].sets) && !Written(us[1].sets) && us[0].key != us[1].key && us[0].owner.None?
    ensures Merged(us) == {us[0].key} && Landed({}, us) == {}
  {
    assert us[..1] == [us[0]] && us[..1][..0] == [] && us == us[..1] + [us[1]] && us[..1] == us[..0] + [us[0]];
    MergedSnoc(us[..0], us[0]);
    MergedSnoc(us[..1], us[1]);
    assert Merged([]) == {} && Landed({}, us[..1]) == {};
    hide Written, Merged;
  }
}
