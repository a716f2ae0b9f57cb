/** What the database holds of each symbol after direct indexing (scripts/index_code.py:328-425). */
module StoredSymbols {
  import opened Prelude
  import opened Indexer
  import opened IndexingLaws

  // ----- the last upsert of a node decides ------------------------------

  /** A property of a node, if it is set. */
  ghost function At(g: Graph, key: Key, name: string): Option<Value> {
    Lookup(g.properties, Property(key, name))
  }

  ghost predicate Holds(g: Graph, key: Key, sets: seq<Assignment>) {
    forall k :: 0 <= k < |sets| ==> At(g, key, sets[k].name) == sets[k].value
  }

  ghost predicate SameAt(g: Graph, h: Graph, key: Key) {
    forall name :: At(g, key, name) == At(h, key, name)
  }

  ghost predicate DistinctNames(sets: seq<Assignment>) {
    forall j, k :: 0 <= j < k < |sets| ==> sets[j].name != sets[k].name
  }

  lemma {:induction false} WritesHold(properties: map<Property, Value>, key: Key, sets: seq<Assignment>, n: nat)
    requires n <= |sets| && DistinctNames(sets)
    ensures forall k :: 0 <= k < n ==>
      Lookup(PutAll(properties, WritesTo(key, sets)[..n]), Property(key, sets[k].name)) == sets[k].value
    ensures forall p: Property :: p.key != key ==>
      Lookup(PutAll(properties, WritesTo(key, sets)[..n]), p) == Lookup(properties, p)
  {
    if n == 0 {
    } else {
      WritesHold(properties, key, sets, n - 1);
      var ws := WritesTo(key, sets);
      assert ws[..n][..n - 1] == ws[..n - 1];
    }
  }

  lemma {:induction false} PerformSets(g: Graph, u: Upsert, key: Key)
    requires DistinctNames(u.sets)
    ensures u.key == key ==> Holds(Perform(g, u), key, u.sets)
    ensures u.key != key ==> SameAt(Perform(g, u), g, key)
  {
    WritesHold(g.properties, u.key, u.sets, |u.sets|);
    assert WritesTo(u.key, u.sets)[..|u.sets|] == WritesTo(u.key, u.sets);
    hide PutAll;
  }

  ghost predicate AllDistinct(us: seq<Upsert>) {
    forall i :: 0 <= i < |us| ==> DistinctNames(us[i].sets)
  }

  lemma {:induction false} OthersKeep(g: Graph, us: seq<Upsert>, key: Key)
    requires AllDistinct(us) && forall i :: 0 <= i < |us| ==> us[i].key != key
    ensures SameAt(PerformAll(g, us), g, key)
  {
    if us == [] {
    } else {
      var n := |us| - 1;
      OthersKeep(g, us[..n], key);
      PerformSets(PerformAll(g, us[..n]), us[n], key);
      hide Perform, DistinctNames, At;
    }
  }

  /** What the last upsert of a node sets stays. */
  lemma {:induction false} LastHolds(g: Graph, us: seq<Upsert>, i: nat)
    requires i < |us| && AllDistinct(us) && forall j :: i < j < |us| ==> us[j].key != us[i].key
    ensures Holds(PerformAll(g, us), us[i].key, us[i].sets)
    decreases |us|
  {
    var n := |us| - 1;
    PerformSets(PerformAll(g, us[..n]), us[n], us[i].key);
    hide Perform, DistinctNames;
    if i < n {
      LastHolds(g, us[..n], i);
    }
  }

  lemma {:induction false} PerformConcat(g: Graph, a: seq<Upsert>, b: seq<Upsert>)
    ensures PerformAll(g, a + b) == PerformAll(PerformAll(g, a), b)
  {
    if b == [] {
      assert a + b == a;
    } else {
      assert (a + b)[..|a + b| - 1] == a + b[..|b| - 1];
      PerformConcat(g, a, b[..|b| - 1]);
      hide Perform;
    }
  }

  // ----- what is held of each symbol ------------------------------------

  ghost predicate HoldsFile(g: Graph, f: FileDef) {
    var key := Key(FileNode, f.path);
    && At(g, key, "name") == Some(Text(f.name)) && At(g, key, "language") == Some(Text(f.language))
    && At(g, key, "lines") == Some(Number(f.lines))
  }

  /** An import without alias has no such property. */
  ghost predicate HoldsImport(g: Graph, i: ImportDef) {
    var key := Key(ImportNode, i.qualifiedName);
    && At(g, key, "module") == Some(Text(i.moduleName))
    && (i.alias.Some? ==> At(g, key, "alias") == Some(Text(i.alias.value)))
    && (i.alias.None? ==> At(g, key, "alias") == None)
  }

  ghost predicate HoldsClass(g: Graph, c: ClassDef) {
    var key := Key(ClassNode, c.qualifiedName);
    && At(g, key, "name") == Some(Text(c.name)) && At(g, key, "docstring") == Some(Text(c.docstring))
    && At(g, key, "line_start") == Some(Number(c.lineStart)) && At(g, key, "line_end") == Some(Number(c.lineEnd))
  }

  ghost predicate HoldsFunction(g: Graph, f: FunctionDef, isMethod: bool) {
    var key := Key(FunctionNode, f.qualifiedName);
    && At(g, key, "name") == Some(Text(f.name)) && At(g, key, "signature") == Some(Text(f.signature))
    && At(g, key, "docstring") == Some(Text(f.docstring))
    && At(g, key, "line_start") == Some(Number(f.lineStart)) && At(g, key, "line_end") == Some(Number(f.lineEnd))
    && At(g, key, "is_async") == Some(Flag(f.isAsync)) && At(g, key, "is_method") == Some(Flag(isMethod))
  }

  lemma {:induction false} FileSetsHold(g: Graph, f: FileDef)
    ensures DistinctNames(FileSets(f))
    ensures Holds(g, FileKey(f), FileSets(f)) ==> HoldsFile(g, f)
  {
    var s := FileSets(f);
    assert s[0].name == "name" && s[1].name == "language" && s[2].name == "lines";
    hide At;
  }

  lemma {:induction false} ImportSetsHold(g: Graph, f: FileDef, i: ImportDef)
    ensures DistinctNames(ImportUpsert(f, i).sets)
    ensures Holds(g, ImportUpsert(f, i).key, ImportUpsert(f, i).sets) ==> HoldsImport(g, i)
  {
    var s := ImportSets(i);
    assert s[0].name == "module" && s[1].name == "alias";
    hide At;
  }

  lemma {:induction false} ClassSetsHold(g: Graph, f: FileDef, c: ClassDef)
    ensures DistinctNames(ClassUpsert(f, c).sets)
    ensures Holds(g, ClassUpsert(f, c).key, ClassUpsert(f, c).sets) ==> HoldsClass(g, c)
  {
    var s := ClassSets(c, c.docstring);
    assert s[0].name == "name" && s[1].name == "docstring" && s[2].name == "line_start" && s[3].name == "line_end";
    hide At;
  }

  lemma {:induction false} FunctionSetsHold(g: Graph, f: FunctionDef, owner: Key, isMethod: bool)
    ensures DistinctNames(FunctionUpsert(f, owner, isMethod).sets)
    ensures Holds(g, FunctionUpsert(f, owner, isMethod).key, FunctionUpsert(f, owner, isMethod).sets) ==>
      HoldsFunction(g, f, isMethod)
  {
    var s := FunctionSets(f, f.docstring, isMethod);
    assert s[0].name == "name" && s[1].name == "signature" && s[2].name == "docstring" && s[3].name == "line_start";
    assert s[4].name == "line_end" && s[5].name == "is_async" && s[6].name == "is_method";
    hide At;
  }

  // ----- the parts of one file ------------------------------------------

  lemma {:induction false} ImportAt(f: FileDef, n: nat, k: nat)
    requires k < n <= |f.imports|
    ensures |ImportUpserts(f, n)| == n && ImportUpserts(f, n)[k] == ImportUpsert(f, f.imports[k])
  {
    if n == 1 {
      assert ImportUpserts(f, 0) == [];
    } else {
      ImportAt(f, n - 1, if k < n - 1 then k else 0);
    }
    hide ImportUpsert;
  }

  lemma {:induction false} FunctionAt(f: FileDef, n: nat, k: nat)
    requires k < n <= |f.functions|
    ensures |FunctionUpserts(f, n)| == n
    ensures FunctionUpserts(f, n)[k] == FunctionUpsert(f.functions[k], FileKey(f), false)
  {
    if n == 1 {
      assert FunctionUpserts(f, 0) == [];
    } else {
      FunctionAt(f, n - 1, if k < n - 1 then k else 0);
    }
    hide FunctionUpsert;
  }

  lemma {:induction false} MethodAt(c: ClassDef, n: nat, k: nat)
    requires k < n <= |c.methodDefs|
    ensures |MethodUpserts(c, n)| == n
    ensures MethodUpserts(c, n)[k] == FunctionUpsert(c.methodDefs[k], Key(ClassNode, c.qualifiedName), true)
  {
    if n == 1 {
      assert MethodUpserts(c, 0) == [];
    } else {
      MethodAt(c, n - 1, if k < n - 1 then k else 0);
    }
    hide FunctionUpsert;
  }

  lemma {:induction false} ImportsAre(f: FileDef)
    ensures AllDistinct(ImportUpserts(f, |f.imports|))
    ensures forall i :: 0 <= i < |ImportUpserts(f, |f.imports|)| ==>
      ImportUpserts(f, |f.imports|)[i].key.kind == ImportNode
    ensures |ImportUpserts(f, |f.imports|)| == |f.imports|
  {
    var us := ImportUpserts(f, |f.imports|);
    if |f.imports| > 0 {
      ImportAt(f, |f.imports|, 0);
    }
    forall i | 0 <= i < |us| ensures DistinctNames(us[i].sets) && us[i].key.kind == ImportNode {
      ImportAt(f, |f.imports|, i);
      ImportSetsHold(Graph({}, map[], {}), f, f.imports[i]);
    }
    hide ImportUpserts, DistinctNames;
  }

  lemma {:induction false} FunctionsAre(f: FileDef)
    ensures |FunctionUpserts(f, |f.functions|)| == |f.functions|
    ensures AllDistinct(FunctionUpserts(f, |f.functions|))
    ensures forall i :: 0 <= i < |FunctionUpserts(f, |f.functions|)| ==>
      FunctionUpserts(f, |f.functions|)[i].key == Key(FunctionNode, f.functions[i].qualifiedName)
  {
    var us := FunctionUpserts(f, |f.functions|);
    if |f.functions| > 0 {
      FunctionAt(f, |f.functions|, 0);
    }
    forall i | 0 <= i < |us|
      ensures DistinctNames(us[i].sets) && us[i].key == Key(FunctionNode, f.functions[i].qualifiedName)
    {
      FunctionAt(f, |f.functions|, i);
      FunctionSetsHold(Graph({}, map[], {}), f.functions[i], FileKey(f), false);
    }
    hide FunctionUpserts, DistinctNames;
  }

  lemma {:induction false} MethodsAre(c: ClassDef)
    ensures |MethodUpserts(c, |c.methodDefs|)| == |c.methodDefs|
    ensures AllDistinct(MethodUpserts(c, |c.methodDefs|))
    ensures forall i :: 0 <= i < |MethodUpserts(c, |c.methodDefs|)| ==>
      MethodUpserts(c, |c.methodDefs|)[i].key == Key(FunctionNode, c.methodDefs[i].qualifiedName)
  {
    var us := MethodUpserts(c, |c.methodDefs|);
    if |c.methodDefs| > 0 {
      MethodAt(c, |c.methodDefs|, 0);
    }
    forall i | 0 <= i < |us|
      ensures DistinctNames(us[i].sets) && us[i].key == Key(FunctionNode, c.methodDefs[i].qualifiedName)
    {
      MethodAt(c, |c.methodDefs|, i);
      FunctionSetsHold(Graph({}, map[], {}), c.methodDefs[i], Key(ClassNode, c.qualifiedName), true);
    }
    hide MethodUpserts, DistinctNames;
  }

  /** A class of the file, or a method of one, has this key. */
  ghost predicate InClasses(f: FileDef, n: nat, key: Key)
    requires n <= |f.classes|
  {
    exists a :: 0 <= a < n && InClass(f.classes[a], key)
  }

  ghost predicate InClass(c: ClassDef, key: Key) {
    || key == Key(ClassNode, c.qualifiedName)
    || exists b :: 0 <= b < |c.methodDefs| && key == Key(FunctionNode, c.methodDefs[b].qualifiedName)
  }

  ghost function ClassSteps(g: Graph, f: FileDef, c: ClassDef): Graph {
    PerformAll(Perform(g, ClassUpsert(f, c)), MethodUpserts(c, |c.methodDefs|))
  }

  lemma {:induction false} OneMoreClass(g: Graph, f: FileDef, n: nat)
    requires 0 < n <= |f.classes|
    ensures PerformAll(g, ClassUpserts(f, n)) ==
      ClassSteps(PerformAll(g, ClassUpserts(f, n - 1)), f, f.classes[n - 1])
  {
    var c, past := f.classes[n - 1], ClassUpserts(f, n - 1);
    PerformConcat(g, past + [ClassUpsert(f, c)], MethodUpserts(c, |c.methodDefs|));
    PerformConcat(g, past, [ClassUpsert(f, c)]);
    assert [ClassUpsert(f, c)][..0] == [];
    hide Perform, MethodUpserts, ClassUpsert;
  }

  /** Where a class stands, it holds its own values, and so does the last of its methods of any name;
      all else is as before. */
  lemma {:induction false} OneClassHolds(g: Graph, f: FileDef, c: ClassDef, key: Key)
    ensures HoldsClass(ClassSteps(g, f, c), c)
    ensures forall b :: 0 <= b < |c.methodDefs| && Unrepeated(c.methodDefs, b) ==>
      HoldsFunction(ClassSteps(g, f, c), c.methodDefs[b], true)
    ensures !InClass(c, key) ==> SameAt(ClassSteps(g, f, c), g, key)
  {
    var u, us := ClassUpsert(f, c), MethodUpserts(c, |c.methodDefs|);
    var h := Perform(g, u);
    MethodsAre(c);
    ClassSetsHold(ClassSteps(g, f, c), f, c);
    PerformSets(g, u, u.key);
    OthersKeep(h, us, u.key);
    assert HoldsClass(ClassSteps(g, f, c), c) by {
      SameHolds(ClassSteps(g, f, c), h, u.key, u.sets);
    }
    forall b | 0 <= b < |c.methodDefs| && Unrepeated(c.methodDefs, b)
      ensures HoldsFunction(ClassSteps(g, f, c), c.methodDefs[b], true)
    {
      MethodAt(c, |c.methodDefs|, b);
      LastHolds(h, us, b);
      FunctionSetsHold(ClassSteps(g, f, c), c.methodDefs[b], Key(ClassNode, c.qualifiedName), true);
    }
    if !InClass(c, key) {
      PerformSets(g, u, key);
      OthersKeep(h, us, key);
    }
  }

  lemma {:induction false} SameHolds(g: Graph, h: Graph, key: Key, sets: seq<Assignment>)
    requires SameAt(g, h, key) && Holds(h, key, sets)
    ensures Holds(g, key, sets)
  {
    hide At;
  }

  /** No later definition of the list has the same name. */
  ghost predicate Unrepeated(fs: seq<FunctionDef>, k: int)
    requires 0 <= k < |fs|
  {
    forall j :: k < j < |fs| ==> fs[j].qualifiedName != fs[k].qualifiedName
  }

  lemma {:induction false} ClassesKeep(g: Graph, f: FileDef, n: nat, key: Key)
    requires n <= |f.classes| && !InClasses(f, n, key)
    ensures SameAt(PerformAll(g, ClassUpserts(f, n)), g, key)
  {
    if n == 0 {
    } else {
      ClassesKeep(g, f, n - 1, key);
      OneMoreClass(g, f, n);
      OneClassHolds(PerformAll(g, ClassUpserts(f, n - 1)), f, f.classes[n - 1], key);
      hide InClass, ClassSteps, HoldsClass, HoldsFunction, Unrepeated, At, PerformAll;
    }
  }

  lemma {:induction false} ClassStays(g: Graph, h: Graph, c: ClassDef)
    requires SameAt(g, h, Key(ClassNode, c.qualifiedName)) && HoldsClass(h, c)
    ensures HoldsClass(g, c)
  {
    hide At;
  }

  lemma {:induction false} FunctionStays(g: Graph, h: Graph, f: FunctionDef, isMethod: bool)
    requires SameAt(g, h, Key(FunctionNode, f.qualifiedName)) && HoldsFunction(h, f, isMethod)
    ensures HoldsFunction(g, f, isMethod)
  {
    hide At;
  }

  lemma {:induction false} ClassElsewhere(c: ClassDef, name: string)
    requires c.qualifiedName != name
    ensures !InClass(c, Key(ClassNode, name))
  {
  }

  lemma {:induction false} LastAmongEarlier(f: FileDef, n: nat, a: nat, b: nat)
    requires a < n <= |f.classes| && b < |f.classes[a].methodDefs| && LastMethod(f, n, a, b)
    ensures Unrepeated(f.classes[a].methodDefs, b)
    ensures a < n - 1 ==>
      && LastMethod(f, n - 1, a, b)
      && !InClass(f.classes[n - 1], Key(FunctionNode, f.classes[a].methodDefs[b].qualifiedName))
  {
  }

  /** The last class of its name holds its values. */
  lemma {:induction false} ClassHolds(g: Graph, f: FileDef, n: nat, a: nat)
    requires a < n <= |f.classes|
    requires forall d :: a < d < n ==> f.classes[d].qualifiedName != f.classes[a].qualifiedName
    ensures HoldsClass(PerformAll(g, ClassUpserts(f, n)), f.classes[a])
  {
    hide *;
    var key, last := Key(ClassNode, f.classes[a].qualifiedName), f.classes[n - 1];
    var before := PerformAll(g, ClassUpserts(f, n - 1));
    OneMoreClass(g, f, n);
    OneClassHolds(before, f, last, key);
    if a < n - 1 {
      ClassHolds(g, f, n - 1, a);
      ClassElsewhere(last, f.classes[a].qualifiedName);
      ClassStays(ClassSteps(before, f, last), before, f.classes[a]);
    }
  }

  /** The last method of its name holds its values. */
  lemma {:induction false} MethodHolds(g: Graph, f: FileDef, n: nat, a: nat, b: nat)
    requires a < n <= |f.classes| && b < |f.classes[a].methodDefs| && LastMethod(f, n, a, b)
    ensures HoldsFunction(PerformAll(g, ClassUpserts(f, n)), f.classes[a].methodDefs[b], true)
  {
    hide *;
    var m, last := f.classes[a].methodDefs[b], f.classes[n - 1];
    var key := Key(FunctionNode, m.qualifiedName);
    LastAmongEarlier(f, n, a, b);
    var before := PerformAll(g, ClassUpserts(f, n - 1));
    OneMoreClass(g, f, n);
    OneClassHolds(before, f, last, key);
    if a < n - 1 {
      MethodHolds(g, f, n - 1, a, b);
      FunctionStays(ClassSteps(before, f, last), before, m, true);
    }
  }

  /** No later method of the first `n` classes has the same name. */
  ghost predicate LastMethod(f: FileDef, n: nat, a: nat, b: nat)
    requires a < n <= |f.classes| && b < |f.classes[a].methodDefs|
  {
    && Unrepeated(f.classes[a].methodDefs, b)
    && forall d, e :: a < d < n && 0 <= e < |f.classes[d].methodDefs| ==>
         f.classes[d].methodDefs[e].qualifiedName != f.classes[a].methodDefs[b].qualifiedName
  }

  ghost predicate LastImport(f: FileDef, k: nat)
    requires k < |f.imports|
  {
    forall j :: k < j < |f.imports| ==> f.imports[j].qualifiedName != f.imports[k].qualifiedName
  }

  ghost predicate LastClass(f: FileDef, a: nat)
    requires a < |f.classes|
  {
    forall d :: a < d < |f.classes| ==> f.classes[d].qualifiedName != f.classes[a].qualifiedName
  }

  ghost predicate InFunctions(f: FileDef, key: Key) {
    exists k :: 0 <= k < |f.functions| && key == Key(FunctionNode, f.functions[k].qualifiedName)
  }

  ghost predicate InImports(f: FileDef, key: Key) {
    exists k :: 0 <= k < |f.imports| && key == Key(ImportNode, f.imports[k].qualifiedName)
  }

  /** The file, one of its imports, classes or functions, or a method of one of its classes. */
  ghost predicate IsDefined(f: FileDef, key: Key) {
    || key == Key(FileNode, f.path) || InImports(f, key) || InClasses(f, |f.classes|, key) || InFunctions(f, key)
  }

  lemma {:induction false} ImportsHold(g: Graph, f: FileDef, key: Key)
    ensures var after := PerformAll(g, ImportUpserts(f, |f.imports|));
      && (forall k: nat :: k < |f.imports| && LastImport(f, k) ==> HoldsImport(after, f.imports[k]))
      && (!InImports(f, key) ==> SameAt(after, g, key))
  {
    var us := ImportUpserts(f, |f.imports|);
    var after := PerformAll(g, us);
    ImportsAre(f);
    forall k: nat | k < |f.imports| ensures us[k].key == Key(ImportNode, f.imports[k].qualifiedName) {
      ImportAt(f, |f.imports|, k);
    }
    forall k: nat | k < |f.imports| && LastImport(f, k) ensures HoldsImport(after, f.imports[k]) {
      ImportAt(f, |f.imports|, k);
      LastHolds(g, us, k);
      ImportSetsHold(after, f, f.imports[k]);
    }
    if !InImports(f, key) {
      OthersKeep(g, us, key);
    }
    hide ImportUpserts, PerformAll, HoldsImport, AllDistinct;
  }

  lemma {:induction false} FunctionsHold(g: Graph, f: FileDef, key: Key)
    ensures var after := PerformAll(g, FunctionUpserts(f, |f.functions|));
      && (forall k :: 0 <= k < |f.functions| && Unrepeated(f.functions, k) ==>
            HoldsFunction(after, f.functions[k], false))
      && (!InFunctions(f, key) ==> SameAt(after, g, key))
  {
    var us := FunctionUpserts(f, |f.functions|);
    var after := PerformAll(g, us);
    FunctionsAre(f);
    forall k | 0 <= k < |f.functions| && Unrepeated(f.functions, k)
      ensures HoldsFunction(after, f.functions[k], false)
    {
      FunctionAt(f, |f.functions|, k);
      LastHolds(g, us, k);
      FunctionSetsHold(after, f.functions[k], FileKey(f), false);
    }
    if !InFunctions(f, key) {
      OthersKeep(g, us, key);
    }
    hide FunctionUpserts, PerformAll, HoldsFunction, AllDistinct;
  }

  /** The four graphs on the way through one file. */
  ghost function FileStep(g: Graph, f: FileDef): Graph {
    Perform(g, Upsert(FileKey(f), FileSets(f), None))
  }

  ghost function ImportStep(g: Graph, f: FileDef): Graph {
    PerformAll(FileStep(g, f), ImportUpserts(f, |f.imports|))
  }

  ghost function ClassStep(g: Graph, f: FileDef): Graph {
    PerformAll(ImportStep(g, f), ClassUpserts(f, |f.classes|))
  }

  ghost function LastStep(g: Graph, f: FileDef): Graph {
    PerformAll(ClassStep(g, f), FunctionUpserts(f, |f.functions|))
  }

  lemma {:induction false} FileInSteps(g: Graph, f: FileDef)
    ensures PerformAll(g, FileUpserts(f)) == LastStep(g, f)
  {
    var first := [Upsert(FileKey(f), FileSets(f), None)];
    var imports, classes, functions :=
      ImportUpserts(f, |f.imports|), ClassUpserts(f, |f.classes|), FunctionUpserts(f, |f.functions|);
    PerformConcat(g, first + imports + classes, functions);
    PerformConcat(g, first + imports, classes);
    PerformConcat(g, first, imports);
    assert first[..0] == [];
    hide Perform, ImportUpserts, ClassUpserts, FunctionUpserts, FileSets;
  }

  lemma {:induction false} StepsKeep(g: Graph, f: FileDef, key: Key)
    ensures !InFunctions(f, key) ==> SameAt(LastStep(g, f), ClassStep(g, f), key)
    ensures !InClasses(f, |f.classes|, key) ==> SameAt(ClassStep(g, f), ImportStep(g, f), key)
    ensures !InImports(f, key) ==> SameAt(ImportStep(g, f), FileStep(g, f), key)
    ensures key != Key(FileNode, f.path) ==> SameAt(FileStep(g, f), g, key)
  {
    FunctionsHold(ClassStep(g, f), f, key);
    if !InClasses(f, |f.classes|, key) {
      ClassesKeep(ImportStep(g, f), f, |f.classes|, key);
    }
    ImportsHold(FileStep(g, f), f, key);
    FileSetsHold(g, f);
    PerformSets(g, Upsert(FileKey(f), FileSets(f), None), key);
    hide *;
  }

  lemma {:induction false} SameTwice(g: Graph, h: Graph, k: Graph, key: Key)
    requires SameAt(g, h, key) && SameAt(h, k, key)
    ensures SameAt(g, k, key)
  {
    hide At;
  }

  /** What one more file leaves: every symbol of it holds its own values, the last of a name if there
      are several, and every other node holds what it held before. */
  lemma {:induction false} FileIsHeld(g: Graph, f: FileDef)
    ensures var after := PerformAll(g, FileUpserts(f));
      && HoldsFile(after, f)
      && (forall k: nat :: k < |f.imports| && LastImport(f, k) ==> HoldsImport(after, f.imports[k]))
      && (forall a: nat :: a < |f.classes| && LastClass(f, a) ==> HoldsClass(after, f.classes[a]))
      && (forall k :: 0 <= k < |f.functions| && Unrepeated(f.functions, k) ==>
            HoldsFunction(after, f.functions[k], false))
  {
    FileInSteps(g, f);
    FileNodeHeld(g, f);
    ImportsHeld(g, f);
    ClassesHeld(g, f);
    FunctionsHold(ClassStep(g, f), f, Key(FileNode, f.path));
    hide HoldsFile, HoldsImport, HoldsClass, HoldsFunction, PerformAll, FileUpserts, LastImport, LastClass, Unrepeated,
      ClassStep;
  }

  lemma {:induction false} FileNodeHeld(g: Graph, f: FileDef)
    ensures HoldsFile(LastStep(g, f), f)
  {
    var key := Key(FileNode, f.path);
    FileSetsHold(FileStep(g, f), f);
    PerformSets(g, Upsert(FileKey(f), FileSets(f), None), key);
    assert HoldsFile(FileStep(g, f), f);
    StepsKeep(g, f, key);
    hide LastStep, ClassStep, ImportStep, FileStep, At;
    SameTwice(LastStep(g, f), ClassStep(g, f), ImportStep(g, f), key);
    SameTwice(LastStep(g, f), ImportStep(g, f), FileStep(g, f), key);
  }

  lemma {:induction false} ImportsHeld(g: Graph, f: FileDef)
    ensures forall k: nat :: k < |f.imports| && LastImport(f, k) ==> HoldsImport(LastStep(g, f), f.imports[k])
  {
    forall k: nat | k < |f.imports| && LastImport(f, k) ensures HoldsImport(LastStep(g, f), f.imports[k]) {
      var key := Key(ImportNode, f.imports[k].qualifiedName);
      ImportsHold(FileStep(g, f), f, key);
      StepsKeep(g, f, key);
      hide LastStep, ClassStep, FileStep, At, LastImport, PerformAll, ImportUpserts;
      SameTwice(LastStep(g, f), ClassStep(g, f), ImportStep(g, f), key);
    }
  }

  lemma {:induction false} ClassesHeld(g: Graph, f: FileDef)
    ensures forall a: nat :: a < |f.classes| && LastClass(f, a) ==> HoldsClass(LastStep(g, f), f.classes[a])
  {
    forall a: nat | a < |f.classes| && LastClass(f, a) ensures HoldsClass(LastStep(g, f), f.classes[a]) {
      ClassHolds(ImportStep(g, f), f, |f.classes|, a);
      StepsKeep(g, f, Key(ClassNode, f.classes[a].qualifiedName));
      hide LastStep, ImportStep, FileStep, At, PerformAll, ClassUpserts;
    }
  }

  /** A method too, unless a function of the file or a later method has its name. */
  lemma {:induction false} MethodIsHeld(g: Graph, f: FileDef, a: nat, b: nat)
    requires a < |f.classes| && b < |f.classes[a].methodDefs| && LastMethod(f, |f.classes|, a, b)
    requires !InFunctions(f, Key(FunctionNode, f.classes[a].methodDefs[b].qualifiedName))
    ensures HoldsFunction(PerformAll(g, FileUpserts(f)), f.classes[a].methodDefs[b], true)
  {
    FileInSteps(g, f);
    MethodHolds(ImportStep(g, f), f, |f.classes|, a, b);
    StepsKeep(g, f, Key(FunctionNode, f.classes[a].methodDefs[b].qualifiedName));
    hide LastStep, ImportStep, FileStep, At, PerformAll, ClassUpserts, LastMethod, InFunctions;
  }

  lemma {:induction false} OthersAreKept(g: Graph, f: FileDef, key: Key)
    requires !IsDefined(f, key)
    ensures SameAt(PerformAll(g, FileUpserts(f)), g, key)
  {
    FileInSteps(g, f);
    StepsKeep(g, f, key);
    hide LastStep, ClassStep, ImportStep, FileStep, InImports, InClasses, InFunctions, SameAt;
    SameTwice(LastStep(g, f), ClassStep(g, f), ImportStep(g, f), key);
    SameTwice(LastStep(g, f), ImportStep(g, f), FileStep(g, f), key);
    SameTwice(LastStep(g, f), FileStep(g, f), g, key);
  }

  lemma {:induction false} OneMoreFile(g: Graph, files: seq<FileDef>, f: FileDef)
    ensures PerformAll(g, UpsertsOf(files + [f])) == PerformAll(PerformAll(g, UpsertsOf(files)), FileUpserts(f))
  {
    assert (files + [f])[..|files|] == files;
    PerformConcat(g, UpsertsOf(files), FileUpserts(f));
    hide PerformAll, FileUpserts;
  }

  /** What indexing leaves of its last file, whatever was there before: every symbol of the file holds
      its own values, the last of a name if there are several, and a node no symbol of it stands for
      holds what the other files left. */
  lemma {:induction false} LastFileIsHeld(g: Graph, files: seq<FileDef>, f: FileDef)
    ensures var before, after := PerformAll(g, UpsertsOf(files)), PerformAll(g, UpsertsOf(files + [f]));
      && HoldsFile(after, f)
      && (forall k: nat :: k < |f.imports| && LastImport(f, k) ==> HoldsImport(after, f.imports[k]))
      && (forall a: nat :: a < |f.classes| && LastClass(f, a) ==> HoldsClass(after, f.classes[a]))
      && (forall a: nat, b: nat ::
            && a < |f.classes| && b < |f.classes[a].methodDefs| && LastMethod(f, |f.classes|, a, b)
            && !InFunctions(f, Key(FunctionNode, f.classes[a].methodDefs[b].qualifiedName))
            ==> HoldsFunction(after, f.classes[a].methodDefs[b], true))
      && (forall k :: 0 <= k < |f.functions| && Unrepeated(f.functions, k) ==>
            HoldsFunction(after, f.functions[k], false))
      && (forall key :: !IsDefined(f, key) ==> SameAt(after, before, key))
  {
    hide HoldsFile, HoldsImport, HoldsClass, HoldsFunction, LastImport, LastClass, LastMethod, InFunctions, Unrepeated,
      IsDefined, SameAt, PerformAll, UpsertsOf, FileUpserts;
    var before, after := PerformAll(g, UpsertsOf(files)), PerformAll(g, UpsertsOf(files + [f]));
    OneMoreFile(g, files, f);
    FileIsHeld(before, f);
    forall a: nat, b: nat
      | a < |f.classes| && b < |f.classes[a].methodDefs| && LastMethod(f, |f.classes|, a, b)
        && !InFunctions(f, Key(FunctionNode, f.classes[a].methodDefs[b].qualifiedName))
      ensures HoldsFunction(after, f.classes[a].methodDefs[b], true)
    {
      MethodIsHeld(before, f, a, b);
    }
    forall key | !IsDefined(f, key) ensures SameAt(after, before, key) {
      OthersAreKept(before, f, key);
    }
  }

  // ----- nodes and edges ------------------------------------------------

  /** The file imports it or contains it, or a class of the file contains it. */
  ghost predicate Relates(f: FileDef, e: Edge) {
    || (exists k :: 0 <= k < |f.imports| &&
          e == Edge(Key(FileNode, f.path), Imports, Key(ImportNode, f.imports[k].qualifiedName)))
    || ClassesRelate(f, |f.classes|, e)
    || (exists k :: 0 <= k < |f.functions| &&
          e == Edge(Key(FileNode, f.path), Contains, Key(FunctionNode, f.functions[k].qualifiedName)))
  }

  ghost predicate ClassesRelate(f: FileDef, n: nat, e: Edge)
    requires n <= |f.classes|
  {
    exists a :: 0 <= a < n && ClassRelates(f, f.classes[a], e)
  }

  ghost predicate ClassRelates(f: FileDef, c: ClassDef, e: Edge) {
    || e == Edge(Key(FileNode, f.path), Contains, Key(ClassNode, c.qualifiedName))
    || exists b :: 0 <= b < |c.methodDefs| &&
         e == Edge(Key(ClassNode, c.qualifiedName), Contains, Key(FunctionNode, c.methodDefs[b].qualifiedName))
  }

  lemma {:induction false} PerformGrows(g: Graph, us: seq<Upsert>)
    ensures g.nodes <= PerformAll(g, us).nodes
    ensures forall k :: k in PerformAll(g, us).nodes <==> k in g.nodes || exists u :: u in us && u.key == k
  {
    if us == [] {
    } else {
      var n := |us| - 1;
      PerformGrows(g, us[..n]);
      assert us == us[..n] + [us[n]];
      hide PutAll;
    }
  }

  /** From a graph that holds all their owners, upserts add exactly the edges from them. */
  lemma {:induction false} PerformRelates(g: Graph, us: seq<Upsert>, e: Edge)
    requires forall i :: 0 <= i < |us| ==> us[i].owner.Some? && us[i].owner.value.0 in g.nodes
    ensures e in PerformAll(g, us).edges <==> e in g.edges || exists i :: 0 <= i < |us| && EdgeOf(us[i]) == e
  {
    if us == [] {
    } else {
      var n := |us| - 1;
      PerformRelates(g, us[..n], e);
      PerformGrows(g, us[..n]);
      hide PutAll, PerformAll;
      assert PerformAll(g, us) == Perform(PerformAll(g, us[..n]), us[n]) by { LastPerformed(g, us); }
    }
  }

  lemma {:induction false} LastPerformed(g: Graph, us: seq<Upsert>)
    requires us != []
    ensures PerformAll(g, us) == Perform(PerformAll(g, us[..|us| - 1]), us[|us| - 1])
  {
  }

  lemma {:induction false} ImportEdges(g: Graph, f: FileDef, e: Edge)
    requires FileKey(f) in g.nodes
    ensures e in PerformAll(g, ImportUpserts(f, |f.imports|)).edges <==>
      || e in g.edges
      || exists k :: 0 <= k < |f.imports| && e == Edge(FileKey(f), Imports, Key(ImportNode, f.imports[k].qualifiedName))
  {
    var us := ImportUpserts(f, |f.imports|);
    ImportsAre(f);
    forall k | 0 <= k < |us| ensures us[k] == ImportUpsert(f, f.imports[k]) {
      ImportAt(f, |f.imports|, k);
    }
    PerformRelates(g, us, e);
    hide ImportUpserts, PerformAll, AllDistinct;
    forall k | 0 <= k < |us|
      ensures EdgeOf(us[k]) == Edge(FileKey(f), Imports, Key(ImportNode, f.imports[k].qualifiedName))
    {
    }
  }

  lemma {:induction false} FunctionEdges(g: Graph, f: FileDef, e: Edge)
    requires FileKey(f) in g.nodes
    ensures e in PerformAll(g, FunctionUpserts(f, |f.functions|)).edges <==>
      || e in g.edges
      || exists k :: 0 <= k < |f.functions| &&
           e == Edge(FileKey(f), Contains, Key(FunctionNode, f.functions[k].qualifiedName))
  {
    var us := FunctionUpserts(f, |f.functions|);
    FunctionsAre(f);
    forall k | 0 <= k < |us| ensures us[k] == FunctionUpsert(f.functions[k], FileKey(f), false) {
      FunctionAt(f, |f.functions|, k);
    }
    PerformRelates(g, us, e);
    hide FunctionUpserts, PerformAll, AllDistinct;
    forall k | 0 <= k < |us|
      ensures EdgeOf(us[k]) == Edge(FileKey(f), Contains, Key(FunctionNode, f.functions[k].qualifiedName))
    {
    }
  }

  lemma {:induction false} MethodEdges(g: Graph, c: ClassDef, e: Edge)
    requires Key(ClassNode, c.qualifiedName) in g.nodes
    ensures e in PerformAll(g, MethodUpserts(c, |c.methodDefs|)).edges <==>
      || e in g.edges
      || exists b :: 0 <= b < |c.methodDefs| &&
           e == Edge(Key(ClassNode, c.qualifiedName), Contains, Key(FunctionNode, c.methodDefs[b].qualifiedName))
  {
    var us := MethodUpserts(c, |c.methodDefs|);
    MethodsAre(c);
    forall k | 0 <= k < |us|
      ensures us[k] == FunctionUpsert(c.methodDefs[k], Key(ClassNode, c.qualifiedName), true)
    {
      MethodAt(c, |c.methodDefs|, k);
    }
    PerformRelates(g, us, e);
    hide MethodUpserts, PerformAll, AllDistinct;
    forall k | 0 <= k < |us|
      ensures EdgeOf(us[k]) ==
        Edge(Key(ClassNode, c.qualifiedName), Contains, Key(FunctionNode, c.methodDefs[k].qualifiedName))
    {
    }
  }

  lemma {:induction false} OneClassRelates(g: Graph, f: FileDef, c: ClassDef, e: Edge)
    requires FileKey(f) in g.nodes
    ensures e in ClassSteps(g, f, c).edges <==> e in g.edges || ClassRelates(f, c, e)
    ensures g.nodes <= ClassSteps(g, f, c).nodes
  {
    var h := Perform(g, ClassUpsert(f, c));
    assert h.nodes == g.nodes + {Key(ClassNode, c.qualifiedName)};
    assert h.edges == g.edges + {Edge(FileKey(f), Contains, Key(ClassNode, c.qualifiedName))};
    MethodEdges(h, c, e);
    PerformGrows(h, MethodUpserts(c, |c.methodDefs|));
    hide PerformAll, MethodUpserts, ClassUpsert, Perform;
  }

  lemma {:induction false} OneMoreRelates(f: FileDef, n: nat, e: Edge)
    requires 0 < n <= |f.classes|
    ensures ClassesRelate(f, n, e) <==> ClassesRelate(f, n - 1, e) || ClassRelates(f, f.classes[n - 1], e)
  {
    hide ClassRelates;
  }

  lemma {:induction false} NoClasses(g: Graph, f: FileDef, e: Edge)
    ensures PerformAll(g, ClassUpserts(f, 0)) == g && !ClassesRelate(f, 0, e)
  {
  }

  lemma {:induction false} ClassEdges(g: Graph, f: FileDef, n: nat, e: Edge)
    requires FileKey(f) in g.nodes && n <= |f.classes|
    ensures e in PerformAll(g, ClassUpserts(f, n)).edges <==> e in g.edges || ClassesRelate(f, n, e)
    ensures g.nodes <= PerformAll(g, ClassUpserts(f, n)).nodes
  {
    hide *;
    if n == 0 {
      NoClasses(g, f, e);
    } else {
      ClassEdges(g, f, n - 1, e);
      OneMoreClass(g, f, n);
      OneMoreRelates(f, n, e);
      OneClassRelates(PerformAll(g, ClassUpserts(f, n - 1)), f, f.classes[n - 1], e);
    }
  }

  lemma {:induction false} FileEdges(g: Graph, f: FileDef, e: Edge)
    ensures e in PerformAll(g, FileUpserts(f)).edges <==> e in g.edges || Relates(f, e)
  {
    FileInSteps(g, f);
    assert FileStep(g, f).nodes == g.nodes + {FileKey(f)} && FileStep(g, f).edges == g.edges;
    ImportEdges(FileStep(g, f), f, e);
    PerformGrows(FileStep(g, f), ImportUpserts(f, |f.imports|));
    ClassEdges(ImportStep(g, f), f, |f.classes|, e);
    FunctionEdges(ClassStep(g, f), f, e);
    hide PerformAll, FileUpserts, ImportUpserts, ClassUpserts, FunctionUpserts, ClassesRelate, FileStep, FileSets;
  }

  ghost predicate SomeRelates(files: seq<FileDef>, e: Edge) {
    exists n :: 0 <= n < |files| && Relates(files[n], e)
  }

  lemma {:induction false} OneMoreFileRelates(files: seq<FileDef>, f: FileDef, e: Edge)
    ensures SomeRelates(files + [f], e) <==> SomeRelates(files, e) || Relates(f, e)
  {
    var all := files + [f];
    hide Relates;
    if n :| 0 <= n < |files| && Relates(files[n], e) {
      assert all[n] == files[n];
    }
    assert all[|files|] == f;
  }

  /** From any graph, indexing adds exactly the edges from each file to its imports, classes and
      functions, and from each class to its methods. */
  lemma {:induction false} EdgesAreRelations(g: Graph, files: seq<FileDef>, e: Edge)
    ensures e in PerformAll(g, UpsertsOf(files)).edges <==> e in g.edges || SomeRelates(files, e)
  {
    if files == [] {
    } else {
      hide *;
      var n := |files| - 1;
      EdgesAreRelations(g, files[..n], e);
      assert files == files[..n] + [files[n]];
      OneMoreFile(g, files[..n], files[n]);
      OneMoreFileRelates(files[..n], files[n], e);
      FileEdges(PerformAll(g, UpsertsOf(files[..n])), files[n], e);
    }
  }

  // ----- docstrings of the script ---------------------------------------

  /** A line break becomes a space, and nothing else changes. */
  ghost predicate IsFlat(r: string, s: string) {
    && |r| == |s|
    && forall i :: 0 <= i < |s| ==> r[i] == if s[i] == '\n' then ' ' else s[i]
  }

  /** The statement writes the values of the upsert, docstrings on one line. */
  ghost predicate WritesFlat(s: Statement, u: Upsert) {
    && s.MergeNode? && s.key == u.key && |s.sets| == |u.sets|
    && forall k :: 0 <= k < |u.sets| ==>
         && s.sets[k].name == u.sets[k].name
         && if u.sets[k].name == "docstring" && u.sets[k].value.Some? && u.sets[k].value.value.Text?
            then
              && s.sets[k].value.Some? && s.sets[k].value.value.Text?
              && IsFlat(s.sets[k].value.value.text, u.sets[k].value.value.text)
            else s.sets[k].value == u.sets[k].value
  }

  /** What the script says for one upsert: the node with the same values, docstrings on one line, and
      the edge from its owner; or for an import without alias a statement that is rejected. */
  lemma {:induction false} ScriptSays(u: Upsert)
    ensures var ss := AsStatements(u, Script);
      && |ss| == (if u.owner.Some? then 2 else 1)
      && (u.owner.Some? ==> ss[1] == MergeEdge(Edge(u.owner.value.0, u.owner.value.1, u.key)))
      && ((forall k :: 0 <= k < |u.sets| ==> u.sets[k].value.Some?) ==> WritesFlat(ss[0], u))
      && ((exists k :: 0 <= k < |u.sets| && u.sets[k].value.None?) ==> ss[0].Unbound?)
  {
    var s := NodeStatement(u, Script);
    if Written(u.sets) {
      forall k | 0 <= k < |u.sets| && u.sets[k].value.value.Text?
        ensures IsFlat(Flatten(u.sets[k].value.value.text), u.sets[k].value.value.text)
      {
      }
    }
  }
}
