/** The visitor that extracts symbols from a syntax tree (scripts/index_code.py:83-208). Signatures
    are taken as given by the tree. */
module SymbolTable {
  import opened Prelude
  import opened Indexer

  datatype Syntax =
    | Import(names: seq<(string, Option<string>)>)
    | ImportFrom(source: string, names: seq<(string, Option<string>)>)
    | Function(name: string, isAsync: bool, signature: string, docstring: string, first: int, last: int,
      parts: seq<Syntax>)
    | Class(name: string, bases: seq<Base>, docstring: string, first: int, last: int, header: seq<Syntax>,
      body: seq<Syntax>)
    | Other(called: Option<string>, children: seq<Syntax>)

  /** A base class: a name, a dotted name as written, or some other expression. */
  datatype Base = Name(id: string) | Attribute(text: string) | Computed

  /** The text before the first empty line, cut at 500 characters. */
  function Summary(docstring: string): string {
    Prefix(FirstParagraph(docstring), 500)
  }

  function FirstParagraph(s: string): string {
    if |s| < 2 then s
    else if s[0] == '\n' && s[1] == '\n' then ""
    else [s[0]] + FirstParagraph(s[1..])
  }

  /** The nodes directly below a node. */
  function Children(t: Syntax): (ts: seq<Syntax>)
    ensures forall i :: 0 <= i < |ts| ==> ts[i] < t
  {
    match t
    case Import(_) => []
    case ImportFrom(_, _) => []
    case Function(_, _, _, _, _, _, parts) => parts
    case Class(_, _, _, _, _, header, body) => header + body
    case Other(_, children) => children
  }

  /** The name a node itself calls: only calls of a plain or dotted name have one. */
  function CalledBy(t: Syntax): set<string> {
    if t.Other? && t.called.Some? then {t.called.value} else {}
  }

  /** Every name called in a node or anywhere below it. */
  ghost function CallsIn(t: Syntax): set<string>
    decreases t, 0
  {
    CalledBy(t) + CallsBelow(t, |Children(t)|)
  }

  ghost function CallsBelow(t: Syntax, n: nat): set<string>
    requires n <= |Children(t)|
    decreases t, 0, n
  {
    if n == 0 then {} else CallsBelow(t, n - 1) + CallsIn(Children(t)[n - 1])
  }

  ghost function Size(t: Syntax): (s: nat)
    ensures s > 0
    decreases t, 0
  {
    1 + SizeBelow(t, |Children(t)|)
  }

  ghost function SizeBelow(t: Syntax, n: nat): nat
    requires n <= |Children(t)|
    decreases t, 0, n
  {
    if n == 0 then 0 else SizeBelow(t, n - 1) + Size(Children(t)[n - 1])
  }

  ghost function CallsAmong(ts: seq<Syntax>): set<string> {
    if ts == [] then {} else CallsAmong(ts[..|ts| - 1]) + CallsIn(ts[|ts| - 1])
  }

  ghost function SizeAmong(ts: seq<Syntax>): nat {
    if ts == [] then 0 else SizeAmong(ts[..|ts| - 1]) + Size(ts[|ts| - 1])
  }

  lemma {:induction false} AmongQueue(a: seq<Syntax>, b: seq<Syntax>)
    ensures CallsAmong(a + b) == CallsAmong(a) + CallsAmong(b) && SizeAmong(a + b) == SizeAmong(a) + SizeAmong(b)
  {
    if b == [] {
      assert a + b == a;
    } else {
      assert (a + b)[..|a + b| - 1] == a + b[..|b| - 1];
      AmongQueue(a, b[..|b| - 1]);
      hide CallsIn, Size;
    }
  }

  lemma {:induction false} AmongChildren(t: Syntax, n: nat)
    requires n <= |Children(t)|
    ensures CallsAmong(Children(t)[..n]) == CallsBelow(t, n) && SizeAmong(Children(t)[..n]) == SizeBelow(t, n)
  {
    if n == 0 {
    } else {
      AmongChildren(t, n - 1);
      assert Children(t)[..n][..n - 1] == Children(t)[..n - 1];
      hide CallsIn, Size;
    }
  }

  /** One node taken off the queue, and the nodes below it added. */
  lemma {:induction false} QueueStep(queue: seq<Syntax>)
    requires queue != []
    ensures var t, rest := queue[0], queue[1..];
      && CallsAmong(queue) == CalledBy(t) + CallsAmong(rest + Children(t))
      && SizeAmong(queue) == 1 + SizeAmong(rest + Children(t))
  {
    var t, rest := queue[0], queue[1..];
    assert queue == [t] + rest && [t][..0] == [];
    AmongQueue([t], rest);
    AmongQueue(rest, Children(t));
    AmongChildren(t, |Children(t)|);
    assert Children(t)[..|Children(t)|] == Children(t);
    assert CallsAmong([t]) == CallsIn(t) && SizeAmong([t]) == Size(t);
    hide CallsAmong, SizeAmong, CallsBelow, SizeBelow, Children, CalledBy;
  }

  /** `_find_calls`: walks everything below a node, breadth first. */
  method FindCalls(t: Syntax) returns (calls: set<string>)
    ensures calls == CallsIn(t)
  {
    hide Children, CallsIn;
    var queue := [t];
    calls := {};
    AmongQueue([], [t]);
    assert [] + [t] == [t] && [t][..0] == [];
    while queue != []
      invariant CallsIn(t) == calls + CallsAmong(queue)
      decreases SizeAmong(queue)
    {
      QueueStep(queue);
      var node := queue[0];
      queue := queue[1..] + Children(node);
      if node.Other? && node.called.Some? {
        calls := calls + {node.called.value};
      }
    }
  }

  /** The base classes that are names, among the first `n`. */
  function BasesOf(bases: seq<Base>, n: nat): seq<string>
    requires n <= |bases|
  {
    if n == 0 then []
    else
      BasesOf(bases, n - 1) +
        (match bases[n - 1]
         case Name(id) => [id]
         case Attribute(text) => [text]
         case Computed => [])
  }

  function Qualify(scope: string, name: string): string {
    scope + "." + name
  }

  ghost function FunctionOf(scope: string, f: Syntax): FunctionDef
    requires f.Function?
  {
    FunctionDef(f.name, Qualify(scope, f.name), f.signature, Summary(f.docstring), f.first, f.last, f.isAsync,
      CallsIn(f))
  }

  /** The functions defined directly in a class body, among its first `n` items. */
  ghost function MethodsOf(scope: string, body: seq<Syntax>, n: nat): seq<FunctionDef>
    requires n <= |body|
  {
    if n == 0 then []
    else MethodsOf(scope, body, n - 1) + (if body[n - 1].Function? then [FunctionOf(scope, body[n - 1])] else [])
  }

  ghost function ClassOf(scope: string, c: Syntax): ClassDef
    requires c.Class?
  {
    var q := Qualify(scope, c.name);
    ClassDef(c.name, q, Summary(c.docstring), c.first, c.last, BasesOf(c.bases, |c.bases|),
      MethodsOf(q, c.body, |c.body|))
  }

  /** The imports and definitions that no class or function encloses, in order. */
  function TopLevel(t: Syntax): seq<Syntax>
    decreases t, 0
  {
    if t.Other? then TopLevelOf(t.children, |t.children|) else [t]
  }

  function TopLevelOf(ts: seq<Syntax>, n: nat): seq<Syntax>
    requires n <= |ts|
    decreases ts, n
  {
    if n == 0 then [] else TopLevelOf(ts, n - 1) + TopLevel(ts[n - 1])
  }

  ghost function FunctionsAmong(scope: string, ds: seq<Syntax>): seq<FunctionDef> {
    if ds == [] then []
    else
      var n := |ds| - 1;
      FunctionsAmong(scope, ds[..n]) + (if ds[n].Function? then [FunctionOf(scope, ds[n])] else [])
  }

  ghost function ClassesAmong(scope: string, ds: seq<Syntax>): seq<ClassDef> {
    if ds == [] then []
    else
      var n := |ds| - 1;
      ClassesAmong(scope, ds[..n]) + (if ds[n].Class? then [ClassOf(scope, ds[n])] else [])
  }

  /** What the first `n` names of one import statement record. */
  function ImportsOf(i: Syntax, n: nat): seq<ImportDef>
    requires (i.Import? || i.ImportFrom?) && n <= |i.names|
  {
    if n == 0 then []
    else
      var (name, alias) := i.names[n - 1];
      ImportsOf(i, n - 1) +
        [if i.Import? then ImportDef(name, name, alias)
         else ImportDef(i.source, if i.source != "" then i.source + "." + name else name, alias)]
  }

  function ImportsAmong(ds: seq<Syntax>): seq<ImportDef> {
    if ds == [] then []
    else
      var n := |ds| - 1;
      ImportsAmong(ds[..n]) + (if ds[n].Import? || ds[n].ImportFrom? then ImportsOf(ds[n], |ds[n].names|) else [])
  }

  class CodeVisitor {
    const modulePrefix: string
    var classes: seq<ClassDef>
    var functions: seq<FunctionDef>
    var imports: seq<ImportDef>
    var currentClass: Option<string>

    constructor (modulePrefix: string)
      ensures this.modulePrefix == modulePrefix
      ensures classes == [] && functions == [] && imports == [] && currentClass.None?
    {
      this.modulePrefix := modulePrefix;
      classes, functions, imports, currentClass := [], [], [], None;
    }

    /** `visit`: only class bodies set the current class, and nothing is visited from inside one, so
        every visit finds it unset. */
    method Visit(t: Syntax)
      requires currentClass.None?
      modifies this
      ensures currentClass.None?
      ensures functions == old(functions) + FunctionsAmong(modulePrefix, TopLevel(t))
      ensures classes == old(classes) + ClassesAmong(modulePrefix, TopLevel(t))
      ensures imports == old(imports) + ImportsAmong(TopLevel(t))
      decreases t
    {
      hide FunctionsAmong, ClassesAmong, ImportsAmong;
      if t.Other? {
        AmongNone(modulePrefix);
        for k := 0 to |t.children|
          invariant currentClass.None?
          invariant functions == old(functions) + FunctionsAmong(modulePrefix, TopLevelOf(t.children, k))
          invariant classes == old(classes) + ClassesAmong(modulePrefix, TopLevelOf(t.children, k))
          invariant imports == old(imports) + ImportsAmong(TopLevelOf(t.children, k))
        {
          Visit(t.children[k]);
          AmongConcat(modulePrefix, TopLevelOf(t.children, k), TopLevel(t.children[k]));
        }
      } else {
        AmongOne(modulePrefix, t);
        if t.Class? {
          VisitClass(t);
        } else if t.Function? {
          if currentClass.None? {
            var f := ExtractFunction(t);
            functions := functions + [f];
          }
        } else {
          VisitImport(t);
        }
      }
    }

    /** `visit_Import` and `visit_ImportFrom`. */
    method VisitImport(t: Syntax)
      requires t.Import? || t.ImportFrom?
      modifies this
      ensures functions == old(functions) && classes == old(classes) && currentClass == old(currentClass)
      ensures imports == old(imports) + ImportsOf(t, |t.names|)
    {
      for k := 0 to |t.names|
        invariant functions == old(functions) && classes == old(classes) && currentClass == old(currentClass)
        invariant imports == old(imports) + ImportsOf(t, k)
      {
        var (name, alias) := t.names[k];
        if t.Import? {
          imports := imports + [ImportDef(name, name, alias)];
        } else {
          var full := if t.source != "" then t.source + "." + name else name;
          imports := imports + [ImportDef(t.source, full, alias)];
        }
      }
    }

    /** `visit_ClassDef`. */
    method VisitClass(t: Syntax)
      requires t.Class? && currentClass.None?
      modifies this
      ensures currentClass.None? && functions == old(functions) && imports == old(imports)
      ensures classes == old(classes) + [ClassOf(modulePrefix, t)]
    {
      var qualifiedName := Qualify(modulePrefix, t.name);
      var bases := [];
      for k := 0 to |t.bases|
        invariant functions == old(functions) && classes == old(classes) && imports == old(imports)
          && currentClass.None?
        invariant bases == BasesOf(t.bases, k)
      {
        match t.bases[k] {
          case Name(id) => bases := bases + [id];
          case Attribute(text) => bases := bases + [text];
          case Computed =>
        }
      }
      var methodDefs := [];
      var oldClass := currentClass;
      currentClass := Some(qualifiedName);
      for k := 0 to |t.body|
        invariant currentClass == Some(qualifiedName)
        invariant functions == old(functions) && classes == old(classes) && imports == old(imports)
        invariant methodDefs == MethodsOf(qualifiedName, t.body, k)
      {
        if t.body[k].Function? {
          var m := ExtractFunction(t.body[k]);
          methodDefs := methodDefs + [m];
        }
      }
      currentClass := oldClass;
      classes := classes + [ClassDef(t.name, qualifiedName, Summary(t.docstring), t.first, t.last, bases, methodDefs)];
    }

    /** `_extract_function`: qualified by the current class if there is one. */
    method ExtractFunction(t: Syntax) returns (f: FunctionDef)
      requires t.Function?
      ensures f == FunctionOf(if currentClass.Some? then currentClass.value else modulePrefix, t)
    {
      var scope := if currentClass.Some? then currentClass.value else modulePrefix;
      var calls := FindCalls(t);
      f := FunctionDef(t.name, Qualify(scope, t.name), t.signature, Summary(t.docstring), t.first, t.last,
        t.isAsync, calls);
    }
  }

  lemma {:induction false} AmongNone(scope: string)
    ensures FunctionsAmong(scope, []) == [] && ClassesAmong(scope, []) == [] && ImportsAmong([]) == []
  {
  }

  lemma {:induction false} AmongOne(scope: string, t: Syntax)
    ensures FunctionsAmong(scope, [t]) == if t.Function? then [FunctionOf(scope, t)] else []
    ensures ClassesAmong(scope, [t]) == if t.Class? then [ClassOf(scope, t)] else []
    ensures ImportsAmong([t]) == if t.Import? || t.ImportFrom? then ImportsOf(t, |t.names|) else []
  {
    assert [t][..0] == [];
  }

  lemma {:induction false} FunctionsSnoc(scope: string, ds: seq<Syntax>, d: Syntax)
    ensures FunctionsAmong(scope, ds + [d]) == FunctionsAmong(scope, ds) + FunctionsAmong(scope, [d])
  {
    assert (ds + [d])[..|ds|] == ds && [d][..0] == [];
    hide FunctionOf, ClassOf, ImportsOf;
  }

  lemma {:induction false} FunctionsConcat(scope: string, a: seq<Syntax>, b: seq<Syntax>)
    ensures FunctionsAmong(scope, a + b) == FunctionsAmong(scope, a) + FunctionsAmong(scope, b)
  {
    if b == [] {
      assert a + b == a;
    } else {
      var front, last := b[..|b| - 1], b[|b| - 1];
      FunctionsConcat(scope, a, front);
      FunctionsSnoc(scope, a + front, last);
      FunctionsSnoc(scope, front, last);
      assert b == front + [last] && a + b == (a + front) + [last];
      ConcatAssociative(FunctionsAmong(scope, a), FunctionsAmong(scope, front), FunctionsAmong(scope, [last]));
      hide *;
    }
  }

  lemma {:induction false} ClassesSnoc(scope: string, ds: seq<Syntax>, d: Syntax)
    ensures ClassesAmong(scope, ds + [d]) == ClassesAmong(scope, ds) + ClassesAmong(scope, [d])
  {
    assert (ds + [d])[..|ds|] == ds && [d][..0] == [];
    hide FunctionOf, ClassOf, ImportsOf;
  }

  lemma {:induction false} ClassesConcat(scope: string, a: seq<Syntax>, b: seq<Syntax>)
    ensures ClassesAmong(scope, a + b) == ClassesAmong(scope, a) + ClassesAmong(scope, b)
  {
    if b == [] {
      assert a + b == a;
    } else {
      var front, last := b[..|b| - 1], b[|b| - 1];
      ClassesConcat(scope, a, front);
      ClassesSnoc(scope, a + front, last);
      ClassesSnoc(scope, front, last);
      assert b == front + [last] && a + b == (a + front) + [last];
      ConcatAssociative(ClassesAmong(scope, a), ClassesAmong(scope, front), ClassesAmong(scope, [last]));
      hide *;
    }
  }

  lemma {:induction false} ImportsSnoc(ds: seq<Syntax>, d: Syntax)
    ensures ImportsAmong(ds + [d]) == ImportsAmong(ds) + ImportsAmong([d])
  {
    assert (ds + [d])[..|ds|] == ds && [d][..0] == [];
    hide FunctionOf, ClassOf, ImportsOf;
  }

  lemma {:induction false} ImportsConcat(a: seq<Syntax>, b: seq<Syntax>)
    ensures ImportsAmong(a + b) == ImportsAmong(a) + ImportsAmong(b)
  {
    if b == [] {
      assert a + b == a;
    } else {
      var front, last := b[..|b| - 1], b[|b| - 1];
      ImportsConcat(a, front);
      ImportsSnoc(a + front, last);
      ImportsSnoc(front, last);
      assert b == front + [last] && a + b == (a + front) + [last];
      ConcatAssociative(ImportsAmong(a), ImportsAmong(front), ImportsAmong([last]));
      hide *;
    }
  }

  lemma {:induction false} AmongConcat(scope: string, a: seq<Syntax>, b: seq<Syntax>)
    ensures FunctionsAmong(scope, a + b) == FunctionsAmong(scope, a) + FunctionsAmong(scope, b)
    ensures ClassesAmong(scope, a + b) == ClassesAmong(scope, a) + ClassesAmong(scope, b)
    ensures ImportsAmong(a + b) == ImportsAmong(a) + ImportsAmong(b)
  {
    FunctionsConcat(scope, a, b);
    ClassesConcat(scope, a, b);
    ImportsConcat(a, b);
    hide *;
  }

  // ----- what is recorded -----------------------------------------------

  /** `u` is `t` or occurs in it: in a function's parts, a class's header or body, or below any other
      node. */
  ghost predicate OccursIn(u: Syntax, t: Syntax) {
    u == t ||
    match t
    case Import(_) => false
    case ImportFrom(_, _) => false
    case Function(_, _, _, _, _, _, parts) => exists k :: 0 <= k < |parts| && OccursIn(u, parts[k])
    case Class(_, _, _, _, _, header, body) =>
      || (exists k :: 0 <= k < |header| && OccursIn(u, header[k]))
      || (exists k :: 0 <= k < |body| && OccursIn(u, body[k]))
    case Other(_, children) => exists k :: 0 <= k < |children| && OccursIn(u, children[k])
  }

  /** Some call that occurs in `t` calls this name. */
  ghost predicate Calls(t: Syntax, name: string) {
    exists u :: OccursIn(u, t) && u.Other? && u.called == Some(name)
  }

  lemma {:induction false} OccursBelow(u: Syntax, t: Syntax)
    ensures OccursIn(u, t) <==> u == t || exists k :: 0 <= k < |Children(t)| && OccursIn(u, Children(t)[k])
  {
    if t.Class? {
      var header, body := t.header, t.body;
      if k :| 0 <= k < |header| && OccursIn(u, header[k]) {
        assert Children(t)[k] == header[k];
      }
      if k :| 0 <= k < |body| && OccursIn(u, body[k]) {
        assert Children(t)[|header| + k] == body[k];
      }
      if k :| 0 <= k < |Children(t)| && OccursIn(u, Children(t)[k]) {
        assert if k < |header| then Children(t)[k] == header[k] else Children(t)[k] == body[k - |header|];
      }
    } else {
      match t
      case Import(_) =>
      case ImportFrom(_, _) =>
      case Function(_, _, _, _, _, _, parts) => assert Children(t) == parts;
      case Other(_, children) => assert Children(t) == children;
    }
  }

  lemma {:induction false} CallsBelowIff(t: Syntax, n: nat, name: string)
    requires n <= |Children(t)|
    ensures name in CallsBelow(t, n) <==> exists k :: 0 <= k < n && Calls(Children(t)[k], name)
    decreases t, 0, n
  {
    if n == 0 {
    } else {
      CallsBelowIff(t, n - 1, name);
      CallsInIff(Children(t)[n - 1], name);
    }
    hide Calls, CallsIn;
  }

  /** The names found in a definition are exactly those some call that occurs in it calls. */
  lemma {:induction false} CallsInIff(t: Syntax, name: string)
    ensures name in CallsIn(t) <==> Calls(t, name)
    decreases t, 0, |Children(t)| + 1
  {
    var ts := Children(t);
    CallsBelowIff(t, |ts|, name);
    if u :| OccursIn(u, t) && u.Other? && u.called == Some(name) {
      OccursBelow(u, t);
      if u != t {
        var k :| 0 <= k < |ts| && OccursIn(u, ts[k]);
        assert Calls(ts[k], name);
      }
    }
    if k :| 0 <= k < |ts| && Calls(ts[k], name) {
      var u :| OccursIn(u, ts[k]) && u.Other? && u.called == Some(name);
      OccursBelow(u, t);
    }
    OccursBelow(t, t);
  }

  /** No two line breaks in a row. */
  ghost predicate OneParagraph(s: string) {
    forall i :: 0 <= i < |s| - 1 ==> s[i] != '\n' || s[i + 1] != '\n'
  }

  /** `r` is the first paragraph of a docstring, cut at 500 characters. */
  ghost predicate IsSummary(r: string, docstring: string) {
    && r <= docstring && |r| <= 500 && OneParagraph(r)
    && (|r| < 500 ==> r == docstring || "\n\n" <= docstring[|r|..])
  }

  lemma {:induction false} FirstParagraphEnds(s: string)
    ensures var r := FirstParagraph(s);
      r <= s && OneParagraph(r) && (r == s || "\n\n" <= s[|r|..])
  {
    if |s| < 2 || (s[0] == '\n' && s[1] == '\n') {
    } else {
      var rest := FirstParagraph(s[1..]);
      FirstParagraphEnds(s[1..]);
      assert s == [s[0]] + s[1..];
      assert rest != "" ==> rest[0] == s[1];
      assert ([s[0]] + rest)[1..] == rest && s[1 + |rest|..] == s[1..][|rest|..];
    }
  }

  lemma {:induction false} SummaryIsSummary(docstring: string)
    ensures IsSummary(Summary(docstring), docstring)
  {
    FirstParagraphEnds(docstring);
  }

  /** What is recorded of a function or method, in terms of its definition. */
  ghost predicate RecordsFunction(r: FunctionDef, scope: string, f: Syntax) {
    && f.Function?
    && r.name == f.name && r.qualifiedName == scope + "." + f.name && r.signature == f.signature
    && IsSummary(r.docstring, f.docstring) && r.lineStart == f.first && r.lineEnd == f.last
    && r.isAsync == f.isAsync && forall name :: name in r.calls <==> Calls(f, name)
  }

  /** `rs` records exactly the functions among `ds`, in order. */
  ghost predicate RecordsFunctions(rs: seq<FunctionDef>, scope: string, ds: seq<Syntax>) {
    if ds == [] then rs == []
    else
      var n := |ds| - 1;
      if ds[n].Function? then
        rs != [] && RecordsFunction(rs[|rs| - 1], scope, ds[n]) && RecordsFunctions(rs[..|rs| - 1], scope, ds[..n])
      else RecordsFunctions(rs, scope, ds[..n])
  }

  /** The base classes that have a name, as written. */
  ghost predicate RecordsBases(rs: seq<string>, bases: seq<Base>) {
    if bases == [] then rs == []
    else
      var n := |bases| - 1;
      if bases[n].Computed? then RecordsBases(rs, bases[..n])
      else
        && rs != [] && RecordsBases(rs[..|rs| - 1], bases[..n])
        && (bases[n] == Name(rs[|rs| - 1]) || bases[n] == Attribute(rs[|rs| - 1]))
  }

  /** What is recorded of a class: its methods are the functions its body holds directly. */
  ghost predicate RecordsClass(r: ClassDef, scope: string, c: Syntax) {
    && c.Class?
    && r.name == c.name && r.qualifiedName == scope + "." + c.name && IsSummary(r.docstring, c.docstring)
    && r.lineStart == c.first && r.lineEnd == c.last && RecordsBases(r.bases, c.bases)
    && RecordsFunctions(r.methodDefs, scope + "." + c.name, c.body)
  }

  ghost predicate RecordsClasses(rs: seq<ClassDef>, scope: string, ds: seq<Syntax>) {
    if ds == [] then rs == []
    else
      var n := |ds| - 1;
      if ds[n].Class? then
        rs != [] && RecordsClass(rs[|rs| - 1], scope, ds[n]) && RecordsClasses(rs[..|rs| - 1], scope, ds[..n])
      else RecordsClasses(rs, scope, ds[..n])
  }

  lemma {:induction false} FunctionIsRecorded(scope: string, f: Syntax)
    requires f.Function?
    ensures RecordsFunction(FunctionOf(scope, f), scope, f)
  {
    SummaryIsSummary(f.docstring);
    forall name ensures name in CallsIn(f) <==> Calls(f, name) {
      CallsInIff(f, name);
    }
    hide Summary, IsSummary, CallsIn, Calls;
  }

  lemma {:induction false} FunctionsAreRecorded(scope: string, ds: seq<Syntax>)
    ensures RecordsFunctions(FunctionsAmong(scope, ds), scope, ds)
  {
    if ds == [] {
    } else {
      var n := |ds| - 1;
      FunctionsAreRecorded(scope, ds[..n]);
      if ds[n].Function? {
        FunctionIsRecorded(scope, ds[n]);
      }
      var past, all := FunctionsAmong(scope, ds[..n]), FunctionsAmong(scope, ds);
      assert if ds[n].Function? then all[..|all| - 1] == past else all == past;
      hide FunctionOf, RecordsFunction;
    }
  }

  lemma {:induction false} MethodsAreAmong(scope: string, body: seq<Syntax>, n: nat)
    requires n <= |body|
    ensures MethodsOf(scope, body, n) == FunctionsAmong(scope, body[..n])
  {
    if n == 0 {
    } else {
      MethodsAreAmong(scope, body, n - 1);
      assert body[..n][..n - 1] == body[..n - 1];
    }
    hide FunctionOf;
  }

  lemma {:induction false} BasesAreRecorded(bases: seq<Base>, n: nat)
    requires n <= |bases|
    ensures RecordsBases(BasesOf(bases, n), bases[..n])
  {
    if n == 0 {
    } else {
      var past, r := BasesOf(bases, n - 1), BasesOf(bases, n);
      BasesAreRecorded(bases, n - 1);
      assert bases[..n][..n - 1] == bases[..n - 1];
      assert if bases[n - 1].Computed? then r == past else r[..|r| - 1] == past;
    }
  }

  lemma {:induction false} ClassIsRecorded(scope: string, c: Syntax)
    requires c.Class?
    ensures RecordsClass(ClassOf(scope, c), scope, c)
  {
    var q := scope + "." + c.name;
    SummaryIsSummary(c.docstring);
    BasesAreRecorded(c.bases, |c.bases|);
    MethodsAreAmong(q, c.body, |c.body|);
    FunctionsAreRecorded(q, c.body);
    assert c.bases[..|c.bases|] == c.bases && c.body[..|c.body|] == c.body;
    hide Summary, IsSummary, RecordsBases, BasesOf, MethodsOf, FunctionsAmong, RecordsFunctions;
  }

  lemma {:induction false} ClassesAreRecorded(scope: string, ds: seq<Syntax>)
    ensures RecordsClasses(ClassesAmong(scope, ds), scope, ds)
  {
    if ds == [] {
    } else {
      var n := |ds| - 1;
      ClassesAreRecorded(scope, ds[..n]);
      if ds[n].Class? {
        ClassIsRecorded(scope, ds[n]);
      }
      var past, all := ClassesAmong(scope, ds[..n]), ClassesAmong(scope, ds);
      assert if ds[n].Class? then all[..|all| - 1] == past else all == past;
      hide ClassOf, RecordsClass;
    }
  }

  /** A definition or import that occurs in `t` outside of all classes and functions. */
  ghost predicate OccursFreely(u: Syntax, t: Syntax) {
    if t.Other? then exists k :: 0 <= k < |t.children| && OccursFreely(u, t.children[k]) else u == t
  }

  lemma {:induction false} TopLevelIff(u: Syntax, t: Syntax)
    ensures u in TopLevel(t) <==> OccursFreely(u, t)
    decreases t, 0
  {
    if t.Other? {
      TopLevelOfIff(u, t.children, |t.children|);
    }
  }

  lemma {:induction false} TopLevelOfIff(u: Syntax, ts: seq<Syntax>, n: nat)
    requires n <= |ts|
    ensures u in TopLevelOf(ts, n) <==> exists k :: 0 <= k < n && OccursFreely(u, ts[k])
    decreases ts, n
  {
    hide TopLevel, OccursFreely;
    if n == 0 {
    } else {
      TopLevelOfIff(u, ts, n - 1);
      TopLevelIff(u, ts[n - 1]);
    }
  }

  lemma {:induction false} TopLevelOfConcat(a: seq<Syntax>, b: seq<Syntax>, n: nat)
    requires n <= |b|
    ensures TopLevelOf(a + b, |a| + n) == TopLevelOf(a, |a|) + TopLevelOf(b, n)
  {
    hide TopLevel;
    if n == 0 {
      TopLevelOfPrefix(a, b, |a|);
    } else {
      TopLevelOfConcat(a, b, n - 1);
      assert (a + b)[|a| + n - 1] == b[n - 1];
      ConcatAssociative(TopLevelOf(a, |a|), TopLevelOf(b, n - 1), TopLevel(b[n - 1]));
    }
  }

  lemma {:induction false} TopLevelOfPrefix(a: seq<Syntax>, b: seq<Syntax>, n: nat)
    requires n <= |a|
    ensures TopLevelOf(a + b, n) == TopLevelOf(a, n)
  {
    if n == 0 {
    } else {
      TopLevelOfPrefix(a, b, n - 1);
    }
    hide TopLevel;
  }

  /** They are listed in the order of the source text. */
  lemma {:induction false} TopLevelInOrder(called: Option<string>, a: seq<Syntax>, b: seq<Syntax>)
    ensures TopLevel(Other(called, a + b)) == TopLevel(Other(called, a)) + TopLevel(Other(called, b))
    ensures forall t :: TopLevel(Other(called, [t])) == TopLevel(t)
  {
    TopLevelOfConcat(a, b, |b|);
    forall t ensures TopLevelOf([t], 1) == TopLevel(t) {
      assert TopLevelOf([t], 0) == [] && [t][0] == t;
    }
  }

  /** One import statement records each of its names, with the module it comes from. */
  lemma {:induction false} ImportsAreRecorded(i: Syntax, n: nat, k: nat)
    requires (i.Import? || i.ImportFrom?) && k < n <= |i.names|
    ensures |ImportsOf(i, n)| == n
    ensures var (name, alias), r := i.names[k], ImportsOf(i, n)[k];
      && r.alias == alias
      && (i.Import? ==> r.moduleName == r.qualifiedName == name)
      && (i.ImportFrom? ==> r.moduleName == i.source)
      && (i.ImportFrom? && i.source != "" ==> r.qualifiedName == i.source + "." + name)
      && (i.ImportFrom? && i.source == "" ==> r.qualifiedName == name)
  {
    if k < n - 1 {
      ImportsAreRecorded(i, n - 1, k);
    } else {
      ImportsCount(i, n - 1);
    }
  }

  lemma {:induction false} ImportsCount(i: Syntax, n: nat)
    requires (i.Import? || i.ImportFrom?) && n <= |i.names|
    ensures |ImportsOf(i, n)| == n
  {
    if n == 0 {
    } else {
      ImportsCount(i, n - 1);
    }
  }

  // ----- qualified names -------------------------------------------------

  /** A name with no dot can be read off the end of a qualified name. */
  lemma {:induction false} LastNameUnique(scope: string, name: string, scope': string, name': string)
    requires '.' !in name && '.' !in name'
    requires Qualify(scope, name) == Qualify(scope', name')
    ensures scope == scope' && name == name'
  {
    var q, q' := Qualify(scope, name), Qualify(scope', name');
    assert |q| == |q'| && q[|scope|] == '.' && q'[|scope'|] == '.';
    assert q[..|scope|] == scope && q'[..|scope'|] == scope';
    assert q[|scope| + 1..] == name && q'[|scope'| + 1..] == name';
  }

  /** `str(path).replace(os.sep, ".")` of a path without its suffix. */
  function ModulePrefix(path: seq<string>): string
    requires path != []
  {
    var n := |path| - 1;
    if n == 0 then path[0] else Qualify(ModulePrefix(path[..n]), path[n])
  }

  /** `parse_file`, given the file's tree and its path from the base directory, without suffix. */
  method ParseFile(parts: seq<string>, tree: Syntax, path: string, name: string, lines: int) returns (f: FileDef)
    requires parts != []
    ensures f.path == path && f.name == name && f.language == "python" && f.lines == lines
    ensures RecordsFunctions(f.functions, ModulePrefix(parts), TopLevel(tree))
    ensures RecordsClasses(f.classes, ModulePrefix(parts), TopLevel(tree))
    ensures f.imports == ImportsAmong(TopLevel(tree))
  {
    hide FunctionsAmong, ClassesAmong, ImportsAmong, RecordsFunctions, RecordsClasses, TopLevel;
    var visitor := new CodeVisitor(ModulePrefix(parts));
    visitor.Visit(tree);
    ghost var functions := FunctionsAmong(ModulePrefix(parts), TopLevel(tree));
    ghost var classes := ClassesAmong(ModulePrefix(parts), TopLevel(tree));
    assert [] + functions == functions && [] + classes == classes;
    FunctionsAreRecorded(ModulePrefix(parts), TopLevel(tree));
    ClassesAreRecorded(ModulePrefix(parts), TopLevel(tree));
    f := FileDef(path, name, "python", lines, visitor.classes, visitor.functions, visitor.imports);
  }

  /** The dotted names a path is made of: its parts, split at the dots they hold themselves. */
  function Names(path: seq<string>): (names: seq<string>)
    requires path != []
    ensures names != []
  {
    var n := |path| - 1;
    if n == 0 then Split(path[0], '.') else Names(path[..n]) + Split(path[n], '.')
  }

  lemma {:induction false} SplitPrefix(path: seq<string>)
    requires path != []
    ensures Split(ModulePrefix(path), '.') == Names(path)
  {
    var n := |path| - 1;
    if n == 0 {
    } else {
      SplitPrefix(path[..n]);
      SplitConcat(ModulePrefix(path[..n]), path[n], '.');
      assert Qualify(ModulePrefix(path[..n]), path[n]) == ModulePrefix(path[..n]) + ['.'] + path[n];
    }
  }

  lemma {:induction false} JoinSplit(s: string)
    ensures ModulePrefix(Split(s, '.')) == s
  {
    if s == "" {
    } else {
      var n := |s| - 1;
      var parts := Split(s[..n], '.');
      var m := |parts| - 1;
      JoinSplit(s[..n]);
      if s[n] == '.' {
        assert (parts + [""])[..m + 1] == parts;
      } else {
        assert Split(s, '.')[..m] == parts[..m];
      }
      assert s == s[..n] + [s[n]];
    }
  }

  /** Two paths give the same prefix exactly if they are made of the same names. */
  lemma {:induction false} PrefixesEqualIff(p: seq<string>, q: seq<string>)
    requires p != [] && q != []
    ensures ModulePrefix(p) == ModulePrefix(q) <==> Names(p) == Names(q)
  {
    SplitPrefix(p);
    SplitPrefix(q);
    JoinSplit(ModulePrefix(p));
    JoinSplit(ModulePrefix(q));
  }

  /** Functions and methods of all files get keys from one space of dotted names: two functions share
      one exactly if they have the same name in files of the same names, two methods if their classes
      do too, and a function and a method of its name if the function's file is named after the
      method's class and lies in a directory named after its file. */
  lemma {:induction false} FunctionKeysCollideIff(p: seq<string>, c: Syntax, f: Syntax, q: seq<string>, d: Syntax,
        g: Syntax)
    requires p != [] && q != []
    requires c.Class? && d.Class? && f.Function? && g.Function?
    requires '.' !in c.name && '.' !in d.name && '.' !in f.name && '.' !in g.name
    ensures FunctionOf(ModulePrefix(p), f).qualifiedName == FunctionOf(ModulePrefix(q), g).qualifiedName
      <==> Names(p) == Names(q) && f.name == g.name
    ensures FunctionOf(Qualify(ModulePrefix(p), c.name), f).qualifiedName
              == FunctionOf(Qualify(ModulePrefix(q), d.name), g).qualifiedName
      <==> Names(p) == Names(q) && c.name == d.name && f.name == g.name
    ensures FunctionOf(Qualify(ModulePrefix(p), c.name), f).qualifiedName ==
      FunctionOf(ModulePrefix(q), g).qualifiedName
      <==> Names(q) == Names(p) + [c.name] && f.name == g.name
  {
    var inC, inD := p + [c.name], q + [d.name];
    NamesOfInner(p, c.name);
    NamesOfInner(q, d.name);
    KeysOfPaths(p, f.name, q, g.name);
    KeysOfPaths(inC, f.name, inD, g.name);
    KeysOfPaths(inC, f.name, q, g.name);
    assert Names(p) + [c.name] == Names(q) + [d.name] <==> Names(p) == Names(q) && c.name == d.name by {
      assert (Names(p) + [c.name])[..|Names(p)|] == Names(p) && (Names(q) + [d.name])[..|Names(q)|] == Names(q);
    }
    hide Names, ModulePrefix;
  }

  lemma {:induction false} NamesOfInner(path: seq<string>, name: string)
    requires path != [] && '.' !in name
    ensures Names(path + [name]) == Names(path) + [name]
    ensures ModulePrefix(path + [name]) == Qualify(ModulePrefix(path), name)
  {
    SplitWithout(name, '.');
    assert (path + [name])[..|path|] == path;
  }

  lemma {:induction false} KeysOfPaths(p: seq<string>, name: string, q: seq<string>, name': string)
    requires p != [] && q != [] && '.' !in name && '.' !in name'
    ensures Qualify(ModulePrefix(p), name) == Qualify(ModulePrefix(q), name') <==> Names(p) == Names(q) && name == name'
  {
    PrefixesEqualIff(p, q);
    if Qualify(ModulePrefix(p), name) == Qualify(ModulePrefix(q), name') {
      LastNameUnique(ModulePrefix(p), name, ModulePrefix(q), name');
    }
    hide Names, ModulePrefix;
  }
}
