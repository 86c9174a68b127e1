/** The bundled code parser, from a syntax tree on: entities, their edges, and the edges between tests and code. */
module CodeParser {
  import opened Text
  import opened Wrappers

  datatype Expr = Name(id: string) | Attribute(value: Expr, attr: string) | Call(callee: Expr, args: seq<Expr>)
    | Str(text: string) | OtherExpr

  /** A function definition; `calls` are the callees of the calls walked inside it. */
  datatype Func = Func(name: string, decorators: seq<Expr>, calls: seq<Expr>)

  datatype Node = Class(name: string, bases: seq<Expr>, methods: seq<Func>) | Function(func: Func)
    | Import(modules: seq<string>) | ImportFrom(mod: Option<string>) | OtherNode

  datatype EntityKind = ModuleKind | ClassKind | FunctionKind | RouteKind | TestKind
  datatype Entity = Entity(repo: string, file: string, name: string, kind: EntityKind) {
    function Id(): string {
      "code::" + repo + "::" + file + "::" + name
    }
  }

  datatype EdgeKind = DEFINES | IMPORTS | CALLS | INHERITS | TESTS
  datatype Edge = Edge(source: string, target: string, kind: EdgeKind)
  datatype Parsed = Parsed(entities: seq<Entity>, edges: seq<Edge>)

  function Ids(entities: seq<Entity>): set<string> {
    set e | e in entities :: e.Id()
  }

  /** The edges of one kind, in order. */
  function Of(edges: seq<Edge>, kind: EdgeKind): seq<Edge> {
    if edges == [] then [] else (if edges[0].kind == kind then [edges[0]] else []) + Of(edges[1..], kind)
  }

  // ------------------------------------------------------------------ names

  predicate StartsWith(s: string, prefix: string) {
    prefix <= s
  }

  function NameOf(e: Expr): string {
    match e
    case Name(id) => id
    case Attribute(value, attr) => NameOf(value) + "." + attr
    case _ => ""
  }

  function CalleeName(callee: Expr): string {
    match callee
    case Name(id) => id
    case Attribute(_, attr) => attr
    case _ => ""
  }

  const ROUTER_METHODS := ["get", "post", "put", "delete", "patch", "head", "options"]

  predicate IsRoute(decorator: Expr) {
    && decorator.Call? && decorator.callee.Attribute? && decorator.callee.attr in ROUTER_METHODS
    && decorator.args != [] && decorator.args[0].Str?
  }

  function KindOf(f: Func): EntityKind {
    if exists i :: 0 <= i < |f.decorators| && IsRoute(f.decorators[i]) then RouteKind
    else if StartsWith(f.name, "test_") then TestKind
    else FunctionKind
  }

  function FunctionEntity(m: Entity, f: Func, className: string): Entity {
    Entity(m.repo, m.file, if className == "" then f.name else className + "." + f.name, KindOf(f))
  }

  function ClassEntity(m: Entity, name: string): Entity {
    Entity(m.repo, m.file, name, if StartsWith(name, "Test") then TestKind else ClassKind)
  }

  // ------------------------------------------------------------------ extraction

  function CallEdges(caller: Entity, calls: seq<Expr>): seq<Edge> {
    if calls == [] then []
    else
      var name := CalleeName(calls[0]);
      (if name == "" || name[0] == '_' then [] else [Edge(caller.Id(), caller.(name := name).Id(), CALLS)])
      + CallEdges(caller, calls[1..])
  }

  function BaseEdges(c: Entity, bases: seq<Expr>): seq<Edge> {
    if bases == [] then []
    else
      (if NameOf(bases[0]) == "" then [] else [Edge(c.Id(), c.(name := NameOf(bases[0])).Id(), INHERITS)])
      + BaseEdges(c, bases[1..])
  }

  function Replace(s: string, from: char, to: char): string {
    if s == "" then "" else [if s[0] == from then to else s[0]] + Replace(s[1..], from, to)
  }

  function ImportEdge(m: Entity, target: string): Edge {
    Edge(m.Id(), Entity(m.repo, Replace(target, '.', '/') + ".py", target, ModuleKind).Id(), IMPORTS)
  }

  function ImportEdges(m: Entity, targets: seq<string>): seq<Edge> {
    if targets == [] then [] else [ImportEdge(m, targets[0])] + ImportEdges(m, targets[1..])
  }

  function WithEntity(p: Parsed, e: Entity, parent: Entity, more: seq<Edge>): Parsed {
    Parsed(p.entities + [e], p.edges + [Edge(parent.Id(), e.Id(), DEFINES)] + more)
  }

  function WithFunction(p: Parsed, f: Func, parent: Entity, className: string): Parsed {
    var e := FunctionEntity(parent, f, className);
    WithEntity(p, e, parent, CallEdges(e, f.calls))
  }

  function WithMethods(p: Parsed, fs: seq<Func>, c: Entity): Parsed
    decreases |fs|
  {
    if fs == [] then p else WithMethods(WithFunction(p, fs[0], c, c.name), fs[1..], c)
  }

  function WithNode(p: Parsed, node: Node, m: Entity): Parsed {
    match node
    case Class(name, bases, methods) =>
      var c := ClassEntity(m, name);
      WithMethods(WithEntity(p, c, m, BaseEdges(c, bases)), methods, c)
    case Function(f) => WithFunction(p, f, m, "")
    case Import(targets) => p.(edges := p.edges + ImportEdges(m, targets))
    case ImportFrom(Some(target)) => if target == "" then p else p.(edges := p.edges + [ImportEdge(m, target)])
    case _ => p
  }

  function WithNodes(p: Parsed, nodes: seq<Node>, m: Entity): Parsed
    decreases |nodes|
  {
    if nodes == [] then p else WithNodes(WithNode(p, nodes[0], m), nodes[1..], m)
  }

  // ------------------------------------------------------------------ tests

  predicate Contains(s: string, sub: string) {
    exists i :: 0 <= i <= |s| && sub <= s[i..]
  }

  function LastPart(name: string): string {
    var parts := Split(name, '.');
    parts[|parts| - 1]
  }

  /** What a test entity tests, by name. */
  function Tested(e: Entity): Option<string> {
    var base := LastPart(e.name);
    if e.kind == TestKind && Contains(e.name, "test_") && StartsWith(base, "test_") then Some(base[5..]) else None
  }

  predicate Code(e: Entity) {
    e.kind != TestKind && e.kind != ModuleKind
  }

  /** The first code entity that is named `name`, or with `dotted` whose name ends in `.name`. Entities of one
      file with one name have one id, so which of them it is does not matter. */
  function Target(entities: seq<Entity>, name: string, dotted: bool): Option<Entity> {
    if entities == [] then None
    else if Code(entities[0]) && Fits(entities[0], name, dotted) then Some(entities[0])
    else Target(entities[1..], name, dotted)
  }

  predicate Fits(e: Entity, name: string, dotted: bool) {
    if dotted then '.' in e.name && LastPart(e.name) == name else e.name == name
  }

  function TestEdge(e: Entity, entities: seq<Entity>): seq<Edge> {
    var name := Tested(e);
    if name.None? then []
    else
      var exact, dotted := Target(entities, name.value, false), Target(entities, name.value, true);
      if exact.Some? then [Edge(e.Id(), exact.value.Id(), TESTS)]
      else if dotted.Some? then [Edge(e.Id(), dotted.value.Id(), TESTS)]
      else []
  }

  function TestEdges(tests: seq<Entity>, entities: seq<Entity>): seq<Edge> {
    if tests == [] then [] else TestEdge(tests[0], entities) + TestEdges(tests[1..], entities)
  }

  function ModuleName(file: string): string {
    var dotted := RemoveSuffix(Replace(Replace(file, '/', '.'), '\\', '.'), ".py");
    RemoveSuffix(dotted, ".__init__")
  }

  function RemoveSuffix(s: string, suffix: string): string {
    if |s| >= |suffix| && s[|s| - |suffix|..] == suffix then s[..|s| - |suffix|] else s
  }

  function ModuleEntity(repo: string, file: string): Entity {
    Entity(repo, file, ModuleName(file), ModuleKind)
  }

  /** `parse_file` on a tree. */
  function Parse(repo: string, file: string, nodes: seq<Node>): Parsed {
    var m := ModuleEntity(repo, file);
    var p := WithNodes(Parsed([m], []), nodes, m);
    p.(edges := p.edges + TestEdges(p.entities, p.entities))
  }

  // ------------------------------------------------------------------ the structure of a parsed file

  lemma {:induction false} OfConcat(a: seq<Edge>, b: seq<Edge>, kind: EdgeKind)
    ensures Of(a + b, kind) == Of(a, kind) + Of(b, kind)
    decreases |a|
  {
    if a == [] {
      assert a + b == b;
    } else {
      assert (a + b)[1..] == a[1..] + b;
      OfConcat(a[1..], b, kind);
    }
  }

  /** No edge of `kind`. */
  predicate Lacks(edges: seq<Edge>, kind: EdgeKind) {
    forall i :: 0 <= i < |edges| ==> edges[i].kind != kind
  }

  lemma {:induction false} OfLacking(edges: seq<Edge>, kind: EdgeKind)
    requires Lacks(edges, kind)
    ensures Of(edges, kind) == []
    decreases |edges|
  {
    if edges != [] {
      assert Lacks(edges[1..], kind);
      OfLacking(edges[1..], kind);
    }
  }

  lemma {:induction false} CallEdgesAreCalls(caller: Entity, calls: seq<Expr>)
    ensures forall i :: 0 <= i < |CallEdges(caller, calls)| ==> CallEdges(caller, calls)[i].kind == CALLS
  {
    if calls != [] { CallEdgesAreCalls(caller, calls[1..]); }
  }

  lemma {:induction false} BaseEdgesInherit(c: Entity, bases: seq<Expr>)
    ensures forall i :: 0 <= i < |BaseEdges(c, bases)| ==> BaseEdges(c, bases)[i].kind == INHERITS
  {
    if bases != [] { BaseEdgesInherit(c, bases[1..]); }
  }

  lemma {:induction false} ImportEdgesImport(m: Entity, targets: seq<string>)
    ensures forall i :: 0 <= i < |ImportEdges(m, targets)| ==> ImportEdges(m, targets)[i].kind == IMPORTS
  {
    if targets != [] { ImportEdgesImport(m, targets[1..]); }
  }

  /** The DEFINES edges form a tree: one for each entity after the module, in order, from an earlier entity. */
  predicate Tree(p: Parsed) {
    var d := Of(p.edges, DEFINES);
    && |p.entities| == |d| + 1
    && forall i :: 0 <= i < |d| ==> d[i].target == p.entities[i + 1].Id() && d[i].source in Ids(p.entities[..i + 1])
  }

  /** Entities of one file: those with one name have one id. */
  predicate OneFile(p: Parsed) {
    forall i :: 0 <= i < |p.entities| ==> SameFile(p.entities[i], p.entities[0])
  }

  predicate SameFile(a: Entity, b: Entity) {
    a.repo == b.repo && a.file == b.file
  }

  predicate Grown(p: Parsed) {
    Tree(p) && OneFile(p) && Lacks(p.edges, TESTS)
  }

  lemma GrowEntity(p: Parsed, e: Entity, parent: Entity, more: seq<Edge>)
    requires Grown(p) && parent in p.entities && SameFile(e, parent) && Lacks(more, DEFINES) && Lacks(more, TESTS)
    ensures Grown(WithEntity(p, e, parent, more))
  {
    var q, edge := WithEntity(p, e, parent, more), Edge(parent.Id(), e.Id(), DEFINES);
    OfConcat(p.edges + [edge], more, DEFINES);
    OfConcat(p.edges, [edge], DEFINES);
    OfLacking(more, DEFINES);
    assert Of([edge], DEFINES) == [edge] by { assert [edge][1..] == []; }
    var d, d' := Of(p.edges, DEFINES), Of(q.edges, DEFINES);
    assert d' == d + [edge];
    forall i | 0 <= i < |d'|
      ensures d'[i].target == q.entities[i + 1].Id() && d'[i].source in Ids(q.entities[..i + 1])
    {
      assert i < |d| ==> q.entities[..i + 1] == p.entities[..i + 1];
      assert i == |d| ==> q.entities[..i + 1] == p.entities;
    }
  }

  lemma GrowEdges(p: Parsed, more: seq<Edge>)
    requires Grown(p) && Lacks(more, DEFINES) && Lacks(more, TESTS)
    ensures Grown(p.(edges := p.edges + more))
  {
    OfConcat(p.edges, more, DEFINES);
    OfLacking(more, DEFINES);
  }

  lemma GrowFunction(p: Parsed, f: Func, parent: Entity, className: string)
    requires Grown(p) && parent in p.entities
    ensures Grown(WithFunction(p, f, parent, className)) && p.entities <= WithFunction(p, f, parent, className).entities
  {
    hide Grown;
    var e := FunctionEntity(parent, f, className);
    CallEdgesAreCalls(e, f.calls);
    GrowEntity(p, e, parent, CallEdges(e, f.calls));
  }

  lemma {:induction false} GrowMethods(p: Parsed, fs: seq<Func>, c: Entity)
    requires Grown(p) && c in p.entities
    ensures Grown(WithMethods(p, fs, c)) && p.entities <= WithMethods(p, fs, c).entities
    decreases |fs|
  {
    hide Grown, WithFunction;
    if fs != [] {
      GrowFunction(p, fs[0], c, c.name);
      GrowMethods(WithFunction(p, fs[0], c, c.name), fs[1..], c);
    }
  }

  lemma GrowNode(p: Parsed, node: Node, m: Entity)
    requires Grown(p) && m in p.entities
    ensures Grown(WithNode(p, node, m)) && p.entities <= WithNode(p, node, m).entities
  {
    hide Grown, WithFunction, WithMethods;
    match node
    case Class(name, bases, methods) =>
      var c := ClassEntity(m, name);
      BaseEdgesInherit(c, bases);
      GrowEntity(p, c, m, BaseEdges(c, bases));
      GrowMethods(WithEntity(p, c, m, BaseEdges(c, bases)), methods, c);
    case Function(f) => GrowFunction(p, f, m, "");
    case Import(targets) =>
      ImportEdgesImport(m, targets);
      GrowEdges(p, ImportEdges(m, targets));
    case ImportFrom(Some(target)) => GrowEdges(p, [ImportEdge(m, target)]);
    case _ =>
  }

  lemma {:induction false} GrowNodes(p: Parsed, nodes: seq<Node>, m: Entity)
    requires Grown(p) && m in p.entities
    ensures Grown(WithNodes(p, nodes, m)) && p.entities <= WithNodes(p, nodes, m).entities
    decreases |nodes|
  {
    hide Grown, WithNode;
    if nodes != [] {
      GrowNode(p, nodes[0], m);
      GrowNodes(WithNode(p, nodes[0], m), nodes[1..], m);
    }
  }

  lemma {:induction false} TargetIsCode(entities: seq<Entity>, name: string, dotted: bool)
    ensures var t := Target(entities, name, dotted);
            && (t.Some? <==> exists i :: 0 <= i < |entities| && Code(entities[i]) && Fits(entities[i], name, dotted))
            && (t.Some? ==> t.value in entities && Code(t.value) && Fits(t.value, name, dotted))
  {
    hide Code, Fits;
    if entities != [] {
      TargetIsCode(entities[1..], name, dotted);
      assert forall i :: 1 <= i < |entities| ==> entities[i] == entities[1..][i - 1];
      assert forall i :: 0 <= i < |entities[1..]| ==> entities[1..][i] == entities[i + 1];
    }
  }

  /** Some code entity bears the name a test was given after, alone or as a method name. */
  predicate HasTarget(entities: seq<Entity>, name: string) {
    exists i :: 0 <= i < |entities| && Code(entities[i]) &&
      (entities[i].name == name || ('.' in entities[i].name && LastPart(entities[i].name) == name))
  }

  /** `edge` joins test `e` to a code entity named as `e` says: of exactly that name if there is one. */
  ghost predicate LinksRightly(edge: Edge, e: Entity, entities: seq<Entity>)
    requires Tested(e).Some?
  {
    exists t :: t in entities && Code(t) && edge == Edge(e.Id(), t.Id(), TESTS) &&
      Fits(t, Tested(e).value, Target(entities, Tested(e).value, false).None?)
  }

  /** A test entity gets an edge exactly when some code entity bears the name it was given after; one edge only. */
  lemma TestEdgeIff(e: Entity, entities: seq<Entity>)
    ensures var edges := TestEdge(e, entities);
            && |edges| <= 1
            && (edges != [] <==> Tested(e).Some? && HasTarget(entities, Tested(e).value))
            && (edges != [] ==> LinksRightly(edges[0], e, entities))
  {
    hide Code, Tested, LastPart;
    if Tested(e).Some? {
      TargetIsCode(entities, Tested(e).value, false);
      TargetIsCode(entities, Tested(e).value, true);
    }
  }

  lemma {:induction false} TestEdgesLink(tests: seq<Entity>, entities: seq<Entity>)
    ensures var edges := TestEdges(tests, entities);
            && |edges| <= |tests|
            && forall i :: 0 <= i < |edges| ==>
                 edges[i].kind == TESTS && edges[i].source in Ids(tests) && edges[i].target in Ids(entities)
  {
    hide TestEdge;
    if tests != [] {
      TestEdgeIff(tests[0], entities);
      TestEdgesLink(tests[1..], entities);
      assert forall e :: e in tests[1..] ==> e in tests;
    }
  }

  /** Every parsed file: the DEFINES edges are a tree over its entities, so one fewer than they; the TESTS edges are
      those of its test entities, at most one each; and both kinds stay inside the file. */
  lemma ParsedFileIsATree(repo: string, file: string, nodes: seq<Node>)
    ensures var p := Parse(repo, file, nodes);
            && Tree(p)
            && Of(p.edges, TESTS) == TestEdges(p.entities, p.entities)
            && Closed(p.edges, Ids(p.entities))
  {
    hide WithNodes, ModuleName;
    var m := ModuleEntity(repo, file);
    var start := Parsed([m], []);
    assert Grown(start);
    GrowNodes(start, nodes, m);
    var p := WithNodes(start, nodes, m);
    var tests := TestEdges(p.entities, p.entities);
    TestEdgesLink(p.entities, p.entities);
    OfConcat(p.edges, tests, DEFINES);
    OfConcat(p.edges, tests, TESTS);
    OfLacking(tests, DEFINES);
    OfLacking(p.edges, TESTS);
    OfAll(tests, TESTS);
    TreeIsClosed(Parse(repo, file, nodes));
  }

  /** The entity a top-level definition makes. */
  function Declared(node: Node, m: Entity): Entity
    requires node.Function? || node.Class?
  {
    if node.Function? then FunctionEntity(m, node.func, "") else ClassEntity(m, node.name)
  }

  lemma {:induction false} DeclaredIsThere(p: Parsed, nodes: seq<Node>, m: Entity, i: nat)
    requires Grown(p) && m in p.entities && i < |nodes| && (nodes[i].Function? || nodes[i].Class?)
    ensures Declared(nodes[i], m) in WithNodes(p, nodes, m).entities
    decreases |nodes|
  {
    hide Grown, WithNode;
    var q := WithNode(p, nodes[0], m);
    GrowNode(p, nodes[0], m);
    if i == 0 {
      NodeDeclares(p, nodes[0], m);
      GrowNodes(q, nodes[1..], m);
    } else {
      DeclaredIsThere(q, nodes[1..], m, i - 1);
    }
  }

  lemma NodeDeclares(p: Parsed, node: Node, m: Entity)
    requires Grown(p) && m in p.entities && (node.Function? || node.Class?)
    ensures Declared(node, m) in WithNode(p, node, m).entities
  {
    hide WithMethods;
    if node.Class? {
      var c := ClassEntity(m, node.name);
      BaseEdgesInherit(c, node.bases);
      GrowEntity(p, c, m, BaseEdges(c, node.bases));
      GrowMethods(WithEntity(p, c, m, BaseEdges(c, node.bases)), node.methods, c);
    }
  }

  lemma {:induction false} TestEdgesHold(tests: seq<Entity>, entities: seq<Entity>, e: Entity)
    requires e in tests
    ensures forall x :: x in TestEdge(e, entities) ==> x in TestEdges(tests, entities)
    decreases |tests|
  {
    hide TestEdge;
    if tests[0] != e { TestEdgesHold(tests[1..], entities, e); }
  }

  /** A top-level `test_x` that is no route, in a file that defines a function or class `x`, is linked to it. */
  lemma TopLevelTestIsLinked(repo: string, file: string, nodes: seq<Node>, i: nat, j: nat, x: string)
    requires i < |nodes| && nodes[i].Function? && nodes[i].func.name == "test_" + x && KindOf(nodes[i].func) == TestKind
    requires j < |nodes| && (nodes[j].Function? || nodes[j].Class?) && '.' !in x
    requires var d := Declared(nodes[j], ModuleEntity(repo, file)); Code(d) && d.name == x
    ensures Edge(Entity(repo, file, "test_" + x, TestKind).Id(), Entity(repo, file, x, TestKind).Id(), TESTS)
              in Parse(repo, file, nodes).edges
  {
    hide WithNodes, KindOf, ModuleName;
    var m := ModuleEntity(repo, file);
    var start := Parsed([m], []);
    assert Grown(start);
    DeclaredIsThere(start, nodes, m, i);
    DeclaredIsThere(start, nodes, m, j);
    GrowNodes(start, nodes, m);
    var p := WithNodes(start, nodes, m);
    assert p.entities[0] == m;
    TestNamesX(Declared(nodes[i], m), x);
    LinkedToTheNamed(p, Declared(nodes[i], m), Declared(nodes[j], m), x);
  }

  lemma TestNamesX(t: Entity, x: string)
    requires t.kind == TestKind && t.name == "test_" + x && '.' !in x
    ensures Tested(t) == Some(x)
  {
    hide Split;
    OnePartIff(t.name, '.');
    assert '.' !in "test_";
    assert "test_" <= t.name[0..];
    assert t.name[5..] == x;
  }

  lemma LinkedToTheNamed(p: Parsed, t: Entity, d: Entity, x: string)
    requires OneFile(p) && t in p.entities && d in p.entities && Code(d) && d.name == x && Tested(t) == Some(x)
    ensures Edge(t.Id(), d.Id(), TESTS) in TestEdges(p.entities, p.entities)
  {
    hide Tested, Code;
    TargetIsCode(p.entities, x, false);
    var i :| 0 <= i < |p.entities| && p.entities[i] == d;
    assert Fits(p.entities[i], x, false);
    var found := Target(p.entities, x, false).value;
    var k :| 0 <= k < |p.entities| && p.entities[k] == found;
    assert SameFile(p.entities[k], p.entities[0]) && SameFile(p.entities[i], p.entities[0]);
    assert TestEdge(t, p.entities) == [Edge(t.Id(), d.Id(), TESTS)];
    TestEdgesHold(p.entities, p.entities, t);
    assert Edge(t.Id(), d.Id(), TESTS) in TestEdge(t, p.entities);
  }

  lemma {:induction false} OfAll(edges: seq<Edge>, kind: EdgeKind)
    requires forall i :: 0 <= i < |edges| ==> edges[i].kind == kind
    ensures Of(edges, kind) == edges
    decreases |edges|
  {
    if edges != [] {
      assert forall i :: 0 <= i < |edges[1..]| ==> edges[1..][i] == edges[i + 1];
      OfAll(edges[1..], kind);
    }
  }

  predicate Inside(e: Edge, ids: set<string>) {
    e.source in ids && e.target in ids
  }

  /** Every DEFINES and TESTS edge joins two of `ids`. */
  predicate Closed(edges: seq<Edge>, ids: set<string>) {
    forall i :: 0 <= i < |edges| && edges[i].kind in {DEFINES, TESTS} ==> Inside(edges[i], ids)
  }

  lemma {:induction false} OfHolds(edges: seq<Edge>, kind: EdgeKind, i: nat)
    requires i < |edges| && edges[i].kind == kind
    ensures edges[i] in Of(edges, kind)
    decreases |edges|
  {
    if i > 0 { OfHolds(edges[1..], kind, i - 1); }
  }

  lemma TreeIsClosed(p: Parsed)
    requires Tree(p)
    requires forall x :: x in Of(p.edges, TESTS) ==> Inside(x, Ids(p.entities))
    ensures Closed(p.edges, Ids(p.entities))
  {
    var ids := Ids(p.entities);
    forall i | 0 <= i < |p.edges| && p.edges[i].kind in {DEFINES, TESTS}
      ensures Inside(p.edges[i], ids)
    {
      OfHolds(p.edges, p.edges[i].kind, i);
      if p.edges[i].kind == DEFINES {
        var d := Of(p.edges, DEFINES);
        var k :| 0 <= k < |d| && d[k] == p.edges[i];
        assert p.entities[k + 1] in p.entities;
        assert forall e :: e in p.entities[..k + 1] ==> e in p.entities;
      }
    }
  }

  // ------------------------------------------------------------------ the parser's result object

  class ParseResult {
    var entities: seq<Entity>
    var edges: seq<Edge>

    function Value(): Parsed
      reads this
    {
      Parsed(entities, edges)
    }

    constructor ()
      ensures Value() == Parsed([], [])
    {
      entities, edges := [], [];
    }

    /** `_extract_calls`. */
    method ExtractCalls(caller: Entity, calls: seq<Expr>)
      modifies this
      ensures entities == old(entities) && edges == old(edges) + CallEdges(caller, calls)
    {
      ghost var all := edges + CallEdges(caller, calls);
      for i := 0 to |calls|
        invariant entities == old(entities) && edges + CallEdges(caller, calls[i..]) == all
      {
        var name := CalleeName(calls[i]);
        assert calls[i..][1..] == calls[i + 1..];
        if name != "" && name[0] != '_' {
          edges := edges + [Edge(caller.Id(), caller.(name := name).Id(), CALLS)];
        }
      }
    }

    /** `_extract_function`. */
    method ExtractFunction(f: Func, parent: Entity, className: string)
      modifies this
      ensures Value() == WithFunction(old(Value()), f, parent, className)
    {
      var e := FunctionEntity(parent, f, className);
      entities := entities + [e];
      edges := edges + [Edge(parent.Id(), e.Id(), DEFINES)];
      ExtractCalls(e, f.calls);
    }

    /** The loop over the bases of a class. */
    method ExtractBases(c: Entity, bases: seq<Expr>)
      modifies this
      ensures entities == old(entities) && edges == old(edges) + BaseEdges(c, bases)
    {
      ghost var all := edges + BaseEdges(c, bases);
      for i := 0 to |bases|
        invariant entities == old(entities) && edges + BaseEdges(c, bases[i..]) == all
      {
        assert bases[i..][1..] == bases[i + 1..];
        if NameOf(bases[i]) != "" {
          edges := edges + [Edge(c.Id(), c.(name := NameOf(bases[i])).Id(), INHERITS)];
        }
      }
    }

    /** `_extract_class`. */
    method ExtractClass(name: string, bases: seq<Expr>, methods: seq<Func>, m: Entity)
      modifies this
      ensures Value() == WithNode(old(Value()), Class(name, bases, methods), m)
    {
      hide WithFunction, BaseEdges;
      var c := ClassEntity(m, name);
      entities := entities + [c];
      edges := edges + [Edge(m.Id(), c.Id(), DEFINES)];
      ExtractBases(c, bases);
      ghost var done := WithMethods(Value(), methods, c);
      for i := 0 to |methods|
        invariant WithMethods(Value(), methods[i..], c) == done
      {
        assert methods[i..][1..] == methods[i + 1..];
        ExtractFunction(methods[i], c, c.name);
      }
    }

    /** `_extract_import`. */
    method ExtractImport(targets: seq<string>, m: Entity)
      modifies this
      ensures Value() == WithNode(old(Value()), Import(targets), m)
    {
      ghost var named, all := entities, edges + ImportEdges(m, targets);
      for i := 0 to |targets|
        invariant entities == named && edges + ImportEdges(m, targets[i..]) == all
      {
        assert targets[i..][1..] == targets[i + 1..];
        edges := edges + [ImportEdge(m, targets[i])];
      }
    }

    /** `_link_tests`. */
    method LinkTests()
      modifies this
      ensures Value() == old(Value()).(edges := old(edges) + TestEdges(old(entities), old(entities)))
    {
      hide TestEdge;
      ghost var all := edges + TestEdges(entities, entities);
      var es := entities;
      for i := 0 to |es|
        invariant entities == es && edges + TestEdges(es[i..], es) == all
      {
        assert es[i..][1..] == es[i + 1..];
        edges := edges + TestEdge(es[i], es);
      }
    }

    /** `parse_file`. */
    method ParseFile(repo: string, file: string, nodes: seq<Node>)
      requires Value() == Parsed([], [])
      modifies this
      ensures Value() == Parse(repo, file, nodes)
    {
      hide WithNode, TestEdges;
      var m := ModuleEntity(repo, file);
      entities := entities + [m];
      assert entities == [m];
      ghost var done := WithNodes(Value(), nodes, m);
      for i := 0 to |nodes|
        invariant WithNodes(Value(), nodes[i..], m) == done
      {
        assert nodes[i..][1..] == nodes[i + 1..];
        Extract(nodes[i], m);
      }
      LinkTests();
    }

    method Extract(node: Node, m: Entity)
      modifies this
      ensures Value() == WithNode(old(Value()), node, m)
    {
      hide WithFunction, WithMethods;
      match node
      case Class(name, bases, methods) => ExtractClass(name, bases, methods, m);
      case Function(f) => ExtractFunction(f, m, "");
      case Import(targets) => ExtractImport(targets, m);
      case ImportFrom(Some(target)) =>
        if target != "" {
          edges := edges + [ImportEdge(m, target)];
        }
      case _ =>
    }
  }
}
