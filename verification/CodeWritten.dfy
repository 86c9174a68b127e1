/** What a parsed file holds, read off its text: every entity and edge is one the file writes down, and every one the
    file writes down is there. Ids and names are spelt out. */
module CodeWritten {
  import opened CodeParser
  import opened Text
  import opened Wrappers

  /** The id of what bears `name` in the file of `m`. */
  function At(m: Entity, name: string): string {
    "code::" + m.repo + "::" + m.file + "::" + name
  }

  function FullName(className: string, name: string): string {
    if className == "" then name else className + "." + name
  }

  // ------------------------------------------------------------------ kinds

  /** Decorated `@router.method("path", ...)`. */
  ghost predicate Routed(f: Func) {
    exists d, router, verb :: d in f.decorators && Routes(d, router, verb)
  }

  predicate Routes(d: Expr, router: Expr, verb: string) {
    && d.Call? && d.callee == Attribute(router, verb) && d.args != [] && d.args[0].Str?
    && verb in ["get", "post", "put", "delete", "patch", "head", "options"]
  }

  /** A function is a route if it is decorated as one, else a test if it is named as one. */
  lemma KindIff(f: Func)
    ensures KindOf(f) == if Routed(f) then RouteKind else if "test_" <= f.name then TestKind else FunctionKind
  {
    forall d | d in f.decorators && IsRoute(d)
      ensures Routed(f)
    {
      assert Routes(d, d.callee.value, d.callee.attr);
    }
    if Routed(f) {
      var d, router, verb :| d in f.decorators && Routes(d, router, verb);
      assert IsRoute(d);
    }
  }

  // ------------------------------------------------------------------ edges

  /** A call by name, or of an attribute whatever it is an attribute of. */
  predicate Calls(callee: Expr, name: string) {
    callee == Name(name) || (callee.Attribute? && callee.attr == name)
  }

  ghost predicate MakesCall(x: Edge, m: Entity, full: string, calls: seq<Expr>) {
    exists callee, name :: callee in calls && Calls(callee, name) && name != "" && name[0] != '_'
      && x == Edge(At(m, full), At(m, name), CALLS)
  }

  ghost predicate FunctionMakes(x: Edge, m: Entity, parent: string, full: string, f: Func) {
    x == Edge(At(m, parent), At(m, full), DEFINES) || MakesCall(x, m, full, f.calls)
  }

  ghost predicate MakesBase(x: Edge, m: Entity, name: string, bases: seq<Expr>) {
    exists b :: b in bases && NameOf(b) != "" && x == Edge(At(m, name), At(m, NameOf(b)), INHERITS)
  }

  ghost predicate MethodsMake(x: Edge, m: Entity, name: string, methods: seq<Func>) {
    exists f :: f in methods && FunctionMakes(x, m, name, FullName(name, f.name), f)
  }

  predicate ImportMakes(x: Edge, m: Entity, target: string) {
    x == Edge(At(m, m.name), "code::" + m.repo + "::" + (Replace(target, '.', '/') + ".py") + "::" + target, IMPORTS)
  }

  ghost predicate NodeMakes(x: Edge, m: Entity, node: Node) {
    match node
    case Class(name, bases, methods) =>
      || x == Edge(At(m, m.name), At(m, name), DEFINES)
      || MakesBase(x, m, name, bases)
      || MethodsMake(x, m, name, methods)
    case Function(f) => FunctionMakes(x, m, m.name, f.name, f)
    case Import(targets) => exists t :: t in targets && ImportMakes(x, m, t)
    case ImportFrom(Some(target)) => target != "" && ImportMakes(x, m, target)
    case _ => false
  }

  lemma {:induction false} InCallEdges(x: Edge, caller: Entity, calls: seq<Expr>)
    ensures x in CallEdges(caller, calls) <==> MakesCall(x, caller, caller.name, calls)
    decreases |calls|
  {
    if calls != [] {
      var callee := calls[0];
      assert calls == [callee] + calls[1..];
      InCallEdges(x, caller, calls[1..]);
      assert forall name :: Calls(callee, name) && name != "" ==> name == CalleeName(callee);
      assert CalleeName(callee) != "" ==> Calls(callee, CalleeName(callee));
    }
  }

  lemma {:induction false} InBaseEdges(x: Edge, c: Entity, bases: seq<Expr>)
    ensures x in BaseEdges(c, bases) <==> MakesBase(x, c, c.name, bases)
    decreases |bases|
  {
    if bases != [] {
      assert bases == [bases[0]] + bases[1..];
      InBaseEdges(x, c, bases[1..]);
    }
  }

  lemma {:induction false} InImportEdges(x: Edge, m: Entity, targets: seq<string>)
    ensures x in ImportEdges(m, targets) <==> exists t :: t in targets && ImportMakes(x, m, t)
    decreases |targets|
  {
    hide Replace;
    if targets != [] {
      assert targets == [targets[0]] + targets[1..];
      InImportEdges(x, m, targets[1..]);
      assert x == ImportEdge(m, targets[0]) <==> ImportMakes(x, m, targets[0]);
    }
  }

  lemma InWithFunction(x: Edge, p: Parsed, f: Func, parent: Entity, className: string)
    ensures x in WithFunction(p, f, parent, className).edges <==>
            x in p.edges || FunctionMakes(x, parent, parent.name, FullName(className, f.name), f)
  {
    hide KindOf, CallEdges, MakesCall;
    var e := FunctionEntity(parent, f, className);
    InCallEdges(x, e, f.calls);
    SameMaker(x, e, parent, e.name, f.calls);
  }

  /** Only the repository and the file of an entity matter. */
  lemma SameMaker(x: Edge, a: Entity, b: Entity, full: string, calls: seq<Expr>)
    requires a.repo == b.repo && a.file == b.file
    ensures MakesCall(x, a, full, calls) <==> MakesCall(x, b, full, calls)
    ensures forall name :: At(a, name) == At(b, name)
  {
  }

  lemma {:induction false} InWithMethods(x: Edge, p: Parsed, fs: seq<Func>, c: Entity)
    ensures x in WithMethods(p, fs, c).edges <==> x in p.edges || MethodsMake(x, c, c.name, fs)
    decreases |fs|
  {
    hide WithFunction, FunctionMakes;
    if fs != [] {
      assert fs == [fs[0]] + fs[1..];
      InWithFunction(x, p, fs[0], c, c.name);
      InWithMethods(x, WithFunction(p, fs[0], c, c.name), fs[1..], c);
    }
  }

  lemma SameMethods(x: Edge, a: Entity, b: Entity, name: string, bases: seq<Expr>, methods: seq<Func>)
    requires a.repo == b.repo && a.file == b.file
    ensures MethodsMake(x, a, name, methods) <==> MethodsMake(x, b, name, methods)
    ensures MakesBase(x, a, name, bases) <==> MakesBase(x, b, name, bases)
  {
    hide MakesCall;
    forall f: Func
      ensures FunctionMakes(x, a, name, FullName(name, f.name), f)
              <==> FunctionMakes(x, b, name, FullName(name, f.name), f)
    {
      SameMaker(x, a, b, FullName(name, f.name), f.calls);
    }
  }

  lemma InWithNode(x: Edge, p: Parsed, node: Node, m: Entity)
    ensures x in WithNode(p, node, m).edges <==> x in p.edges || NodeMakes(x, m, node)
  {
    hide MethodsMake, MakesBase, WithMethods, WithFunction, FunctionMakes, BaseEdges, ImportEdges;
    match node
    case Class(name, bases, methods) =>
      var c := ClassEntity(m, name);
      InWithMethods(x, WithEntity(p, c, m, BaseEdges(c, bases)), methods, c);
      InBaseEdges(x, c, bases);
      SameMethods(x, c, m, name, bases, methods);
    case Function(f) => InWithFunction(x, p, f, m, "");
    case Import(targets) => InImportEdges(x, m, targets);
    case _ =>
  }

  lemma {:induction false} InWithNodes(x: Edge, p: Parsed, nodes: seq<Node>, m: Entity)
    ensures x in WithNodes(p, nodes, m).edges <==>
            x in p.edges || exists node :: node in nodes && NodeMakes(x, m, node)
    decreases |nodes|
  {
    hide WithNode, NodeMakes;
    if nodes != [] {
      assert nodes == [nodes[0]] + nodes[1..];
      InWithNode(x, p, nodes[0], m);
      InWithNodes(x, WithNode(p, nodes[0], m), nodes[1..], m);
    }
  }

  /** The DEFINES, CALLS, INHERITS and IMPORTS edges of a parsed file are exactly those its definitions, calls, bases
      and imports write down. */
  lemma EdgesAreThoseWritten(repo: string, file: string, nodes: seq<Node>, x: Edge)
    requires x.kind != TESTS
    ensures x in Parse(repo, file, nodes).edges <==>
            exists node :: node in nodes && NodeMakes(x, ModuleEntity(repo, file), node)
  {
    hide WithNodes, NodeMakes, ModuleName, TestEdges;
    var m := ModuleEntity(repo, file);
    var p := WithNodes(Parsed([m], []), nodes, m);
    InWithNodes(x, Parsed([m], []), nodes, m);
    TestEdgesLink(p.entities, p.entities);
  }

  // ------------------------------------------------------------------ entities

  predicate MethodNames(e: Entity, m: Entity, name: string, methods: seq<Func>) {
    exists f :: f in methods && e == Entity(m.repo, m.file, FullName(name, f.name), KindOf(f))
  }

  predicate NodeNames(e: Entity, m: Entity, node: Node) {
    match node
    case Class(name, _, methods) =>
      || e == Entity(m.repo, m.file, name, if "Test" <= name then TestKind else ClassKind)
      || MethodNames(e, m, name, methods)
    case Function(f) => e == Entity(m.repo, m.file, f.name, KindOf(f))
    case _ => false
  }

  lemma {:induction false} MethodsNamed(e: Entity, p: Parsed, fs: seq<Func>, c: Entity)
    ensures e in WithMethods(p, fs, c).entities <==> e in p.entities || MethodNames(e, c, c.name, fs)
    decreases |fs|
  {
    hide KindOf;
    if fs != [] {
      assert fs == [fs[0]] + fs[1..];
      MethodsNamed(e, WithFunction(p, fs[0], c, c.name), fs[1..], c);
    }
  }

  lemma NodeNamed(e: Entity, p: Parsed, node: Node, m: Entity)
    ensures e in WithNode(p, node, m).entities <==> e in p.entities || NodeNames(e, m, node)
  {
    hide KindOf, WithMethods, MethodNames;
    match node
    case Class(name, bases, methods) =>
      var c := ClassEntity(m, name);
      MethodsNamed(e, WithEntity(p, c, m, BaseEdges(c, bases)), methods, c);
      SameNames(e, c, m, name, methods);
    case _ =>
  }

  lemma SameNames(e: Entity, a: Entity, b: Entity, name: string, methods: seq<Func>)
    requires a.repo == b.repo && a.file == b.file
    ensures MethodNames(e, a, name, methods) <==> MethodNames(e, b, name, methods)
  {
  }

  lemma {:induction false} NodesNamed(e: Entity, p: Parsed, nodes: seq<Node>, m: Entity)
    ensures e in WithNodes(p, nodes, m).entities <==>
            e in p.entities || exists node :: node in nodes && NodeNames(e, m, node)
    decreases |nodes|
  {
    hide WithNode, NodeNames;
    if nodes != [] {
      assert nodes == [nodes[0]] + nodes[1..];
      NodeNamed(e, p, nodes[0], m);
      NodesNamed(e, WithNode(p, nodes[0], m), nodes[1..], m);
    }
  }

  /** The entities of a parsed file are its module and what it defines: functions, classes and, as `class.method`, the
      methods of classes. */
  lemma EntitiesAreThoseDefined(repo: string, file: string, nodes: seq<Node>, e: Entity)
    ensures var m := ModuleEntity(repo, file);
            e in Parse(repo, file, nodes).entities <==>
            e == m || exists node :: node in nodes && NodeNames(e, m, node)
  {
    hide WithNodes, NodeNames, ModuleName, TestEdges;
    var m := ModuleEntity(repo, file);
    NodesNamed(e, Parsed([m], []), nodes, m);
  }

  // ------------------------------------------------------------------ tests and what they test

  /** `base` is the last dotted part of `name`. */
  ghost predicate EndsIn(name: string, base: string) {
    '.' !in base && (name == base || exists front: string :: name == front + "." + base)
  }

  lemma {:induction false} LastPartIff(name: string, base: string)
    ensures LastPart(name) == base <==> EndsIn(name, base)
  {
    hide Split;
    if EndsIn(name, base) {
      OnePartIff(base, '.');
      if name != base {
        var front: string :| name == front + "." + base;
        SplitAtSeparator(front, '.', base);
      }
    }
    LastPartEnds(name);
    if LastPart(name) == base { LastPartIsLast(name); }
  }

  lemma {:induction false} LastPartEnds(name: string)
    ensures LastPart(name) == name || exists front: string :: name == front + "." + LastPart(name)
    decreases |name|
  {
    hide LastPart, Split;
    if name == "" {
      LastPartOfNothing();
    } else {
      LastPartEnds(name[1..]);
      assert name == [name[0]] + name[1..];
      LastPartOfTail(name);
      if LastPart(name[1..]) != name[1..] {
        var front: string :| name[1..] == front + "." + LastPart(name[1..]);
        assert name == ([name[0]] + front) + "." + LastPart(name[1..]);
        if |Split(name[1..], '.')| == 1 { LastPartOfOne(name[1..]); }
      } else if name[0] == '.' {
        assert name == "" + "." + LastPart(name[1..]);
      } else if |Split(name[1..], '.')| != 1 {
        OnePartIff(name[1..], '.');
        LastPartIsLast(name[1..]);
      }
    }
  }

  lemma LastPartOfNothing()
    ensures LastPart("") == ""
  {
  }

  lemma LastPartOfOne(name: string)
    requires |Split(name, '.')| == 1
    ensures LastPart(name) == name
  {
    OnePart(name);
  }

  lemma LastPartOfTail(name: string)
    requires name != ""
    ensures LastPart(name) == if name[0] != '.' && |Split(name[1..], '.')| == 1 then name else LastPart(name[1..])
  {
    var rest := Split(name[1..], '.');
    if |rest| == 1 {
      OnePart(name[1..]);
    }
  }

  lemma {:induction false} OnePart(s: string)
    requires |Split(s, '.')| == 1
    ensures Split(s, '.') == [s]
    decreases |s|
  {
    if s != "" {
      OnePart(s[1..]);
      assert s == [s[0]] + s[1..];
    }
  }

  lemma {:induction false} LastPartIsLast(name: string)
    ensures '.' !in LastPart(name)
    decreases |name|
  {
    if name != "" {
      LastPartIsLast(name[1..]);
      LastPartOfTail(name);
      if name[0] != '.' && |Split(name[1..], '.')| == 1 {
        OnePart(name[1..]);
        OnePartIff(name[1..], '.');
      }
    }
  }

  /** A test given after `x`: a test function, at top level or in a class, called `test_x`. */
  ghost predicate TestOf(t: Entity, x: string) {
    t.kind == TestKind && EndsIn(t.name, "test_" + x)
  }

  lemma TestedIff(t: Entity, x: string)
    ensures Tested(t) == Some(x) <==> TestOf(t, x)
  {
    hide LastPart;
    var base := "test_" + x;
    LastPartIff(t.name, base);
    if Tested(t) == Some(x) {
      assert LastPart(t.name) == LastPart(t.name)[..5] + LastPart(t.name)[5..] == base;
    }
    if TestOf(t, x) {
      assert base[5..] == x && "test_" <= base;
      if t.name == base {
        assert "test_" <= t.name[0..];
      } else {
        var front: string :| t.name == front + "." + base;
        assert t.name[|front| + 1..] == base;
      }
    }
  }

  /** A function, route or class called `x`, or a method called so. */
  ghost predicate Bears(d: Entity, x: string) {
    d.kind != TestKind && d.kind != ModuleKind && EndsIn(d.name, x)
  }

  predicate BearsAlone(d: Entity, x: string) {
    d.kind != TestKind && d.kind != ModuleKind && d.name == x
  }

  /** What a test of `x` is linked to: the first entity called `x`, and if there is none the first method. */
  ghost predicate Chosen(entities: seq<Entity>, k: nat, x: string) {
    && k < |entities|
    && if exists i :: 0 <= i < |entities| && BearsAlone(entities[i], x) then FirstAlone(entities, k, x)
       else FirstBearer(entities, k, x)
  }

  predicate FirstAlone(entities: seq<Entity>, k: nat, x: string)
    requires k < |entities|
  {
    BearsAlone(entities[k], x) && forall i :: 0 <= i < k ==> !BearsAlone(entities[i], x)
  }

  ghost predicate FirstBearer(entities: seq<Entity>, k: nat, x: string)
    requires k < |entities|
  {
    Bears(entities[k], x) && forall i :: 0 <= i < k ==> !Bears(entities[i], x)
  }

  predicate Fitting(e: Entity, x: string, dotted: bool) {
    Code(e) && Fits(e, x, dotted)
  }

  lemma {:induction false} TargetIsTheFirst(entities: seq<Entity>, x: string, dotted: bool, k: nat)
    requires k < |entities|
    ensures (Fitting(entities[k], x, dotted) && forall i :: 0 <= i < k ==> !Fitting(entities[i], x, dotted))
            ==> Target(entities, x, dotted) == Some(entities[k])
    decreases |entities|
  {
    hide Code, Fits;
    if k > 0 {
      TargetIsTheFirst(entities[1..], x, dotted, k - 1);
      assert forall i :: 0 <= i < k - 1 ==> entities[1..][i] == entities[i + 1];
      assert !Fitting(entities[0], x, dotted) || Fitting(entities[0], x, dotted);
    }
  }

  lemma {:induction false} TargetStandsFirst(entities: seq<Entity>, x: string, dotted: bool) returns (k: nat)
    requires Target(entities, x, dotted).Some?
    ensures k < |entities| && Target(entities, x, dotted) == Some(entities[k]) && Fitting(entities[k], x, dotted)
    ensures forall i :: 0 <= i < k ==> !Fitting(entities[i], x, dotted)
    decreases |entities|
  {
    hide Code, Fits;
    if Code(entities[0]) && Fits(entities[0], x, dotted) {
      k := 0;
    } else {
      var n := TargetStandsFirst(entities[1..], x, dotted);
      k := n + 1;
      assert forall i :: 1 <= i < k ==> entities[i] == entities[1..][i - 1];
    }
  }

  lemma FittingIff(e: Entity, x: string)
    requires '.' !in x
    ensures Fitting(e, x, false) <==> BearsAlone(e, x)
    ensures !BearsAlone(e, x) ==> (Fitting(e, x, true) <==> Bears(e, x))
  {
    hide LastPart;
    LastPartIff(e.name, x);
    if e.name != x && EndsIn(e.name, x) {
      var front: string :| e.name == front + "." + x;
      assert e.name[|front|] == '.';
    }
    if '.' in e.name && LastPart(e.name) == x { assert EndsIn(e.name, x); }
  }

  lemma TestEdgeIsToTheChosen(t: Entity, entities: seq<Entity>, x: string, e: Edge)
    requires TestOf(t, x)
    ensures e in TestEdge(t, entities) <==>
            exists k: nat :: Chosen(entities, k, x) && e == Edge(t.Id(), entities[k].Id(), TESTS)
  {
    hide Tested, Code, Fits, BearsAlone, Bears, Fitting;
    TestedIff(t, x);
    assert '.' !in x by { NoDotInTail(x, t.name); }
    forall i | 0 <= i < |entities|
      ensures Fitting(entities[i], x, false) <==> BearsAlone(entities[i], x)
      ensures !BearsAlone(entities[i], x) ==> (Fitting(entities[i], x, true) <==> Bears(entities[i], x))
    {
      FittingIff(entities[i], x);
    }
    ChosenIsTarget(entities, x);
  }

  lemma NoDotInTail(x: string, name: string)
    requires EndsIn(name, "test_" + x)
    ensures '.' !in x
  {
    assert forall i :: 0 <= i < |x| ==> ("test_" + x)[i + 5] == x[i];
  }

  /** The target of a test of `x`: the exact one if any, else the dotted one. */
  function Picked(entities: seq<Entity>, x: string): Option<Entity> {
    if Target(entities, x, false).Some? then Target(entities, x, false) else Target(entities, x, true)
  }

  lemma ChosenIsTarget(entities: seq<Entity>, x: string)
    requires forall i :: 0 <= i < |entities| ==>
      && (Fitting(entities[i], x, false) <==> BearsAlone(entities[i], x))
      && (!BearsAlone(entities[i], x) ==> (Fitting(entities[i], x, true) <==> Bears(entities[i], x)))
    ensures forall k: nat :: Chosen(entities, k, x) ==> Picked(entities, x) == Some(entities[k])
    ensures Picked(entities, x).Some? ==>
              exists k: nat :: Chosen(entities, k, x) && Picked(entities, x) == Some(entities[k])
  {
    hide Code, Fits, BearsAlone, Bears, Fitting, Target;
    if Target(entities, x, false).Some? {
      var k := TargetStandsFirst(entities, x, false);
      assert BearsAlone(entities[k], x);
      assert Chosen(entities, k, x);
    } else if Target(entities, x, true).Some? {
      NoneAlone(entities, x);
      var k := TargetStandsFirst(entities, x, true);
      assert Chosen(entities, k, x);
    }
    forall k: nat | Chosen(entities, k, x)
      ensures Picked(entities, x) == Some(entities[k])
    {
      if BearsAlone(entities[k], x) {
        TargetIsTheFirst(entities, x, false, k);
      } else {
        NoneAlone(entities, x);
        TargetIsTheFirst(entities, x, true, k);
      }
    }
  }

  lemma NoneAlone(entities: seq<Entity>, x: string)
    ensures Target(entities, x, false).None? <==>
            forall i :: 0 <= i < |entities| ==> !Fitting(entities[i], x, false)
  {
    hide Code, Fits, Target;
    TargetIsCode(entities, x, false);
  }

  lemma {:induction false} InTestEdges(e: Edge, tests: seq<Entity>, entities: seq<Entity>)
    ensures e in TestEdges(tests, entities) <==> exists t :: t in tests && e in TestEdge(t, entities)
    decreases |tests|
  {
    hide TestEdge;
    if tests != [] {
      assert tests == [tests[0]] + tests[1..];
      InTestEdges(e, tests[1..], entities);
    }
  }

  lemma {:induction false} InOf(edges: seq<Edge>, e: Edge)
    ensures e in Of(edges, e.kind) <==> e in edges
    decreases |edges|
  {
    if edges != [] {
      InOf(edges[1..], e);
      assert edges == [edges[0]] + edges[1..];
    }
  }

  /** The TESTS edges of a parsed file join each test to what it is called after: the first entity of that name, or the
      first method where there is none. Tests in classes are linked like those at top level. */
  lemma TestsAreLinkedByName(repo: string, file: string, nodes: seq<Node>, e: Edge)
    requires e.kind == TESTS
    ensures var p := Parse(repo, file, nodes);
            e in p.edges <==>
            exists t, x, k: nat :: t in p.entities && TestOf(t, x) && Chosen(p.entities, k, x)
                                   && e == Edge(t.Id(), p.entities[k].Id(), TESTS)
  {
    hide Parse, TestEdge, TestOf, FirstAlone, FirstBearer, BearsAlone, Tree, Closed;
    var p := Parse(repo, file, nodes);
    ParsedFileIsATree(repo, file, nodes);
    InOf(p.edges, e);
    InTestEdges(e, p.entities, p.entities);
    if t :| t in p.entities && e in TestEdge(t, p.entities) {
      var x := TestHasAName(t, p.entities);
      TestEdgeIsToTheChosen(t, p.entities, x, e);
    }
    forall t, x | t in p.entities && TestOf(t, x)
      ensures e in TestEdge(t, p.entities) <==>
              exists k: nat :: Chosen(p.entities, k, x) && e == Edge(t.Id(), p.entities[k].Id(), TESTS)
    {
      TestEdgeIsToTheChosen(t, p.entities, x, e);
    }
  }

  lemma TestHasAName(t: Entity, entities: seq<Entity>) returns (x: string)
    requires TestEdge(t, entities) != []
    ensures TestOf(t, x)
  {
    hide Tested;
    x := Tested(t).value;
    TestedIff(t, x);
  }

  // ------------------------------------------------------------------ names of modules

  lemma {:induction false} ReplacedAt(s: string, from: char, to: char)
    ensures |Replace(s, from, to)| == |s|
    ensures forall i :: 0 <= i < |s| ==> Replace(s, from, to)[i] == if s[i] == from then to else s[i]
    decreases |s|
  {
    if s != "" { ReplacedAt(s[1..], from, to); }
  }

  /** A module is named by its path, with dots for slashes of either kind and without the `.py`. */
  lemma ModulesAreNamedByPath()
    ensures ModuleName("a/b.py") == "a.b" && ModuleName("a\\b.py") == "a.b" && ModuleName("a/__init__.py") == "a"
    ensures NameOf(Attribute(Name("a"), "B")) == "a.B"
  {
    hide Replace;
    Dotted("a/b.py", "a.b.py");
    Dotted("a\\b.py", "a.b.py");
    Dotted("a/__init__.py", "a.__init__.py");
    assert "a.b.py"[3..] == ".py" && "a.b.py"[..3] == "a.b";
    assert "a.__init__.py"[10..] == ".py" && "a.__init__.py"[..10] == "a.__init__";
    assert "a.__init__"[1..] == ".__init__" && "a.__init__"[..1] == "a";
  }

  lemma Dotted(path: string, dotted: string)
    requires |path| == |dotted|
    requires forall i :: 0 <= i < |path| ==> dotted[i] == if path[i] == '/' || path[i] == '\\' then '.' else path[i]
    ensures Replace(Replace(path, '/', '.'), '\\', '.') == dotted
  {
    hide Replace;
    ReplacedAt(path, '/', '.');
    ReplacedAt(Replace(path, '/', '.'), '\\', '.');
  }
}
