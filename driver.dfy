/** The back end's top level: the loops over a category's definitions,
    the dispatch on the `-category` option, SyntaxTableGenMain, and the
    exit code of the tool. The output stream and the error stream are the
    sequences of lines written to them. */
module Driver {
  import opened Records
  import opened Classify
  import opened Text
  import opened Emit

  // ---------------------------------------------------------------------
  // The definitions a category's loops visit

  /** The definitions of `nodes` in order, without those named `umbrella`. */
  function SkipUmbrella(nodes: seq<Record>, umbrella: string): (r: seq<Record>)
    ensures |r| <= |nodes|
  {
    if nodes == [] then []
    else
      var last := nodes[|nodes| - 1];
      SkipUmbrella(nodes[..|nodes| - 1], umbrella) + (if last.name == umbrella then [] else [last])
  }

  /** Exactly the definitions not named `umbrella` are kept. */
  lemma {:induction false} SkipUmbrellaMembers(nodes: seq<Record>, umbrella: string)
    ensures forall d :: d in SkipUmbrella(nodes, umbrella) <==> d in nodes && d.name != umbrella
  {
    if nodes != [] {
      var front := nodes[..|nodes| - 1];
      SkipUmbrellaMembers(front, umbrella);
      assert nodes == front + [nodes[|nodes| - 1]];
    }
  }

  /** Skipping commutes with concatenation: the kept definitions keep
      their relative order. */
  lemma {:induction false} SkipUmbrellaAppend(a: seq<Record>, b: seq<Record>, umbrella: string)
    ensures SkipUmbrella(a + b, umbrella) == SkipUmbrella(a, umbrella) + SkipUmbrella(b, umbrella)
    decreases |b|
  {
    if b == [] {
      assert a + b == a;
    } else {
      var front, last := b[..|b| - 1], b[|b| - 1];
      SkipUmbrellaAppend(a, front, umbrella);
      assert (a + b)[..|a + b| - 1] == a + front;
      assert (a + b)[|a + b| - 1] == last;
      var kept := if last.name == umbrella then [] else [last];
      assert SkipUmbrella(b, umbrella) == SkipUmbrella(front, umbrella) + kept;
      assert SkipUmbrella(a + b, umbrella) == (SkipUmbrella(a, umbrella) + SkipUmbrella(front, umbrella)) + kept;
    }
  }

  /** The umbrella definition of a category, `Any` followed by its name. */
  function Umbrella(option: string): string
  {
    "Any" + option
  }

  /** The definitions printSyntaxInterfaces and printSyntaxImplementations
      emit: those derived from the option's class, in the record keeper's
      order, minus the umbrella. */
  function VisitedNodes(rk: RecordKeeper, option: string): (visited: seq<Record>)
    requires option in rk.classes
    ensures forall d :: d in visited ==> d.name != Umbrella(option)
    ensures forall i :: 0 <= i < |visited| ==> HasParent(visited[i])
  {
    SkipUmbrellaMembers(AllDerivedDefinitions(rk, option), Umbrella(option));
    SkipUmbrella(AllDerivedDefinitions(rk, option), Umbrella(option))
  }

  /** A definition is emitted exactly when it derives from the category's
      class and is not the umbrella. */
  lemma VisitedNodesExact(rk: RecordKeeper, option: string)
    requires option in rk.classes
    ensures forall d :: d in VisitedNodes(rk, option) <==>
                          d in rk.defs && option in d.superclasses && d.name != "Any" + option
  {
    SkipUmbrellaMembers(AllDerivedDefinitions(rk, option), Umbrella(option));
  }

  // ---------------------------------------------------------------------
  // printSyntaxInterfaces

  predicate AllHaveParent(nodes: seq<Record>)
  {
    forall i :: 0 <= i < |nodes| ==> HasParent(nodes[i])
  }

  /** Both declarations of one definition, view class then data class. */
  function NodeInterface(node: Record): seq<string>
    requires HasParent(node)
  {
    SyntaxInterfaceLines(node) + SyntaxDataInterfaceLines(node)
  }

  /** The declarations of every definition of `nodes`, in order. */
  function InterfacesOf(nodes: seq<Record>): seq<string>
    requires AllHaveParent(nodes)
  {
    if nodes == [] then []
    else InterfacesOf(nodes[..|nodes| - 1]) + NodeInterface(nodes[|nodes| - 1])
  }

  lemma {:induction false} AllHaveParentSlice(nodes: seq<Record>, lo: nat, hi: nat)
    requires AllHaveParent(nodes) && lo <= hi <= |nodes|
    ensures AllHaveParent(nodes[lo..hi])
  {
    forall k | 0 <= k < hi - lo ensures HasParent(nodes[lo..hi][k]) {
      assert nodes[lo..hi][k] == nodes[lo + k];
    }
  }

  /** The declarations of a concatenation are the concatenated
      declarations: definitions are declared one after another in order. */
  lemma {:induction false} InterfacesOfAppend(a: seq<Record>, b: seq<Record>)
    requires AllHaveParent(a) && AllHaveParent(b) && AllHaveParent(a + b)
    ensures InterfacesOf(a + b) == InterfacesOf(a) + InterfacesOf(b)
    decreases |b|
  {
    if b == [] {
      assert a + b == a;
    } else {
      var front := b[..|b| - 1];
      assert (a + b)[..|a + b| - 1] == a + front;
      AllHaveParentSlice(b, 0, |b| - 1);
      AllHaveParentSlice(a + b, 0, |a + b| - 1);
      InterfacesOfAppend(a, front);
      var x, y, z := InterfacesOf(a), InterfacesOf(front), NodeInterface(b[|b| - 1]);
      assert (a + b)[|a + b| - 1] == b[|b| - 1];
      assert InterfacesOf(b) == y + z;
      assert InterfacesOf(a + b) == (x + y) + z;
      AppendAssoc(x, y, z);
    }
  }

  /** One step of the loops: the next definition is kept unless it is the
      umbrella. */
  lemma SkipUmbrellaStep(nodes: seq<Record>, umbrella: string, i: nat)
    requires i < |nodes|
    ensures SkipUmbrella(nodes[..i + 1], umbrella)
         == SkipUmbrella(nodes[..i], umbrella) + (if nodes[i].name == umbrella then [] else [nodes[i]])
  {
    assert nodes[..i + 1][..i] == nodes[..i];
  }

  lemma InterfacesOfStep(visited: seq<Record>, node: Record)
    requires AllHaveParent(visited) && HasParent(node)
    ensures AllHaveParent(visited + [node])
    ensures InterfacesOf(visited + [node]) == InterfacesOf(visited) + NodeInterface(node)
  {
    assert (visited + [node])[..|visited|] == visited;
  }

  method PrintNodeInterface(node: Record) returns (out: seq<string>)
    requires HasParent(node)
    ensures out == NodeInterface(node)
  {
    var syntax, _ := PrintSyntaxInterface(node);
    var data, _ := PrintSyntaxDataInterface(node);
    out := syntax + data;
  }

  /** printSyntaxInterfaces: the loop over the category's definitions. */
  method PrintSyntaxInterfaces(rk: RecordKeeper, option: string) returns (out: seq<string>, failed: bool)
    requires option in rk.classes
    ensures out == InterfacesOf(VisitedNodes(rk, option))
    ensures !failed
  {
    var nodes := AllDerivedDefinitions(rk, option);
    var any := Umbrella(option);
    SkipUmbrellaMembers(nodes, any);
    out := [];
    for i := 0 to |nodes|
      invariant AllHaveParent(SkipUmbrella(nodes[..i], any))
      invariant out == InterfacesOf(SkipUmbrella(nodes[..i], any))
    {
      var node := nodes[i];
      ghost var visited := SkipUmbrella(nodes[..i], any);
      SkipUmbrellaStep(nodes, any, i);
      if node.name == any {
        assert SkipUmbrella(nodes[..i + 1], any) == visited + [] == visited;
        continue;
      }
      assert SkipUmbrella(nodes[..i + 1], any) == visited + [node];
      assert node in SkipUmbrella(nodes, any);
      InterfacesOfStep(visited, node);
      var block := PrintNodeInterface(node);
      out := out + block;
    }
    assert nodes[..|nodes|] == nodes;
    failed := false;
  }

  // ---------------------------------------------------------------------
  // printSyntaxImplementations

  predicate AllDataImplementable(nodes: seq<Record>, registered: set<string>)
  {
    forall i :: 0 <= i < |nodes| ==> DataImplementable(nodes[i], registered)
  }

  const PragmaMark := "#pragma mark - "

  /** The marks that head a definition's view class and data class code. */
  function ApiMark(node: Record): seq<string>
  {
    [PragmaMark + node.name + " API", ""]
  }

  function DataMark(node: Record): seq<string>
  {
    [PragmaMark + node.name + " Data", ""]
  }

  /** Both definitions of one definition's classes, each after its mark. */
  function NodeImplementation(node: Record, registered: set<string>): seq<string>
    requires DataImplementable(node, registered)
  {
    ApiMark(node) + SyntaxImplementationLines(node) + DataMark(node)
    + SyntaxDataImplementationLines(node, registered)
  }

  /** The definitions of every definition of `nodes`, in order. */
  function ImplementationsOf(nodes: seq<Record>, registered: set<string>): seq<string>
    requires AllDataImplementable(nodes, registered)
  {
    if nodes == [] then []
    else ImplementationsOf(nodes[..|nodes| - 1], registered) + NodeImplementation(nodes[|nodes| - 1], registered)
  }

  lemma {:induction false} AllDataImplementableSlice(nodes: seq<Record>, registered: set<string>, lo: nat, hi: nat)
    requires AllDataImplementable(nodes, registered) && lo <= hi <= |nodes|
    ensures AllDataImplementable(nodes[lo..hi], registered)
  {
    forall k | 0 <= k < hi - lo ensures DataImplementable(nodes[lo..hi][k], registered) {
      assert nodes[lo..hi][k] == nodes[lo + k];
    }
  }

  /** The definitions of a concatenation are the concatenated definitions. */
  lemma {:induction false} ImplementationsOfAppend(a: seq<Record>, b: seq<Record>, registered: set<string>)
    requires AllDataImplementable(a, registered) && AllDataImplementable(b, registered)
    requires AllDataImplementable(a + b, registered)
    ensures ImplementationsOf(a + b, registered) == ImplementationsOf(a, registered) + ImplementationsOf(b, registered)
    decreases |b|
  {
    if b == [] {
      assert a + b == a;
    } else {
      var front, last := b[..|b| - 1], b[|b| - 1];
      assert b == front + [last];
      assert a + b == (a + front) + [last];
      AllDataImplementableSlice(b, registered, 0, |b| - 1);
      AllDataImplementableSlice(a + b, registered, 0, |a + b| - 1);
      assert (a + b)[..|a + b| - 1] == a + front;
      ImplementationsOfAppend(a, front, registered);
      ImplementationsOfStep(front, last, registered);
      ImplementationsOfStep(a + front, last, registered);
      var x, y := ImplementationsOf(a, registered), ImplementationsOf(front, registered);
      AppendAssoc(x, y, NodeImplementation(last, registered));
    }
  }

  lemma ImplementationsOfStep(visited: seq<Record>, node: Record, registered: set<string>)
    requires AllDataImplementable(visited, registered) && DataImplementable(node, registered)
    ensures AllDataImplementable(visited + [node], registered)
    ensures ImplementationsOf(visited + [node], registered)
         == ImplementationsOf(visited, registered) + NodeImplementation(node, registered)
  {
    assert (visited + [node])[..|visited|] == visited;
  }

  /** One turn of the loop of printSyntaxImplementations: the umbrella adds
      nothing, any other definition adds its code. */
  lemma ImplementationsLoopStep(nodes: seq<Record>, any: string, registered: set<string>, i: nat)
    requires i < |nodes| && AllDataImplementable(SkipUmbrella(nodes, any), registered)
    requires AllDataImplementable(SkipUmbrella(nodes[..i], any), registered)
    ensures AllDataImplementable(SkipUmbrella(nodes[..i + 1], any), registered)
    ensures nodes[i].name != any ==> DataImplementable(nodes[i], registered)
    ensures ImplementationsOf(SkipUmbrella(nodes[..i + 1], any), registered)
         == ImplementationsOf(SkipUmbrella(nodes[..i], any), registered)
            + (if nodes[i].name == any then [] else NodeImplementation(nodes[i], registered))
  {
    var visited := SkipUmbrella(nodes[..i], any);
    SkipUmbrellaStep(nodes, any, i);
    if nodes[i].name == any {
      assert SkipUmbrella(nodes[..i + 1], any) == visited;
    } else {
      var node := nodes[i];
      assert SkipUmbrella(nodes[..i + 1], any) == visited + [node];
      assert nodes == nodes[..i + 1] + nodes[i + 1..];
      SkipUmbrellaAppend(nodes[..i + 1], nodes[i + 1..], any);
      assert SkipUmbrella(nodes, any)[|visited|] == node;
      ImplementationsOfStep(visited, node, registered);
    }
  }

  method PrintNodeImplementation(node: Record, registered: set<string>) returns (out: seq<string>)
    requires DataImplementable(node, registered)
    ensures out == NodeImplementation(node, registered)
  {
    var api, _ := PrintSyntaxImplementation(node);
    var data, _ := PrintSyntaxDataImplementation(node, registered);
    out := ApiMark(node) + api + DataMark(node) + data;
  }

  /** printSyntaxImplementations: the loop over the category's definitions. */
  method PrintSyntaxImplementations(rk: RecordKeeper, option: string, registered: set<string>)
    returns (out: seq<string>, failed: bool)
    requires option in rk.classes && AllDataImplementable(VisitedNodes(rk, option), registered)
    ensures out == ImplementationsOf(VisitedNodes(rk, option), registered)
    ensures !failed
  {
    var nodes := AllDerivedDefinitions(rk, option);
    var any := Umbrella(option);
    SkipUmbrellaMembers(nodes, any);
    out := [];
    for i := 0 to |nodes|
      invariant AllDataImplementable(SkipUmbrella(nodes[..i], any), registered)
      invariant out == ImplementationsOf(SkipUmbrella(nodes[..i], any), registered)
    {
      var node := nodes[i];
      ImplementationsLoopStep(nodes, any, registered, i);
      if node.name == any {
        continue;
      }
      var block := PrintNodeImplementation(node, registered);
      out := out + block;
    }
    assert nodes[..|nodes|] == nodes;
    failed := false;
  }

  // ---------------------------------------------------------------------
  // The SyntaxFactory and SyntaxRewriter categories

  /** The four emitters of these categories are placeholders that write
      nothing and succeed. */
  method PrintSyntaxFactoryInterface() returns (out: seq<string>, failed: bool)
    ensures out == [] && !failed
  {
    out, failed := [], false;
  }

  method PrintSyntaxFactoryImplementation() returns (out: seq<string>, failed: bool)
    ensures out == [] && !failed
  {
    out, failed := [], false;
  }

  method PrintSyntaxRewriterInterface() returns (out: seq<string>, failed: bool)
    ensures out == [] && !failed
  {
    out, failed := [], false;
  }

  method PrintSyntaxRewriterImplementation() returns (out: seq<string>, failed: bool)
    ensures out == [] && !failed
  {
    out, failed := [], false;
  }

  // ---------------------------------------------------------------------
  // genInterface, genImplementation

  /** What generating the interface of a category demands of the schema:
      for a node category, its class exists. */
  predicate InterfaceGeneratable(rk: RecordKeeper, option: string)
  {
    IsNodeCategory(GetCategory(option)) ==> option in rk.classes
  }

  /** What generating the implementation demands: for a node category, its
      class exists and every emitted definition's children can be read. */
  predicate ImplementationGeneratable(rk: RecordKeeper, option: string, registered: set<string>)
  {
    IsNodeCategory(GetCategory(option)) ==>
      option in rk.classes && AllDataImplementable(VisitedNodes(rk, option), registered)
  }

  /** genInterface: a node category gets the declarations of its
      definitions; SyntaxFactory and SyntaxRewriter get nothing. An unknown
      category is unreachable. */
  method GenInterface(rk: RecordKeeper, option: string) returns (out: seq<string>, failed: bool)
    requires GetCategory(option) != Unknown && InterfaceGeneratable(rk, option)
    ensures IsNodeCategory(GetCategory(option)) ==> out == InterfacesOf(VisitedNodes(rk, option))
    ensures !IsNodeCategory(GetCategory(option)) ==> out == []
    ensures !failed
  {
    match GetCategory(option)
    case Decl => out, failed := PrintSyntaxInterfaces(rk, option);
    case Expr => out, failed := PrintSyntaxInterfaces(rk, option);
    case Stmt => out, failed := PrintSyntaxInterfaces(rk, option);
    case Type => out, failed := PrintSyntaxInterfaces(rk, option);
    case Pattern => out, failed := PrintSyntaxInterfaces(rk, option);
    case SyntaxFactory => out, failed := PrintSyntaxFactoryInterface();
    case SyntaxRewriter => out, failed := PrintSyntaxRewriterInterface();
  }

  /** genImplementation: the same dispatch for the definitions. */
  method GenImplementation(rk: RecordKeeper, option: string, registered: set<string>)
    returns (out: seq<string>, failed: bool)
    requires GetCategory(option) != Unknown && ImplementationGeneratable(rk, option, registered)
    ensures IsNodeCategory(GetCategory(option)) ==> out == ImplementationsOf(VisitedNodes(rk, option), registered)
    ensures !IsNodeCategory(GetCategory(option)) ==> out == []
    ensures !failed
  {
    match GetCategory(option)
    case Decl => out, failed := PrintSyntaxImplementations(rk, option, registered);
    case Expr => out, failed := PrintSyntaxImplementations(rk, option, registered);
    case Stmt => out, failed := PrintSyntaxImplementations(rk, option, registered);
    case Type => out, failed := PrintSyntaxImplementations(rk, option, registered);
    case Pattern => out, failed := PrintSyntaxImplementations(rk, option, registered);
    case SyntaxFactory => out, failed := PrintSyntaxFactoryImplementation();
    case SyntaxRewriter => out, failed := PrintSyntaxRewriterImplementation();
  }

  // ---------------------------------------------------------------------
  // SyntaxTableGenMain and main

  /** The `-interface` / `-implementation` action; NoAction when neither
      was given. */
  datatype ActionType = NoAction | GenImplementationAction | GenInterfaceAction

  /** What the back end generates for an action and a known category. */
  function Generated(rk: RecordKeeper, action: ActionType, option: string): seq<string>
    requires action == GenInterfaceAction ==> InterfaceGeneratable(rk, option)
    requires action == GenImplementationAction ==> ImplementationGeneratable(rk, option, SyntaxCategoryClasses)
  {
    match action
    case NoAction => []
    case GenInterfaceAction =>
      if IsNodeCategory(GetCategory(option)) then InterfacesOf(VisitedNodes(rk, option)) else []
    case GenImplementationAction =>
      if IsNodeCategory(GetCategory(option)) then ImplementationsOf(VisitedNodes(rk, option), SyntaxCategoryClasses)
      else []
  }

  /** What running an action demands of the schema. */
  predicate Generatable(rk: RecordKeeper, action: ActionType, option: string)
  {
    && (action == GenInterfaceAction ==> InterfaceGeneratable(rk, option))
    && (action == GenImplementationAction ==> ImplementationGeneratable(rk, option, SyntaxCategoryClasses))
  }

  /** SyntaxTableGenMain: registers the seven category classes, then runs
      the action. Without an action it reports the error and fails. */
  method SyntaxTableGenMain(rk: RecordKeeper, action: ActionType, option: string)
    returns (out: seq<string>, errors: seq<string>, failed: bool)
    requires (action == NoAction || GetCategory(option) != Unknown) && Generatable(rk, action, option)
    ensures failed <==> action == NoAction
    ensures errors == if action == NoAction then ["action required"] else []
    ensures out == Generated(rk, action, option)
  {
    var registered: set<string> := {};
    registered := registered + {"Decl"};
    registered := registered + {"Stmt"};
    registered := registered + {"Expr"};
    registered := registered + {"Type"};
    registered := registered + {"Pattern"};
    registered := registered + {"Token"};
    registered := registered + {"SyntaxCollection"};
    assert registered == SyntaxCategoryClasses;
    errors := [];
    match action
    case NoAction =>
      errors := errors + ["action required"];
      out, failed := [], true;
    case GenInterfaceAction =>
      out, failed := GenInterface(rk, option);
    case GenImplementationAction =>
      out, failed := GenImplementation(rk, option, registered);
  }

  /** main: an unknown category is reported and fails before any
      generation; otherwise the exit code is 1 exactly when the back end
      failed. */
  method RunMain(rk: RecordKeeper, action: ActionType, option: string)
    returns (exitCode: int, out: seq<string>, errors: seq<string>)
    requires GetCategory(option) != Unknown ==> Generatable(rk, action, option)
    ensures exitCode == (if GetCategory(option) == Unknown || action == NoAction then 1 else 0)
    ensures GetCategory(option) == Unknown ==> out == [] && errors == [option + " is an unknown category!"]
    ensures GetCategory(option) != Unknown ==> out == Generated(rk, action, option)
    ensures GetCategory(option) != Unknown && action == NoAction ==> errors == ["action required"]
    ensures GetCategory(option) != Unknown && action != NoAction ==> errors == []
  {
    if GetCategory(option) == Unknown {
      return 1, [], [option + " is an unknown category!"];
    }
    var failed;
    out, errors, failed := SyntaxTableGenMain(rk, action, option);
    exitCode := if failed then 1 else 0;
  }

  lemma DerivedOfFour(defs: seq<Record>, option: string, any: Record, first: Record, other: Record, second: Record)
    requires defs == [any, first, other, second]
    requires option in any.superclasses && option in first.superclasses
    requires option !in other.superclasses && option in second.superclasses
    ensures DerivedFrom(defs, option) == [any, first, second]
  {
    DerivedFromSnoc([], any, option);
    assert [] + [any] == [any];
    DerivedFromSnoc([any], first, option);
    assert [any] + [first] == [any, first];
    DerivedFromSnoc([any, first], other, option);
    assert [any, first] + [other] == [any, first, other];
    DerivedFromSnoc([any, first, other], second, option);
    assert [any, first, other] + [second] == defs;
  }

  lemma SkipOfThree(any: Record, first: Record, second: Record, umbrella: string)
    requires any.name == umbrella && first.name != umbrella && second.name != umbrella
    ensures SkipUmbrella([any, first, second], umbrella) == [first, second]
  {
    var nodes := [any, first, second];
    assert nodes[..0] == [] && nodes[..1] == [any] && nodes[..2] == [any, first] && nodes[..3] == nodes;
    SkipUmbrellaStep(nodes, umbrella, 0);
    SkipUmbrellaStep(nodes, umbrella, 1);
    SkipUmbrellaStep(nodes, umbrella, 2);
  }

  /** A schema that lists the umbrella, a node of the category, a node of
      another category and a second node of the category: the loops visit
      the two nodes of the category, in the record keeper's order, and
      nothing else. */
  lemma UmbrellaAndOthersSkipped(rk: RecordKeeper, option: string, any: Record, first: Record, other: Record, second: Record)
    requires option in rk.classes && rk.defs == [any, first, other, second]
    requires any.name == Umbrella(option) && option in any.superclasses
    requires option in first.superclasses && first.name != Umbrella(option)
    requires option !in other.superclasses
    requires option in second.superclasses && second.name != Umbrella(option)
    ensures VisitedNodes(rk, option) == [first, second]
  {
    DerivedOfFour(rk.defs, option, any, first, other, second);
    SkipOfThree(any, first, second, Umbrella(option));
  }
}
