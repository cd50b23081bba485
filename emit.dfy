/** The emitters: for one node definition, the view class declaration
    (printSyntaxInterface), the data class declaration
    (printSyntaxDataInterface), the accessor definitions
    (printSyntaxImplementation) and the data class definitions
    (printSyntaxDataImplementation). Each text is first given as a function
    from the definition to its lines; each emitter is a method that writes
    the same lines child by child, as the back end does. */
module Emit {
  import opened Records
  import opened Classify
  import opened Text

  // ---------------------------------------------------------------------
  // What the emitters demand of the schema

  /** printTokenAssertion reads the token's `Kind` string. */
  predicate TokenKindReadable(c: RecordVal)
  {
    ResolvableChild(c) && (IsToken(LayoutNodeType(c)) ==> HasStringValue(LayoutNodeRecord(c), "Kind"))
  }

  /** makeBlank also reads a token's `Spelling` string, and the missing
      kind of every other child. */
  predicate BlankableChild(c: RecordVal, registered: set<string>)
  {
    && TokenKindReadable(c)
    && (if IsToken(LayoutNodeType(c)) then HasStringValue(LayoutNodeRecord(c), "Spelling")
        else HasMissingKind(c, registered))
  }

  /** The view and data classes derive from the immediate superclass, the
      last one listed. */
  predicate HasParent(node: Record)
  {
    |node.superclasses| > 0
  }

  function ImmediateSuperclass(node: Record): string
    requires HasParent(node)
  {
    node.superclasses[|node.superclasses| - 1]
  }

  predicate AllTokenKindsReadable(cs: seq<RecordVal>)
  {
    forall i :: 0 <= i < |cs| ==> TokenKindReadable(cs[i])
  }

  predicate AllBlankable(cs: seq<RecordVal>, registered: set<string>)
  {
    forall i :: 0 <= i < |cs| ==> BlankableChild(cs[i], registered)
  }

  predicate Implementable(node: Record)
  {
    AllTokenKindsReadable(ChildrenOf(node.values))
  }

  predicate DataImplementable(node: Record, registered: set<string>)
  {
    HasParent(node) && Implementable(node) && AllBlankable(ChildrenOf(node.values), registered)
  }

  // ---------------------------------------------------------------------
  // printTokenAssertion

  const TokenKindIs: string := "->getTokenKind() == "
  const AssertTokenIs: string := "  syntax_assert_token_is("

  function TokenKind(c: RecordVal): string
    requires TokenKindReadable(c) && IsToken(LayoutNodeType(c))
  {
    ValueAsString(LayoutNodeRecord(c), "Kind")
  }

  /** An identifier is checked by kind only; any other token by kind and
      spelling. The first form is not indented, the second is. */
  function TokenAssertion(variable: string, c: RecordVal): (line: string)
    requires TokenKindReadable(c) && IsToken(LayoutNodeType(c))
    ensures Occurs(variable, line)
  {
    if IsIdentifier(LayoutNodeType(c)) then
      OccursBefore3("assert(", variable, TokenKindIs, TokenKind(c), ");");
      "assert(" + variable + TokenKindIs + TokenKind(c) + ");"
    else
      OccursBefore5(AssertTokenIs, variable, ", ", TokenKind(c), ", \"", TokenSpelling(c), "\");");
      AssertTokenIs + variable + ", " + TokenKind(c) + ", \"" + TokenSpelling(c) + "\");"
  }

  /** printTokenAssertion: the line it writes. */
  method PrintTokenAssertion(variable: string, c: RecordVal) returns (line: string)
    requires TokenKindReadable(c) && IsToken(LayoutNodeType(c))
    ensures line == TokenAssertion(variable, c)
  {
    var ty := LayoutNodeType(c);
    var tokenRec := LayoutNodeRecord(c);
    var kind := ValueAsString(tokenRec, "Kind");
    if IsIdentifier(ty) {
      line := "assert(" + variable + TokenKindIs + kind + ");";
    } else {
      var spelling := GetTokenSpelling(c);
      line := AssertTokenIs + variable + ", " + kind + ", \"" + spelling + "\");";
    }
  }

  /** The two forms of the assertion: for an identifier the kind alone;
      otherwise kind and the token's declared spelling (its first
      `Spelling` field, or nothing when it has none). */
  lemma TokenAssertionForms(variable: string, c: RecordVal)
    requires TokenKindReadable(c) && IsToken(LayoutNodeType(c))
    ensures IsIdentifier(LayoutNodeType(c)) ==>
              TokenAssertion(variable, c)
                == "assert(" + variable + "->getTokenKind() == " + ValueAsString(LayoutNodeRecord(c), "Kind") + ");"
    ensures !IsIdentifier(LayoutNodeType(c)) && GetValue(LayoutNodeRecord(c), "Spelling").None? ==>
              TokenAssertion(variable, c)
                == "  syntax_assert_token_is(" + variable + ", " + ValueAsString(LayoutNodeRecord(c), "Kind")
                   + ", \"" + "" + "\");"
    ensures !IsIdentifier(LayoutNodeType(c)) && HasStringValue(LayoutNodeRecord(c), "Spelling") ==>
              TokenAssertion(variable, c)
                == "  syntax_assert_token_is(" + variable + ", " + ValueAsString(LayoutNodeRecord(c), "Kind")
                   + ", \"" + ValueAsString(LayoutNodeRecord(c), "Spelling") + "\");"
  {
    if HasStringValue(LayoutNodeRecord(c), "Spelling") {
      SpellingAgreement(c);
    }
  }

  // ---------------------------------------------------------------------
  // printSyntaxInterface

  const ViewClassOpen: string := " final : public Syntax {"
  const FriendFactory: string := "  friend struct SyntaxFactory;"
  const FriendClass: string := "  friend class "
  const FriendSyntaxData: string := "  friend class SyntaxData;"
  const UsingDataType: string := "  using DataType = "
  const CursorEnumOpen: string := "  enum class Cursor : CursorIndex {"
  const ViewRootParam: string := "(RC<SyntaxData> Root, const "
  const ViewBaseInit: string := "(Root, Data) {}"
  const OptionalOpen: string := "  llvm::Optional<"
  const ClassofSyntax: string := "  static bool classof(const Syntax *S) {"
  const ReturnKindIs: string := "    return S->getKind() == SyntaxKind::"

  function InterfaceHeader(className: string, dataClassName: string): (ls: seq<string>)
    ensures |ls| == 8
  {
    [ "class " + className + ViewClassOpen,
      FriendFactory,
      FriendClass + dataClassName + ";",
      FriendSyntaxData,
      "",
      UsingDataType + dataClassName + ";",
      "",
      CursorEnumOpen ]
  }

  function CursorEntry(c: RecordVal): string
  {
    "    " + c.name + ","
  }

  /** The body of the Cursor enum: one entry per child, in child order. */
  function CursorEntries(cs: seq<RecordVal>): (ls: seq<string>)
    ensures |ls| == |cs|
  {
    if cs == [] then [] else CursorEntries(cs[..|cs| - 1]) + [CursorEntry(cs[|cs| - 1])]
  }

  /** The i-th entry of the enum names the i-th child. */
  lemma {:induction false} CursorEntriesAt(cs: seq<RecordVal>, i: nat)
    requires i < |cs|
    ensures CursorEntries(cs)[i] == CursorEntry(cs[i])
  {
    if i < |cs| - 1 {
      var front := cs[..|cs| - 1];
      assert front[i] == cs[i];
      CursorEntriesAt(front, i);
    }
  }

  function InterfaceConstructor(className: string, dataClassName: string, superclassName: string): (ls: seq<string>)
    ensures |ls| == 4
  {
    [ "  };",
      "  " + className + ViewRootParam + dataClassName + "*Data)",
      "    : " + superclassName + ViewBaseInit,
      "public:" ]
  }

  /** The getter and `with` declarations of one child. The getter returns
      an optional view; the argument of `with` is held by reference count
      when the field's type is the Token class itself. */
  function AccessorDecl(className: string, c: RecordVal): (ls: seq<string>)
    requires c.ty.RecordTy?
    ensures |ls| == 3
  {
    var childTypeName := c.ty.recName + "Syntax";
    var argTypeName := if c.ty.recName == "Token" then "RC<" + childTypeName + ">" else childTypeName;
    [ OptionalOpen + childTypeName + "> get" + c.name + "() const;",
      "  " + className + " with" + c.name + "(" + argTypeName + " New" + c.name + ") const;",
      "" ]
  }

  function AccessorDecls(className: string, cs: seq<RecordVal>): (ls: seq<string>)
    requires forall i :: 0 <= i < |cs| ==> cs[i].ty.RecordTy?
    ensures |ls| == 3 * |cs|
  {
    if cs == [] then [] else AccessorDecls(className, cs[..|cs| - 1]) + AccessorDecl(className, cs[|cs| - 1])
  }

  /** Line j of the declarations of child i sits 3 * i + j lines in. */
  lemma {:induction false} AccessorDeclsAt(className: string, cs: seq<RecordVal>, i: nat, j: nat)
    requires forall k :: 0 <= k < |cs| ==> cs[k].ty.RecordTy?
    requires i < |cs| && j < 3
    ensures AccessorDecls(className, cs)[3 * i + j] == AccessorDecl(className, cs[i])[j]
  {
    var front := cs[..|cs| - 1];
    assert forall k :: 0 <= k < |front| ==> front[k] == cs[k];
    if i < |cs| - 1 {
      AccessorDeclsAt(className, front, i, j);
    }
  }

  function InterfaceClassof(className: string): (ls: seq<string>)
    ensures |ls| == 5
  {
    [ ClassofSyntax,
      ReturnKindIs + className + ";",
      "  }",
      "};",
      "" ]
  }

  /** Everything printSyntaxInterface writes for `node`. */
  function SyntaxInterfaceLines(node: Record): seq<string>
    requires HasParent(node)
  {
    var className := node.name + "Syntax";
    var dataClassName := className + "Data";
    var superclassName := ImmediateSuperclass(node) + "Syntax";
    var children := ChildrenOf(node.values);
    InterfaceHeader(className, dataClassName)
    + CursorEntries(children)
    + InterfaceConstructor(className, dataClassName, superclassName)
    + AccessorDecls(className, children)
    + InterfaceClassof(className)
  }

  /** The first loop of printSyntaxInterface: one enum entry per child. */
  method PrintCursorEntries(children: seq<RecordVal>) returns (out: seq<string>)
    ensures out == CursorEntries(children)
  {
    out := [];
    for i := 0 to |children|
      invariant out == CursorEntries(children[..i])
    {
      assert children[..i + 1][..i] == children[..i];
      out := out + [CursorEntry(children[i])];
    }
    assert children[..|children|] == children;
  }

  /** The second loop of printSyntaxInterface: the declarations of each
      child's accessors. */
  method PrintAccessorDecls(className: string, children: seq<RecordVal>) returns (out: seq<string>)
    requires forall i :: 0 <= i < |children| ==> children[i].ty.RecordTy?
    ensures out == AccessorDecls(className, children)
  {
    out := [];
    for i := 0 to |children|
      invariant out == AccessorDecls(className, children[..i])
    {
      assert children[..i + 1][..i] == children[..i];
      out := out + AccessorDecl(className, children[i]);
    }
    assert children[..|children|] == children;
  }

  /** printSyntaxInterface: the lines it writes, and its result. */
  method PrintSyntaxInterface(node: Record) returns (out: seq<string>, failed: bool)
    requires HasParent(node)
    ensures out == SyntaxInterfaceLines(node)
    ensures !failed
  {
    var className := node.name + "Syntax";
    var superclassName := ImmediateSuperclass(node) + "Syntax";
    var dataClassName := className + "Data";
    var children := GetChildrenOf(node);
    var entries := PrintCursorEntries(children);
    children := GetChildrenOf(node);
    var decls := PrintAccessorDecls(className, children);
    out := InterfaceHeader(className, dataClassName)
           + entries
           + InterfaceConstructor(className, dataClassName, superclassName)
           + decls
           + InterfaceClassof(className);
    failed := false;
  }

  /** The Cursor enum of the view class lists one entry per child, in the
      order getChildrenOf yields them, and is closed right after the last. */
  lemma InterfaceCursorEnum(node: Record, i: nat)
    requires HasParent(node) && i <= |ChildrenOf(node.values)|
    ensures var ls, cs := SyntaxInterfaceLines(node), ChildrenOf(node.values);
      && |ls| == 17 + 4 * |cs|
      && ls[7] == "  enum class Cursor : CursorIndex {"
      && (i < |cs| ==> ls[8 + i] == "    " + cs[i].name + ",")
      && ls[8 + |cs|] == "  };"
  {
    if i < |ChildrenOf(node.values)| {
      CursorEntriesAt(ChildrenOf(node.values), i);
    }
  }

  /** After the enum and the constructor come, child by child in the same
      order, the declarations of each child's getter and `with` builder:
      the three lines of child i start 3 * i lines into the declarations.
      The class ends with a classof that tests the view's kind, `<Node>Syntax`. */
  lemma InterfaceAccessors(node: Record, i: nat)
    requires HasParent(node) && i <= |ChildrenOf(node.values)|
    ensures var ls, cs := SyntaxInterfaceLines(node), ChildrenOf(node.values);
      var className := node.name + "Syntax";
      && (i < |cs| ==>
            var c := cs[i];
            var childTypeName := c.ty.recName + "Syntax";
            && c.ty.RecordTy?
            && ls[12 + |cs| + 3 * i] == "  llvm::Optional<" + childTypeName + "> get" + c.name + "() const;"
            && ls[12 + |cs| + 3 * i + 1] ==
                 "  " + className + " with" + c.name + "("
                 + (if c.ty.recName == "Token" then "RC<" + childTypeName + ">" else childTypeName)
                 + " New" + c.name + ") const;")
      && ls[|ls| - 4] == "    return S->getKind() == SyntaxKind::" + className + ";"
  {
    var cs := ChildrenOf(node.values);
    var className := node.name + "Syntax";
    if i < |cs| {
      AccessorDeclsAt(className, cs, i, 0);
      AccessorDeclsAt(className, cs, i, 1);
    }
  }

  // ---------------------------------------------------------------------
  // printSyntaxDataInterface

  const DataClassOpen: string := " final : public SyntaxData {"
  const DataParams: string := "(RC<RawSyntax> Raw, const SyntaxData *Parent = nullptr, CursorIndex IndexInParent = 0);"
  const StaticRC: string := "  static RC<"
  const MakeDecl: string := "> make(RC<RawSyntax> Raw, const SyntaxData *Parent = nullptr, CursorIndex IndexInParent = 0);"
  const MakeBlankDecl: string := "> makeBlank();"
  const ClassofSyntaxData: string := "  static bool classof(const SyntaxData *SD) {"

  /** Everything printSyntaxDataInterface writes for `node`. */
  function SyntaxDataInterfaceLines(node: Record): (ls: seq<string>)
    ensures |ls| == 15
  {
    var kind := node.name;
    var dataClassName := kind + "Syntax" + "Data";
    [ "class " + dataClassName + DataClassOpen,
      FriendSyntaxData,
      FriendFactory,
      "",
      "  " + dataClassName + DataParams,
      "",
      StaticRC + dataClassName + MakeDecl,
      StaticRC + dataClassName + MakeBlankDecl,
      "",
      "public:",
      ClassofSyntaxData,
      ReturnKindIs + kind + ";",
      "  }",
      "};",
      "" ]
  }

  /** printSyntaxDataInterface: the lines it writes, and its result. The
      source writes its fifteen lines in one straight run of `<<` with no
      loop and no call, so the method is `SyntaxDataInterfaceLines` itself,
      returned whole. */
  method PrintSyntaxDataInterface(node: Record) returns (out: seq<string>, failed: bool)
    ensures out == SyntaxDataInterfaceLines(node)
    ensures !failed
  {
    out := SyntaxDataInterfaceLines(node);
    failed := false;
  }

  /** The data class's classof tests `S`, not its parameter `SD`, against
      the node's kind without the `Syntax` suffix. */
  lemma DataInterfaceClassof(node: Record)
    ensures SyntaxDataInterfaceLines(node)[10] == "  static bool classof(const SyntaxData *SD) {"
    ensures SyntaxDataInterfaceLines(node)[11] == "    return S->getKind() == SyntaxKind::" + node.name + ";"
  {
  }

  // ---------------------------------------------------------------------
  // printSyntaxImplementation

  const OptionalPrefix: string := "llvm::Optional<"
  const RawChildOf: string := "  auto RawChild = getRaw()->getChild(Cursor::"
  const IfMissing: string := "  if (RawChild->isMissing()) {"
  const ReturnNone: string := "    return llvm::None;"
  const UnsafeData: string := "  auto *MyData = getUnsafeData<"
  const ChildPtrCast: string := "  auto &ChildPtr = *reinterpret_cast<std::atomic<uintptr_t>*>("
  const CachedRef: string := "    &MyData->Cached"
  const Realize: string := "  SyntaxData::realizeSyntaxNode<"
  const RealizeArgs: string := ">(ChildPtr, RawChild, MyData, cursorIndex(Cursor::"
  const RootCached: string := "{ Root, MyData->Cached"
  const ReplaceChild: string := "  return Data->replaceChild<"
  const RawCursor: string := "->getRaw(), Cursor::"

  /** The getter definition of one child: absent children read as None,
      present ones are realized into the cache slot of the child's cursor.
      The `getChild` call of the second line is not closed. */
  function GetterImpl(className: string, c: RecordVal): (ls: seq<string>)
    requires ResolvableChild(c)
    ensures |ls| == 13
  {
    var childName := c.name;
    var childTypeName := LayoutNodeType(c).recName;
    [ OptionalPrefix + childTypeName + ">",
      className + "::get" + childName + "() const {",
      RawChildOf + childName + ";",
      IfMissing,
      ReturnNone,
      "  }",
      UnsafeData + className + ">();",
      ChildPtrCast,
      CachedRef + childName + ");",
      Realize + childTypeName + RealizeArgs + childName + "));",
      "  return " + className + RootCached + childName + ".get() };",
      "}",
      "" ]
  }

  function SetterHead(className: string, c: RecordVal): (ls: seq<string>)
    requires ResolvableChild(c)
    ensures |ls| == 2
  {
    [ className,
      className + "::with" + c.name + "(" + LayoutNodeType(c).recName + " New" + c.name + ") const {" ]
  }

  /** The `with` definition of one child: a token argument is asserted
      before it replaces the child; a node is replaced by its raw tree. */
  function SetterImpl(className: string, c: RecordVal): (ls: seq<string>)
    requires TokenKindReadable(c)
    ensures |ls| == if IsToken(LayoutNodeType(c)) then 6 else 5
  {
    var newChildArg := "New" + c.name;
    SetterHead(className, c)
    + (if IsToken(LayoutNodeType(c)) then
         [ TokenAssertion(newChildArg, c),
           ReplaceChild + className + ">(" + newChildArg + ", Cursor::" + c.name + ");" ]
       else
         [ ReplaceChild + className + ">(" + newChildArg + RawCursor + c.name + ");" ])
    + [ "}", "" ]
  }

  function AccessorImpl(className: string, c: RecordVal): seq<string>
    requires TokenKindReadable(c)
  {
    GetterImpl(className, c) + SetterImpl(className, c)
  }

  function AccessorImpls(className: string, cs: seq<RecordVal>): seq<string>
    requires AllTokenKindsReadable(cs)
  {
    if cs == [] then []
    else AccessorImpls(className, cs[..|cs| - 1]) + AccessorImpl(className, cs[|cs| - 1])
  }

  lemma TokenKindsReadableSlice(cs: seq<RecordVal>, lo: nat, hi: nat)
    requires AllTokenKindsReadable(cs) && lo <= hi <= |cs|
    ensures AllTokenKindsReadable(cs[lo..hi])
  {
    forall k | 0 <= k < hi - lo ensures TokenKindReadable(cs[lo..hi][k]) {
      assert cs[lo..hi][k] == cs[lo + k];
    }
  }

  /** Regrouping and indexing concatenated lines, stated on plain
      sequences so that no generated text is in scope. */
  lemma AppendAssoc(x: seq<string>, y: seq<string>, z: seq<string>)
    ensures (x + y) + z == x + (y + z)
  {
  }

  lemma MiddleAt(x: seq<string>, y: seq<string>, z: seq<string>, k: nat)
    requires k < |y|
    ensures (x + y + z)[|x| + k] == y[k]
  {
  }

  lemma {:induction false} AccessorImplsAppend(className: string, a: seq<RecordVal>, b: seq<RecordVal>)
    requires AllTokenKindsReadable(a) && AllTokenKindsReadable(b) && AllTokenKindsReadable(a + b)
    ensures AccessorImpls(className, a + b) == AccessorImpls(className, a) + AccessorImpls(className, b)
    decreases |b|
  {
    if b == [] {
      assert a + b == a;
    } else {
      var front := b[..|b| - 1];
      assert (a + b)[..|a + b| - 1] == a + front;
      TokenKindsReadableSlice(b, 0, |b| - 1);
      TokenKindsReadableSlice(a + b, 0, |a + b| - 1);
      AccessorImplsAppend(className, a, front);
      var x, y, z := AccessorImpls(className, a), AccessorImpls(className, front), AccessorImpl(className, b[|b| - 1]);
      assert (a + b)[|a + b| - 1] == b[|b| - 1];
      assert AccessorImpls(className, a + b) == (x + y) + z;
      assert AccessorImpls(className, b) == y + z;
      AppendAssoc(x, y, z);
    }
  }

  /** Everything printSyntaxImplementation writes for `node`. */
  function SyntaxImplementationLines(node: Record): seq<string>
    requires Implementable(node)
  {
    AccessorImpls(node.name, ChildrenOf(node.values))
  }

  /** The body of printSyntaxImplementation's loop: the getter and the
      `with` builder of one child. */
  method PrintAccessorImpl(className: string, child: RecordVal) returns (out: seq<string>)
    requires TokenKindReadable(child)
    ensures out == AccessorImpl(className, child)
  {
    var childName := child.name;
    var childType := LayoutNodeType(child);
    out := GetterImpl(className, child);
    var newChildArg := "New" + childName;
    out := out + SetterHead(className, child);
    if IsToken(childType) {
      var assertion := PrintTokenAssertion(newChildArg, child);
      out := out + [assertion, ReplaceChild + className + ">(" + newChildArg + ", Cursor::" + childName + ");"];
    } else {
      out := out + [ReplaceChild + className + ">(" + newChildArg + RawCursor + childName + ");"];
    }
    out := out + ["}", ""];
  }

  /** printSyntaxImplementation: the lines it writes, and its result. */
  method PrintSyntaxImplementation(node: Record) returns (out: seq<string>, failed: bool)
    requires Implementable(node)
    ensures out == SyntaxImplementationLines(node)
    ensures !failed
  {
    var className := node.name;
    var children := GetChildrenOf(node);
    out := [];
    for i := 0 to |children|
      invariant out == AccessorImpls(className, children[..i])
    {
      assert children[..i + 1][..i] == children[..i];
      var block := PrintAccessorImpl(className, children[i]);
      out := out + block;
    }
    assert children[..|children|] == children;
    failed := false;
  }

  /** The block of child i sits between the blocks of the children before
      it and those after it. */
  lemma AccessorImplsAround(className: string, cs: seq<RecordVal>, i: nat)
    requires AllTokenKindsReadable(cs) && i < |cs|
    ensures TokenKindReadable(cs[i]) && AllTokenKindsReadable(cs[..i]) && AllTokenKindsReadable(cs[i + 1..])
    ensures AccessorImpls(className, cs)
              == AccessorImpls(className, cs[..i]) + AccessorImpl(className, cs[i]) + AccessorImpls(className, cs[i + 1..])
  {
    assert cs == cs[..i] + [cs[i]] + cs[i + 1..];
    TokenKindsReadableSlice(cs, 0, i);
    TokenKindsReadableSlice(cs, i, i + 1);
    TokenKindsReadableSlice(cs, i + 1, |cs|);
    TokenKindsReadableSlice(cs, 0, i + 1);
    assert cs[i..i + 1] == [cs[i]];
    assert cs[..i + 1] == cs[..i] + [cs[i]];
    AccessorImplsAppend(className, cs[..i], [cs[i]]);
    AccessorImplsAppend(className, cs[..i] + [cs[i]], cs[i + 1..]);
    assert AccessorImpls(className, [cs[i]]) == AccessorImpl(className, cs[i]) by {
      assert [cs[i]][..0] == [];
    }
  }

  /** The block of one child is its getter followed by its `with` builder,
      which replaces the child's slot with the argument: a token after its
      assertion, a node by its raw tree. */
  lemma AccessorImplForms(className: string, c: RecordVal)
    requires TokenKindReadable(c)
    ensures var block := AccessorImpl(className, c);
      && |block| == (if IsToken(LayoutNodeType(c)) then 19 else 18)
      && block[1] == className + "::get" + c.name + "() const {"
      && block[2] == "  auto RawChild = getRaw()->getChild(Cursor::" + c.name + ";"
      && block[14] == className + "::with" + c.name + "(" + LayoutNodeRecord(c).name + " New" + c.name + ") const {"
      && (IsToken(LayoutNodeType(c)) ==>
            && block[15] == TokenAssertion("New" + c.name, c)
            && block[16] == "  return Data->replaceChild<" + className + ">(" + ("New" + c.name) + ", Cursor::" + c.name + ");")
      && (!IsToken(LayoutNodeType(c)) ==>
            block[15] == "  return Data->replaceChild<" + className + ">(" + ("New" + c.name) + "->getRaw(), Cursor::" + c.name + ");")
  {
  }

  /** The accessor definitions come child by child in child order. */
  lemma AccessorImplsInChildOrder(node: Record, i: nat)
    requires Implementable(node) && i < |ChildrenOf(node.values)|
    ensures var cs := ChildrenOf(node.values);
      && TokenKindReadable(cs[i]) && AllTokenKindsReadable(cs[..i]) && AllTokenKindsReadable(cs[i + 1..])
      && SyntaxImplementationLines(node)
           == AccessorImpls(node.name, cs[..i]) + AccessorImpl(node.name, cs[i]) + AccessorImpls(node.name, cs[i + 1..])
  {
    AccessorImplsAround(node.name, ChildrenOf(node.values), i);
  }

  // ---------------------------------------------------------------------
  // printSyntaxDataImplementation

  const RawGetChild: string := "Raw->getChild(Cursor::"
  const KindIs: string := "->getKind() == SyntaxKind::"

  function CursorVariable(childName: string): string
  {
    RawGetChild + childName + ")"
  }

  /** The data constructor's check of one child: a token assertion for a
      token, a kind assertion naming the referenced definition otherwise. */
  function ConstructorCheck(c: RecordVal): (line: string)
    requires TokenKindReadable(c)
    ensures Occurs(CursorVariable(c.name), line)
  {
    if IsToken(LayoutNodeType(c)) then TokenAssertion(CursorVariable(c.name), c)
    else
      OccursBefore3("  assert(", CursorVariable(c.name), KindIs, LayoutNodeType(c).recName, ");");
      "  assert(" + CursorVariable(c.name) + KindIs + LayoutNodeType(c).recName + ");"
  }

  /** A token child is checked with its token assertion; any other child
      with an assertion that its raw kind is the kind of the node it refers
      to. */
  lemma ConstructorCheckForms(c: RecordVal)
    requires TokenKindReadable(c)
    ensures IsToken(LayoutNodeType(c)) ==> ConstructorCheck(c) == TokenAssertion(CursorVariable(c.name), c)
    ensures !IsToken(LayoutNodeType(c)) ==>
              ConstructorCheck(c) == "  assert(" + CursorVariable(c.name) + KindIs + LayoutNodeRecord(c).name + ");"
  {
    assert LayoutNodeType(c).recName == LayoutNodeRecord(c).name;
  }

  function ConstructorChecks(cs: seq<RecordVal>): (ls: seq<string>)
    requires AllTokenKindsReadable(cs)
    ensures |ls| == |cs|
  {
    if cs == [] then [] else ConstructorChecks(cs[..|cs| - 1]) + [ConstructorCheck(cs[|cs| - 1])]
  }

  /** The i-th check is the check of the i-th child. */
  lemma {:induction false} ConstructorChecksAt(cs: seq<RecordVal>, i: nat)
    requires AllTokenKindsReadable(cs) && i < |cs|
    ensures ConstructorChecks(cs)[i] == ConstructorCheck(cs[i])
  {
    if i < |cs| - 1 {
      var front := cs[..|cs| - 1];
      assert front[i] == cs[i];
      ConstructorChecksAt(front, i);
    }
  }

  const MissingToken: string := "    TokenSyntax::missingToken(tok::"
  const MissingRaw: string := "    RawSyntax::missing(SyntaxKind::"

  /** The placeholder makeBlank puts in one slot: a missing token of the
      declared kind and spelling, or a missing node of the category's
      placeholder kind. */
  function BlankPlaceholder(c: RecordVal, registered: set<string>): (line: string)
    requires BlankableChild(c, registered)
    ensures IsToken(LayoutNodeType(c)) ==> Occurs(ValueAsString(LayoutNodeRecord(c), "Kind"), line)
    ensures !IsToken(LayoutNodeType(c)) ==> Occurs(GetMissingSyntaxKind(c, registered), line)
  {
    if IsToken(LayoutNodeType(c)) then
      var childRec := LayoutNodeRecord(c);
      OccursBefore3(MissingToken, ValueAsString(childRec, "Kind"), ", \"", ValueAsString(childRec, "Spelling"), "\"),");
      MissingToken + ValueAsString(childRec, "Kind") + ", \"" + ValueAsString(childRec, "Spelling") + "\"),"
    else
      OccursBefore1(MissingRaw, GetMissingSyntaxKind(c, registered), "),");
      MissingRaw + GetMissingSyntaxKind(c, registered) + "),"
  }

  function BlankPlaceholders(cs: seq<RecordVal>, registered: set<string>): (ls: seq<string>)
    requires AllBlankable(cs, registered)
    ensures |ls| == |cs|
  {
    if cs == [] then []
    else BlankPlaceholders(cs[..|cs| - 1], registered) + [BlankPlaceholder(cs[|cs| - 1], registered)]
  }

  /** The i-th placeholder fills the i-th child's slot. */
  lemma {:induction false} BlankPlaceholdersAt(cs: seq<RecordVal>, registered: set<string>, i: nat)
    requires AllBlankable(cs, registered) && i < |cs|
    ensures BlankPlaceholders(cs, registered)[i] == BlankPlaceholder(cs[i], registered)
  {
    if i < |cs| - 1 {
      var front := cs[..|cs| - 1];
      assert front[i] == cs[i];
      BlankPlaceholdersAt(front, registered, i);
    }
  }

  /** A token's placeholder carries the same spelling the constructor and
      the `with` builder check; a node's names the missing kind of its
      category. */
  lemma BlankPlaceholderForms(c: RecordVal, registered: set<string>)
    requires BlankableChild(c, registered)
    ensures IsToken(LayoutNodeType(c)) ==>
              BlankPlaceholder(c, registered)
                == "    TokenSyntax::missingToken(tok::" + ValueAsString(LayoutNodeRecord(c), "Kind") + ", \""
                   + TokenSpelling(c) + "\"),"
    ensures !IsToken(LayoutNodeType(c)) ==>
              BlankPlaceholder(c, registered)
                == "    RawSyntax::missing(SyntaxKind::"
                   + ("Missing" + FirstRegistered(LayoutNodeRecord(c).superclasses, registered).value) + "),"
  {
    if IsToken(LayoutNodeType(c)) {
      SpellingAgreement(c);
    } else {
      MissingSyntaxKindOfCategory(c, registered);
    }
  }

  const DataCtorParams: string := "(RC<RawSyntax> Raw, const SyntaxData *Data, const CursorIndex IndexInParent)"
  const DataBaseInit: string := "(Raw, Data, IndexInParent) {"
  const AssertRawKind: string := "  assert(Raw->getKind() == SyntaxKind::"
  const AssertLayoutSize: string := "  assert(Raw->Layout.size() == "

  function DataConstructorHead(dataClassName: string, dataSuperclassName: string, kind: string, arity: nat): (ls: seq<string>)
    ensures |ls| == 4
  {
    [ dataClassName + "::" + dataClassName + DataCtorParams,
      "  : " + dataSuperclassName + DataBaseInit,
      AssertRawKind + kind + ");",
      AssertLayoutSize + DecimalString(arity) + ");" ]
  }

  const MakeParams: string := "::make(RC<RawSyntax> Raw, const SyntaxData *Parent, const CursorIndex IndexInParent) {"
  const MakeNewArgs: string := " { Raw, Parent, IndexInParent }"

  function MakeLines(dataClassName: string): (ls: seq<string>)
    ensures |ls| == 7
  {
    [ "RC<" + dataClassName + ">",
      dataClassName + MakeParams,
      "  return RC<" + dataClassName + "> {",
      "    new " + dataClassName + MakeNewArgs,
      "  };",
      "}",
      "" ]
  }

  const ReturnMakeRaw: string := "  return make(RawSyntax::make(SyntaxKind::"
  const PresentTail: string := "  SourcePresence::Present));"

  function MakeBlankHead(dataClassName: string, kind: string): (ls: seq<string>)
    ensures |ls| == 4
  {
    [ "RC<" + dataClassName + ">",
      dataClassName + "::makeBlank() {",
      ReturnMakeRaw + kind + ",",
      "  {" ]
  }

  const MakeBlankTail: seq<string> := ["  },", PresentTail, "}", ""]

  /** The data constructor printSyntaxDataImplementation writes. */
  function DataConstructorLines(node: Record): (ls: seq<string>)
    requires HasParent(node) && Implementable(node)
    ensures |ls| == 6 + |ChildrenOf(node.values)|
  {
    var children := ChildrenOf(node.values);
    DataConstructorHead(node.name + "Data", ImmediateSuperclass(node) + "Data", node.name, |children|)
    + ConstructorChecks(children)
    + ["}", ""]
  }

  /** The makeBlank factory printSyntaxDataImplementation writes. */
  function MakeBlankLines(node: Record, registered: set<string>): (ls: seq<string>)
    requires AllBlankable(ChildrenOf(node.values), registered)
    ensures |ls| == 8 + |ChildrenOf(node.values)|
  {
    MakeBlankHead(node.name + "Data", node.name)
    + BlankPlaceholders(ChildrenOf(node.values), registered)
    + MakeBlankTail
  }

  /** Everything printSyntaxDataImplementation writes for `node`. */
  function SyntaxDataImplementationLines(node: Record, registered: set<string>): seq<string>
    requires DataImplementable(node, registered)
  {
    DataConstructorLines(node) + MakeLines(node.name + "Data") + MakeBlankLines(node, registered)
  }

  /** The first loop of printSyntaxDataImplementation: the constructor's
      check of each child. */
  method PrintConstructorChecks(children: seq<RecordVal>) returns (out: seq<string>)
    requires AllTokenKindsReadable(children)
    ensures out == ConstructorChecks(children)
  {
    out := [];
    for i := 0 to |children|
      invariant out == ConstructorChecks(children[..i])
    {
      var child := children[i];
      assert children[..i + 1][..i] == children[..i];
      var childName := child.name;
      var childType := LayoutNodeType(child);
      var childTypeName := childType.recName;
      var childVariable := RawGetChild + childName + ")";
      if IsToken(childType) {
        var line := PrintTokenAssertion(childVariable, child);
        out := out + [line];
      } else {
        out := out + ["  assert(" + childVariable + KindIs + childTypeName + ");"];
      }
    }
    assert children[..|children|] == children;
  }

  /** The second loop of printSyntaxDataImplementation: makeBlank's
      placeholder for each child. */
  method PrintBlankPlaceholders(children: seq<RecordVal>, registered: set<string>) returns (out: seq<string>)
    requires AllBlankable(children, registered)
    ensures out == BlankPlaceholders(children, registered)
  {
    out := [];
    for i := 0 to |children|
      invariant out == BlankPlaceholders(children[..i], registered)
    {
      var child := children[i];
      assert children[..i + 1][..i] == children[..i];
      var childType := LayoutNodeType(child);
      if IsToken(childType) {
        var childRec := LayoutNodeRecord(child);
        var tokenKind := ValueAsString(childRec, "Kind");
        var tokenSpelling := ValueAsString(childRec, "Spelling");
        out := out + [MissingToken + tokenKind + ", \"" + tokenSpelling + "\"),"];
      } else {
        var childKind := GetMissingSyntaxKind(child, registered);
        out := out + [MissingRaw + childKind + "),"];
      }
    }
    assert children[..|children|] == children;
  }

  /** printSyntaxDataImplementation: the lines it writes, and its result. */
  method PrintSyntaxDataImplementation(node: Record, registered: set<string>) returns (out: seq<string>, failed: bool)
    requires DataImplementable(node, registered)
    ensures out == SyntaxDataImplementationLines(node, registered)
    ensures !failed
  {
    var kind := node.name;
    var className := kind;
    var superclassName := ImmediateSuperclass(node);
    var dataClassName := className + "Data";
    var dataSuperclassName := superclassName + "Data";

    var children := GetChildrenOf(node);
    var head := DataConstructorHead(dataClassName, dataSuperclassName, kind, |children|);
    children := GetChildrenOf(node);
    var checks := PrintConstructorChecks(children);
    var ctorLines := head + checks + ["}", ""];

    var make := MakeLines(dataClassName);

    children := GetChildrenOf(node);
    var placeholders := PrintBlankPlaceholders(children, registered);
    var makeBlank := MakeBlankHead(dataClassName, kind) + placeholders + MakeBlankTail;

    out := ctorLines + make + makeBlank;
    failed := false;
  }

  /** The data constructor asserts the raw kind `<Node>`, then a layout
      size whose printed number denotes exactly the child count, then the
      check of each child in child order, and closes. */
  lemma DataConstructorChecks(node: Record, i: nat)
    requires HasParent(node) && Implementable(node) && i <= |ChildrenOf(node.values)|
    ensures var ls, cs := DataConstructorLines(node), ChildrenOf(node.values);
      && ls[2] == "  assert(Raw->getKind() == SyntaxKind::" + node.name + ");"
      && ls[3] == "  assert(Raw->Layout.size() == " + DecimalString(|cs|) + ");"
      && DecimalValue(DecimalString(|cs|)) == |cs|
      && (i < |cs| ==> ls[4 + i] == ConstructorCheck(cs[i]))
      && ls[4 + |cs|] == "}"
  {
    var cs := ChildrenOf(node.values);
    DecimalRoundTrip(|cs|);
    if i < |cs| {
      ConstructorChecksAt(cs, i);
    }
  }

  /** The lines of makeBlank around its placeholders. */
  lemma MakeBlankFrame(node: Record, registered: set<string>)
    requires AllBlankable(ChildrenOf(node.values), registered)
    ensures var ls, cs := MakeBlankLines(node, registered), ChildrenOf(node.values);
      && ls[2] == "  return make(RawSyntax::make(SyntaxKind::" + node.name + ","
      && ls[3] == "  {"
      && ls[4 + |cs|] == "  },"
      && ls[5 + |cs|] == "  SourcePresence::Present));"
  {
    var cs := ChildrenOf(node.values);
    var head, ph := MakeBlankHead(node.name + "Data", node.name), BlankPlaceholders(cs, registered);
    var ls := head + ph + MakeBlankTail;
    assert MakeBlankLines(node, registered) == ls;
    assert ls[2] == head[2] && ls[3] == head[3];
    assert ls[4 + |cs|] == MakeBlankTail[0] && ls[5 + |cs|] == MakeBlankTail[1];
  }

  /** The i-th child's placeholder sits on the i-th line after the opening brace. */
  lemma MakeBlankPlaceholderAt(node: Record, registered: set<string>, i: nat)
    requires AllBlankable(ChildrenOf(node.values), registered) && i < |ChildrenOf(node.values)|
    ensures MakeBlankLines(node, registered)[4 + i] == BlankPlaceholder(ChildrenOf(node.values)[i], registered)
  {
    var cs := ChildrenOf(node.values);
    var head, ph := MakeBlankHead(node.name + "Data", node.name), BlankPlaceholders(cs, registered);
    assert MakeBlankLines(node, registered) == head + ph + MakeBlankTail;
    MiddleAt(head, ph, MakeBlankTail, i);
    BlankPlaceholdersAt(cs, registered, i);
  }

  /** makeBlank builds a node of kind `<Node>` from exactly one placeholder per
      child, in child order, followed by the presence flag. */
  lemma MakeBlankPlaceholders(node: Record, registered: set<string>, i: nat)
    requires AllBlankable(ChildrenOf(node.values), registered) && i <= |ChildrenOf(node.values)|
    ensures var ls, cs := MakeBlankLines(node, registered), ChildrenOf(node.values);
      && ls[2] == "  return make(RawSyntax::make(SyntaxKind::" + node.name + ","
      && ls[3] == "  {"
      && (i < |cs| ==> ls[4 + i] == BlankPlaceholder(cs[i], registered))
      && ls[4 + |cs|] == "  },"
      && ls[5 + |cs|] == "  SourcePresence::Present));"
  {
    MakeBlankFrame(node, registered);
    if i < |ChildrenOf(node.values)| {
      MakeBlankPlaceholderAt(node, registered, i);
    }
  }

  /** The cursor of the i-th enum entry is the one the i-th constructor
      check reads: view and data class address a child by the same
      zero-based index. */
  lemma CursorOrderShared(node: Record, i: nat)
    requires HasParent(node) && Implementable(node) && i < |ChildrenOf(node.values)|
    ensures var cs := ChildrenOf(node.values);
      && SyntaxInterfaceLines(node)[8 + i] == "    " + cs[i].name + ","
      && Occurs(CursorVariable(cs[i].name), DataConstructorLines(node)[4 + i])
  {
    InterfaceCursorEnum(node, i);
    DataConstructorChecks(node, i);
  }
}
