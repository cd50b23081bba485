/** The back end's helpers: classifying field types, following a layout
    field to the node or token it describes, the syntax category of a
    definition, the `-category` option, and a record's layout children. */
module Classify {
  import opened Records

  // ---------------------------------------------------------------------
  // Field types

  /** is(Ty, TypeName): a record type that is the class itself or derives
      from it. Values TableGen inserts by itself (NAME) and auxiliary
      fields (IsRequired) are not record types and never qualify. */
  predicate Is(ty: RecTy, typeName: string)
    ensures Is(ty, typeName) ==> ty.RecordTy?
  {
    ty.RecordTy? && (ty.recName == typeName || typeName in ty.recSupers)
  }

  predicate IsToken(ty: RecTy)
    ensures IsToken(ty) ==> ty.RecordTy?
  {
    Is(ty, "Token")
  }

  predicate IsIdentifier(ty: RecTy)
    ensures IsIdentifier(ty) ==> ty.RecordTy?
  {
    Is(ty, "Identifier")
  }

  predicate IsLayout(ty: RecTy)
    ensures IsLayout(ty) ==> ty.RecordTy?
  {
    Is(ty, "Layout")
  }

  predicate IsChild(v: RecordVal) { IsLayout(v.ty) }

  // ---------------------------------------------------------------------
  // Layout children

  /** getChildrenOf as a specification: the layout-typed fields, in order. */
  function ChildrenOf(vals: seq<RecordVal>): (r: seq<RecordVal>)
    ensures |r| <= |vals|
    ensures forall i :: 0 <= i < |r| ==> IsChild(r[i])
  {
    if vals == [] then []
    else
      var last := vals[|vals| - 1];
      ChildrenOf(vals[..|vals| - 1]) + (if IsChild(last) then [last] else [])
  }

  /** Every layout-typed field is a child, and the filter commutes with
      concatenation, so the children keep the fields' relative order. */
  lemma {:induction false} ChildrenOfExactlyLayout(vals: seq<RecordVal>)
    ensures forall v :: v in ChildrenOf(vals) <==> v in vals && IsChild(v)
    ensures |ChildrenOf(vals)| == |vals| <==> forall k :: 0 <= k < |vals| ==> IsChild(vals[k])
  {
    if vals != [] {
      var front := vals[..|vals| - 1];
      ChildrenOfExactlyLayout(front);
      assert vals == front + [vals[|vals| - 1]];
      if forall k :: 0 <= k < |vals| ==> IsChild(vals[k]) {
        assert forall k :: 0 <= k < |front| ==> IsChild(front[k]) by {
          forall k | 0 <= k < |front| ensures IsChild(front[k]) { assert front[k] == vals[k]; }
        }
      }
    }
  }

  lemma {:induction false} ChildrenOfAppend(a: seq<RecordVal>, b: seq<RecordVal>)
    ensures ChildrenOf(a + b) == ChildrenOf(a) + ChildrenOf(b)
    decreases |b|
  {
    if b == [] {
      assert a + b == a;
    } else {
      var front, last := b[..|b| - 1], b[|b| - 1];
      ChildrenOfAppend(a, front);
      assert (a + b)[..|a + b| - 1] == a + front;
      assert (a + b)[|a + b| - 1] == last;
      var tail := if IsChild(last) then [last] else [];
      assert ChildrenOf(b) == ChildrenOf(front) + tail;
      assert ChildrenOf(a + b) == (ChildrenOf(a) + ChildrenOf(front)) + tail;
    }
  }

  /** getChildrenOf: the loop that pushes every layout-typed field. */
  method GetChildrenOf(node: Record) returns (children: seq<RecordVal>)
    ensures children == ChildrenOf(node.values)
  {
    children := [];
    for i := 0 to |node.values|
      invariant children == ChildrenOf(node.values[..i])
    {
      var child := node.values[i];
      assert node.values[..i + 1][..i] == node.values[..i];
      if !IsLayout(child.ty) {
        continue;
      }
      children := children + [child];
    }
    assert node.values[..|node.values|] == node.values;
  }

  /** getLayoutNodeRecord(const Record *): the layout definition's `Node`
      field holds a reference to a definition. */
  predicate HasNodeField(layout: Record)
  {
    GetValue(layout, "Node").Some? && GetValue(layout, "Node").value.value.DefInit?
  }

  /** What the assertions and casts of getLayoutNodeRecord(RecordVal) and
      getLayoutNodeType demand of a child field. */
  predicate ResolvableChild(c: RecordVal)
  {
    IsLayout(c.ty) && c.value.DefInit? && HasNodeField(c.value.def)
  }

  /** The node or token definition a layout child refers to. */
  function LayoutNodeRecord(c: RecordVal): (r: Record)
    requires ResolvableChild(c)
    ensures exists v :: v in c.value.def.values && v.name == "Node" && v.value == DefInit(r)
  {
    GetValue(c.value.def, "Node").value.value.def
  }

  /** The type of that reference: the record type of the node or token. */
  function LayoutNodeType(c: RecordVal): (t: RecTy)
    requires ResolvableChild(c)
    ensures t.RecordTy? && t.recName == LayoutNodeRecord(c).name
    ensures forall typeName :: Is(t, typeName) <==>
              LayoutNodeRecord(c).name == typeName || typeName in LayoutNodeRecord(c).superclasses
  {
    DefType(LayoutNodeRecord(c))
  }

  // ---------------------------------------------------------------------
  // Token spelling

  /** getTokenSpelling as a specification: the first `Spelling` field of the
      token, unquoted, or the empty string when the token has none. */
  function TokenSpelling(c: RecordVal): (spelling: string)
    requires ResolvableChild(c)
    ensures spelling != "" ==> exists v :: v in LayoutNodeRecord(c).values && v.name == "Spelling"
  {
    match GetValue(LayoutNodeRecord(c), "Spelling")
    case Some(f) => AsUnquotedString(f.value)
    case None => ""
  }

  /** getTokenSpelling: a loop over the token's fields with an early return. */
  method GetTokenSpelling(c: RecordVal) returns (spelling: string)
    requires ResolvableChild(c)
    ensures spelling == TokenSpelling(c)
  {
    var tokenRec := LayoutNodeRecord(c);
    var vals := tokenRec.values;
    for i := 0 to |vals|
      invariant FindValue(vals[i..], "Spelling") == FindValue(vals, "Spelling")
    {
      var field := vals[i];
      assert vals[i..][1..] == vals[i + 1..];
      if field.name == "Spelling" {
        return AsUnquotedString(field.value);
      }
    }
    return "";
  }

  /** When the token declares its spelling as a string, the spelling the
      getter and the data constructor check and the spelling makeBlank
      synthesises through getValueAsString are the same text. */
  lemma SpellingAgreement(c: RecordVal)
    requires ResolvableChild(c) && HasStringValue(LayoutNodeRecord(c), "Spelling")
    ensures TokenSpelling(c) == ValueAsString(LayoutNodeRecord(c), "Spelling")
  {
  }

  /** The spelling checked for a token is the value of its first `Spelling`
      field, and empty exactly when the token has no such field. */
  lemma TokenSpellingOfField(c: RecordVal)
    requires ResolvableChild(c)
    ensures var vals := LayoutNodeRecord(c).values;
      (forall k :: 0 <= k < |vals| ==> vals[k].name != "Spelling") ==> TokenSpelling(c) == ""
    ensures var vals := LayoutNodeRecord(c).values;
      forall k :: 0 <= k < |vals| && vals[k].name == "Spelling"
               && (forall j :: 0 <= j < k ==> vals[j].name != "Spelling")
        ==> TokenSpelling(c) == AsUnquotedString(vals[k].value)
  {
    var vals := LayoutNodeRecord(c).values;
    FindValueNone(vals, "Spelling");
    if FindValue(vals, "Spelling").Some? {
      FindValueIsFirst(vals, "Spelling");
    }
  }

  // ---------------------------------------------------------------------
  // Syntax categories

  /** The classes SyntaxTableGenMain registers as syntax categories. */
  const SyntaxCategoryClasses: set<string> :=
    {"Decl", "Stmt", "Expr", "Type", "Pattern", "Token", "SyntaxCollection"}

  /** getSyntaxCategory as a specification: the first superclass, in
      superclass order, that is a registered category. */
  function FirstRegistered(supers: seq<string>, registered: set<string>): (r: Option<string>)
    ensures r.Some? ==> r.value in supers && r.value in registered
  {
    if supers == [] then None
    else if supers[0] in registered then Some(supers[0])
    else FirstRegistered(supers[1..], registered)
  }

  lemma {:induction false} FirstRegisteredIsFirst(supers: seq<string>, registered: set<string>)
    ensures FirstRegistered(supers, registered).None? <==>
              forall k :: 0 <= k < |supers| ==> supers[k] !in registered
    ensures FirstRegistered(supers, registered).Some? ==>
              exists k :: 0 <= k < |supers| && supers[k] == FirstRegistered(supers, registered).value
                          && supers[k] in registered
                          && forall j :: 0 <= j < k ==> supers[j] !in registered
  {
    if supers != [] && supers[0] !in registered {
      var rest := supers[1..];
      FirstRegisteredIsFirst(rest, registered);
      assert forall k :: 1 <= k < |supers| ==> supers[k] == rest[k - 1];
      if FirstRegistered(rest, registered).Some? {
        var k :| 0 <= k < |rest| && rest[k] == FirstRegistered(rest, registered).value
                 && rest[k] in registered && forall j :: 0 <= j < k ==> rest[j] !in registered;
        assert supers[k + 1] == rest[k];
        assert forall j :: 0 <= j < k + 1 ==> supers[j] !in registered by {
          forall j | 0 <= j < k + 1 ensures supers[j] !in registered {
            if j > 0 { assert supers[j] == rest[j - 1]; }
          }
        }
      }
    } else if supers != [] {
      assert supers[0] == FirstRegistered(supers, registered).value;
    }
  }

  /** getSyntaxCategory: a loop over the superclasses with an early return. */
  method GetSyntaxCategory(def: Record, registered: set<string>) returns (category: Option<string>)
    ensures category == FirstRegistered(def.superclasses, registered)
  {
    var supers := def.superclasses;
    for i := 0 to |supers|
      invariant FirstRegistered(supers[i..], registered) == FirstRegistered(supers, registered)
    {
      assert supers[i..][1..] == supers[i + 1..];
      if supers[i] in registered {
        return Some(supers[i]);
      }
    }
    return None;
  }

  /** The categories getMissingSyntaxKind has a placeholder kind for. */
  const MissingKindCategories: set<string> :=
    {"Decl", "Expr", "Stmt", "Type", "Pattern", "SyntaxCollection"}

  /** What getMissingSyntaxKind demands: the node has a category (the
      result of getSyntaxCategory is unwrapped) and the string switch has a
      case for it (it has no default, and no case for Token). */
  predicate HasMissingKind(c: RecordVal, registered: set<string>)
  {
    && ResolvableChild(c)
    && FirstRegistered(LayoutNodeRecord(c).superclasses, registered).Some?
    && FirstRegistered(LayoutNodeRecord(c).superclasses, registered).value in MissingKindCategories
  }

  /** The six placeholder kinds of the switch. */
  const MissingKinds: set<string> :=
    {"MissingDecl", "MissingExpr", "MissingStmt", "MissingType", "MissingPattern", "MissingSyntaxCollection"}

  /** getMissingSyntaxKind: the placeholder kind for a node child. */
  function GetMissingSyntaxKind(c: RecordVal, registered: set<string>): (kind: string)
    requires HasMissingKind(c, registered)
    ensures kind in MissingKinds
  {
    var category := FirstRegistered(LayoutNodeRecord(c).superclasses, registered).value;
    if category == "Decl" then "MissingDecl"
    else if category == "Expr" then "MissingExpr"
    else if category == "Stmt" then "MissingStmt"
    else if category == "Type" then "MissingType"
    else if category == "Pattern" then "MissingPattern"
    else "MissingSyntaxCollection"
  }

  /** The placeholder kind is `Missing` followed by the node's category. */
  lemma MissingSyntaxKindOfCategory(c: RecordVal, registered: set<string>)
    requires HasMissingKind(c, registered)
    ensures GetMissingSyntaxKind(c, registered)
              == "Missing" + FirstRegistered(LayoutNodeRecord(c).superclasses, registered).value
  {
    var category := FirstRegistered(LayoutNodeRecord(c).superclasses, registered).value;
    var kind := GetMissingSyntaxKind(c, registered);
    if category == "Decl" {
      assert kind == "MissingDecl";
    } else if category == "Expr" {
      assert kind == "MissingExpr";
    } else if category == "Stmt" {
      assert kind == "MissingStmt";
    } else if category == "Type" {
      assert kind == "MissingType";
    } else if category == "Pattern" {
      assert kind == "MissingPattern";
    } else {
      assert category == "SyntaxCollection";
      assert kind == "MissingSyntaxCollection";
    }
  }

  // ---------------------------------------------------------------------
  // The -category option

  datatype Category =
    | Unknown
    | Decl
    | Stmt
    | Expr
    | Type
    | Pattern
    | SyntaxFactory
    | SyntaxRewriter

  /** The option strings getCategory recognises. */
  const CategoryOptions: set<string> :=
    {"Decl", "Expr", "Stmt", "Type", "Pattern", "SyntaxFactory", "SyntaxRewriter"}

  /** The option string that selects a known category. */
  function CategoryOption(c: Category): (option: string)
    requires c != Unknown
    ensures option in CategoryOptions
  {
    match c
    case Decl => "Decl"
    case Stmt => "Stmt"
    case Expr => "Expr"
    case Type => "Type"
    case Pattern => "Pattern"
    case SyntaxFactory => "SyntaxFactory"
    case SyntaxRewriter => "SyntaxRewriter"
  }

  /** getCategory: a known category only on an exact match of its name. */
  function GetCategory(option: string): (c: Category)
    ensures c != Unknown <==> option in CategoryOptions
    ensures c != Unknown ==> CategoryOption(c) == option
  {
    if option == "Decl" then Decl
    else if option == "Expr" then Expr
    else if option == "Stmt" then Stmt
    else if option == "Type" then Type
    else if option == "Pattern" then Pattern
    else if option == "SyntaxFactory" then SyntaxFactory
    else if option == "SyntaxRewriter" then SyntaxRewriter
    else Unknown
  }

  /** CategoryOption and GetCategory are inverse on the known categories;
      the two registered classes that have no option of their own, and an
      arbitrary string, are Unknown. */
  lemma CategoryOptionRoundTrip(c: Category)
    requires c != Unknown
    ensures GetCategory(CategoryOption(c)) == c
    ensures GetCategory("SyntaxCollection") == Unknown && GetCategory("Token") == Unknown
  {
  }

  /** The categories whose definitions are emitted node by node. */
  predicate IsNodeCategory(c: Category)
  {
    c in {Decl, Expr, Stmt, Type, Pattern}
  }
}
