# swift-syntax-tblgen, modelled in Dafny

`swift-syntax-tblgen` is a TableGen back end of the Swift compiler. It
reads a schema of syntax-node definitions. Each definition has an ordered
list of `Layout` children, and each child refers to a token or to another
node. From this schema it emits the C++ for one syntax category, in one
of two modes:

- interface mode declares, for every definition `<Node>`:
  - a view class `<Node>Syntax` with a `Cursor` enum, getter and `with`
    declarations, and a classof that tests `SyntaxKind::<Node>Syntax`;
  - a data class `<Node>SyntaxData` whose classof tests
    `SyntaxKind::<Node>`;
- implementation mode defines:
  - the getters and `with` builders as members of `<Node>`;
  - the members of `<Node>Data`, which derives from `<Super>Data`: a
    constructor that asserts the raw kind `SyntaxKind::<Node>` and the
    layout size, `make`, and `makeBlank`, which builds a `SyntaxKind::<Node>`
    node of missing placeholders.

The two modes thus name the classes and the kinds differently. The model
keeps each mode's names exactly as the generator writes them and does not
reconcile them.

The model has five modules:

- `Records` (records.dfy): the part of the TableGen record store the back
  end reads. Records, fields, record types and the record keeper are plain
  values.
- `Classify` (classify.dfy):
  - the field classifiers `is`, `isToken`, `isIdentifier` and `isLayout`;
  - layout extraction (`getChildrenOf`) and the lookups behind
    `getLayoutNodeRecord`, `getLayoutNodeType` and `getTokenSpelling`;
  - the category helpers `getSyntaxCategory`, `getMissingSyntaxKind` and
    `getCategory`.
- `Text` (text.dfy): occurrence of a fragment in a line, and the decimal
  notation of the child count.
- `Emit` (emit.dfy): the five emitters, `printTokenAssertion` and the four
  `printSyntax*` functions. Each emitter is a method that returns the
  lines it writes. Each method is proved equal to a function that gives
  the whole emitted text, and lemmas about that function state what the
  text contains: the cursor order, the arity assertion, the per-child
  checks and the `makeBlank` placeholders.
- `Driver` (driver.dfy):
  - the loops over a category's definitions, which skip the umbrella
    `Any<Category>` definition;
  - the dispatch on the category;
  - `SyntaxTableGenMain` and `main`.

Every `OS << ...` statement of the source ends in a newline. The stream is
therefore modelled as the sequence of lines written to it. The globals
`AllRecords` and `SyntaxCategories` become explicit parameters:

- the record keeper `rk`;
- the set `registered` of category class names, which `SyntaxTableGenMain`
  builds.

## Model

| member | source | states |
|---|---|---|
| Records.FindValue | lib/Syntax/TableGen/swift-syntax-tblgen.cpp:89-93 | `getValue` returns a field that is in the record and has the requested name, or nothing |
| Records.FindValueNone | lib/Syntax/TableGen/swift-syntax-tblgen.cpp:116 | `getValue` finds nothing exactly when no field has the name |
| Records.FindValueIsFirst | lib/Syntax/TableGen/swift-syntax-tblgen.cpp:116 | the field `getValue` finds is the first of that name |
| Records.DerivedFrom | lib/Syntax/TableGen/swift-syntax-tblgen.cpp:253 | there are never more derived definitions than definitions |
| Records.DerivedFromAppend | lib/Syntax/TableGen/swift-syntax-tblgen.cpp:253 | deriving commutes with concatenation, so the derived definitions keep the record keeper's order |
| Records.AllDerivedDefinitions | lib/Syntax/TableGen/swift-syntax-tblgen.cpp:253 | `getAllDerivedDefinitions` returns exactly the definitions that list the class among their superclasses |
| Records.DerivedFromMembers | lib/Syntax/TableGen/swift-syntax-tblgen.cpp:253 | the derived definitions are exactly those that list the class among their superclasses |
| Classify.Is | lib/Syntax/TableGen/swift-syntax-tblgen.cpp:68-75 | a type passes `is` only when it is a record type, the `dyn_cast<RecordRecTy>` |
| Classify.IsToken | lib/Syntax/TableGen/swift-syntax-tblgen.cpp:77-79 | `isToken` holds only of record types |
| Classify.IsIdentifier | lib/Syntax/TableGen/swift-syntax-tblgen.cpp:81-83 | `isIdentifier` holds only of record types |
| Classify.IsLayout | lib/Syntax/TableGen/swift-syntax-tblgen.cpp:85-87 | `isLayout` holds only of record types |
| Classify.LayoutNodeRecord | lib/Syntax/TableGen/swift-syntax-tblgen.cpp:89-100 | the record returned is the one the `Node` field of the child's definition refers to |
| Classify.LayoutNodeType | lib/Syntax/TableGen/swift-syntax-tblgen.cpp:112-120 | the type is the record type of that node record; `is` holds of it for a type name exactly when the record has that name or lists it among its superclasses |
| Classify.TokenSpelling | lib/Syntax/TableGen/swift-syntax-tblgen.cpp:122-131 | a non-empty spelling comes from a `Spelling` field of the token record |
| Classify.ChildrenOf | lib/Syntax/TableGen/swift-syntax-tblgen.cpp:157-168 | the children are `Layout`-typed fields, and there are at most as many children as fields |
| Classify.GetChildrenOf | lib/Syntax/TableGen/swift-syntax-tblgen.cpp:157-168 | the push_back loop computes the children of the node's fields |
| Classify.ChildrenOfExactlyLayout | lib/Syntax/TableGen/swift-syntax-tblgen.cpp:68-87 | a field is a child exactly when its type is `Layout` or a subclass of it; no field is dropped exactly when every field is a layout |
| Classify.ChildrenOfAppend | lib/Syntax/TableGen/swift-syntax-tblgen.cpp:160-165 | filtering commutes with concatenation, so the children keep the fields' order |
| Classify.GetTokenSpelling | lib/Syntax/TableGen/swift-syntax-tblgen.cpp:122-131 | the early-return loop over the token record's fields computes the token's spelling |
| Classify.TokenSpellingOfField | lib/Syntax/TableGen/swift-syntax-tblgen.cpp:122-131 | the spelling is the unquoted value of the first `Spelling` field, and the empty string when there is none |
| Classify.SpellingAgreement | lib/Syntax/TableGen/swift-syntax-tblgen.cpp:350 | for a string-valued `Spelling`, `getTokenSpelling` and `getValueAsString("Spelling")` agree |
| Classify.FirstRegistered | lib/Syntax/TableGen/swift-syntax-tblgen.cpp:102-110 | what `getSyntaxCategory` returns is a superclass of the definition and a registered category |
| Classify.FirstRegisteredIsFirst | lib/Syntax/TableGen/swift-syntax-tblgen.cpp:102-110 | it returns nothing exactly when no superclass is registered; otherwise it returns the first registered superclass in superclass order |
| Classify.GetSyntaxCategory | lib/Syntax/TableGen/swift-syntax-tblgen.cpp:102-110 | the early-return loop computes the first registered superclass |
| Classify.GetMissingSyntaxKind | lib/Syntax/TableGen/swift-syntax-tblgen.cpp:133-143 | the placeholder kind is one of the six kinds of the switch |
| Classify.MissingSyntaxKindOfCategory | lib/Syntax/TableGen/swift-syntax-tblgen.cpp:133-143 | the placeholder kind is `Missing` followed by the child's category; the precondition requires a category with a case in the switch |
| Classify.GetCategory | lib/Syntax/TableGen/swift-syntax-tblgen.cpp:145-155 | the result is known exactly when the option is one of the seven category names, and then it spells back to the option |
| Classify.CategoryOption | lib/Syntax/TableGen/swift-syntax-tblgen.cpp:146-153 | every known category has one of the seven option names |
| Classify.CategoryOptionRoundTrip | lib/Syntax/TableGen/swift-syntax-tblgen.cpp:145-155 | parsing a category's name gives the category back; `SyntaxCollection` and `Token` select no category |
| Emit.TokenAssertion | lib/Syntax/TableGen/swift-syntax-tblgen.cpp:170-183 | the assertion line mentions the variable it checks |
| Emit.PrintTokenAssertion | lib/Syntax/TableGen/swift-syntax-tblgen.cpp:170-183 | the emitted line is the token assertion for the variable and the child |
| Emit.TokenAssertionForms | lib/Syntax/TableGen/swift-syntax-tblgen.cpp:178-182 | an identifier gets only an unindented kind assertion; any other token gets an indented `syntax_assert_token_is` with its spelling, which is empty when the token has no `Spelling` field |
| Emit.CursorEntries | lib/Syntax/TableGen/swift-syntax-tblgen.cpp:200-202 | one enum entry per child |
| Emit.CursorEntriesAt | lib/Syntax/TableGen/swift-syntax-tblgen.cpp:200-202 | entry i names child i |
| Emit.AccessorDecls | lib/Syntax/TableGen/swift-syntax-tblgen.cpp:209-219 | three declaration lines per child |
| Emit.AccessorDeclsAt | lib/Syntax/TableGen/swift-syntax-tblgen.cpp:209-219 | declaration line 3i+j is line j of child i's declarations |
| Emit.PrintCursorEntries | lib/Syntax/TableGen/swift-syntax-tblgen.cpp:200-202 | the loop emits the cursor entries of the children |
| Emit.PrintAccessorDecls | lib/Syntax/TableGen/swift-syntax-tblgen.cpp:209-219 | the loop emits the accessor declarations of the children |
| Emit.PrintSyntaxInterface | lib/Syntax/TableGen/swift-syntax-tblgen.cpp:187-227 | the method emits the view-class interface and does not fail |
| Emit.InterfaceCursorEnum | lib/Syntax/TableGen/swift-syntax-tblgen.cpp:192-203 | the interface has 17 + 4k lines for k children; the `Cursor` enum opens at line 7, lists child i at line 8 + i, in child order, and closes right after the last child, also for a node without children |
| Emit.InterfaceAccessors | lib/Syntax/TableGen/swift-syntax-tblgen.cpp:205-224 | child i's getter and `with` declarations come at 12 + k + 3i; a `Token` child's builder takes an `RC<...>`; classof tests `SyntaxKind::<Node>Syntax`, also for a node without children |
| Emit.PrintSyntaxDataInterface | lib/Syntax/TableGen/swift-syntax-tblgen.cpp:229-250 | the method emits the fifteen lines of the data-class interface and does not fail |
| Emit.DataInterfaceClassof | lib/Syntax/TableGen/swift-syntax-tblgen.cpp:245-247 | the data class's classof takes `SD` but tests `S->getKind()` against `SyntaxKind::<Node>`, as the source writes it |
| Emit.SetterImpl | lib/Syntax/TableGen/swift-syntax-tblgen.cpp:292-301 | the builder definition is six lines for a token (with its assertion) and five otherwise |
| Emit.AccessorImplsAppend | lib/Syntax/TableGen/swift-syntax-tblgen.cpp:272-302 | the definitions for a concatenation of children are the two lists of definitions, concatenated |
| Emit.AccessorImplsAround | lib/Syntax/TableGen/swift-syntax-tblgen.cpp:272-302 | the definitions are those of the children before i, then child i's, then those of the children after |
| Emit.PrintAccessorImpl | lib/Syntax/TableGen/swift-syntax-tblgen.cpp:273-301 | one loop body emits the getter and builder definitions of one child |
| Emit.PrintSyntaxImplementation | lib/Syntax/TableGen/swift-syntax-tblgen.cpp:266-305 | the loop emits the accessor definitions of the children, in order, and does not fail |
| Emit.AccessorImplForms | lib/Syntax/TableGen/swift-syntax-tblgen.cpp:279-301 | each child's block has 19 lines for a token and 18 otherwise; the getter reads the child's cursor, with the missing `)` of the source; a token builder asserts the token and then replaces the slot with the argument; any other builder replaces the slot with the raw tree |
| Emit.AccessorImplsInChildOrder | lib/Syntax/TableGen/swift-syntax-tblgen.cpp:272 | the accessor definitions of a node come in child order |
| Emit.ConstructorChecks | lib/Syntax/TableGen/swift-syntax-tblgen.cpp:319-329 | one check per child |
| Emit.ConstructorChecksAt | lib/Syntax/TableGen/swift-syntax-tblgen.cpp:319-329 | check i is child i's check |
| Emit.BlankPlaceholders | lib/Syntax/TableGen/swift-syntax-tblgen.cpp:345-356 | one placeholder per child |
| Emit.BlankPlaceholdersAt | lib/Syntax/TableGen/swift-syntax-tblgen.cpp:345-356 | placeholder i fills child i's slot |
| Emit.BlankPlaceholderForms | lib/Syntax/TableGen/swift-syntax-tblgen.cpp:346-355 | a token child becomes `missingToken` with its kind and its spelling; a node child becomes `missing` with `Missing` followed by its category |
| Emit.DataConstructorLines | lib/Syntax/TableGen/swift-syntax-tblgen.cpp:314-330 | the constructor has 6 + k lines for k children |
| Emit.MakeBlankLines | lib/Syntax/TableGen/swift-syntax-tblgen.cpp:340-359 | `makeBlank` has 8 + k lines for k children |
| Emit.ConstructorCheck | lib/Syntax/TableGen/swift-syntax-tblgen.cpp:319-329 | the check of a child reads that child's cursor |
| Emit.ConstructorCheckForms | lib/Syntax/TableGen/swift-syntax-tblgen.cpp:320-328 | a token child is checked with its token assertion on its cursor variable; any other child with an indented assertion that its raw kind is `SyntaxKind::` followed by the name of the node it refers to |
| Emit.BlankPlaceholder | lib/Syntax/TableGen/swift-syntax-tblgen.cpp:345-356 | a token child's placeholder mentions its token kind; a node child's mentions its missing kind |
| Emit.PrintConstructorChecks | lib/Syntax/TableGen/swift-syntax-tblgen.cpp:319-329 | the loop emits the constructor checks of the children |
| Emit.PrintBlankPlaceholders | lib/Syntax/TableGen/swift-syntax-tblgen.cpp:345-356 | the loop emits the placeholders of the children |
| Emit.PrintSyntaxDataImplementation | lib/Syntax/TableGen/swift-syntax-tblgen.cpp:307-362 | the method emits the data-class constructor, `make` and `makeBlank`, and does not fail |
| Emit.DataConstructorChecks | lib/Syntax/TableGen/swift-syntax-tblgen.cpp:315-330 | the constructor of `<Node>Data` asserts the raw kind `SyntaxKind::<Node>`; it then asserts a layout size whose printed number reads back as the child count; then comes child i's check at line 4 + i, and the constructor closes after the last check, also for a node without children |
| Emit.MakeBlankPlaceholders | lib/Syntax/TableGen/swift-syntax-tblgen.cpp:341-359 | `makeBlank` makes a `SyntaxKind::<Node>` node from exactly one placeholder per child, in child order, followed by `SourcePresence::Present`, also for a node without children |
| Emit.CursorOrderShared | lib/Syntax/TableGen/swift-syntax-tblgen.cpp:199-203 | the i-th enum entry names child i, and the i-th constructor check reads `Raw->getChild(Cursor::<child i>)`, so view and data class share one child order |
| Text.DecimalString | lib/Syntax/TableGen/swift-syntax-tblgen.cpp:318 | the printed count is a non-empty string of digits with no leading zero |
| Text.DecimalRoundTrip | lib/Syntax/TableGen/swift-syntax-tblgen.cpp:318 | the printed child count reads back as the count |
| Text.DecimalStringInjective | lib/Syntax/TableGen/swift-syntax-tblgen.cpp:318 | different counts print differently |
| Driver.SkipUmbrella | lib/Syntax/TableGen/swift-syntax-tblgen.cpp:255-258 | skipping never lengthens the list of definitions |
| Driver.SkipUmbrellaMembers | lib/Syntax/TableGen/swift-syntax-tblgen.cpp:255-258 | exactly the definitions not named like the umbrella are kept |
| Driver.SkipUmbrellaAppend | lib/Syntax/TableGen/swift-syntax-tblgen.cpp:367-370 | skipping commutes with concatenation, so the kept definitions keep their order |
| Driver.VisitedNodes | lib/Syntax/TableGen/swift-syntax-tblgen.cpp:253-258 | no emitted definition is the umbrella, and every emitted definition has a superclass |
| Driver.VisitedNodesExact | lib/Syntax/TableGen/swift-syntax-tblgen.cpp:253-258 | a definition is emitted exactly when it derives from the category's class and is not named `Any<Category>` |
| Driver.UmbrellaAndOthersSkipped | lib/Syntax/TableGen/swift-syntax-tblgen.cpp:253-258 | for a schema listing the umbrella, a node of the category, a node of another category and a second node of the category, exactly the two nodes of the category are visited, in the record keeper's order |
| Driver.InterfacesOfAppend | lib/Syntax/TableGen/swift-syntax-tblgen.cpp:255-261 | the declarations of consecutive groups of definitions are the concatenation of each group's declarations |
| Driver.PrintNodeInterface | lib/Syntax/TableGen/swift-syntax-tblgen.cpp:259-260 | a visited definition gets its view-class interface followed by its data-class interface |
| Driver.PrintSyntaxInterfaces | lib/Syntax/TableGen/swift-syntax-tblgen.cpp:252-264 | the loop emits the two interfaces of every visited definition, in the record keeper's order, and does not fail |
| Driver.ImplementationsOfAppend | lib/Syntax/TableGen/swift-syntax-tblgen.cpp:367-376 | the definitions for consecutive groups of schema definitions are the concatenation of each group's |
| Driver.PrintNodeImplementation | lib/Syntax/TableGen/swift-syntax-tblgen.cpp:372-375 | a visited definition gets an `API` mark, the view-class definitions, a `Data` mark and the data-class definitions |
| Driver.PrintSyntaxImplementations | lib/Syntax/TableGen/swift-syntax-tblgen.cpp:364-379 | the loop emits the marked definitions of every visited definition, in the record keeper's order, and does not fail |
| Driver.PrintSyntaxFactoryInterface | lib/Syntax/TableGen/swift-syntax-tblgen.cpp:383-386 | the placeholder emits nothing and does not fail |
| Driver.PrintSyntaxFactoryImplementation | lib/Syntax/TableGen/swift-syntax-tblgen.cpp:389-392 | the placeholder emits nothing and does not fail |
| Driver.PrintSyntaxRewriterInterface | lib/Syntax/TableGen/swift-syntax-tblgen.cpp:396-399 | the placeholder emits nothing and does not fail |
| Driver.PrintSyntaxRewriterImplementation | lib/Syntax/TableGen/swift-syntax-tblgen.cpp:401-404 | the placeholder emits nothing and does not fail |
| Driver.GenInterface | lib/Syntax/TableGen/swift-syntax-tblgen.cpp:406-421 | a node category gets the interfaces of its visited definitions; SyntaxFactory and SyntaxRewriter get nothing; an unknown category is excluded by the precondition (`llvm_unreachable`) |
| Driver.GenImplementation | lib/Syntax/TableGen/swift-syntax-tblgen.cpp:423-438 | a node category gets the implementations of its visited definitions; SyntaxFactory and SyntaxRewriter get nothing; an unknown category is excluded by the precondition |
| Driver.SyntaxTableGenMain | lib/Syntax/TableGen/swift-syntax-tblgen.cpp:440-459 | the seven category classes are registered; the back end fails exactly when no action is given, and then reports `action required` and emits nothing; otherwise it emits what the action generates |
| Driver.RunMain | lib/Syntax/TableGen/swift-syntax-tblgen.cpp:461-470 | an unknown category is reported, generates nothing and exits with 1; otherwise the tool exits with 1 exactly when no action was given, and emits what the action generates |

## Left out

- The TableGen library (`RecordKeeper`, `Record`, `RecordVal`,
  `RecordRecTy`, `DefInit`) is replaced by plain datatypes:
  - `isSubClassOf` is membership in the record's transitive superclass
    list;
  - `getAllDerivedDefinitions` keeps the order of `RecordKeeper.defs`. That
    sequence stands for the record keeper's own order of its definitions,
    which TableGen keeps in a map keyed by name; the model does not fix
    the order, so "the record keeper's order" is not declaration order;
  - `getClass` is membership in `RecordKeeper.classes`.
- `getClass` returning null for a class the schema lacks is not modelled;
  the category set holds class names instead of record pointers.
- The type of a `DefInit` is taken to be the record type of the definition
  it refers to, so `getLayoutNodeType` yields the child's node definition.
- Casts that abort (`cast<DefInit>`, `cast<RecordRecTy>`), `assert`s,
  `llvm_unreachable`, a `getValueAsString` on a missing or non-string field,
  and `Optional::getValue` on `None` are preconditions, not executable
  behaviour. This includes `getAllDerivedDefinitions` of a class that does
  not exist.
- Command-line parsing (`cl::opt`, including the single-valued `-language`
  option), `PrintHelpMessage`, `PrintStackTraceOnErrorSignal` and LLVM's
  `TableGenMain` are not modelled. The action and the category are
  parameters. `TableGenMain` is reduced to exit code 1 when the back end
  reports failure and 0 otherwise; it also writes the output file, which is
  not modelled.
- `raw_ostream` and `errs()` are the sequences of lines written to them,
  returned by each method. There is no shared stream object, so the model
  does not capture interleaving with other writers or buffering.
- `ActionType::None` is named `NoAction`, and its two other values get an
  `Action` suffix, to avoid clashing with `Option.None` and with the
  methods `GenInterface` and `GenImplementation`. `main` is named `RunMain`.
- The runtime behaviour of the generated C++ (atomic lazy realization,
  `replaceChild`, reference counting) is emitted as text only.
