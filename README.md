# The qooxdoo lint pass, modelled in Dafny

This project models the lint checker of the qooxdoo generator
(`tool/pylib/ecmascript/transform/check/lint.py`). The checker walks a parsed
JavaScript syntax tree whose file and function nodes carry scopes. It reports
warnings on the way:

- unknown globals and deprecated built-ins;
- unused and multiply declared bindings;
- duplicate map keys;
- loop or condition bodies without a block;
- undeclared private class features;
- reference values shared across instances;
- malformed `qx.core.Environment` `select`/`get`/`filter` calls.

`@lint` comment hints collected along the chain of enclosing scopes can
suppress some of these warnings.

The files follow the structure of the program:

| file | module | contents |
|---|---|---|
| `wrappers.dfy` | `Wrappers` | `Option` |
| `text.dfy` | `Text` | Python `\w` and `\b`, `str.split`, decimal rendering of integers |
| `hints.dfy` | `Hints` | comment hint records, `is_name_lint_filtered` matching, the `get_at_hints` merge (specification and method) |
| `tree.dfy` | `Tree` | the input tree: nodes, scopes, bindings, class maps, located Environment calls |
| `report.dfy` | `Report` | the `warn` record and its two printed forms |
| `classifier.dfy` | `Classifier` | `extension_match_in` (specification and loop) |
| `rules.dfy` | `Rules` | every rule as a function from its inputs to the warnings it emits, with lemmas characterising each |
| `lint.dfy` | `Lint` | the pre-order dispatch as the recursive function `LintNode`, with lemmas placing every node's rule warnings, under its chain of enclosing hints, as one run in the output and every output warning at some node; and the class `LintChecker`, whose visitor and rule methods append to `reported` and are proved to append exactly what `LintNode` and the rule functions specify |
| `scenarios.dfy` | `Scenarios` | rule outcomes on inputs taken from `qx/ui/tree/Tree.js` |

Method contracts have the form `reported == old(reported) + Spec(...)`.
Lemmas about the `Spec` functions state what the rules promise:

- exactly which warnings occur;
- how many, for unused bindings, multiple declarations and duplicate map keys (`UnusedVarWarningsCount`, `MultipleDeclWarningsCount`, `DuplicateKeyCount`); for the other rules only which warnings occur;
- at which location and with which message;
- which hints silence them.

The traversal context `ctx` lists the comment records of the strictly
enclosing scope nodes, innermost first. It is the chain that `get_at_hints`
walks through `scopes.find_enclosing`. The hints of a node are
`AtHints([node.comments] + ctx)`.

Inputs that collaborators compute are data in the model:

- the resolved dotted names of uses (`treeutil.assembleVariable` and `findVarRoot`);
- comment records (`Comment.parseNode`);
- class maps (`treeutil.getClassMap` over `findQxDefineR`);
- the Environment accesses (`variantoptimizer.findVariantNodes`);
- `lang.GLOBALS` and `lang.DEPRECATED`, given as `Lang`.

## Model

| member | source | states |
|---|---|---|
| `Text.Split` | tool/pylib/ecmascript/transform/check/lint.py:272 | `full_name.split(".")` always yields at least one piece |
| `Text.JoinSplit` | tool/pylib/ecmascript/transform/check/lint.py:272 | joining the pieces of a split with the separator gives back the string |
| `Text.SplitPiecesHaveNoSeparator` | tool/pylib/ecmascript/transform/check/lint.py:272 | no piece of a split contains the separator |
| `Text.SplitHasSeveralPieces` | tool/pylib/ecmascript/transform/check/lint.py:273 | `len(name_parts) > 1` holds exactly when the name contains a dot |
| `Text.SecondPieceOfSplit` | tool/pylib/ecmascript/transform/check/lint.py:272-273 | `name_parts[1]` is the dot-free segment right after the first dot, and a dot or the end of the string follows it |
| `Text.NatToString` | tool/pylib/ecmascript/transform/check/lint.py:362 | the decimal rendering of a natural number is a non-empty string of digits, "0" for zero and without a leading zero otherwise, as Python's `str` writes it |
| `Text.ParseNatToString` | tool/pylib/ecmascript/transform/check/lint.py:362 | reading back the decimal rendering of a natural number gives the number |
| `Text.IntToString` | tool/pylib/ecmascript/transform/check/lint.py:185 | `str` of an integer is non-empty, starts with a minus sign exactly for a negative integer, is "0" for zero, and has no leading zero after the sign |
| `Text.IntToStringRoundTrip` | tool/pylib/ecmascript/transform/check/lint.py:185 | the rendering of any integer is an optional minus sign followed by digits, and reading it back gives the integer |
| `Text.JoinInts` | tool/pylib/ecmascript/transform/check/lint.py:185 | defines `", ".join` of the renderings of a list of integers, in list order |
| `Text.ReprIntList` | tool/pylib/ecmascript/transform/check/lint.py:185 | defines the `%r` rendering of the list of shown lines: `[`, the joined renderings, `]` |
| `Hints.CharMatches` | tool/pylib/ecmascript/transform/check/lint.py:157-158 | defines how one character of a hint pattern matches one character of the name: literally, or as the wildcard '.', which does not match a newline |
| `Hints.PatternMatches` | tool/pylib/ecmascript/transform/check/lint.py:157-158 | defines `re.match(r"%s\b" % p, name)`: every pattern character matches the name's character at the same position, and a word boundary follows that prefix |
| `Hints.IsNameLintFiltered` | tool/pylib/ecmascript/transform/check/lint.py:156-165 | defines the filter test: the `lint` hints hold the filter key, and some pattern listed under it matches the name; no hints, or no such key, means not filtered |
| `Hints.AddEntry` | tool/pylib/ecmascript/transform/check/lint.py:376-387 | the effect of one comment record: only a `lint` record has one; it creates its functor's entry if missing and adds its arguments; nothing is removed and no other functor changes |
| `Hints.AddEntries` | tool/pylib/ecmascript/transform/check/lint.py:375-387 | the records of one node in order; the accumulator is only ever extended |
| `Hints.MergeInto` | tool/pylib/ecmascript/transform/check/lint.py:372-393 | get_at_hints with an accumulator: the node's records, then the enclosing scopes' records, innermost first; the accumulator is only ever extended |
| `Hints.AtHints` | tool/pylib/ecmascript/transform/check/lint.py:372-374 | defines get_at_hints without an accumulator, as the merge into an empty one; its content is stated by `Hints.AtHintsExactly` |
| `Hints.LiteralPatternMatches` | tool/pylib/ecmascript/transform/check/lint.py:157-158 | `re.match(p + r"\b", name)` for a dot-free pattern holds iff name starts with p and a word boundary follows |
| `Hints.NameFiltersItself` | tool/pylib/ecmascript/transform/check/lint.py:156-165 | a name ending in a word character is filtered under a functor whose hint lists that very name |
| `Hints.AddEntriesExactly` | tool/pylib/ecmascript/transform/check/lint.py:376-387 | after one node's records, a functor is present iff it was before or a `lint` record names it, and a pattern is present iff it was before or such a record lists it; other categories change nothing |
| `Hints.MergeExactly` | tool/pylib/ecmascript/transform/check/lint.py:372-393 | merging along a chain gives, per functor, the union of the arguments of all `lint` records of every node in the chain |
| `Hints.AtHintsExactly` | tool/pylib/ecmascript/transform/check/lint.py:372-393 | with a fresh accumulator, a functor or pattern is present iff some node of the chain declares or grants it |
| `Hints.OuterHintsInherited` | tool/pylib/ecmascript/transform/check/lint.py:388-392 | the hints of an enclosing scope are contained, functor by functor, in the hints of any node it encloses: nothing is ever removed |
| `Hints.FilteredInherited` | tool/pylib/ecmascript/transform/check/lint.py:156-165 | a name filtered under the outer hints stays filtered under hints merged from a longer, inner chain |
| `Hints.GetAtHints` | tool/pylib/ecmascript/transform/check/lint.py:372-393 | the recursive accumulator-threading procedure computes exactly the merge of the given accumulator (or `{}`) with the chain |
| `Tree.FirstOfKind` | tool/pylib/ecmascript/transform/check/lint.py:194 | `getChild(kind, 0)` gives the first child of that kind, and None exactly when there is none |
| `Report.ShowAttr` | tool/pylib/ecmascript/transform/check/lint.py:362 | defines `"%s"` of a line or column attribute; the text is "None" exactly when the attribute is missing, otherwise the integer's decimal rendering |
| `Report.Format` | tool/pylib/ecmascript/transform/check/lint.py:360-364 | the printed line begins with the file name and ends in `": " + msg`, and has the short form `"file: msg"` exactly when warn got no node |
| `Report.NodeWarning` | tool/pylib/ecmascript/transform/check/lint.py:360-362 | defines the record of warn(msg, fname, node) for a present node: the checker's file name, the node's line and column, the message |
| `Classifier.ExtensionOf` | tool/pylib/ecmascript/transform/check/lint.py:419 | defines `name.startswith(e) and re.match(r'%s\b' % e, name)`: e is a prefix of the name and a word boundary follows it |
| `Classifier.Longest` | tool/pylib/ecmascript/transform/check/lint.py:417-421 | defines the loop result: an entry replaces the current one when the name extends it and it is strictly longer; the result is "" or an entry of the list that the name extends |
| `Classifier.ExtensionMatch` | tool/pylib/ecmascript/transform/check/lint.py:411-429 | defines extension_match_in: the name itself when listed, otherwise `Longest` when the name has a dot, otherwise ""; a non-empty result is listed, and differs from the name only for a dotted name that extends it |
| `Classifier.LongestIsFirstLongest` | tool/pylib/ecmascript/transform/check/lint.py:417-421 | the loop keeps the earliest entry of maximal length among those the name extends at a `\b` boundary; every such entry is no longer |
| `Classifier.ExtensionMatchCharacterized` | tool/pylib/ecmascript/transform/check/lint.py:411-429 | a listed name matches itself; a dot-free unlisted name matches nothing; otherwise the result is the first longest entry the name extends at a word boundary, or "" |
| `Classifier.BoundaryAfterWordChar` | tool/pylib/ecmascript/transform/check/lint.py:419 | for an entry ending in a word character, the `\b` after it means the name ends there or goes on with a non-word character such as '.' |
| `Classifier.ExtensionMatchIn` | tool/pylib/ecmascript/transform/check/lint.py:411-429 | the loop over the list returns exactly `ExtensionMatch` |
| `Classifier.FooBarExamples` | tool/pylib/ecmascript/transform/check/lint.py:404-407 | "foo.bar.baz" matches "foo.bar"; "foo.barqux" matches nothing |
| `Rules.UnknownGlobalWarnings` | tool/pylib/ecmascript/transform/check/lint.py:112-137 | defines function_unknown_globals: globals in scope order, skipped when the id is allowed or built in, otherwise one warning per use, in use order, whose full name is neither a known class or namespace extension nor filtered under `ignoreUndefined` |
| `Rules.UnknownUseWarningsExactly` | tool/pylib/ecmascript/transform/check/lint.py:123-137 | for one global, a warning exists exactly for each use whose full name is neither a known class or namespace extension nor filtered under `ignoreUndefined` |
| `Rules.UnknownGlobalWarningsExactly` | tool/pylib/ecmascript/transform/check/lint.py:112-137 | an unknown-global warning exists exactly for each such use of a global that is neither allowed nor built in |
| `Rules.SkippedGlobalsAreSilent` | tool/pylib/ecmascript/transform/check/lint.py:115-119 | when every global is allowed or built in, no unknown-global warning is emitted whatever its uses |
| `Rules.DeprecatedWarnings` | tool/pylib/ecmascript/transform/check/lint.py:94-110 | defines function_used_deprecated: for every global, allowed or not, one warning per use whose full name is built in and deprecated and not filtered under `ignoreDeprecated` |
| `Rules.DeprecatedUseWarningsExactly` | tool/pylib/ecmascript/transform/check/lint.py:100-110 | for one global, a warning exists exactly for each use whose name is built in and deprecated and not filtered under `ignoreDeprecated` |
| `Rules.DeprecatedWarningsExactly` | tool/pylib/ecmascript/transform/check/lint.py:94-110 | the same over all globals, allowed or not |
| `Rules.VarUnused` | tool/pylib/ecmascript/transform/check/lint.py:190-191 | defines var_unused: at least one declaration and no use |
| `Rules.UnusedVarWarnings` | tool/pylib/ecmascript/transform/check/lint.py:139-150 | defines function_unused_vars: one warning per binding in scope order that is unused and not filtered under `ignoreUnused`, located at its first declaration |
| `Rules.UnusedVarWarningsExactly` | tool/pylib/ecmascript/transform/check/lint.py:139-150 | a warning exists exactly for each declared, never used binding not filtered under `ignoreUnused`, located at its first declaration |
| `Rules.UnusedVarWarningsCount` | tool/pylib/ecmascript/transform/check/lint.py:141-150 | there is exactly one warning per such binding |
| `Rules.MultipleVarDecls` | tool/pylib/ecmascript/transform/check/lint.py:187-188 | defines multiple_var_decls: more than one declaration |
| `Rules.ShownLine` | tool/pylib/ecmascript/transform/check/lint.py:185 | `n.get("line",0) or -1` is never 0: it is the declaration's line, or -1 when the line is missing or 0 |
| `Rules.DeclLines` | tool/pylib/ecmascript/transform/check/lint.py:185 | one shown line per declaration, in declaration order, each the declaration's line or -1 when it is missing or 0 |
| `Rules.MultipleDeclWarning` | tool/pylib/ecmascript/transform/check/lint.py:184-185 | defines the message `Multiple declarations of variable '<id>' (<%r of the shown lines>)`, with no node |
| `Rules.MultipleDeclWarnings` | tool/pylib/ecmascript/transform/check/lint.py:180-185 | defines function_multiple_var_decls: one warning per binding in scope order declared more than once; no hints are consulted |
| `Rules.MultipleDeclWarningsExactly` | tool/pylib/ecmascript/transform/check/lint.py:180-188 | a warning exists exactly for each binding with more than one declaration, whatever the hints, and it carries no location |
| `Rules.MultipleDeclWarningsCount` | tool/pylib/ecmascript/transform/check/lint.py:180-185 | there is exactly one warning per binding declared more than once |
| `Rules.DuplicateKeyWarnings` | tool/pylib/ecmascript/transform/check/lint.py:171-178 | defines map_unique_keys: one warning, at the entry, for each entry whose key (or missing key) an earlier entry of the map already had |
| `Rules.DuplicateKeyIndicesExactly` | tool/pylib/ecmascript/transform/check/lint.py:171-178 | position i is reported iff its key occurred at an earlier entry, so a first occurrence never is |
| `Rules.DuplicateKeyIndicesIncreasing` | tool/pylib/ecmascript/transform/check/lint.py:175-177 | the reported positions are within range and strictly increasing: the warnings follow the entries' order |
| `Rules.DuplicateKeyCount` | tool/pylib/ecmascript/transform/check/lint.py:171-178 | the number of duplicate-key warnings is the number of entries minus the number of distinct keys |
| `Rules.DuplicateKeyWarningsAt` | tool/pylib/ecmascript/transform/check/lint.py:176-177 | the k-th warning is the duplicate-key warning located at the k-th reported entry |
| `Rules.BodyWarnings` | tool/pylib/ecmascript/transform/check/lint.py:193-202 | defines loop_body_block: no warning when the body has a block child or when the hints of the enclosing scope chain hold `ignoreNoLoopBlock`; otherwise one warning at the body |
| `Rules.LoopWarnings` | tool/pylib/ecmascript/transform/check/lint.py:66-70 | defines the checks of visit_loop: the `body` child, then, for an `IF` with more than two children, the third child |
| `Rules.BodyWarningsExactly` | tool/pylib/ecmascript/transform/check/lint.py:193-202 | a body gets the no-block warning iff it has no block child and no enclosing scope node declares `ignoreNoLoopBlock`, with or without arguments |
| `Rules.IsPrivateIsPrefix` | tool/pylib/ecmascript/transform/check/lint.py:208 | `re.match(r'\b__', key)` holds iff the key begins with "__" |
| `Rules.ThisAliasIsPrefix` | tool/pylib/ecmascript/transform/check/lint.py:266-269 | matching the alternation of `\bthis` and `that` at the start holds iff the id begins with "this" or with "that" |
| `Rules.LocalPrivs` | tool/pylib/ecmascript/transform/check/lint.py:264-275 | defines function_uses_local_privs: for each scope variable whose id starts with this or that, one pair per use whose dotted name has a private second segment |
| `Rules.AliasUsePrivsExactly` | tool/pylib/ecmascript/transform/check/lint.py:270-274 | a pair (x, use) is collected for an alias exactly when the use's dotted name continues with `.x`, x private |
| `Rules.VarPrivsExactly` | tool/pylib/ecmascript/transform/check/lint.py:264-275 | function_privs holds exactly the pairs from the uses of locally declared this/that aliases that name a private segment |
| `Rules.NamesPrivateSegment` | tool/pylib/ecmascript/transform/check/lint.py:271-273 | a collected private name starts with "__", has no dot, and is the segment between the first and the next dot of the used name |
| `Rules.PrivateKeys` | tool/pylib/ecmascript/transform/check/lint.py:217-222 | defines the collected private keys: the keys of the group that begin with "__" |
| `Rules.ClassPrivateWarnings` | tool/pylib/ecmascript/transform/check/lint.py:210-244 | defines class_declared_privates: nothing without a class map; otherwise the statics group checked against the private keys of the statics, then the members group against those of the members |
| `Rules.PrivWarningsExactly` | tool/pylib/ecmascript/transform/check/lint.py:227-229 | a warning exists exactly for each collected pair whose name the group does not declare |
| `Rules.OneFeatureWarningsExactly` | tool/pylib/ecmascript/transform/check/lint.py:224-229 | one feature contributes warnings only when its value is a function, one per undeclared private it uses |
| `Rules.FeatureWarningsExactly` | tool/pylib/ecmascript/transform/check/lint.py:224-229 | over a group, a warning exists exactly for an undeclared private used in one of its function-valued features |
| `Rules.StaticsCheckedAgainstStatics` | tool/pylib/ecmascript/transform/check/lint.py:216-229 | a private used in a statics function and not declared among the statics is reported, whatever the members declare |
| `Rules.MembersCheckedAgainstMembers` | tool/pylib/ecmascript/transform/check/lint.py:231-244 | a private used in a members function and not declared among the members is reported, whatever the statics declare |
| `Rules.ReferenceFieldWarnings` | tool/pylib/ecmascript/transform/check/lint.py:250-261 | defines class_reference_fields: nothing without a class map or without members; otherwise one warning per member whose value is a map, an array or a `new` operation, at the value |
| `Rules.MemberReferenceWarningsExactly` | tool/pylib/ecmascript/transform/check/lint.py:250-261 | a warning exists exactly for each member whose value is a map, an array or a `new` operation |
| `Rules.SelectWarnings` | tool/pylib/ecmascript/transform/check/lint.py:288-315 | nothing for a non-call; otherwise at most one warning, with none exactly for a string literal and a map as the two arguments. The first failed check (arity, then key, then map) names the message |
| `Rules.GetWarnings` | tool/pylib/ecmascript/transform/check/lint.py:318-329 | at most one warning; none exactly for a single string-literal argument; an arity warning before a key warning |
| `Rules.FilterCheck` | tool/pylib/ecmascript/transform/check/lint.py:334-356 | the result is True exactly for a call with one map argument and then nothing is warned. Otherwise one warning (arity or not-a-map), except no warning for a non-call |
| `Rules.EnvCallWarnings` | tool/pylib/ecmascript/transform/check/lint.py:281-286 | defines the dispatch on the accessor name: `select`, `get` and `filter` run their check, any other name warns nothing |
| `Rules.EnvironmentWarnings` | tool/pylib/ecmascript/transform/check/lint.py:277-286 | defines environment_check_calls: the checks of the located calls in order |
| `Rules.ScopeWarnings` | tool/pylib/ecmascript/transform/check/lint.py:45-48 | defines the scope rules of visit_file and visit_function: unknown globals, unused bindings, deprecated globals, multiple declarations, in that order, under the node's hints |
| `Lint.LintNode` | tool/pylib/ecmascript/transform/check/lint.py:43-89 | defines the pass on one node: dispatch on its category to the file, function, map or loop visit; any other category only visits its children |
| `Lint.LintFile` | tool/pylib/ecmascript/transform/check/lint.py:43-57 | defines visit_file: the scope rules under the file's hints, the class rules per class definition, the Environment checks, then the children under the chain extended by the file's records |
| `Lint.LintFunction` | tool/pylib/ecmascript/transform/check/lint.py:75-83 | defines visit_function: the scope rules under the function's hints, then the children under the chain extended by the function's records |
| `Lint.LintMap` | tool/pylib/ecmascript/transform/check/lint.py:59-64 | defines visit_map: the duplicate-key rule, then the children |
| `Lint.LintLoop` | tool/pylib/ecmascript/transform/check/lint.py:66-73 | defines visit_loop: the body checks, then the children |
| `Lint.LintChildren` | tool/pylib/ecmascript/transform/check/lint.py:56-57 | defines `for cld in node.children: self.visit(cld)` over the first i children, in child order |
| `Lint.LintChildrenStep` | tool/pylib/ecmascript/transform/check/lint.py:56-57 | visiting one more child appends that child's warnings after those of the earlier children |
| `Lint.LintNodeSplits` | tool/pylib/ecmascript/transform/check/lint.py:43-89 | visiting a node emits its own rule warnings first, then those of all its children, under the chain extended by its records when it is a file or function node |
| `Lint.LintChildrenPrefix` | tool/pylib/ecmascript/transform/check/lint.py:56-57 | the warnings of the first j children are a prefix of those of the first k, for j <= k |
| `Lint.ChildWarningsSlice` | tool/pylib/ecmascript/transform/check/lint.py:43-89 | the warnings of visiting child i form one contiguous run of the parent's warnings. It starts after the parent's own rule warnings and the warnings of children 0 to i - 1. The child is visited under the parent's chain, extended by the parent's records when the parent is a file or function node |
| `Lint.ChainAtExtends` | tool/pylib/ecmascript/transform/check/lint.py:43-89 | one step down a path adds the records of the node left behind, when it is a file or function node, in front of the chain: a node's chain is the records of its enclosing scope nodes, innermost first |
| `Lint.DescendantWarningsOccur` | tool/pylib/ecmascript/transform/check/lint.py:43-89 | for every node below a node, its own rule warnings under its chain are one contiguous run of the warnings of visiting the upper node |
| `Lint.OwnWarningsParts` | tool/pylib/ecmascript/transform/check/lint.py:43-83 | each rule a node runs contributes one contiguous run of the node's own warnings: the scope rules of a file or function node, the class rules and Environment checks of a file node, the duplicate-key rule of a map, the body checks of a loop |
| `Lint.DescendantRulesReported` | tool/pylib/ecmascript/transform/check/lint.py:43-89 | for every file, function, map or loop node anywhere in the tree, its scope rules (under the hints of its enclosing chain), class rules, Environment checks, duplicate-key or body warnings each appear as one contiguous run of the warnings of the whole pass |
| `Lint.WarningsComeFromNodes` | tool/pylib/ecmascript/transform/check/lint.py:43-89 | conversely, every warning of visiting a node is an own rule warning of that node or of a node below it, under that node's chain |
| `Lint.ChildWarningsComeFromNodes` | tool/pylib/ecmascript/transform/check/lint.py:56-57 | every warning of visiting the first i children is an own rule warning of a node below one of those children |
| `Lint.QuietTreeIsSilent` | tool/pylib/ecmascript/transform/check/lint.py:85-89 | a tree with no file, function, map or loop node produces no warning. Other categories only recurse. That default comes from the `NodeVisitor.visit` base class, which is not part of this model; `visit_TEMPLATE` (cited) writes out the same recursion |
| `Lint.QuietChildrenAreSilent` | tool/pylib/ecmascript/transform/check/lint.py:85-89 | the children of such a tree produce no warning; the recursion is again the base-class default that `visit_TEMPLATE` writes out |
| `Lint.OuterIgnoreUndefinedApplies` | tool/pylib/ecmascript/transform/check/lint.py:131-133 | an `ignoreUndefined` hint on any enclosing scope node also silences the unknown-global warning for that name in a nested function |
| `Lint.LintChecker.constructor` | tool/pylib/ecmascript/transform/check/lint.py:37-41 | the checker keeps root node, file name, options and language tables, and has reported nothing |
| `Lint.LintChecker.Warn` | tool/pylib/ecmascript/transform/check/lint.py:360-364 | warn appends one record with the file, the location (if any) and the message |
| `Lint.LintChecker.Visit` | tool/pylib/ecmascript/transform/check/lint.py:43-89 | visiting a node appends exactly `LintNode` of it |
| `Lint.LintChecker.VisitFile` | tool/pylib/ecmascript/transform/check/lint.py:43-57 | appends the scope rules, the class rules, the Environment checks, then the children under the file's hints |
| `Lint.LintChecker.ClassRules` | tool/pylib/ecmascript/transform/check/lint.py:50-52 | appends both class rules for each class definition in turn |
| `Lint.LintChecker.ClassDefRules` | tool/pylib/ecmascript/transform/check/lint.py:51-52 | appends class_declared_privates then class_reference_fields for one class definition |
| `Lint.LintChecker.VisitFunction` | tool/pylib/ecmascript/transform/check/lint.py:75-83 | appends the scope rules, then the children under the function's hints |
| `Lint.LintChecker.VisitMap` | tool/pylib/ecmascript/transform/check/lint.py:59-64 | appends the duplicate-key warnings, then the children |
| `Lint.LintChecker.VisitLoop` | tool/pylib/ecmascript/transform/check/lint.py:66-73 | appends the body check, the else-branch check for an IF with more than two children, then the children |
| `Lint.LintChecker.VisitChildren` | tool/pylib/ecmascript/transform/check/lint.py:56-57 | appends the warnings of each child in order |
| `Lint.LintChecker.ScopeRules` | tool/pylib/ecmascript/transform/check/lint.py:45-48 | appends unknown globals, unused vars, deprecated globals and multiple declarations, in that order |
| `Lint.LintChecker.FunctionUsedDeprecated` | tool/pylib/ecmascript/transform/check/lint.py:94-110 | appends exactly the deprecated-global warnings of the scope |
| `Lint.LintChecker.DeprecatedUses` | tool/pylib/ecmascript/transform/check/lint.py:100-110 | appends exactly the deprecated-global warnings of one global's uses |
| `Lint.LintChecker.FunctionUnknownGlobals` | tool/pylib/ecmascript/transform/check/lint.py:112-137 | appends exactly the unknown-global warnings of the scope |
| `Lint.LintChecker.UnknownGlobalUses` | tool/pylib/ecmascript/transform/check/lint.py:123-137 | appends exactly the unknown-global warnings of one global's uses |
| `Lint.LintChecker.FunctionUnusedVars` | tool/pylib/ecmascript/transform/check/lint.py:139-150 | appends exactly the unused-binding warnings of the scope |
| `Lint.LintChecker.FunctionMultipleVarDecls` | tool/pylib/ecmascript/transform/check/lint.py:180-185 | appends exactly the multiple-declaration warnings of the scope |
| `Lint.LintChecker.MapUniqueKeys` | tool/pylib/ecmascript/transform/check/lint.py:171-178 | the loop with its `seen` set appends exactly the duplicate-key warnings |
| `Lint.LintChecker.LoopBodyBlock` | tool/pylib/ecmascript/transform/check/lint.py:193-202 | appends exactly the body's no-block warning, if any |
| `Lint.LintChecker.ClassDeclaredPrivates` | tool/pylib/ecmascript/transform/check/lint.py:210-244 | appends the statics group's warnings, then the members group's |
| `Lint.LintChecker.GroupDeclaredPrivates` | tool/pylib/ecmascript/transform/check/lint.py:216-229 | appends exactly the undeclared-private warnings of one group |
| `Lint.LintChecker.UndeclaredPrivates` | tool/pylib/ecmascript/transform/check/lint.py:227-229 | appends a warning for each collected pair whose name is not declared |
| `Lint.LintChecker.ClassReferenceFields` | tool/pylib/ecmascript/transform/check/lint.py:250-261 | appends exactly the shared-reference warnings of the members |
| `Lint.LintChecker.EnvironmentCheckCalls` | tool/pylib/ecmascript/transform/check/lint.py:277-286 | appends the checks of each located call in order |
| `Lint.LintChecker.EnvironmentCheckCall` | tool/pylib/ecmascript/transform/check/lint.py:281-286 | dispatches on the accessor name; other names add nothing |
| `Lint.LintChecker.EnvironmentCheckSelect` | tool/pylib/ecmascript/transform/check/lint.py:288-315 | appends exactly `SelectWarnings` |
| `Lint.LintChecker.EnvironmentCheckGet` | tool/pylib/ecmascript/transform/check/lint.py:318-329 | appends exactly `GetWarnings` |
| `Lint.LintChecker.EnvironmentCheckFilter` | tool/pylib/ecmascript/transform/check/lint.py:334-356 | appends exactly the warnings of `FilterCheck` and returns its completeness flag |
| `Lint.CollectPrivateKeys` | tool/pylib/ecmascript/transform/check/lint.py:217-222 | the collected set is exactly the group's keys that begin with "__" |
| `Lint.FunctionUsesLocalPrivs` | tool/pylib/ecmascript/transform/check/lint.py:264-275 | the nested loops collect exactly `LocalPrivs` of the function |
| `Lint.AliasUsesPrivs` | tool/pylib/ecmascript/transform/check/lint.py:270-274 | the inner loop collects exactly the pairs of one alias's uses |
| `Lint.LintCheck` | tool/pylib/ecmascript/transform/check/lint.py:433-435 | linting a tree returns exactly `LintNode` of its root with no enclosing scope |
| `Scenarios.RepeatedKeyReportedOnce` | frontend/framework/source/class/qx/ui/tree/Tree.js:59-64 | in the constructor's option map, only the second `allowShrinkY` (line 64) is reported |
| `Scenarios.MistypedGlobalReported` | frontend/framework/source/class/qx/ui/tree/Tree.js:207 | `layut.remove` is reported as an unknown global at its use |
| `Scenarios.IgnoredGlobalSilenced` | frontend/framework/source/class/qx/ui/tree/Tree.js:540 | an `ignoreUndefined(openMode)` hint silences the implicit global `openMode` |
| `Scenarios.UnusedParameterReported` | frontend/framework/source/class/qx/ui/tree/Tree.js:407 | the parameter `scroll` of `setScrollTop` is reported as declared but unused |

## Left out

- Printing: `warn` sends its line to the console or to stderr (lint.py:365-368). The model appends a `Warning` record instead; `Report.Format` gives the two printed forms.
- Collaborators are inputs, not code. Their results come in as data: `Comment.parseNode`, `scopes.find_enclosing` (as the `ctx` chain), `treeutil.findQxDefineR`/`getClassMap`/`assembleVariable`/`findVarRoot`/`selectNode`, `variantoptimizer.findVariantNodes` and the `NodeVisitor` dispatch. The tree module that defines `Node.get`/`getChild` is not part of this model.
- `treeutil.isStringLiteral` is not part of this model. `Tree.IsStringLiteral` assumes it means "a constant node whose `constantType` attribute is `string`". The key checks of `select` and `get` (lint.py:302, 327) depend on that assumption.
- Environment method names: the `toJS(...).rsplit('.', 1)[1]` extraction (lint.py:279) is not modelled. Each located call carries its accessor name. The raise for a text without a dot is not represented.
- `getClassMap` raising `NodeAccessException` is modelled as a class definition whose class map is `None`. Both class rules then return without a warning.
- Iteration order of Python dicts and sets is unspecified. Scopes, class map groups and the `function_privs` set are sequences in a given order. function_unused_vars iterates a filtered copy of `scope.vars`; the model assumes that copy keeps the order of `scope.vars`.
- Hint arguments, library classes and class namespaces are interpolated into regular expressions without escaping. The model restricts them to word characters and '.', where '.' is the regex wildcard. Other regex syntax is not modelled.
- Missing children that make the source raise are excluded rather than modelled. `environment_check_get` reads the `arguments` child without checking that the node is a call. `environment_check_select` and `environment_check_filter` read it once the node is a call. `visit_loop` reads the `body` child without a default. The model requires these children instead of modelling the exception: `EnvCallWellFormed` asks for an `arguments` child of every `get` node and of every call node, whatever its accessor (so also for `select` and `filter` calls), and `WellFormed` asks for a `body` child of every loop.
- Truth tests on nodes are read as "a node is present": `if node:` in `warn`, `if scope_node:` in `loop_body_block`, and `not body_node.getChild("block",0)` in `loop_body_block` (lint.py:194), which `Rules.HasBlock` reads as "some child is a block". An attribute that `Node.get` cannot find is read as None.
- `defaultOptions` (lint.py:396-402) and the unused imports (`evaluate`, `types`) build nothing the checks need. The unused inner helper `isExcluded` of `environment_check_filter` is left out too.
- The interpreter-global `lang` module is passed to the checker as a `Lang` value with the `GLOBALS` and `DEPRECATED` tables.
- The skip test of `function_unknown_globals` checks the scope variable's id against `allowed_globals` and `lang.GLOBALS`, not the dotted full name. The model follows the code.
- The lint pass is sequential and single-threaded. Nothing concurrent is omitted.
