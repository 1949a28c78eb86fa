/**
 * The rule set of LintChecker as functions from the tree and scope model to
 * the warnings each rule emits, in emission order, with lemmas that say
 * exactly which warnings each rule produces.
 */
module Rules {
  import opened Wrappers
  import opened Text
  import opened Hints
  import opened Tree
  import opened Report
  import opened Classifier

  /** The `opts` record of LintChecker. */
  datatype Options = Options(libraryClasses: seq<Pattern>, classNamespaces: seq<Pattern>, allowedGlobals: seq<string>)

  /** lang.GLOBALS (the built-ins) and lang.DEPRECATED. */
  datatype Lang = Lang(globals: set<string>, deprecated: set<string>)

  // ===========================================================================
  // function_unknown_globals

  /** A free name that is allowed by configuration or is a built-in is skipped together with all its uses. */
  predicate SkippedGlobal(opts: Options, lang: Lang, id: string) {
    id in opts.allowedGlobals || id in lang.globals
  }

  /** The dotted name of the use is a known class or namespace, or is exempted by `ignoreUndefined`. */
  predicate KnownOrIgnored(opts: Options, u: Use, hints: LintHints) {
    ExtensionMatch(u.rootName, opts.libraryClasses + opts.classNamespaces) != "" ||
    IsNameLintFiltered(u.rootName, hints, "ignoreUndefined")
  }

  function UnknownGlobalWarning(file: string, u: Use): Warning {
    Warning(file, Some(u.at), "Unknown global symbol used: " + u.rootName)
  }

  function UnknownUseWarnings(file: string, opts: Options, uses: seq<Use>, hints: LintHints): seq<Warning>
    decreases |uses|
  {
    if uses == [] then []
    else
      var u := uses[|uses| - 1];
      UnknownUseWarnings(file, opts, uses[..|uses| - 1], hints) +
      (if KnownOrIgnored(opts, u, hints) then [] else [UnknownGlobalWarning(file, u)])
  }

  function UnknownVarWarnings(file: string, opts: Options, lang: Lang, v: Var, hints: LintHints): seq<Warning> {
    if SkippedGlobal(opts, lang, v.name) then [] else UnknownUseWarnings(file, opts, v.binding.uses, hints)
  }

  function UnknownGlobalWarnings(file: string, opts: Options, lang: Lang, globals: seq<Var>, hints: LintHints): seq<Warning>
    decreases |globals|
  {
    if globals == [] then []
    else
      UnknownGlobalWarnings(file, opts, lang, globals[..|globals| - 1], hints) +
      UnknownVarWarnings(file, opts, lang, globals[|globals| - 1], hints)
  }

  lemma {:induction false} UnknownUseWarningsExactly(file: string, opts: Options, uses: seq<Use>, hints: LintHints, w: Warning)
    ensures w in UnknownUseWarnings(file, opts, uses, hints) <==>
      exists k :: 0 <= k < |uses| && !KnownOrIgnored(opts, uses[k], hints) && w == UnknownGlobalWarning(file, uses[k])
    decreases |uses|
  {
    if uses != [] {
      var init := uses[..|uses| - 1];
      UnknownUseWarningsExactly(file, opts, init, hints, w);
      assert forall k :: 0 <= k < |init| ==> uses[k] == init[k];
    }
  }

  /**
   * An "Unknown global symbol used" warning is emitted for exactly the uses of
   * free names that are neither allowed nor built-in, whose dotted name is
   * neither a known class or namespace (or a dot-exact extension of one) nor
   * exempted by an `ignoreUndefined` hint; it is located at the use.
   */
  lemma {:induction false} UnknownGlobalWarningsExactly(file: string, opts: Options, lang: Lang, globals: seq<Var>, hints: LintHints, w: Warning)
    ensures w in UnknownGlobalWarnings(file, opts, lang, globals, hints) <==>
      exists i, k :: 0 <= i < |globals| && !SkippedGlobal(opts, lang, globals[i].name) &&
        0 <= k < |globals[i].binding.uses| && !KnownOrIgnored(opts, globals[i].binding.uses[k], hints) &&
        w == UnknownGlobalWarning(file, globals[i].binding.uses[k])
    decreases |globals|
  {
    if globals != [] {
      var init := globals[..|globals| - 1];
      var v := globals[|globals| - 1];
      UnknownGlobalWarningsExactly(file, opts, lang, init, hints, w);
      UnknownUseWarningsExactly(file, opts, v.binding.uses, hints, w);
      assert forall i :: 0 <= i < |init| ==> globals[i] == init[i];
    }
  }

  /** When every free name is allowed or built-in, no unknown-global warning is emitted. */
  lemma {:induction false} SkippedGlobalsAreSilent(file: string, opts: Options, lang: Lang, globals: seq<Var>, hints: LintHints)
    requires forall i :: 0 <= i < |globals| ==> SkippedGlobal(opts, lang, globals[i].name)
    ensures UnknownGlobalWarnings(file, opts, lang, globals, hints) == []
    decreases |globals|
  {
    if globals != [] {
      SkippedGlobalsAreSilent(file, opts, lang, globals[..|globals| - 1], hints);
    }
  }

  // ===========================================================================
  // function_used_deprecated

  /** The use is fine unless its name is both built-in and deprecated and not exempted by `ignoreDeprecated`. */
  predicate DeprecatedOk(lang: Lang, u: Use, hints: LintHints) {
    !(u.name in lang.globals && u.name in lang.deprecated) ||
    IsNameLintFiltered(u.name, hints, "ignoreDeprecated")
  }

  function DeprecatedWarning(file: string, u: Use): Warning {
    Warning(file, Some(u.at), "Deprecated global symbol used: " + u.name)
  }

  function DeprecatedUseWarnings(file: string, lang: Lang, uses: seq<Use>, hints: LintHints): seq<Warning>
    decreases |uses|
  {
    if uses == [] then []
    else
      var u := uses[|uses| - 1];
      DeprecatedUseWarnings(file, lang, uses[..|uses| - 1], hints) +
      (if DeprecatedOk(lang, u, hints) then [] else [DeprecatedWarning(file, u)])
  }

  function DeprecatedWarnings(file: string, lang: Lang, globals: seq<Var>, hints: LintHints): seq<Warning>
    decreases |globals|
  {
    if globals == [] then []
    else
      DeprecatedWarnings(file, lang, globals[..|globals| - 1], hints) +
      DeprecatedUseWarnings(file, lang, globals[|globals| - 1].binding.uses, hints)
  }

  lemma {:induction false} DeprecatedUseWarningsExactly(file: string, lang: Lang, uses: seq<Use>, hints: LintHints, w: Warning)
    ensures w in DeprecatedUseWarnings(file, lang, uses, hints) <==>
      exists k :: 0 <= k < |uses| && !DeprecatedOk(lang, uses[k], hints) && w == DeprecatedWarning(file, uses[k])
    decreases |uses|
  {
    if uses != [] {
      var init := uses[..|uses| - 1];
      DeprecatedUseWarningsExactly(file, lang, init, hints, w);
      assert forall k :: 0 <= k < |init| ==> uses[k] == init[k];
    }
  }

  /**
   * A "Deprecated global symbol used" warning is emitted for exactly the uses
   * of free names (allowed ones included) whose name is built-in and
   * deprecated and not exempted by an `ignoreDeprecated` hint.
   */
  lemma {:induction false} DeprecatedWarningsExactly(file: string, lang: Lang, globals: seq<Var>, hints: LintHints, w: Warning)
    ensures w in DeprecatedWarnings(file, lang, globals, hints) <==>
      exists i, k :: 0 <= i < |globals| && 0 <= k < |globals[i].binding.uses| &&
        !DeprecatedOk(lang, globals[i].binding.uses[k], hints) &&
        w == DeprecatedWarning(file, globals[i].binding.uses[k])
    decreases |globals|
  {
    if globals != [] {
      var init := globals[..|globals| - 1];
      var v := globals[|globals| - 1];
      DeprecatedWarningsExactly(file, lang, init, hints, w);
      DeprecatedUseWarningsExactly(file, lang, v.binding.uses, hints, w);
      assert forall i :: 0 <= i < |init| ==> globals[i] == init[i];
    }
  }

  // ===========================================================================
  // var_unused, function_unused_vars

  /** var_unused */
  predicate VarUnused(b: Binding) {
    |b.decl| > 0 && |b.uses| == 0
  }

  /** The binding is unused and its name is not exempted by `ignoreUnused`. */
  predicate ReportedUnused(v: Var, hints: LintHints) {
    VarUnused(v.binding) && !IsNameLintFiltered(v.name, hints, "ignoreUnused")
  }

  function UnusedWarning(file: string, v: Var): Warning
    requires |v.binding.decl| > 0
  {
    Warning(file, Some(v.binding.decl[0]), "Declared but unused variable or parameter '" + v.name + "'")
  }

  function UnusedVarWarnings(file: string, vars: seq<Var>, hints: LintHints): seq<Warning>
    decreases |vars|
  {
    if vars == [] then []
    else
      var v := vars[|vars| - 1];
      UnusedVarWarnings(file, vars[..|vars| - 1], hints) +
      (if ReportedUnused(v, hints) then [UnusedWarning(file, v)] else [])
  }

  /** The positions of the declared-but-unused, non-exempted bindings among the first n. */
  function ReportedUnusedIndices(vars: seq<Var>, hints: LintHints, n: nat): set<nat>
    requires n <= |vars|
  {
    set i: nat | i < n && ReportedUnused(vars[i], hints)
  }

  /**
   * function_unused_vars emits one warning per binding that is declared and
   * never used and whose name no `ignoreUnused` hint exempts, located at its
   * first declaration, and no other warning.
   */
  lemma {:induction false} UnusedVarWarningsExactly(file: string, vars: seq<Var>, hints: LintHints, w: Warning)
    ensures w in UnusedVarWarnings(file, vars, hints) <==>
      exists i :: 0 <= i < |vars| && ReportedUnused(vars[i], hints) && w == UnusedWarning(file, vars[i])
    decreases |vars|
  {
    if vars != [] {
      var init := vars[..|vars| - 1];
      UnusedVarWarningsExactly(file, init, hints, w);
      assert forall i :: 0 <= i < |init| ==> vars[i] == init[i];
    }
  }

  /** Reported positions among the first n + 1 bindings: those among the first n, and maybe n. */
  lemma ReportedUnusedIndicesStep(vars: seq<Var>, hints: LintHints, n: nat)
    requires n < |vars|
    ensures ReportedUnusedIndices(vars, hints, n + 1) ==
      ReportedUnusedIndices(vars, hints, n) + (if ReportedUnused(vars[n], hints) then {n} else {})
  {
  }

  /** Reported positions among the first n bindings do not depend on the bindings after them. */
  lemma ReportedUnusedIndicesPrefix(vars: seq<Var>, hints: LintHints, n: nat)
    requires n < |vars|
    ensures ReportedUnusedIndices(vars[..n], hints, n) == ReportedUnusedIndices(vars, hints, n)
  {
    assert forall i :: 0 <= i < n ==> vars[..n][i] == vars[i];
  }

  /** There is one warning per reported binding. */
  lemma {:induction false} UnusedVarWarningsCount(file: string, vars: seq<Var>, hints: LintHints)
    ensures |UnusedVarWarnings(file, vars, hints)| == |ReportedUnusedIndices(vars, hints, |vars|)|
    decreases |vars|
  {
    if vars == [] {
      assert ReportedUnusedIndices(vars, hints, 0) == {};
    } else {
      var n := |vars| - 1;
      UnusedVarWarningsCount(file, vars[..n], hints);
      ReportedUnusedIndicesPrefix(vars, hints, n);
      ReportedUnusedIndicesStep(vars, hints, n);
      assert n !in ReportedUnusedIndices(vars, hints, n);
    }
  }

  // ===========================================================================
  // multiple_var_decls, function_multiple_var_decls

  /** multiple_var_decls */
  predicate MultipleVarDecls(b: Binding) {
    |b.decl| > 1
  }

  /** `n.get("line", 0) or -1`: a missing line or line 0 is shown as -1. */
  function ShownLine(l: Loc): (r: int)
    ensures r != 0
    ensures r == -1 || l.line == Some(r)
  {
    if l.line.None? || l.line.value == 0 then -1 else l.line.value
  }

  /** The declaration lines listed by the warning, in declaration order. */
  function DeclLines(decl: seq<Loc>): (lines: seq<int>)
    ensures |lines| == |decl|
    ensures forall k :: 0 <= k < |decl| ==> lines[k] == ShownLine(decl[k])
    ensures forall k :: 0 <= k < |decl| ==> lines[k] == -1 || (decl[k].line.Some? && lines[k] == decl[k].line.value)
    decreases |decl|
  {
    if decl == [] then [] else DeclLines(decl[..|decl| - 1]) + [ShownLine(decl[|decl| - 1])]
  }

  function MultipleDeclWarning(file: string, v: Var): Warning {
    Warning(file, None, "Multiple declarations of variable '" + v.name + "' (" + ReprIntList(DeclLines(v.binding.decl)) + ")")
  }

  /** No hints are consulted: the function has no hints parameter. */
  function MultipleDeclWarnings(file: string, vars: seq<Var>): seq<Warning>
    decreases |vars|
  {
    if vars == [] then []
    else
      var v := vars[|vars| - 1];
      MultipleDeclWarnings(file, vars[..|vars| - 1]) +
      (if MultipleVarDecls(v.binding) then [MultipleDeclWarning(file, v)] else [])
  }

  /**
   * Every binding declared more than once gets one warning without a
   * location, and no other bindings do.
   */
  lemma {:induction false} MultipleDeclWarningsExactly(file: string, vars: seq<Var>, w: Warning)
    ensures w in MultipleDeclWarnings(file, vars) <==>
      exists i :: 0 <= i < |vars| && MultipleVarDecls(vars[i].binding) && w == MultipleDeclWarning(file, vars[i])
    ensures w in MultipleDeclWarnings(file, vars) ==> w.at == None
    decreases |vars|
  {
    if vars != [] {
      var init := vars[..|vars| - 1];
      MultipleDeclWarningsExactly(file, init, w);
      assert forall i :: 0 <= i < |init| ==> vars[i] == init[i];
    }
  }

  /** The positions of the bindings declared more than once among the first n. */
  function MultipleDeclIndices(vars: seq<Var>, n: nat): set<nat>
    requires n <= |vars|
  {
    set i: nat | i < n && MultipleVarDecls(vars[i].binding)
  }

  lemma MultipleDeclIndicesStep(vars: seq<Var>, n: nat)
    requires n < |vars|
    ensures MultipleDeclIndices(vars, n + 1) ==
      MultipleDeclIndices(vars, n) + (if MultipleVarDecls(vars[n].binding) then {n} else {})
  {
  }

  lemma MultipleDeclIndicesPrefix(vars: seq<Var>, n: nat)
    requires n < |vars|
    ensures MultipleDeclIndices(vars[..n], n) == MultipleDeclIndices(vars, n)
  {
    assert forall i :: 0 <= i < n ==> vars[..n][i] == vars[i];
  }

  /** There is one warning per binding declared more than once. */
  lemma {:induction false} MultipleDeclWarningsCount(file: string, vars: seq<Var>)
    ensures |MultipleDeclWarnings(file, vars)| == |MultipleDeclIndices(vars, |vars|)|
    decreases |vars|
  {
    if vars == [] {
      assert MultipleDeclIndices(vars, 0) == {};
    } else {
      var n := |vars| - 1;
      MultipleDeclWarningsCount(file, vars[..n]);
      MultipleDeclIndicesPrefix(vars, n);
      MultipleDeclIndicesStep(vars, n);
      assert n !in MultipleDeclIndices(vars, n);
    }
  }

  // ===========================================================================
  // map_unique_keys

  /** `keyval.get("key")` */
  function KeyOf(n: Node): Option<string> {
    Get(n, "key")
  }

  /** The raw keys of the entries: the `seen` set after them. */
  function KeysOf(entries: seq<Node>): set<Option<string>> {
    set i | 0 <= i < |entries| :: KeyOf(entries[i])
  }

  function DuplicateKeyWarning(file: string, entry: Node): Warning {
    NodeWarning(file, entry, "Duplicate use of map key")
  }

  /** The positions of the entries whose key already occurred at an earlier entry. */
  function DuplicateKeyIndices(entries: seq<Node>): seq<nat>
    decreases |entries|
  {
    if entries == [] then []
    else
      var n := |entries| - 1;
      DuplicateKeyIndices(entries[..n]) + (if KeyOf(entries[n]) in KeysOf(entries[..n]) then [n] else [])
  }

  function DuplicateKeyWarnings(file: string, entries: seq<Node>): seq<Warning>
    decreases |entries|
  {
    if entries == [] then []
    else
      var n := |entries| - 1;
      DuplicateKeyWarnings(file, entries[..n]) +
      (if KeyOf(entries[n]) in KeysOf(entries[..n]) then [DuplicateKeyWarning(file, entries[n])] else [])
  }

  lemma KeysOfSnoc(entries: seq<Node>)
    requires entries != []
    ensures KeysOf(entries) == KeysOf(entries[..|entries| - 1]) + {KeyOf(entries[|entries| - 1])}
  {
    var init := entries[..|entries| - 1];
    assert forall i :: 0 <= i < |init| ==> entries[i] == init[i];
  }

  /** The flagged positions are exactly those whose key occurred at an earlier entry: a first occurrence is never flagged. */
  lemma {:induction false} DuplicateKeyIndicesExactly(entries: seq<Node>, i: int)
    ensures i in DuplicateKeyIndices(entries) <==> 0 <= i < |entries| && KeyOf(entries[i]) in KeysOf(entries[..i])
    decreases |entries|
  {
    if entries != [] {
      var n := |entries| - 1;
      var init := entries[..n];
      DuplicateKeyIndicesExactly(init, i);
      if 0 <= i < n {
        assert entries[..i] == init[..i];
      }
    }
  }

  /** The flagged positions are in increasing order and below the number of entries. */
  lemma {:induction false} DuplicateKeyIndicesIncreasing(entries: seq<Node>)
    ensures forall k :: 0 <= k < |DuplicateKeyIndices(entries)| ==> DuplicateKeyIndices(entries)[k] < |entries|
    ensures forall a, b :: 0 <= a < b < |DuplicateKeyIndices(entries)| ==>
      DuplicateKeyIndices(entries)[a] < DuplicateKeyIndices(entries)[b]
    decreases |entries|
  {
    if entries != [] {
      DuplicateKeyIndicesIncreasing(entries[..|entries| - 1]);
    }
  }

  /** There are as many flagged positions as entries minus distinct keys. */
  lemma {:induction false} DuplicateKeyCount(entries: seq<Node>)
    ensures |DuplicateKeyIndices(entries)| == |entries| - |KeysOf(entries)|
    decreases |entries|
  {
    if entries == [] {
      assert KeysOf(entries) == {};
    } else {
      var n := |entries| - 1;
      DuplicateKeyCount(entries[..n]);
      KeysOfSnoc(entries);
    }
  }

  /** The warnings of map_unique_keys are those flagged positions' entries, one each, in order. */
  lemma {:induction false} DuplicateKeyWarningsAt(file: string, entries: seq<Node>)
    ensures var ws, ds := DuplicateKeyWarnings(file, entries), DuplicateKeyIndices(entries);
      |ws| == |ds| && forall k :: 0 <= k < |ws| ==> ds[k] < |entries| && ws[k] == DuplicateKeyWarning(file, entries[ds[k]])
    decreases |entries|
  {
    if entries != [] {
      var n := |entries| - 1;
      DuplicateKeyWarningsAt(file, entries[..n]);
      DuplicateKeyIndicesIncreasing(entries[..n]);
      assert forall i :: 0 <= i < n ==> entries[i] == entries[..n][i];
    }
  }

  // ===========================================================================
  // loop_body_block

  predicate HasBlock(body: Node) {
    FirstOfKind(body.children, Block).Some?
  }

  function NoBlockWarning(file: string, body: Node): Warning {
    NodeWarning(file, body, "Loop or condition statement without a block as body")
  }

  /**
   * loop_body_block(body) where ctx holds the hint records of the scope nodes
   * enclosing the body, innermost first (none when no scope encloses it).
   */
  function BodyWarnings(file: string, body: Node, ctx: seq<seq<CommentEntry>>): seq<Warning> {
    if HasBlock(body) then []
    else if ctx != [] && "ignoreNoLoopBlock" in AtHints(ctx) then []
    else [NoBlockWarning(file, body)]
  }

  /** visit_loop's checks: the `body` child and, for an `if` with an else branch, the third child. */
  function LoopWarnings(file: string, loop: Node, ctx: seq<seq<CommentEntry>>): seq<Warning>
    requires FirstOfKind(loop.children, Body).Some?
  {
    BodyWarnings(file, FirstOfKind(loop.children, Body).value, ctx) +
    (if Get(loop, "loopType") == Some("IF") && |loop.children| > 2 then BodyWarnings(file, loop.children[2], ctx) else [])
  }

  /**
   * A body without a block is reported exactly when no enclosing scope node
   * has an `ignoreNoLoopBlock` lint hint, whatever arguments such a hint has.
   */
  lemma BodyWarningsExactly(file: string, body: Node, ctx: seq<seq<CommentEntry>>)
    ensures BodyWarnings(file, body, ctx) ==
      if HasBlock(body) || exists i :: 0 <= i < |ctx| && Declares(ctx[i], "ignoreNoLoopBlock") then []
      else [NoBlockWarning(file, body)]
  {
    AtHintsExactly(ctx, "ignoreNoLoopBlock", "");
  }

  // ===========================================================================
  // class_declared_privates, function_uses_local_privs

  /** `re.match(r'\b__', key)` */
  predicate IsPrivate(key: string) {
    WordBoundary(key, 0) && StartsWith(key, "__")
  }

  /** The regular expression `\b__` only asks that the key starts with "__". */
  lemma IsPrivateIsPrefix(key: string)
    ensures IsPrivate(key) <==> |key| >= 2 && key[0] == '_' && key[1] == '_'
  {
    if |key| >= 2 && key[0] == '_' && key[1] == '_' {
      assert key[..2] == "__";
    }
  }

  /** `re.match(r'\bthis|that', id)`: the alternation of `\bthis` and `that`. */
  predicate IsThisAlias(id: string) {
    (WordBoundary(id, 0) && StartsWith(id, "this")) || StartsWith(id, "that")
  }

  /** The alias test is a prefix test: any name that begins with "this" or with "that". */
  lemma ThisAliasIsPrefix(id: string)
    ensures IsThisAlias(id) <==> StartsWith(id, "this") || StartsWith(id, "that")
  {
    if StartsWith(id, "this") {
      assert id[0] == id[..4][0] == 't';
    }
  }

  /** A `(name, use)` pair of function_privs. */
  datatype PrivUse = PrivUse(name: string, at: Loc)

  /** `name_parts = full_name.split(".")`; a pair when the second part is private. */
  function UsePriv(u: Use): seq<PrivUse> {
    var parts := Split(u.name, '.');
    if |parts| > 1 && IsPrivate(parts[1]) then [PrivUse(parts[1], u.at)] else []
  }

  function AliasUsePrivs(uses: seq<Use>): seq<PrivUse>
    decreases |uses|
  {
    if uses == [] then [] else AliasUsePrivs(uses[..|uses| - 1]) + UsePriv(uses[|uses| - 1])
  }

  function VarPrivs(vars: seq<Var>): seq<PrivUse>
    decreases |vars|
  {
    if vars == [] then []
    else
      var v := vars[|vars| - 1];
      VarPrivs(vars[..|vars| - 1]) + (if IsThisAlias(v.name) then AliasUsePrivs(v.binding.uses) else [])
  }

  /** function_uses_local_privs(func_node) */
  function LocalPrivs(fn: Node): seq<PrivUse>
    requires fn.kind.Function?
  {
    VarPrivs(fn.kind.scope.vars)
  }

  /** `alias.x...` with x the piece after the first dot, and x private. */
  predicate NamesPrivate(u: Use, x: string) {
    var parts := Split(u.name, '.');
    |parts| > 1 && parts[1] == x && IsPrivate(x)
  }

  lemma {:induction false} AliasUsePrivsExactly(uses: seq<Use>, p: PrivUse)
    ensures p in AliasUsePrivs(uses) <==> exists k :: 0 <= k < |uses| && NamesPrivate(uses[k], p.name) && p.at == uses[k].at
    decreases |uses|
  {
    if uses != [] {
      var init := uses[..|uses| - 1];
      AliasUsePrivsExactly(init, p);
      assert forall k :: 0 <= k < |init| ==> uses[k] == init[k];
    }
  }

  /**
   * function_privs collects exactly the pairs `(x, use)` for the uses of
   * locally declared names that begin with "this" or "that", whose dotted
   * name continues with `.x` where x is private.
   */
  lemma {:induction false} VarPrivsExactly(vars: seq<Var>, p: PrivUse)
    ensures p in VarPrivs(vars) <==>
      exists i, k :: 0 <= i < |vars| && IsThisAlias(vars[i].name) && 0 <= k < |vars[i].binding.uses| &&
        NamesPrivate(vars[i].binding.uses[k], p.name) && p.at == vars[i].binding.uses[k].at
    decreases |vars|
  {
    if vars != [] {
      var init := vars[..|vars| - 1];
      VarPrivsExactly(init, p);
      AliasUsePrivsExactly(vars[|vars| - 1].binding.uses, p);
      assert forall i :: 0 <= i < |init| ==> vars[i] == init[i];
    }
  }

  /** The private name of a pair is the dot-delimited segment right after the alias. */
  lemma NamesPrivateSegment(u: Use, x: string)
    requires NamesPrivate(u, x)
    ensures StartsWith(x, "__") && '.' !in x
    ensures exists head, rest {:trigger head + ['.'] + x + rest} :: u.name == head + ['.'] + x + rest && '.' !in head && (rest == [] || rest[0] == '.')
  {
    var name := u.name;
    var parts := Split(name, '.');
    assert |parts| > 1 && parts[1] == x && IsPrivate(x);
    SplitHasSeveralPieces(name, '.');
    SecondPieceOfSplit(name, '.');
  }

  /** `set(key for key in group if reg_privs.match(key))` */
  function PrivateKeys(group: seq<Feature>): set<string> {
    set i | 0 <= i < |group| && IsPrivate(group[i].key) :: group[i].key
  }

  function UndeclaredPrivateWarning(file: string, p: PrivUse): Warning {
    Warning(file, Some(p.at), "Using an undeclared private class feature: '" + p.name + "'")
  }

  function PrivWarnings(file: string, privs: seq<PrivUse>, declared: set<string>): seq<Warning>
    decreases |privs|
  {
    if privs == [] then []
    else
      var p := privs[|privs| - 1];
      PrivWarnings(file, privs[..|privs| - 1], declared) +
      (if p.name in declared then [] else [UndeclaredPrivateWarning(file, p)])
  }

  function FeatureWarnings(file: string, features: seq<Feature>, declared: set<string>): seq<Warning>
    decreases |features|
  {
    if features == [] then []
    else
      var f := features[|features| - 1];
      FeatureWarnings(file, features[..|features| - 1], declared) +
      (if f.value.kind.Function? then PrivWarnings(file, LocalPrivs(f.value), declared) else [])
  }

  /** One feature group, checked against its own private keys only. */
  function GroupPrivateWarnings(file: string, group: Option<seq<Feature>>): seq<Warning> {
    if group.None? then [] else FeatureWarnings(file, group.value, PrivateKeys(group.value))
  }

  /** class_declared_privates; nothing when the class map is unavailable. */
  function ClassPrivateWarnings(file: string, classMap: Option<ClassMap>): seq<Warning> {
    if classMap.None? then []
    else GroupPrivateWarnings(file, classMap.value.statics) + GroupPrivateWarnings(file, classMap.value.members)
  }

  lemma {:induction false} PrivWarningsExactly(file: string, privs: seq<PrivUse>, declared: set<string>, w: Warning)
    ensures w in PrivWarnings(file, privs, declared) <==>
      exists k :: 0 <= k < |privs| && privs[k].name !in declared && w == UndeclaredPrivateWarning(file, privs[k])
    decreases |privs|
  {
    if privs != [] {
      var init := privs[..|privs| - 1];
      PrivWarningsExactly(file, init, declared, w);
      assert forall k :: 0 <= k < |init| ==> privs[k] == init[k];
    }
  }

  /**
   * Feature f is function-valued and one of its this/that private uses,
   * not declared in the group, yields w.
   */
  predicate UndeclaredUseIn(file: string, f: Feature, declared: set<string>, w: Warning) {
    f.value.kind.Function? &&
    exists k :: 0 <= k < |LocalPrivs(f.value)| && LocalPrivs(f.value)[k].name !in declared &&
      w == UndeclaredPrivateWarning(file, LocalPrivs(f.value)[k])
  }

  /** The warnings one feature contributes are exactly its undeclared private uses. */
  lemma OneFeatureWarningsExactly(file: string, f: Feature, declared: set<string>, w: Warning)
    ensures w in (if f.value.kind.Function? then PrivWarnings(file, LocalPrivs(f.value), declared) else []) <==>
      UndeclaredUseIn(file, f, declared, w)
  {
    if f.value.kind.Function? {
      PrivWarningsExactly(file, LocalPrivs(f.value), declared, w);
    }
  }

  /**
   * In one group, a warning is emitted exactly for the pairs found in a
   * function-valued feature whose private name the group does not declare.
   */
  lemma {:induction false} FeatureWarningsExactly(file: string, features: seq<Feature>, declared: set<string>, w: Warning)
    ensures w in FeatureWarnings(file, features, declared) <==>
      exists i :: 0 <= i < |features| && UndeclaredUseIn(file, features[i], declared, w)
    decreases |features|
  {
    if features != [] {
      var init := features[..|features| - 1];
      var f := features[|features| - 1];
      FeatureWarningsExactly(file, init, declared, w);
      OneFeatureWarningsExactly(file, f, declared, w);
      assert forall i :: 0 <= i < |init| ==> features[i] == init[i];
    }
  }

  /**
   * A private name used through this/that in a statics function and not
   * declared among the statics is reported, whatever the members declare.
   */
  lemma StaticsCheckedAgainstStatics(file: string, statics: seq<Feature>, members: Option<seq<Feature>>, i: nat, k: nat)
    requires i < |statics| && statics[i].value.kind.Function?
    requires k < |LocalPrivs(statics[i].value)|
    requires forall j :: 0 <= j < |statics| ==> statics[j].key != LocalPrivs(statics[i].value)[k].name
    ensures UndeclaredPrivateWarning(file, LocalPrivs(statics[i].value)[k]) in
      ClassPrivateWarnings(file, Some(ClassMap(Some(statics), members)))
  {
    FeatureWarningsExactly(file, statics, PrivateKeys(statics), UndeclaredPrivateWarning(file, LocalPrivs(statics[i].value)[k]));
  }

  /**
   * A private name used through this/that in a members function and not
   * declared among the members is reported, whatever the statics declare.
   */
  lemma MembersCheckedAgainstMembers(file: string, statics: Option<seq<Feature>>, members: seq<Feature>, i: nat, k: nat)
    requires i < |members| && members[i].value.kind.Function?
    requires k < |LocalPrivs(members[i].value)|
    requires forall j :: 0 <= j < |members| ==> members[j].key != LocalPrivs(members[i].value)[k].name
    ensures UndeclaredPrivateWarning(file, LocalPrivs(members[i].value)[k]) in
      ClassPrivateWarnings(file, Some(ClassMap(statics, Some(members))))
  {
    FeatureWarningsExactly(file, members, PrivateKeys(members), UndeclaredPrivateWarning(file, LocalPrivs(members[i].value)[k]));
  }

  // ===========================================================================
  // class_reference_fields

  /** A map or array literal, or a `new` expression. */
  predicate IsReferenceValue(v: Node) {
    v.kind == Map || v.kind == Array || (v.kind == Operation && Get(v, "operator") == Some("NEW"))
  }

  function ReferenceFieldWarning(file: string, f: Feature): Warning {
    NodeWarning(file, f.value, "Reference values are shared across all instances: '" + f.key + "'")
  }

  function MemberReferenceWarnings(file: string, members: seq<Feature>): seq<Warning>
    decreases |members|
  {
    if members == [] then []
    else
      var f := members[|members| - 1];
      MemberReferenceWarnings(file, members[..|members| - 1]) +
      (if IsReferenceValue(f.value) then [ReferenceFieldWarning(file, f)] else [])
  }

  /** class_reference_fields: members only; nothing when the class map is unavailable. */
  function ReferenceFieldWarnings(file: string, classMap: Option<ClassMap>): seq<Warning> {
    if classMap.None? || classMap.value.members.None? then []
    else MemberReferenceWarnings(file, classMap.value.members.value)
  }

  /**
   * Exactly the members whose value is a map or array literal or a `new`
   * expression are reported, at the value; statics never are.
   */
  lemma {:induction false} MemberReferenceWarningsExactly(file: string, members: seq<Feature>, w: Warning)
    ensures w in MemberReferenceWarnings(file, members) <==>
      exists i :: 0 <= i < |members| && IsReferenceValue(members[i].value) && w == ReferenceFieldWarning(file, members[i])
    decreases |members|
  {
    if members != [] {
      var init := members[..|members| - 1];
      MemberReferenceWarningsExactly(file, init, w);
      assert forall i :: 0 <= i < |init| ==> members[i] == init[i];
    }
  }

  // ===========================================================================
  // environment_check_select, environment_check_get, environment_check_filter

  const SelectArity := "qx.core.Environment.select: takes exactly two arguments."
  const SelectKeyNotString := "qx.core.Environment.select: first argument is not a string literal."
  const SelectNotMap := "qx.core.Environment.select: second parameter not a map."
  const GetArity := "qx.core.Environment.get: takes exactly one arguments."
  const GetKeyNotString := "qx.core.Environment.get: first argument is not a string literal."
  const FilterArity := "qx.core.Environment.filter: takes exactly one arguments."
  const FilterNotMap := "qx.core.Environment.filter: first argument is not a map."

  /**
   * environment_check_select: nothing for a node that is not a call; else at
   * most one warning, and none exactly for a string literal and a map as the
   * two arguments; a wrong argument count stops the checks.
   */
  function SelectWarnings(file: string, n: Node): (ws: seq<Warning>)
    requires n.kind == Call ==> HasArguments(n)
    ensures |ws| <= 1
    ensures ws == [] <==>
      n.kind != Call || (|ArgumentsOf(n)| == 2 && IsStringLiteral(ArgumentsOf(n)[0]) && ArgumentsOf(n)[1].kind == Map)
    ensures n.kind == Call && |ArgumentsOf(n)| != 2 ==> ws == [NodeWarning(file, n, SelectArity)]
    ensures n.kind == Call && |ArgumentsOf(n)| == 2 && !IsStringLiteral(ArgumentsOf(n)[0]) ==>
      ws == [NodeWarning(file, n, SelectKeyNotString)]
    ensures n.kind == Call && |ArgumentsOf(n)| == 2 && IsStringLiteral(ArgumentsOf(n)[0]) && ArgumentsOf(n)[1].kind != Map ==>
      ws == [NodeWarning(file, n, SelectNotMap)]
  {
    if n.kind != Call then []
    else
      var params := ArgumentsOf(n);
      if |params| != 2 then [NodeWarning(file, n, SelectArity)]
      else if !IsStringLiteral(params[0]) then [NodeWarning(file, n, SelectKeyNotString)]
      else if params[1].kind == Map then []
      else [NodeWarning(file, n, SelectNotMap)]
  }

  /**
   * environment_check_get: at most one warning, none exactly for a single
   * string-literal argument; the node is not required to be a call.
   */
  function GetWarnings(file: string, n: Node): (ws: seq<Warning>)
    requires HasArguments(n)
    ensures |ws| <= 1
    ensures ws == [] <==> |ArgumentsOf(n)| == 1 && IsStringLiteral(ArgumentsOf(n)[0])
    ensures |ArgumentsOf(n)| != 1 ==> ws == [NodeWarning(file, n, GetArity)]
    ensures |ArgumentsOf(n)| == 1 && !IsStringLiteral(ArgumentsOf(n)[0]) ==> ws == [NodeWarning(file, n, GetKeyNotString)]
  {
    var params := ArgumentsOf(n);
    if |params| != 1 then [NodeWarning(file, n, GetArity)]
    else if !IsStringLiteral(params[0]) then [NodeWarning(file, n, GetKeyNotString)]
    else []
  }

  /** The warnings of environment_check_filter and the value it returns. */
  datatype FilterOutcome = FilterOutcome(warnings: seq<Warning>, complete: bool)

  /**
   * environment_check_filter returns True exactly for a call with one map
   * argument, and then warns of nothing; otherwise it warns once, unless the
   * node is not a call.
   */
  function FilterCheck(file: string, n: Node): (r: FilterOutcome)
    requires n.kind == Call ==> HasArguments(n)
    ensures r.complete <==> n.kind == Call && |ArgumentsOf(n)| == 1 && ArgumentsOf(n)[0].kind == Map
    ensures r.complete ==> r.warnings == []
    ensures !r.complete ==> (r.warnings == [] <==> n.kind != Call)
    ensures n.kind == Call && |ArgumentsOf(n)| != 1 ==> r.warnings == [NodeWarning(file, n, FilterArity)]
    ensures n.kind == Call && |ArgumentsOf(n)| == 1 && ArgumentsOf(n)[0].kind != Map ==>
      r.warnings == [NodeWarning(file, n, FilterNotMap)]
  {
    if n.kind != Call then FilterOutcome([], false)
    else
      var params := ArgumentsOf(n);
      if |params| != 1 then FilterOutcome([NodeWarning(file, n, FilterArity)], false)
      else if params[0].kind != Map then FilterOutcome([NodeWarning(file, n, FilterNotMap)], false)
      else FilterOutcome([], true)
  }

  /** The dispatch of environment_check_calls on the accessor name. */
  function EnvCallWarnings(file: string, e: EnvCall): seq<Warning>
    requires EnvCallWellFormed(e)
  {
    if e.accessor == "select" then SelectWarnings(file, e.call)
    else if e.accessor == "get" then GetWarnings(file, e.call)
    else if e.accessor == "filter" then FilterCheck(file, e.call).warnings
    else []
  }

  function EnvironmentWarnings(file: string, calls: seq<EnvCall>): seq<Warning>
    requires forall e :: e in calls ==> EnvCallWellFormed(e)
    decreases |calls|
  {
    if calls == [] then []
    else EnvironmentWarnings(file, calls[..|calls| - 1]) + EnvCallWarnings(file, calls[|calls| - 1])
  }

  // ===========================================================================
  // The rule batteries of visit_file and visit_function

  /** function_unknown_globals, function_unused_vars, function_used_deprecated, function_multiple_var_decls. */
  function ScopeWarnings(file: string, opts: Options, lang: Lang, scope: Scope, hints: LintHints): seq<Warning> {
    UnknownGlobalWarnings(file, opts, lang, scope.globals, hints) +
    UnusedVarWarnings(file, scope.vars, hints) +
    DeprecatedWarnings(file, lang, scope.globals, hints) +
    MultipleDeclWarnings(file, scope.vars)
  }

  /** class_declared_privates and class_reference_fields for each class definition in turn. */
  function ClassWarnings(file: string, classDefs: seq<Option<ClassMap>>): seq<Warning>
    decreases |classDefs|
  {
    if classDefs == [] then []
    else
      var cd := classDefs[|classDefs| - 1];
      ClassWarnings(file, classDefs[..|classDefs| - 1]) + ClassDefWarnings(file, cd)
  }

  /** Both class rules on one class definition. */
  function ClassDefWarnings(file: string, classMap: Option<ClassMap>): seq<Warning> {
    ClassPrivateWarnings(file, classMap) + ReferenceFieldWarnings(file, classMap)
  }
}
