/**
 * The lint pass: a pre-order traversal of the tree that runs, per node
 * category, the rules of the Rules module and appends their warnings to the
 * checker's list. `LintNode` specifies the whole pass; LintChecker performs it
 * step by step and is proved to produce exactly those warnings.
 *
 * `ctx` is the list of hint records of the scope nodes (file and function
 * nodes) strictly enclosing the current node, innermost first: the chain that
 * get_at_hints walks through scopes.find_enclosing.
 */
module Lint {
  import opened Wrappers
  import opened Text
  import opened Hints
  import opened Tree
  import opened Report
  import opened Classifier
  import opened Rules

  /**
   * The warnings visiting `n` emits, in emission order: the visitor's
   * dispatch on the node category. Categories without a visit method of
   * their own just visit their children.
   */
  function LintNode(file: string, opts: Options, lang: Lang, n: Node, ctx: seq<seq<CommentEntry>>): seq<Warning>
    requires WellFormed(n)
    decreases n, |n.children| + 2
  {
    match n.kind
    case File(_, _, _) => LintFile(file, opts, lang, n, ctx)
    case Function(_) => LintFunction(file, opts, lang, n, ctx)
    case Map => LintMap(file, opts, lang, n, ctx)
    case Loop => LintLoop(file, opts, lang, n, ctx)
    case _ => LintChildren(file, opts, lang, n, |n.children|, ctx)
  }

  /** visit_file: the scope rules, the class rules per class definition, the Environment checks, then the children. */
  function LintFile(file: string, opts: Options, lang: Lang, n: Node, ctx: seq<seq<CommentEntry>>): seq<Warning>
    requires WellFormed(n) && n.kind.File?
    decreases n, |n.children| + 1
  {
    ScopeWarnings(file, opts, lang, n.kind.scope, AtHints([n.comments] + ctx)) +
    ClassWarnings(file, n.kind.classDefs) +
    EnvironmentWarnings(file, n.kind.envCalls) +
    LintChildren(file, opts, lang, n, |n.children|, [n.comments] + ctx)
  }

  /** visit_function: the scope rules, then the children, which the function node now encloses. */
  function LintFunction(file: string, opts: Options, lang: Lang, n: Node, ctx: seq<seq<CommentEntry>>): seq<Warning>
    requires WellFormed(n) && n.kind.Function?
    decreases n, |n.children| + 1
  {
    ScopeWarnings(file, opts, lang, n.kind.scope, AtHints([n.comments] + ctx)) +
    LintChildren(file, opts, lang, n, |n.children|, [n.comments] + ctx)
  }

  /** visit_map: the duplicate-key rule, then the children. */
  function LintMap(file: string, opts: Options, lang: Lang, n: Node, ctx: seq<seq<CommentEntry>>): seq<Warning>
    requires WellFormed(n) && n.kind == Map
    decreases n, |n.children| + 1
  {
    DuplicateKeyWarnings(file, n.children) + LintChildren(file, opts, lang, n, |n.children|, ctx)
  }

  /** visit_loop: the body rule on the body (and else branch), then the children. */
  function LintLoop(file: string, opts: Options, lang: Lang, n: Node, ctx: seq<seq<CommentEntry>>): seq<Warning>
    requires WellFormed(n) && n.kind == Loop
    decreases n, |n.children| + 1
  {
    LoopWarnings(file, n, ctx) + LintChildren(file, opts, lang, n, |n.children|, ctx)
  }

  /** The warnings of visiting the first `i` children of `p`, in child order. */
  function LintChildren(file: string, opts: Options, lang: Lang, p: Node, i: nat, ctx: seq<seq<CommentEntry>>): seq<Warning>
    requires WellFormed(p) && i <= |p.children|
    decreases p, i
  {
    if i == 0 then []
    else
      assert p.children[i - 1] in p.children;
      LintChildren(file, opts, lang, p, i - 1, ctx) + LintNode(file, opts, lang, p.children[i - 1], ctx)
  }

  lemma LintChildrenStep(file: string, opts: Options, lang: Lang, p: Node, i: nat, ctx: seq<seq<CommentEntry>>)
    requires WellFormed(p) && i < |p.children|
    ensures WellFormed(p.children[i])
    ensures LintChildren(file, opts, lang, p, i + 1, ctx) ==
      LintChildren(file, opts, lang, p, i, ctx) + LintNode(file, opts, lang, p.children[i], ctx)
  {
    assert p.children[i] in p.children;
  }

  /** The categories that run rules of their own. */
  predicate RunsRules(n: Node) {
    n.kind.File? || n.kind.Function? || n.kind == Map || n.kind == Loop
  }

  /** A tree none of whose nodes is a file, function, map or loop node. */
  predicate Quiet(n: Node)
    decreases n
  {
    !RunsRules(n) && forall c :: c in n.children ==> Quiet(c)
  }

  /** Only file, function, map and loop nodes produce warnings: the other categories just recurse. */
  lemma {:induction false} QuietTreeIsSilent(file: string, opts: Options, lang: Lang, n: Node, ctx: seq<seq<CommentEntry>>)
    requires WellFormed(n) && Quiet(n)
    ensures LintNode(file, opts, lang, n, ctx) == []
    decreases n, 1
  {
    QuietChildrenAreSilent(file, opts, lang, n, |n.children|, ctx);
  }

  lemma {:induction false} QuietChildrenAreSilent(file: string, opts: Options, lang: Lang, p: Node, i: nat, ctx: seq<seq<CommentEntry>>)
    requires WellFormed(p) && Quiet(p) && i <= |p.children|
    ensures LintChildren(file, opts, lang, p, i, ctx) == []
    decreases p, 0, i
  {
    if i > 0 {
      assert p.children[i - 1] in p.children;
      QuietChildrenAreSilent(file, opts, lang, p, i - 1, ctx);
      QuietTreeIsSilent(file, opts, lang, p.children[i - 1], ctx);
    }
  }

  /** The chain the children of `n` are visited under: a file or function node adds its own hint records. */
  function ChildContext(n: Node, ctx: seq<seq<CommentEntry>>): seq<seq<CommentEntry>> {
    if HasScope(n) then [n.comments] + ctx else ctx
  }

  /** The warnings of the rules `n` runs itself, before any of its children is visited. */
  function OwnWarnings(file: string, opts: Options, lang: Lang, n: Node, ctx: seq<seq<CommentEntry>>): seq<Warning>
    requires WellFormed(n)
  {
    if n.kind.File? then
      ScopeWarnings(file, opts, lang, n.kind.scope, AtHints([n.comments] + ctx)) +
      ClassWarnings(file, n.kind.classDefs) +
      EnvironmentWarnings(file, n.kind.envCalls)
    else if n.kind.Function? then ScopeWarnings(file, opts, lang, n.kind.scope, AtHints([n.comments] + ctx))
    else if n.kind == Map then DuplicateKeyWarnings(file, n.children)
    else if n.kind == Loop then LoopWarnings(file, n, ctx)
    else []
  }

  /** Visiting a node emits its own rule warnings, then those of all its children under the chain it hands down. */
  lemma LintNodeSplits(file: string, opts: Options, lang: Lang, n: Node, ctx: seq<seq<CommentEntry>>)
    requires WellFormed(n)
    ensures LintNode(file, opts, lang, n, ctx) ==
      OwnWarnings(file, opts, lang, n, ctx) + LintChildren(file, opts, lang, n, |n.children|, ChildContext(n, ctx))
  {
    if !RunsRules(n) {
      assert OwnWarnings(file, opts, lang, n, ctx) == [];
    }
  }

  /** The warnings of the first `j` children come first among those of the first `k`. */
  lemma {:induction false} LintChildrenPrefix(file: string, opts: Options, lang: Lang, p: Node, j: nat, k: nat, ctx: seq<seq<CommentEntry>>)
    requires WellFormed(p) && j <= k <= |p.children|
    ensures LintChildren(file, opts, lang, p, j, ctx) <= LintChildren(file, opts, lang, p, k, ctx)
    decreases k
  {
    if j < k {
      LintChildrenPrefix(file, opts, lang, p, j, k - 1, ctx);
      LintChildrenStep(file, opts, lang, p, k - 1, ctx);
    }
  }

  /**
   * The warnings of visiting child `i` of `n` form one contiguous run of the
   * warnings of visiting `n`: they follow `n`'s own rule warnings and those of
   * children 0 to i - 1, and the child is visited under `n`'s chain extended
   * by `n`'s hint records when `n` is a file or function node.
   */
  lemma ChildWarningsSlice(file: string, opts: Options, lang: Lang, n: Node, i: nat, ctx: seq<seq<CommentEntry>>)
    requires WellFormed(n) && i < |n.children|
    ensures WellFormed(n.children[i])
    ensures var whole := LintNode(file, opts, lang, n, ctx);
            var own := OwnWarnings(file, opts, lang, n, ctx);
            var inner := ChildContext(n, ctx);
            var start := |own| + |LintChildren(file, opts, lang, n, i, inner)|;
            var mine := LintNode(file, opts, lang, n.children[i], inner);
            own <= whole && start + |mine| <= |whole| && whole[start..start + |mine|] == mine
  {
    var inner := ChildContext(n, ctx);
    LintNodeSplits(file, opts, lang, n, ctx);
    LintChildrenStep(file, opts, lang, n, i, inner);
    LintChildrenPrefix(file, opts, lang, n, i + 1, |n.children|, inner);
    RunAfterPrefix(OwnWarnings(file, opts, lang, n, ctx), LintChildren(file, opts, lang, n, |n.children|, inner),
                   LintChildren(file, opts, lang, n, i, inner), LintNode(file, opts, lang, n.children[i], inner));
  }

  lemma RunAfterPrefix(own: seq<Warning>, all: seq<Warning>, pre: seq<Warning>, mine: seq<Warning>)
    requires pre + mine <= all
    ensures own <= own + all
    ensures |own| + |pre| + |mine| <= |own + all|
    ensures (own + all)[|own| + |pre|..|own| + |pre| + |mine|] == mine
  {
    var whole := own + all;
    forall t | 0 <= t < |mine| ensures whole[|own| + |pre| + t] == mine[t] {
      assert whole[|own| + |pre| + t] == all[|pre| + t] == (pre + mine)[|pre| + t];
    }
  }

  /** `part` appears as one contiguous run of `whole`. */
  ghost predicate Occurs(part: seq<Warning>, whole: seq<Warning>) {
    exists before, after :: whole == before + part + after
  }

  lemma SliceOccurs(part: seq<Warning>, whole: seq<Warning>, start: nat)
    requires start + |part| <= |whole| && whole[start..start + |part|] == part
    ensures Occurs(part, whole)
  {
    assert whole == whole[..start] + whole[start..start + |part|] + whole[start + |part|..];
  }

  lemma OccursInside(a: seq<Warning>, b: seq<Warning>, c: seq<Warning>)
    ensures Occurs(b, a + b + c)
  {
  }

  lemma OccursTransitive(a: seq<Warning>, b: seq<Warning>, c: seq<Warning>)
    requires Occurs(a, b) && Occurs(b, c)
    ensures Occurs(a, c)
  {
    var p, q :| b == p + a + q;
    var p', q' :| c == p' + b + q';
    assert c == (p' + p) + a + (q + q');
  }

  /** `path` lists the child indices that lead from `n` down to one of its descendants. */
  predicate IsPath(n: Node, path: seq<nat>)
    decreases |path|
  {
    path == [] || (path[0] < |n.children| && IsPath(n.children[path[0]], path[1..]))
  }

  function NodeAt(n: Node, path: seq<nat>): Node
    requires IsPath(n, path)
    decreases |path|
  {
    if path == [] then n else NodeAt(n.children[path[0]], path[1..])
  }

  /** The chain under which a traversal of `n` started under `ctx` visits the node at `path`. */
  function ChainAt(n: Node, path: seq<nat>, ctx: seq<seq<CommentEntry>>): seq<seq<CommentEntry>>
    requires IsPath(n, path)
    decreases |path|
  {
    if path == [] then ctx else ChainAt(n.children[path[0]], path[1..], ChildContext(n, ctx))
  }

  /**
   * Walking one step further down adds the hint records of the node left
   * behind when it is a file or function node, innermost first: the chain of
   * a node is the hint records of its enclosing scope nodes.
   */
  lemma {:induction false} ChainAtExtends(n: Node, path: seq<nat>, j: nat, ctx: seq<seq<CommentEntry>>)
    requires IsPath(n, path) && j < |NodeAt(n, path).children|
    ensures IsPath(n, path + [j])
    ensures NodeAt(n, path + [j]) == NodeAt(n, path).children[j]
    ensures ChainAt(n, path + [j], ctx) == ChildContext(NodeAt(n, path), ChainAt(n, path, ctx))
    decreases |path|
  {
    if path == [] {
      assert [] + [j] == [j] && [j][1..] == [];
    } else {
      assert (path + [j])[1..] == path[1..] + [j];
      ChainAtExtends(n.children[path[0]], path[1..], j, ChildContext(n, ctx));
    }
  }

  /** The own rule warnings of every node below `n` reach the warnings of visiting `n`, as one run. */
  lemma {:induction false} DescendantWarningsOccur(file: string, opts: Options, lang: Lang, n: Node, path: seq<nat>, ctx: seq<seq<CommentEntry>>)
    requires WellFormed(n) && IsPath(n, path)
    ensures WellFormed(NodeAt(n, path))
    ensures Occurs(OwnWarnings(file, opts, lang, NodeAt(n, path), ChainAt(n, path, ctx)), LintNode(file, opts, lang, n, ctx))
    decreases |path|
  {
    LintNodeSplits(file, opts, lang, n, ctx);
    if path == [] {
      OccursInside([], OwnWarnings(file, opts, lang, n, ctx), LintChildren(file, opts, lang, n, |n.children|, ChildContext(n, ctx)));
    } else {
      var inner := ChildContext(n, ctx);
      var c := n.children[path[0]];
      ChildWarningsSlice(file, opts, lang, n, path[0], ctx);
      var start := |OwnWarnings(file, opts, lang, n, ctx)| + |LintChildren(file, opts, lang, n, path[0], inner)|;
      SliceOccurs(LintNode(file, opts, lang, c, inner), LintNode(file, opts, lang, n, ctx), start);
      DescendantWarningsOccur(file, opts, lang, c, path[1..], inner);
      OccursTransitive(OwnWarnings(file, opts, lang, NodeAt(n, path), ChainAt(n, path, ctx)), LintNode(file, opts, lang, c, inner), LintNode(file, opts, lang, n, ctx));
    }
  }

  /** Each rule a node runs contributes one contiguous run of its own warnings. */
  lemma OwnWarningsParts(file: string, opts: Options, lang: Lang, m: Node, chain: seq<seq<CommentEntry>>)
    requires WellFormed(m)
    ensures HasScope(m) ==>
      Occurs(ScopeWarnings(file, opts, lang, ScopeOf(m), AtHints([m.comments] + chain)), OwnWarnings(file, opts, lang, m, chain))
    ensures m.kind.File? ==>
      Occurs(ClassWarnings(file, m.kind.classDefs), OwnWarnings(file, opts, lang, m, chain)) &&
      Occurs(EnvironmentWarnings(file, m.kind.envCalls), OwnWarnings(file, opts, lang, m, chain))
    ensures m.kind == Map ==> OwnWarnings(file, opts, lang, m, chain) == DuplicateKeyWarnings(file, m.children)
    ensures m.kind == Loop ==> OwnWarnings(file, opts, lang, m, chain) == LoopWarnings(file, m, chain)
  {
    if m.kind.File? {
      FileWarningsParts(file, opts, lang, m, chain);
    } else if m.kind.Function? {
      var own := OwnWarnings(file, opts, lang, m, chain);
      assert own == ScopeWarnings(file, opts, lang, ScopeOf(m), AtHints([m.comments] + chain));
      OccursInside([], own, []);
    }
  }

  lemma FileWarningsParts(file: string, opts: Options, lang: Lang, m: Node, chain: seq<seq<CommentEntry>>)
    requires WellFormed(m) && m.kind.File?
    ensures Occurs(ScopeWarnings(file, opts, lang, ScopeOf(m), AtHints([m.comments] + chain)), OwnWarnings(file, opts, lang, m, chain))
    ensures Occurs(ClassWarnings(file, m.kind.classDefs), OwnWarnings(file, opts, lang, m, chain))
    ensures Occurs(EnvironmentWarnings(file, m.kind.envCalls), OwnWarnings(file, opts, lang, m, chain))
  {
    var s := ScopeWarnings(file, opts, lang, ScopeOf(m), AtHints([m.comments] + chain));
    var cl := ClassWarnings(file, m.kind.classDefs);
    var e := EnvironmentWarnings(file, m.kind.envCalls);
    assert OwnWarnings(file, opts, lang, m, chain) == s + cl + e;
    PartsOccur(s, cl, e);
  }

  lemma PartsOccur(a: seq<Warning>, b: seq<Warning>, c: seq<Warning>)
    ensures Occurs(a, a + b + c) && Occurs(b, a + b + c) && Occurs(c, a + b + c)
  {
    AppendAssoc(a, b, c);
    OccursInside([], a, b + c);
    OccursInside(a, b, c);
    OccursInside(a + b, c, []);
  }

  /**
   * For any file, function, map or loop node below the root, the warnings of
   * each of its rules, under the hints of the scope nodes enclosing it, appear
   * as one contiguous run in the warnings of the whole pass.
   */
  lemma DescendantRulesReported(file: string, opts: Options, lang: Lang, root: Node, path: seq<nat>)
    requires WellFormed(root) && IsPath(root, path)
    ensures WellFormed(NodeAt(root, path))
    ensures HasScope(NodeAt(root, path)) ==>
      Occurs(ScopeWarnings(file, opts, lang, ScopeOf(NodeAt(root, path)),
                           AtHints([NodeAt(root, path).comments] + ChainAt(root, path, []))),
             LintNode(file, opts, lang, root, []))
    ensures NodeAt(root, path).kind.File? ==>
      Occurs(ClassWarnings(file, NodeAt(root, path).kind.classDefs), LintNode(file, opts, lang, root, [])) &&
      Occurs(EnvironmentWarnings(file, NodeAt(root, path).kind.envCalls), LintNode(file, opts, lang, root, []))
    ensures NodeAt(root, path).kind == Map ==>
      Occurs(DuplicateKeyWarnings(file, NodeAt(root, path).children), LintNode(file, opts, lang, root, []))
    ensures NodeAt(root, path).kind == Loop ==>
      Occurs(LoopWarnings(file, NodeAt(root, path), ChainAt(root, path, [])), LintNode(file, opts, lang, root, []))
  {
    var m := NodeAt(root, path);
    var chain := ChainAt(root, path, []);
    var all := LintNode(file, opts, lang, root, []);
    DescendantWarningsOccur(file, opts, lang, root, path, []);
    var own := OwnWarnings(file, opts, lang, m, chain);
    OwnWarningsParts(file, opts, lang, m, chain);
    if HasScope(m) {
      OccursTransitive(ScopeWarnings(file, opts, lang, ScopeOf(m), AtHints([m.comments] + chain)), own, all);
    }
    if m.kind.File? {
      OccursTransitive(ClassWarnings(file, m.kind.classDefs), own, all);
      OccursTransitive(EnvironmentWarnings(file, m.kind.envCalls), own, all);
    }
  }

  /** Conversely, every warning of visiting `n` is an own rule warning of `n` or of a node below it. */
  lemma {:induction false} WarningsComeFromNodes(file: string, opts: Options, lang: Lang, n: Node, ctx: seq<seq<CommentEntry>>, w: Warning)
    requires WellFormed(n) && w in LintNode(file, opts, lang, n, ctx)
    ensures exists path :: (IsPath(n, path) && WellFormed(NodeAt(n, path)) &&
                            w in OwnWarnings(file, opts, lang, NodeAt(n, path), ChainAt(n, path, ctx)))
    decreases n, 1
  {
    LintNodeSplits(file, opts, lang, n, ctx);
    if w in OwnWarnings(file, opts, lang, n, ctx) {
      assert IsPath(n, []) && NodeAt(n, []) == n && ChainAt(n, [], ctx) == ctx;
    } else {
      var inner := ChildContext(n, ctx);
      ChildWarningsComeFromNodes(file, opts, lang, n, |n.children|, inner, w);
      var j, path :| 0 <= j < |n.children| && IsPath(n.children[j], path) && WellFormed(NodeAt(n.children[j], path)) &&
        w in OwnWarnings(file, opts, lang, NodeAt(n.children[j], path), ChainAt(n.children[j], path, inner));
      PathThroughChild(n, j, path, ctx);
    }
  }

  /** A path below child `j` of `n`, preceded by `j`, is a path below `n` to the same node and chain. */
  lemma PathThroughChild(n: Node, j: nat, path: seq<nat>, ctx: seq<seq<CommentEntry>>)
    requires j < |n.children| && IsPath(n.children[j], path)
    ensures IsPath(n, [j] + path)
    ensures NodeAt(n, [j] + path) == NodeAt(n.children[j], path)
    ensures ChainAt(n, [j] + path, ctx) == ChainAt(n.children[j], path, ChildContext(n, ctx))
  {
    assert ([j] + path)[0] == j && ([j] + path)[1..] == path;
  }

  lemma {:induction false} ChildWarningsComeFromNodes(file: string, opts: Options, lang: Lang, p: Node, i: nat, ctx: seq<seq<CommentEntry>>, w: Warning)
    requires WellFormed(p) && i <= |p.children| && w in LintChildren(file, opts, lang, p, i, ctx)
    ensures exists j, path :: (0 <= j < i && IsPath(p.children[j], path) && WellFormed(NodeAt(p.children[j], path)) &&
                               w in OwnWarnings(file, opts, lang, NodeAt(p.children[j], path), ChainAt(p.children[j], path, ctx)))
    decreases p, 0, i
  {
    LintChildrenStep(file, opts, lang, p, i - 1, ctx);
    if w in LintChildren(file, opts, lang, p, i - 1, ctx) {
      ChildWarningsComeFromNodes(file, opts, lang, p, i - 1, ctx, w);
    } else {
      assert p.children[i - 1] in p.children;
      WarningsComeFromNodes(file, opts, lang, p.children[i - 1], ctx, w);
    }
  }

  /**
   * An `ignoreUndefined` hint on any enclosing scope node also silences the
   * unknown-global warning for the same dotted name in a nested function.
   */
  lemma OuterIgnoreUndefinedApplies(file: string, opts: Options, lang: Lang, scope: Scope,
                                    comments: seq<CommentEntry>, ctx: seq<seq<CommentEntry>>, u: Use)
    requires IsNameLintFiltered(u.rootName, AtHints(ctx), "ignoreUndefined")
    ensures UnknownGlobalWarning(file, u) !in UnknownGlobalWarnings(file, opts, lang, scope.globals, AtHints([comments] + ctx))
  {
    var hints := AtHints([comments] + ctx);
    var w := UnknownGlobalWarning(file, u);
    FilteredInherited(u.rootName, [comments], ctx, "ignoreUndefined");
    UnknownGlobalWarningsExactly(file, opts, lang, scope.globals, hints, w);
    if w in UnknownGlobalWarnings(file, opts, lang, scope.globals, hints) {
      var i, k :| 0 <= i < |scope.globals| && !SkippedGlobal(opts, lang, scope.globals[i].name) &&
        0 <= k < |scope.globals[i].binding.uses| && !KnownOrIgnored(opts, scope.globals[i].binding.uses[k], hints) &&
        w == UnknownGlobalWarning(file, scope.globals[i].binding.uses[k]);
      PrefixCancel("Unknown global symbol used: ", scope.globals[i].binding.uses[k].rootName, u.rootName);
      assert false;
    }
  }

  /** The checker: the file being linted, its options, and the warnings reported so far. */
  class LintChecker {
    const rootNode: Node
    const fileName: string
    const opts: Options
    const lang: Lang
    var reported: seq<Warning>

    constructor(rootNode: Node, fileName: string, opts: Options, lang: Lang)
      ensures this.rootNode == rootNode && this.fileName == fileName && this.opts == opts && this.lang == lang
      ensures reported == []
    {
      this.rootNode := rootNode;
      this.fileName := fileName;
      this.opts := opts;
      this.lang := lang;
      reported := [];
    }

    /** warn: one record per call, located at the node when there is one. */
    method Warn(msg: string, at: Option<Loc>)
      modifies this
      ensures reported == old(reported) + [Warning(fileName, at, msg)]
    {
      reported := reported + [Warning(fileName, at, msg)];
    }

    // -------------------------------------------------------------------------
    // Dispatcher

    method Visit(n: Node, ctx: seq<seq<CommentEntry>>)
      requires WellFormed(n)
      modifies this
      ensures reported == old(reported) + LintNode(fileName, opts, lang, n, ctx)
      decreases n, 2
    {
      match n.kind
      case File(_, _, _) => VisitFile(n, ctx);
      case Function(_) => VisitFunction(n, ctx);
      case Map => VisitMap(n, ctx);
      case Loop => VisitLoop(n, ctx);
      case _ => VisitChildren(n, ctx);
    }

    method VisitFile(n: Node, ctx: seq<seq<CommentEntry>>)
      requires WellFormed(n) && n.kind.File?
      modifies this
      ensures reported == old(reported) + LintFile(fileName, opts, lang, n, ctx)
      decreases n, 1
    {
      ghost var s := ScopeWarnings(fileName, opts, lang, n.kind.scope, AtHints([n.comments] + ctx));
      ghost var c := ClassWarnings(fileName, n.kind.classDefs);
      ghost var e := EnvironmentWarnings(fileName, n.kind.envCalls);
      ScopeRules(n, ctx);
      ClassRules(n.kind.classDefs);
      AppendAssoc(old(reported), s, c);
      EnvironmentCheckCalls(n.kind.envCalls);
      AppendAssoc(old(reported), s + c, e);
      VisitChildren(n, [n.comments] + ctx);
      AppendAssoc(old(reported), s + c + e, LintChildren(fileName, opts, lang, n, |n.children|, [n.comments] + ctx));
    }

    /** `for class_defn in treeutil.findQxDefineR(node)`: both class rules per class definition. */
    method ClassRules(classDefs: seq<Option<ClassMap>>)
      modifies this
      ensures reported == old(reported) + ClassWarnings(fileName, classDefs)
    {
      var i := 0;
      while i < |classDefs|
        invariant 0 <= i <= |classDefs|
        invariant reported == old(reported) + ClassWarnings(fileName, classDefs[..i])
      {
        ClassDefRules(classDefs[i]);
        AppendAssoc(old(reported), ClassWarnings(fileName, classDefs[..i]), ClassDefWarnings(fileName, classDefs[i]));
        assert classDefs[..i + 1][..i] == classDefs[..i];
        i := i + 1;
      }
      assert classDefs[..i] == classDefs;
    }

    method ClassDefRules(classMap: Option<ClassMap>)
      modifies this
      ensures reported == old(reported) + ClassDefWarnings(fileName, classMap)
    {
      ClassDeclaredPrivates(classMap);
      AppendAssoc(old(reported), ClassPrivateWarnings(fileName, classMap), ReferenceFieldWarnings(fileName, classMap));
      ClassReferenceFields(classMap);
    }

    method VisitFunction(n: Node, ctx: seq<seq<CommentEntry>>)
      requires WellFormed(n) && n.kind.Function?
      modifies this
      ensures reported == old(reported) + LintFunction(fileName, opts, lang, n, ctx)
      decreases n, 1
    {
      ScopeRules(n, ctx);
      VisitChildren(n, [n.comments] + ctx);
      AppendAssoc(old(reported), ScopeWarnings(fileName, opts, lang, n.kind.scope, AtHints([n.comments] + ctx)),
        LintChildren(fileName, opts, lang, n, |n.children|, [n.comments] + ctx));
    }

    method VisitMap(n: Node, ctx: seq<seq<CommentEntry>>)
      requires WellFormed(n) && n.kind == Map
      modifies this
      ensures reported == old(reported) + LintMap(fileName, opts, lang, n, ctx)
      decreases n, 1
    {
      MapUniqueKeys(n);
      VisitChildren(n, ctx);
      AppendAssoc(old(reported), DuplicateKeyWarnings(fileName, n.children), LintChildren(fileName, opts, lang, n, |n.children|, ctx));
    }

    method VisitLoop(n: Node, ctx: seq<seq<CommentEntry>>)
      requires WellFormed(n) && n.kind == Loop
      modifies this
      ensures reported == old(reported) + LintLoop(fileName, opts, lang, n, ctx)
      decreases n, 1
    {
      ghost var b := BodyWarnings(fileName, FirstOfKind(n.children, Body).value, ctx);
      LoopBodyBlock(FirstOfKind(n.children, Body).value, ctx);
      if Get(n, "loopType") == Some("IF") && |n.children| > 2 {
        LoopBodyBlock(n.children[2], ctx);
        AppendAssoc(old(reported), b, BodyWarnings(fileName, n.children[2], ctx));
      }
      assert reported == old(reported) + LoopWarnings(fileName, n, ctx);
      VisitChildren(n, ctx);
      AppendAssoc(old(reported), LoopWarnings(fileName, n, ctx), LintChildren(fileName, opts, lang, n, |n.children|, ctx));
    }

    /** `for cld in node.children: self.visit(cld)` */
    method VisitChildren(p: Node, ctx: seq<seq<CommentEntry>>)
      requires WellFormed(p)
      modifies this
      ensures reported == old(reported) + LintChildren(fileName, opts, lang, p, |p.children|, ctx)
      decreases p, 0
    {
      ghost var start := reported;
      var i := 0;
      while i < |p.children|
        invariant 0 <= i <= |p.children|
        invariant reported == start + LintChildren(fileName, opts, lang, p, i, ctx)
      {
        LintChildrenStep(fileName, opts, lang, p, i, ctx);
        var child := p.children[i];
        assert child < p;
        Visit(child, ctx);
        AppendAssoc(start, LintChildren(fileName, opts, lang, p, i, ctx), LintNode(fileName, opts, lang, child, ctx));
        i := i + 1;
      }
    }

    /** The four scope rules visit_file and visit_function run, in their order. */
    method ScopeRules(n: Node, ctx: seq<seq<CommentEntry>>)
      requires HasScope(n)
      modifies this
      ensures reported == old(reported) + ScopeWarnings(fileName, opts, lang, ScopeOf(n), AtHints([n.comments] + ctx))
    {
      ghost var hints := AtHints([n.comments] + ctx);
      ghost var u := UnknownGlobalWarnings(fileName, opts, lang, ScopeOf(n).globals, hints);
      ghost var v := UnusedVarWarnings(fileName, ScopeOf(n).vars, hints);
      ghost var d := DeprecatedWarnings(fileName, lang, ScopeOf(n).globals, hints);
      FunctionUnknownGlobals(n, ctx);
      FunctionUnusedVars(n, ctx);
      AppendAssoc(old(reported), u, v);
      FunctionUsedDeprecated(n, ctx);
      AppendAssoc(old(reported), u + v, d);
      FunctionMultipleVarDecls(n);
      AppendAssoc(old(reported), u + v + d, MultipleDeclWarnings(fileName, ScopeOf(n).vars));
    }

    // -------------------------------------------------------------------------
    // Scope rules

    method FunctionUsedDeprecated(funcNode: Node, ctx: seq<seq<CommentEntry>>)
      requires HasScope(funcNode)
      modifies this
      ensures reported == old(reported) + DeprecatedWarnings(fileName, lang, ScopeOf(funcNode).globals, AtHints([funcNode.comments] + ctx))
    {
      var globals := ScopeOf(funcNode).globals;
      ghost var hints := AtHints([funcNode.comments] + ctx);
      var i := 0;
      while i < |globals|
        invariant 0 <= i <= |globals|
        invariant reported == old(reported) + DeprecatedWarnings(fileName, lang, globals[..i], hints)
      {
        DeprecatedUses(funcNode, ctx, globals[i].binding.uses);
        AppendAssoc(old(reported), DeprecatedWarnings(fileName, lang, globals[..i], hints),
          DeprecatedUseWarnings(fileName, lang, globals[i].binding.uses, hints));
        assert globals[..i + 1][..i] == globals[..i];
        i := i + 1;
      }
      assert globals[..i] == globals;
    }

    /** The inner loop of function_used_deprecated, over the uses of one free name. */
    method DeprecatedUses(funcNode: Node, ctx: seq<seq<CommentEntry>>, uses: seq<Use>)
      modifies this
      ensures reported == old(reported) + DeprecatedUseWarnings(fileName, lang, uses, AtHints([funcNode.comments] + ctx))
    {
      ghost var hints := AtHints([funcNode.comments] + ctx);
      var k := 0;
      while k < |uses|
        invariant 0 <= k <= |uses|
        invariant reported == old(reported) + DeprecatedUseWarnings(fileName, lang, uses[..k], hints)
      {
        var fullName := uses[k].name;
        var ok := true;
        if fullName in lang.globals && fullName in lang.deprecated {
          ok := false;
          var atHints := GetAtHints([funcNode.comments] + ctx, None);
          if |atHints| > 0 {
            ok := IsNameLintFiltered(fullName, atHints, "ignoreDeprecated");
          }
        }
        if !ok {
          Warn("Deprecated global symbol used: " + fullName, Some(uses[k].at));
        }
        assert uses[..k + 1][..k] == uses[..k];
        k := k + 1;
      }
      assert uses[..k] == uses;
    }

    method FunctionUnknownGlobals(funcNode: Node, ctx: seq<seq<CommentEntry>>)
      requires HasScope(funcNode)
      modifies this
      ensures reported == old(reported) +
        UnknownGlobalWarnings(fileName, opts, lang, ScopeOf(funcNode).globals, AtHints([funcNode.comments] + ctx))
    {
      var globals := ScopeOf(funcNode).globals;
      ghost var hints := AtHints([funcNode.comments] + ctx);
      var i := 0;
      while i < |globals|
        invariant 0 <= i <= |globals|
        invariant reported == old(reported) + UnknownGlobalWarnings(fileName, opts, lang, globals[..i], hints)
      {
        var id := globals[i].name;
        if id in opts.allowedGlobals {
        } else if id in lang.globals {
        } else {
          UnknownGlobalUses(funcNode, ctx, globals[i].binding.uses);
          AppendAssoc(old(reported), UnknownGlobalWarnings(fileName, opts, lang, globals[..i], hints),
            UnknownUseWarnings(fileName, opts, globals[i].binding.uses, hints));
        }
        assert globals[..i + 1][..i] == globals[..i];
        i := i + 1;
      }
      assert globals[..i] == globals;
    }

    /** The inner loop of function_unknown_globals, over the uses of one free name. */
    method UnknownGlobalUses(funcNode: Node, ctx: seq<seq<CommentEntry>>, uses: seq<Use>)
      modifies this
      ensures reported == old(reported) + UnknownUseWarnings(fileName, opts, uses, AtHints([funcNode.comments] + ctx))
    {
      ghost var hints := AtHints([funcNode.comments] + ctx);
      var k := 0;
      while k < |uses|
        invariant 0 <= k <= |uses|
        invariant reported == old(reported) + UnknownUseWarnings(fileName, opts, uses[..k], hints)
      {
        var fullName := uses[k].rootName;
        var ok := false;
        var matched := ExtensionMatchIn(fullName, opts.libraryClasses + opts.classNamespaces);
        if matched != "" {
          ok := true;
        } else {
          var atHints := GetAtHints([funcNode.comments] + ctx, None);
          if |atHints| > 0 {
            ok := IsNameLintFiltered(fullName, atHints, "ignoreUndefined");
          }
        }
        if !ok {
          Warn("Unknown global symbol used: " + fullName, Some(uses[k].at));
        }
        assert uses[..k + 1][..k] == uses[..k];
        k := k + 1;
      }
      assert uses[..k] == uses;
    }

    method FunctionUnusedVars(funcNode: Node, ctx: seq<seq<CommentEntry>>)
      requires HasScope(funcNode)
      modifies this
      ensures reported == old(reported) + UnusedVarWarnings(fileName, ScopeOf(funcNode).vars, AtHints([funcNode.comments] + ctx))
    {
      var vars := ScopeOf(funcNode).vars;
      ghost var hints := AtHints([funcNode.comments] + ctx);
      var i := 0;
      while i < |vars|
        invariant 0 <= i <= |vars|
        invariant reported == old(reported) + UnusedVarWarnings(fileName, vars[..i], hints)
      {
        var v := vars[i];
        if VarUnused(v.binding) {
          var ok := false;
          var atHints := GetAtHints([funcNode.comments] + ctx, None);
          if |atHints| > 0 {
            ok := IsNameLintFiltered(v.name, atHints, "ignoreUnused");
          }
          if !ok {
            Warn("Declared but unused variable or parameter '" + v.name + "'", Some(v.binding.decl[0]));
          }
        }
        assert vars[..i + 1][..i] == vars[..i];
        i := i + 1;
      }
      assert vars[..i] == vars;
    }

    method FunctionMultipleVarDecls(node: Node)
      requires HasScope(node)
      modifies this
      ensures reported == old(reported) + MultipleDeclWarnings(fileName, ScopeOf(node).vars)
    {
      var vars := ScopeOf(node).vars;
      var i := 0;
      while i < |vars|
        invariant 0 <= i <= |vars|
        invariant reported == old(reported) + MultipleDeclWarnings(fileName, vars[..i])
      {
        var v := vars[i];
        assert vars[..i + 1][..i] == vars[..i];
        if MultipleVarDecls(v.binding) {
          var msg := "Multiple declarations of variable '" + v.name + "' (" + ReprIntList(DeclLines(v.binding.decl)) + ")";
          assert Warning(fileName, None, msg) == MultipleDeclWarning(fileName, v);
          Warn(msg, None);
        }
        i := i + 1;
      }
      assert vars[..i] == vars;
    }

    // -------------------------------------------------------------------------
    // Map and loop rules

    method MapUniqueKeys(node: Node)
      modifies this
      ensures reported == old(reported) + DuplicateKeyWarnings(fileName, node.children)
    {
      var entries := node.children;
      var seen: set<Option<string>> := {};
      var i := 0;
      while i < |entries|
        invariant 0 <= i <= |entries|
        invariant seen == KeysOf(entries[..i])
        invariant reported == old(reported) + DuplicateKeyWarnings(fileName, entries[..i])
      {
        var key := Get(entries[i], "key");
        if key in seen {
          Warn("Duplicate use of map key", Some(entries[i].at));
        }
        seen := seen + {key};
        assert entries[..i + 1][..i] == entries[..i];
        KeysOfSnoc(entries[..i + 1]);
        i := i + 1;
      }
      assert entries[..i] == entries;
    }

    method LoopBodyBlock(bodyNode: Node, ctx: seq<seq<CommentEntry>>)
      modifies this
      ensures reported == old(reported) + BodyWarnings(fileName, bodyNode, ctx)
    {
      if FirstOfKind(bodyNode.children, Block).None? {
        var ok := false;
        if ctx != [] {
          var atHints := GetAtHints(ctx, None);
          if |atHints| > 0 && "ignoreNoLoopBlock" in atHints {
            ok := true;
          }
        }
        if !ok {
          Warn("Loop or condition statement without a block as body", Some(bodyNode.at));
        }
      }
    }

    // -------------------------------------------------------------------------
    // Class rules

    method ClassDeclaredPrivates(classMap: Option<ClassMap>)
      modifies this
      ensures reported == old(reported) + ClassPrivateWarnings(fileName, classMap)
    {
      if classMap.None? {
        return;
      }
      GroupDeclaredPrivates(classMap.value.statics);
      GroupDeclaredPrivates(classMap.value.members);
    }

    /** The statics part and the members part of class_declared_privates, on one group. */
    method GroupDeclaredPrivates(group: Option<seq<Feature>>)
      modifies this
      ensures reported == old(reported) + GroupPrivateWarnings(fileName, group)
    {
      if group.None? {
        return;
      }
      var features := group.value;
      var privateKeys := CollectPrivateKeys(features);
      var i := 0;
      while i < |features|
        invariant 0 <= i <= |features|
        invariant reported == old(reported) + FeatureWarnings(fileName, features[..i], privateKeys)
      {
        var val := features[i].value;
        if val.kind.Function? {
          var functionPrivs := FunctionUsesLocalPrivs(val);
          UndeclaredPrivates(functionPrivs, privateKeys);
          AppendAssoc(old(reported), FeatureWarnings(fileName, features[..i], privateKeys),
            PrivWarnings(fileName, functionPrivs, privateKeys));
        }
        assert features[..i + 1][..i] == features[..i];
        i := i + 1;
      }
      assert features[..i] == features;
    }

    /** `for priv, node in function_privs`: warn of each private name the group does not declare. */
    method UndeclaredPrivates(functionPrivs: seq<PrivUse>, privateKeys: set<string>)
      modifies this
      ensures reported == old(reported) + PrivWarnings(fileName, functionPrivs, privateKeys)
    {
      var k := 0;
      while k < |functionPrivs|
        invariant 0 <= k <= |functionPrivs|
        invariant reported == old(reported) + PrivWarnings(fileName, functionPrivs[..k], privateKeys)
      {
        if functionPrivs[k].name !in privateKeys {
          Warn("Using an undeclared private class feature: '" + functionPrivs[k].name + "'", Some(functionPrivs[k].at));
        }
        assert functionPrivs[..k + 1][..k] == functionPrivs[..k];
        k := k + 1;
      }
      assert functionPrivs[..k] == functionPrivs;
    }

    method ClassReferenceFields(classMap: Option<ClassMap>)
      modifies this
      ensures reported == old(reported) + ReferenceFieldWarnings(fileName, classMap)
    {
      if classMap.None? {
        return;
      }
      var members := if classMap.value.members.Some? then classMap.value.members.value else [];
      var i := 0;
      while i < |members|
        invariant 0 <= i <= |members|
        invariant reported == old(reported) + MemberReferenceWarnings(fileName, members[..i])
      {
        var value := members[i].value;
        if value.kind == Map || value.kind == Array || (value.kind == Operation && Get(value, "operator") == Some("NEW")) {
          Warn("Reference values are shared across all instances: '" + members[i].key + "'", Some(value.at));
        }
        assert members[..i + 1][..i] == members[..i];
        i := i + 1;
      }
      assert members[..i] == members;
    }

    // -------------------------------------------------------------------------
    // Environment rules

    method EnvironmentCheckCalls(calls: seq<EnvCall>)
      requires forall e :: e in calls ==> EnvCallWellFormed(e)
      modifies this
      ensures reported == old(reported) + EnvironmentWarnings(fileName, calls)
    {
      var i := 0;
      while i < |calls|
        invariant 0 <= i <= |calls|
        invariant reported == old(reported) + EnvironmentWarnings(fileName, calls[..i])
      {
        assert calls[i] in calls;
        EnvironmentCheckCall(calls[i]);
        AppendAssoc(old(reported), EnvironmentWarnings(fileName, calls[..i]), EnvCallWarnings(fileName, calls[i]));
        assert calls[..i + 1][..i] == calls[..i];
        i := i + 1;
      }
      assert calls[..i] == calls;
    }

    /** One located access: the check chosen by the accessor name, on the node two levels up. */
    method EnvironmentCheckCall(envCall: EnvCall)
      requires EnvCallWellFormed(envCall)
      modifies this
      ensures reported == old(reported) + EnvCallWarnings(fileName, envCall)
    {
      var variantMethod := envCall.accessor;
      var callNode := envCall.call;
      if variantMethod == "select" {
        EnvironmentCheckSelect(callNode);
      } else if variantMethod == "get" {
        EnvironmentCheckGet(callNode);
      } else if variantMethod == "filter" {
        var _ := EnvironmentCheckFilter(callNode);
      }
    }

    method EnvironmentCheckSelect(selectCall: Node)
      requires selectCall.kind == Call ==> HasArguments(selectCall)
      modifies this
      ensures reported == old(reported) + SelectWarnings(fileName, selectCall)
    {
      if selectCall.kind != Call {
        return;
      }
      var params := ArgumentsOf(selectCall);
      if |params| != 2 {
        Warn(SelectArity, Some(selectCall.at));
        return;
      }
      if !IsStringLiteral(params[0]) {
        Warn(SelectKeyNotString, Some(selectCall.at));
        return;
      }
      if params[1].kind != Map {
        Warn(SelectNotMap, Some(selectCall.at));
      }
    }

    method EnvironmentCheckGet(getCall: Node)
      requires HasArguments(getCall)
      modifies this
      ensures reported == old(reported) + GetWarnings(fileName, getCall)
    {
      var params := ArgumentsOf(getCall);
      if |params| != 1 {
        Warn(GetArity, Some(getCall.at));
        return;
      }
      if !IsStringLiteral(params[0]) {
        Warn(GetKeyNotString, Some(getCall.at));
        return;
      }
    }

    method EnvironmentCheckFilter(filterCall: Node) returns (complete: bool)
      requires filterCall.kind == Call ==> HasArguments(filterCall)
      modifies this
      ensures complete == FilterCheck(fileName, filterCall).complete
      ensures reported == old(reported) + FilterCheck(fileName, filterCall).warnings
    {
      complete := false;
      if filterCall.kind != Call {
        return;
      }
      var params := ArgumentsOf(filterCall);
      if |params| != 1 {
        Warn(FilterArity, Some(filterCall.at));
        return;
      }
      if params[0].kind != Map {
        Warn(FilterNotMap, Some(filterCall.at));
        return;
      }
      complete := true;
    }
  }

  /** `set(key for key in group if reg_privs.match(key))`, built one key at a time. */
  method CollectPrivateKeys(group: seq<Feature>) returns (privateKeys: set<string>)
    ensures privateKeys == PrivateKeys(group)
    ensures forall k :: k in privateKeys ==> IsPrivate(k) && exists i :: 0 <= i < |group| && group[i].key == k
  {
    privateKeys := {};
    var i := 0;
    while i < |group|
      invariant 0 <= i <= |group|
      invariant privateKeys == PrivateKeys(group[..i])
    {
      if IsPrivate(group[i].key) {
        privateKeys := privateKeys + {group[i].key};
      }
      assert forall j :: 0 <= j < i ==> group[..i + 1][j] == group[..i][j];
      i := i + 1;
    }
    assert group[..i] == group;
  }

  /** function_uses_local_privs: the (private name, use) pairs in visiting order. */
  method FunctionUsesLocalPrivs(funcNode: Node) returns (functionPrivs: seq<PrivUse>)
    requires funcNode.kind.Function?
    ensures functionPrivs == LocalPrivs(funcNode)
  {
    functionPrivs := [];
    var vars := funcNode.kind.scope.vars;
    var i := 0;
    while i < |vars|
      invariant 0 <= i <= |vars|
      invariant functionPrivs == VarPrivs(vars[..i])
    {
      assert vars[..i + 1][..i] == vars[..i];
      if IsThisAlias(vars[i].name) {
        var found := AliasUsesPrivs(vars[i].binding.uses);
        functionPrivs := functionPrivs + found;
      }
      i := i + 1;
    }
    assert vars[..i] == vars;
  }

  /** The inner loop of function_uses_local_privs, over the uses of one this/that alias. */
  method AliasUsesPrivs(uses: seq<Use>) returns (found: seq<PrivUse>)
    ensures found == AliasUsePrivs(uses)
  {
    found := [];
    var k := 0;
    while k < |uses|
      invariant 0 <= k <= |uses|
      invariant found == AliasUsePrivs(uses[..k])
    {
      assert uses[..k + 1][..k] == uses[..k];
      var nameParts := Split(uses[k].name, '.');
      if |nameParts| > 1 && IsPrivate(nameParts[1]) {
        found := found + [PrivUse(nameParts[1], uses[k].at)];
      }
      k := k + 1;
    }
    assert uses[..k] == uses;
  }

  /** lint_check: visit the root node with no enclosing scope and return the warnings. */
  method LintCheck(node: Node, fileName: string, opts: Options, lang: Lang) returns (warnings: seq<Warning>)
    requires WellFormed(node)
    ensures warnings == LintNode(fileName, opts, lang, node, [])
  {
    var lint := new LintChecker(node, fileName, opts, lang);
    lint.Visit(node, []);
    warnings := lint.reported;
  }
}
