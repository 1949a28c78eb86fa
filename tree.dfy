/**
 * The syntax tree with scopes that the lint pass reads. Everything here is
 * built by collaborators before linting (the parser, the scope builder,
 * Comment.parseNode, treeutil.getClassMap, treeutil.findQxDefineR,
 * variantoptimizer.findVariantNodes) and only read afterwards.
 */
module Tree {
  import opened Wrappers
  import opened Hints

  /** The `line` and `column` attributes of a node; either may be absent. */
  datatype Loc = Loc(line: Option<int>, column: Option<int>)

  /**
   * A use site of a name. `name` is treeutil.assembleVariable(use)[0] and
   * `rootName` is treeutil.assembleVariable(treeutil.findVarRoot(use))[0],
   * the dotted name of the whole variable expression the use belongs to.
   */
  datatype Use = Use(name: string, rootName: string, at: Loc)

  /** A scope variable: its declaration sites and its use sites, in order. */
  datatype Binding = Binding(decl: seq<Loc>, uses: seq<Use>)

  datatype Var = Var(name: string, binding: Binding)

  /**
   * A Scope: `vars` are the locally declared bindings and `globals` the view
   * scope.globals() gives of the free ones, each in the iteration order of the
   * dictionary the scope builder produced.
   */
  datatype Scope = Scope(vars: seq<Var>, globals: seq<Var>)

  /** One entry of a class map group: feature name and its value node. */
  datatype Feature = Feature(key: string, value: Node)

  /** treeutil.getClassMap: the `statics` and `members` groups, either of which may be missing. */
  datatype ClassMap = ClassMap(statics: Option<seq<Feature>>, members: Option<seq<Feature>>)

  /**
   * A located qx.core.Environment access: the accessor name taken from the
   * end of its dotted text, and the node two levels up (`../..`), which is
   * the call when the access is called.
   */
  datatype EnvCall = EnvCall(accessor: string, call: Node)

  /**
   * Node categories. The scope-bearing ones carry their Scope; a file node
   * also carries what the collaborators found in it: one class map per
   * class definition (None when getClassMap raised NodeAccessException) and
   * the Environment accesses.
   */
  datatype Kind =
    | File(scope: Scope, classDefs: seq<Option<ClassMap>>, envCalls: seq<EnvCall>)
    | Function(scope: Scope)
    | Map
    | Loop
    | Body
    | Block
    | KeyValue
    | Call
    | Arguments
    | Array
    | Operation
    | Constant
    | Other(typeName: string)

  /** A tree node: category, children, location, string attributes, and the hint records of its comments. */
  datatype Node = Node(kind: Kind, children: seq<Node>, at: Loc, attrs: map<string, string>, comments: seq<CommentEntry>)

  /** node.get(key) for a string attribute. */
  function Get(n: Node, key: string): Option<string> {
    if key in n.attrs then Some(n.attrs[key]) else None
  }

  predicate HasScope(n: Node) {
    n.kind.File? || n.kind.Function?
  }

  function ScopeOf(n: Node): Scope
    requires HasScope(n)
  {
    n.kind.scope
  }

  /** node.getChild(kind, False): the first child of that category, if any. */
  function FirstOfKind(cs: seq<Node>, k: Kind): (r: Option<Node>)
    ensures r.Some? ==> r.value in cs && r.value.kind == k
    ensures r.None? <==> forall c :: c in cs ==> c.kind != k
    ensures r.Some? ==> exists i :: 0 <= i < |cs| && cs[i] == r.value && forall j :: 0 <= j < i ==> cs[j].kind != k
  {
    if cs == [] then None
    else if cs[0].kind == k then Some(cs[0])
    else
      var r := FirstOfKind(cs[1..], k);
      assert forall c :: c in cs[1..] ==> c in cs;
      assert forall j :: 1 <= j < |cs| ==> cs[j] == cs[1..][j - 1];
      r
  }

  predicate HasArguments(n: Node) {
    FirstOfKind(n.children, Arguments).Some?
  }

  /** `node.getChild("arguments").children` */
  function ArgumentsOf(n: Node): seq<Node>
    requires HasArguments(n)
  {
    FirstOfKind(n.children, Arguments).value.children
  }

  /**
   * The reading of treeutil.isStringLiteral assumed here (its code is not part
   * of this model): a constant node whose `constantType` is `string`.
   */
  predicate IsStringLiteral(n: Node) {
    n.kind == Constant && Get(n, "constantType") == Some("string")
  }

  /** The Environment checks can read the arguments: select and filter of a call, get of any node. */
  predicate EnvCallWellFormed(e: EnvCall) {
    (e.accessor == "get" || e.call.kind == Call) ==> HasArguments(e.call)
  }

  /**
   * What the lint pass takes for granted of its input because it would raise
   * otherwise: every loop has a `body` child and the Environment checks find
   * the `arguments` child they read.
   */
  predicate WellFormed(n: Node)
    decreases n
  {
    (n.kind == Loop ==> FirstOfKind(n.children, Body).Some?) &&
    (n.kind.File? ==> forall e :: e in n.kind.envCalls ==> EnvCallWellFormed(e)) &&
    forall c :: c in n.children ==> WellFormed(c)
  }
}
