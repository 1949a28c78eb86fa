/**
 * Concrete lint inputs shaped after qx/ui/tree/Tree.js of the qooxdoo
 * framework, with the warnings the rules give for them.
 */
module Scenarios {
  import opened Wrappers
  import opened Hints
  import opened Tree
  import opened Report
  import opened Classifier
  import opened Rules

  const TreeJs := "qx/ui/tree/Tree.js"

  function At(line: int, column: int): Loc {
    Loc(Some(line), Some(column))
  }

  /** A `key : value` entry of an object literal. */
  function Entry(key: string, line: int): Node {
    Node(KeyValue, [], At(line, 7), map["key" := key], [])
  }

  /** The map passed to `.set(...)` in the constructor (Tree.js lines 60-64). */
  function ContentOptions(): seq<Node> {
    [Entry("layout", 61), Entry("allowShrinkY", 62), Entry("allowGrowY", 63), Entry("allowShrinkY", 64)]
  }

  /** The second `allowShrinkY`, and only it, is reported. */
  lemma RepeatedKeyReportedOnce()
    ensures DuplicateKeyWarnings(TreeJs, ContentOptions()) == [Warning(TreeJs, Some(At(64, 7)), "Duplicate use of map key")]
  {
    var es := ContentOptions();
    DuplicateKeyWarningsAt(TreeJs, es);
    DuplicateKeyCount(es);
    assert KeysOf(es) == {Some("layout"), Some("allowShrinkY"), Some("allowGrowY")} by {
      assert KeyOf(es[0]) == Some("layout");
      assert KeyOf(es[1]) == Some("allowShrinkY");
      assert KeyOf(es[2]) == Some("allowGrowY");
      assert KeyOf(es[3]) == Some("allowShrinkY");
    }
    var ds := DuplicateKeyIndices(es);
    assert |ds| == 1;
    DuplicateKeyIndicesExactly(es, 3);
    assert es[..3] == [es[0], es[1], es[2]];
    assert KeyOf(es[3]) in KeysOf(es[..3]);
    assert ds[0] in ds;
    DuplicateKeyIndicesExactly(es, ds[0]);
    assert ds[0] == 3;
  }

  /** `layut.remove(old)` (Tree.js line 207): a free name no configuration knows. */
  function Layut(): Var {
    Var("layut", Binding([], [Use("layut.remove", "layut.remove", At(207, 9))]))
  }

  const NoLibraries := Options([], [], [])
  const NoBuiltins := Lang({}, {})

  lemma MistypedGlobalReported()
    ensures UnknownGlobalWarnings(TreeJs, NoLibraries, NoBuiltins, [Layut()], map[]) ==
      [Warning(TreeJs, Some(At(207, 9)), "Unknown global symbol used: layut.remove")]
  {
    var u := Layut().binding.uses[0];
    assert !KnownOrIgnored(NoLibraries, u, map[]) by {
      assert NoLibraries.libraryClasses + NoLibraries.classNamespaces == [];
      assert Longest(u.rootName, []) == "";
    }
    assert u.rootName == "layut.remove" && u.at == At(207, 9);
    assert "Unknown global symbol used: " + u.rootName == "Unknown global symbol used: layut.remove";
    var ws := [UnknownGlobalWarning(TreeJs, u)];
    assert ws == [Warning(TreeJs, Some(At(207, 9)), "Unknown global symbol used: layut.remove")];
    assert UnknownUseWarnings(TreeJs, NoLibraries, [u], map[]) == ws by {
      assert [u][..0] == [];
    }
    assert !SkippedGlobal(NoLibraries, NoBuiltins, "layut");
    assert UnknownVarWarnings(TreeJs, NoLibraries, NoBuiltins, Layut(), map[]) == ws;
    assert UnknownGlobalWarnings(TreeJs, NoLibraries, NoBuiltins, [Layut()], map[]) == ws by {
      assert [Layut()][..0] == [];
    }
  }

  /** `openMode = this.getOpenMode()` (Tree.js line 540): an implicit global. */
  function OpenMode(): Var {
    Var("openMode", Binding([], [Use("openMode", "openMode", At(540, 7))]))
  }

  /** An `@lint ignoreUndefined(openMode)` hint silences the implicit global. */
  lemma IgnoredGlobalSilenced()
    ensures UnknownGlobalWarnings(TreeJs, NoLibraries, NoBuiltins, [OpenMode()], map["ignoreUndefined" := {"openMode"}]) == []
  {
    var hints := map["ignoreUndefined" := {"openMode"}];
    NameFiltersItself("openMode", hints, "ignoreUndefined");
    assert KnownOrIgnored(NoLibraries, OpenMode().binding.uses[0], hints);
    assert [OpenMode()][..0] == [];
    assert OpenMode().binding.uses[..0] == [];
  }

  /** `setScrollTop : function(scroll) { return; }` (Tree.js line 407): an unused parameter. */
  function Scroll(): Var {
    Var("scroll", Binding([At(407, 28)], []))
  }

  lemma UnusedParameterReported()
    ensures UnusedVarWarnings(TreeJs, [Scroll()], map[]) ==
      [Warning(TreeJs, Some(At(407, 28)), "Declared but unused variable or parameter 'scroll'")]
  {
    assert !IsNameLintFiltered("scroll", map[], "ignoreUnused");
    assert [Scroll()][..0] == [];
    assert UnusedWarning(TreeJs, Scroll()).msg == "Declared but unused variable or parameter 'scroll'";
  }
}
