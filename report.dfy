/** The module-level `warn`: a warning record and the two text forms it is printed in. */
module Report {
  import opened Wrappers
  import opened Text
  import opened Tree

  /** One call of warn(msg, fname, node); `at` is None when warn got no node. */
  datatype Warning = Warning(file: string, at: Option<Loc>, msg: string)

  /** `"%s" % value` of an attribute that may be None. */
  function ShowAttr(v: Option<int>): (s: string)
    ensures s == "None" <==> v.None?
  {
    if v.None? then "None" else IntToString(v.value)
  }

  /** The line warn emits: `"%s (%s,%s): %s"` with a node, `"%s: %s"` without. */
  function Format(w: Warning): (s: string)
    ensures StartsWith(s, w.file)
    ensures |s| >= |w.msg| + 2 && s[|s| - |w.msg| - 2..] == ": " + w.msg
    ensures w.at.None? <==> s == w.file + ": " + w.msg
  {
    if w.at.Some? then
      var loc := w.at.value;
      var shown := ShowAttr(loc.line);
      var s := w.file + " (" + shown + "," + ShowAttr(loc.column) + "): " + w.msg;
      assert s[..|w.file|] == w.file;
      assert s[|s| - |w.msg| - 2..] == ": " + w.msg;
      assert |s| > |w.file + ": " + w.msg|;
      s
    else
      var s := w.file + ": " + w.msg;
      assert s[..|w.file|] == w.file;
      assert s[|s| - |w.msg| - 2..] == ": " + w.msg;
      s
  }

  /** warn(msg, fname, node) for a node. */
  function NodeWarning(file: string, n: Node, msg: string): Warning {
    Warning(file, Some(n.at), msg)
  }

  /** Warnings reported in sequence: appending is associative. */
  lemma AppendAssoc(a: seq<Warning>, b: seq<Warning>, c: seq<Warning>)
    ensures (a + b) + c == a + (b + c)
  {
  }
}
