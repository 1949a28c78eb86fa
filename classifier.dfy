/**
 * The name classifier extension_match_in: is a dotted name one of the known
 * classes or namespaces, or a dot-exact extension of one of them, and which?
 */
module Classifier {
  import opened Text

  /**
   * `name.startswith(e) and re.match(r'%s\b' % e, name)`: e is a literal
   * prefix of name followed by a word boundary. (With e a simple pattern and
   * a literal prefix, the regular expression matches exactly those |e|
   * characters, so the boundary is all it adds.)
   */
  predicate ExtensionOf(name: string, e: string) {
    StartsWith(name, e) && WordBoundary(name, |e|)
  }

  /** The loop of extension_match_in: the first strictly longest matching entry, or "". */
  function Longest(name: string, names: seq<Pattern>): (r: string)
    ensures r == "" || (r in names && ExtensionOf(name, r))
    decreases |names|
  {
    if names == [] then ""
    else
      var r := Longest(name, names[..|names| - 1]);
      var e := names[|names| - 1];
      if ExtensionOf(name, e) && |e| > |r| then e else r
  }

  /** extension_match_in(name, names); "" stands for no match. */
  function ExtensionMatch(name: string, names: seq<Pattern>): (r: string)
    ensures r == "" || r in names
    ensures r != "" && r != name ==> '.' in name && ExtensionOf(name, r)
  {
    if name in names then name
    else if '.' in name then Longest(name, names)
    else ""
  }

  /**
   * Longest picks the earliest entry of maximal length among the entries name
   * extends, and gives "" only when no non-empty entry is extended.
   */
  lemma {:induction false} LongestIsFirstLongest(name: string, names: seq<Pattern>)
    ensures var r := Longest(name, names);
      (forall e :: e in names && ExtensionOf(name, e) ==> |e| <= |r|) &&
      (r != "" ==> exists k :: 0 <= k < |names| && names[k] == r && ExtensionOf(name, r) &&
                     forall j :: 0 <= j < k && ExtensionOf(name, names[j]) ==> |names[j]| < |r|)
    decreases |names|
  {
    if names != [] {
      var init := names[..|names| - 1];
      var e := names[|names| - 1];
      LongestIsFirstLongest(name, init);
      var r0 := Longest(name, init);
      assert forall j :: 0 <= j < |init| ==> names[j] == init[j];
      assert forall x :: x in names ==> x in init || x == e;
      if ExtensionOf(name, e) && |e| > |r0| {
        assert Longest(name, names) == e;
        forall j | 0 <= j < |names| - 1 && ExtensionOf(name, names[j]) ensures |names[j]| < |e| {
          assert names[j] in init;
        }
      } else if r0 != "" {
        var k :| 0 <= k < |init| && init[k] == r0 && ExtensionOf(name, r0) &&
                 forall j :: 0 <= j < k && ExtensionOf(name, init[j]) ==> |init[j]| < |r0|;
        assert names[k] == r0;
      }
    }
  }

  /**
   * extension_match_in returns the name itself when it is listed; otherwise
   * nothing unless the name contains a dot; and then the first longest entry
   * that the name extends at a word boundary, or "" when there is none.
   */
  lemma ExtensionMatchCharacterized(name: string, names: seq<Pattern>)
    ensures name in names ==> ExtensionMatch(name, names) == name
    ensures name !in names && '.' !in name ==> ExtensionMatch(name, names) == ""
    ensures name !in names && '.' in name ==>
      var r := ExtensionMatch(name, names);
      (forall e :: e in names && ExtensionOf(name, e) ==> |e| <= |r|) &&
      (r != "" ==> exists k :: 0 <= k < |names| && names[k] == r && ExtensionOf(name, r) &&
                     forall j :: 0 <= j < k && ExtensionOf(name, names[j]) ==> |names[j]| < |r|)
  {
    LongestIsFirstLongest(name, names);
  }

  /** For an entry ending in a word character the boundary means: the name ends there or goes on with a non-word character. */
  lemma BoundaryAfterWordChar(name: string, e: string)
    requires |e| > 0 && IsWordChar(e[|e| - 1])
    ensures ExtensionOf(name, e) <==> StartsWith(name, e) && (|name| == |e| || !IsWordChar(name[|e|]))
  {
    if StartsWith(name, e) {
      assert name[|e| - 1] == name[..|e|][|e| - 1];
    }
  }

  /** The loop of extension_match_in, updating res_name. */
  method ExtensionMatchIn(name: string, nameList: seq<Pattern>) returns (resName: string)
    ensures resName == ExtensionMatch(name, nameList)
  {
    resName := "";
    if name in nameList {
      resName := name;
    } else if '.' in name {
      var i := 0;
      while i < |nameList|
        invariant 0 <= i <= |nameList|
        invariant resName == Longest(name, nameList[..i])
      {
        var listName := nameList[i];
        if StartsWith(name, listName) && WordBoundary(name, |listName|) {
          if |listName| > |resName| {
            resName := listName;
          }
        }
        assert nameList[..i + 1][..i] == nameList[..i];
        i := i + 1;
      }
      assert nameList[..i] == nameList;
    }
  }

  /** With "foo.bar" known, "foo.bar.baz" is classified as "foo.bar" and "foo.barqux" is not classified. */
  lemma FooBarExamples()
    ensures ExtensionMatch("foo.bar.baz", ["foo.bar"]) == "foo.bar"
    ensures ExtensionMatch("foo.barqux", ["foo.bar"]) == ""
  {
    assert "foo.bar.baz"[3] == '.';
    assert "foo.bar.baz"[..7] == "foo.bar";
    assert ["foo.bar"][..0] == [];
    assert "foo.barqux"[3] == '.';
    assert "foo.barqux"[..7] == "foo.bar";
    assert IsWordAt("foo.barqux", 7);
  }
}
