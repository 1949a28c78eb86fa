/**
 * The suppression resolver: `@lint functor(pattern, ...)` comment hints,
 * their merge along the chain of enclosing scopes (get_at_hints) and the
 * test whether a name is exempted under a functor (is_name_lint_filtered).
 */
module Hints {
  import opened Wrappers
  import opened Text

  /** One record of Comment.parseNode: `{category, functor, arguments}`. */
  datatype CommentEntry = CommentEntry(category: string, functor: string, arguments: seq<Pattern>)

  /**
   * The `at_hints['lint']` part of get_at_hints' result: functor to the set
   * of its patterns. A functor seen with no arguments maps to the empty set.
   * get_at_hints only ever fills the 'lint' category, and `at_hints['lint']`
   * exists exactly when some functor does, so this map is the whole result.
   */
  type LintHints = map<string, set<Pattern>>

  // ---------------------------------------------------------------------------
  // Name matching: re.match(pattern + r"\b", name)

  /** One pattern character against one name character; '.' is the regex wildcard, which skips '\n'. */
  predicate CharMatches(p: char, c: char) {
    if p == '.' then c != '\n' else p == c
  }

  /** `re.match(r"%s\b" % p, name)` for a simple pattern p. */
  predicate PatternMatches(p: Pattern, name: string) {
    |p| <= |name| &&
    (forall i :: 0 <= i < |p| ==> CharMatches(p[i], name[i])) &&
    WordBoundary(name, |p|)
  }

  /** is_name_lint_filtered(name, hints, filterKey) */
  predicate IsNameLintFiltered(name: string, hints: LintHints, filterKey: string) {
    filterKey in hints && exists p :: p in hints[filterKey] && PatternMatches(p, name)
  }

  /** A pattern without '.' matches exactly the names it is a prefix of at a word boundary. */
  lemma LiteralPatternMatches(p: Pattern, name: string)
    requires '.' !in p
    ensures PatternMatches(p, name) <==> StartsWith(name, p) && WordBoundary(name, |p|)
  {
    if StartsWith(name, p) {
      assert forall i :: 0 <= i < |p| ==> name[i] == name[..|p|][i];
    }
    if PatternMatches(p, name) {
      forall i | 0 <= i < |p| ensures name[..|p|][i] == p[i] {
        assert p[i] in p;
      }
    }
  }

  /**
   * A name made of word characters and dots that ends in a word character is
   * exempted by a hint that lists the name itself.
   */
  lemma NameFiltersItself(name: Pattern, hints: LintHints, filterKey: string)
    requires |name| > 0 && IsWordChar(name[|name| - 1])
    requires filterKey in hints && name in hints[filterKey]
    ensures IsNameLintFiltered(name, hints, filterKey)
  {
    assert CharMatches('.', '.');
    assert forall i :: 0 <= i < |name| ==> CharMatches(name[i], name[i]);
    assert PatternMatches(name, name);
  }

  // ---------------------------------------------------------------------------
  // Merging hints along the scope chain

  predicate Has(h: LintHints, functor: string, p: Pattern) {
    functor in h && p in h[functor]
  }

  /** h is contained in h', functor by functor. */
  predicate SubHints(h: LintHints, h': LintHints) {
    forall f :: f in h ==> f in h' && h[f] <= h'[f]
  }

  function ArgSet(args: seq<Pattern>): set<Pattern> {
    set a | a in args
  }

  /** The effect of one comment record on `at_hints`. */
  function AddEntry(h: LintHints, e: CommentEntry): (r: LintHints)
    ensures SubHints(h, r)
    ensures e.category == "lint" ==> e.functor in r && ArgSet(e.arguments) <= r[e.functor]
    ensures forall f :: f in r && !(e.category == "lint" && f == e.functor) ==> f in h && r[f] == h[f]
  {
    if e.category != "lint" then h
    else h[e.functor := (if e.functor in h then h[e.functor] else {}) + ArgSet(e.arguments)]
  }

  /** The records of one node, processed in order. */
  function AddEntries(h: LintHints, es: seq<CommentEntry>): (r: LintHints)
    ensures SubHints(h, r)
    decreases |es|
  {
    if es == [] then h else AddEntry(AddEntries(h, es[..|es| - 1]), es[|es| - 1])
  }

  /**
   * get_at_hints(node, h): chain[0] holds the records of the node itself and
   * chain[1..] those of the enclosing scopes' nodes, innermost first.
   */
  function MergeInto(h: LintHints, chain: seq<seq<CommentEntry>>): (r: LintHints)
    ensures SubHints(h, r)
    decreases |chain|
  {
    if chain == [] then h else MergeInto(AddEntries(h, chain[0]), chain[1..])
  }

  /** get_at_hints(node) with a fresh accumulator. */
  function AtHints(chain: seq<seq<CommentEntry>>): LintHints {
    MergeInto(map[], chain)
  }

  /** Some record of es is a lint hint for the functor. */
  predicate Declares(es: seq<CommentEntry>, functor: string) {
    exists j :: 0 <= j < |es| && es[j].category == "lint" && es[j].functor == functor
  }

  /** Some record of es is a lint hint for the functor that lists p. */
  predicate Grants(es: seq<CommentEntry>, functor: string, p: Pattern) {
    exists j :: 0 <= j < |es| && es[j].category == "lint" && es[j].functor == functor && p in es[j].arguments
  }

  lemma {:induction false} AddEntriesExactly(h: LintHints, es: seq<CommentEntry>, f: string, p: Pattern)
    ensures f in AddEntries(h, es) <==> f in h || Declares(es, f)
    ensures Has(AddEntries(h, es), f, p) <==> Has(h, f, p) || Grants(es, f, p)
    decreases |es|
  {
    if es != [] {
      var init := es[..|es| - 1];
      var e := es[|es| - 1];
      AddEntriesExactly(h, init, f, p);
      assert forall j :: 0 <= j < |init| ==> es[j] == init[j];
      if Declares(es, f) && !Declares(init, f) {
        var j :| 0 <= j < |es| && es[j].category == "lint" && es[j].functor == f;
        assert j == |es| - 1;
      }
      if Grants(es, f, p) && !Grants(init, f, p) {
        var j :| 0 <= j < |es| && es[j].category == "lint" && es[j].functor == f && p in es[j].arguments;
        assert j == |es| - 1;
      }
    }
  }

  /**
   * The merged hints hold a functor exactly when the accumulator or some
   * `category=='lint'` record along the chain names it (with any or no
   * arguments), and a pattern for it exactly when the accumulator or some such
   * record lists that pattern: the merge is the union per functor.
   */
  lemma {:induction false} MergeExactly(h: LintHints, chain: seq<seq<CommentEntry>>, f: string, p: Pattern)
    ensures f in MergeInto(h, chain) <==>
      f in h || exists i :: 0 <= i < |chain| && Declares(chain[i], f)
    ensures Has(MergeInto(h, chain), f, p) <==>
      Has(h, f, p) || exists i :: 0 <= i < |chain| && Grants(chain[i], f, p)
    decreases |chain|
  {
    if chain != [] {
      var h' := AddEntries(h, chain[0]);
      AddEntriesExactly(h, chain[0], f, p);
      MergeExactly(h', chain[1..], f, p);
      assert forall i :: 1 <= i < |chain| ==> chain[i] == chain[1..][i - 1];
      if exists i :: 0 <= i < |chain[1..]| && Declares(chain[1..][i], f) {
        var i :| 0 <= i < |chain[1..]| && Declares(chain[1..][i], f);
        assert Declares(chain[i + 1], f);
      }
      if exists i :: 0 <= i < |chain[1..]| && Grants(chain[1..][i], f, p) {
        var i :| 0 <= i < |chain[1..]| && Grants(chain[1..][i], f, p);
        assert Grants(chain[i + 1], f, p);
      }
    }
  }

  /** The special case of a fresh accumulator. */
  lemma AtHintsExactly(chain: seq<seq<CommentEntry>>, f: string, p: Pattern)
    ensures f in AtHints(chain) <==> exists i :: 0 <= i < |chain| && Declares(chain[i], f)
    ensures Has(AtHints(chain), f, p) <==> exists i :: 0 <= i < |chain| && Grants(chain[i], f, p)
  {
    MergeExactly(map[], chain, f, p);
  }

  /**
   * Hints of the enclosing scopes are never removed: whatever the outer chain
   * grants, the chain extended by inner nodes grants as well.
   */
  lemma OuterHintsInherited(inner: seq<seq<CommentEntry>>, outer: seq<seq<CommentEntry>>)
    ensures SubHints(AtHints(outer), AtHints(inner + outer))
  {
    var ho, hio := AtHints(outer), AtHints(inner + outer);
    forall f | f in ho ensures f in hio && ho[f] <= hio[f] {
      AtHintsExactly(outer, f, "");
      var i :| 0 <= i < |outer| && Declares(outer[i], f);
      assert (inner + outer)[|inner| + i] == outer[i];
      AtHintsExactly(inner + outer, f, "");
      forall p | p in ho[f] ensures p in hio[f] {
        AtHintsExactly(outer, f, p);
        var i' :| 0 <= i' < |outer| && Grants(outer[i'], f, p);
        assert (inner + outer)[|inner| + i'] == outer[i'];
        AtHintsExactly(inner + outer, f, p);
      }
    }
  }

  /** An exemption granted by the enclosing scopes holds in every scope nested in them. */
  lemma FilteredInherited(name: string, inner: seq<seq<CommentEntry>>, outer: seq<seq<CommentEntry>>, filterKey: string)
    requires IsNameLintFiltered(name, AtHints(outer), filterKey)
    ensures IsNameLintFiltered(name, AtHints(inner + outer), filterKey)
  {
    OuterHintsInherited(inner, outer);
    var p :| p in AtHints(outer)[filterKey] && PatternMatches(p, name);
    assert p in AtHints(inner + outer)[filterKey];
  }

  /** The imperative get_at_hints: one loop over the node's records, then the recursion outward. */
  method GetAtHints(chain: seq<seq<CommentEntry>>, atHints: Option<LintHints>) returns (r: LintHints)
    requires |chain| >= 1
    ensures r == MergeInto(if atHints.Some? then atHints.value else map[], chain)
    decreases |chain|
  {
    var start: LintHints := if atHints.None? then map[] else atHints.value;
    var hints := start;
    var entries := chain[0];
    var i := 0;
    while i < |entries|
      invariant 0 <= i <= |entries|
      invariant hints == AddEntries(start, entries[..i])
    {
      var entry := entries[i];
      if entry.category == "lint" {
        var functor := entry.functor;
        if functor !in hints {
          hints := hints[functor := {}];
        }
        hints := hints[functor := hints[functor] + ArgSet(entry.arguments)];
      }
      assert entries[..i + 1][..i] == entries[..i];
      i := i + 1;
    }
    assert entries[..i] == entries;
    if |chain| > 1 {
      hints := GetAtHints(chain[1..], Some(hints));
    }
    r := hints;
  }
}
