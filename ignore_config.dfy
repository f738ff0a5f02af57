/**
 * The text formats behind the ignore rules and the set they build:
 * the `igsets` file (comma-separated names of remote ignore sets), the
 * `ignores` file (one pattern per line), and the union that
 * `update_ignoracle` hands to the matcher.
 */
module IgnoreConfig {
  import opened Text

  /** Stripped from both ends of the `igsets` text. */
  const IgsetsStripChars: set<char> := {'\r', '\n', '\t', ' ', ','}
  /** Stripped from both ends of the `ignores` text. */
  const LineBreaks: set<char> := {'\r', '\n'}
  /** The remote set whose patterns are filtered. */
  const GlobalSet: string := "global"
  /** Patterns of the `global` set that contain this text are dropped. */
  const ArchiveOrg: string := "archive\\.org"

  /** The names listed in the `igsets` text, in order and with repeats. */
  function ParseIgsets(text: string): seq<string> {
    Split(Strip(text, IgsetsStripChars), ',')
  }

  /** The `igsets` text always lists at least one name, and no name holds a comma. */
  lemma ParseIgsetsNames(text: string)
    ensures var names := ParseIgsets(text);
      names != [] && forall i :: 0 <= i < |names| ==> ',' !in names[i]
  {
    SplitSpec(Strip(text, IgsetsStripChars), ',');
  }

  /**
   * The non-empty lines of the `ignores` text, as a set. The text is what a
   * text-mode `read()` returns, so its line endings are already `\n`.
   */
  function ParseIgnores(text: string): set<string> {
    set line | line in Split(Strip(text, LineBreaks), '\n') && line != ""
  }

  /** Every pattern read from the `ignores` text is non-empty and holds no line feed. */
  lemma ParseIgnoresLines(text: string)
    ensures forall p :: p in ParseIgnores(text) ==> p != "" && '\n' !in p
  {
    SplitSpec(Strip(text, LineBreaks), '\n');
  }

  lemma JoinFirst(parts: seq<string>, sep: char)
    requires parts != [] && parts[0] != []
    ensures Join(parts, sep) != [] && Join(parts, sep)[0] == parts[0][0]
  {
  }

  lemma {:induction false} JoinLast(parts: seq<string>, sep: char)
    requires parts != [] && parts[|parts| - 1] != []
    ensures Join(parts, sep) != []
    ensures Join(parts, sep)[|Join(parts, sep)| - 1] == parts[|parts| - 1][|parts[|parts| - 1]| - 1]
  {
    if |parts| > 1 {
      JoinLast(parts[1..], sep);
    }
  }

  /**
   * Writing names out comma-separated and parsing them back gives the same
   * list, empty names included, as long as the text does not begin or end
   * with a character the parser strips.
   */
  lemma IgsetsRoundTrip(names: seq<string>)
    requires names != []
    requires forall i :: 0 <= i < |names| ==> ',' !in names[i]
    requires names[0] != [] && names[0][0] !in IgsetsStripChars
    requires names[|names| - 1] != [] && names[|names| - 1][|names[|names| - 1]| - 1] !in IgsetsStripChars
    ensures ParseIgsets(Join(names, ',')) == names
  {
    JoinFirst(names, ',');
    JoinLast(names, ',');
    StripUnchanged(Join(names, ','), IgsetsStripChars);
    SplitJoin(names, ',');
  }

  /**
   * An `igsets` text with nothing but stripped characters yields the single
   * name "", which `get_patterns_for_ignore_set` refuses.
   */
  lemma BlankIgsetsYieldEmptyName(text: string)
    requires AllIn(text, IgsetsStripChars)
    ensures ParseIgsets(text) == [""]
  {
    StripAll(text, IgsetsStripChars);
  }

  /** Two commas in a row yield an empty name between them. */
  lemma DoubleCommaYieldsEmptyName()
    ensures ParseIgsets("a,,b") == ["a", "", "b"]
  {
    assert Join(["a", "", "b"], ',') == "a,,b";
    IgsetsRoundTrip(["a", "", "b"]);
  }

  /**
   * Writing distinct-or-not patterns one per line and parsing them back
   * gives the set of those patterns (patterns free of line breaks and non-empty).
   */
  lemma IgnoresRoundTrip(patterns: seq<string>)
    requires forall i :: 0 <= i < |patterns| ==> patterns[i] != "" && '\n' !in patterns[i] && '\r' !in patterns[i]
    ensures ParseIgnores(if patterns == [] then "" else Join(patterns, '\n')) == set p | p in patterns
  {
    if patterns == [] {
      assert Split(Strip("", LineBreaks), '\n') == [""];
    } else {
      var text := Join(patterns, '\n');
      var first, last := patterns[0], patterns[|patterns| - 1];
      assert first[0] in first && last[|last| - 1] in last;
      JoinFirst(patterns, '\n');
      JoinLast(patterns, '\n');
      assert text[0] !in LineBreaks && text[|text| - 1] !in LineBreaks;
      StripUnchanged(text, LineBreaks);
      SplitJoin(patterns, '\n');
      ParsedLines(text, patterns);
    }
  }

  lemma ParsedLines(text: string, lines: seq<string>)
    requires Split(Strip(text, LineBreaks), '\n') == lines
    requires forall i :: 0 <= i < |lines| ==> lines[i] != ""
    ensures ParseIgnores(text) == set p | p in lines
  {
  }

  /** What one named set adds: its patterns, minus those of `global` that mention archive\.org. */
  function Contributed(name: string, patterns: seq<string>): set<string> {
    set p | p in patterns && !(name == GlobalSet && Contains(p, ArchiveOrg))
  }

  /**
   * The ignore patterns after a rebuild: the `ignores` lines, then each
   * listed set's contribution in turn, as the loop of `update_ignoracle`
   * adds them.
   */
  function ActivePatterns(ignores: set<string>, names: seq<string>, cache: map<string, seq<string>>): set<string>
    requires forall i :: 0 <= i < |names| ==> names[i] in cache
  {
    if names == [] then ignores
    else
      var last := names[|names| - 1];
      ActivePatterns(ignores, names[..|names| - 1], cache) + Contributed(last, cache[last])
  }

  /**
   * A pattern is active exactly when it is an `ignores` line or belongs to
   * some listed set, unless that set is `global` and the pattern mentions
   * archive\.org.
   */
  lemma {:induction false} ActivePatternsMembership(ignores: set<string>, names: seq<string>, cache: map<string, seq<string>>, p: string)
    requires forall i :: 0 <= i < |names| ==> names[i] in cache
    ensures p in ActivePatterns(ignores, names, cache) <==>
      p in ignores ||
      exists i :: 0 <= i < |names| && p in cache[names[i]] && !(names[i] == GlobalSet && Contains(p, ArchiveOrg))
  {
    if names != [] {
      var init := names[..|names| - 1];
      ActivePatternsMembership(ignores, init, cache, p);
      if p in ActivePatterns(ignores, names, cache) && p !in ignores {
        if p in ActivePatterns(ignores, init, cache) {
          var i :| 0 <= i < |init| && p in cache[init[i]] && !(init[i] == GlobalSet && Contains(p, ArchiveOrg));
          assert names[i] == init[i];
        } else {
          assert p in cache[names[|names| - 1]];
        }
      }
      if exists i :: 0 <= i < |names| && p in cache[names[i]] && !(names[i] == GlobalSet && Contains(p, ArchiveOrg)) {
        var i :| 0 <= i < |names| && p in cache[names[i]] && !(names[i] == GlobalSet && Contains(p, ArchiveOrg));
        if i < |init| {
          assert init[i] == names[i];
        }
      }
    }
  }

  /** Adding cache entries for other names does not change the active set. */
  lemma {:induction false} ActivePatternsCacheGrowth(ignores: set<string>, names: seq<string>, c1: map<string, seq<string>>, c2: map<string, seq<string>>)
    requires forall i :: 0 <= i < |names| ==> names[i] in c1
    requires forall n :: n in c1 ==> n in c2 && c2[n] == c1[n]
    ensures ActivePatterns(ignores, names, c1) == ActivePatterns(ignores, names, c2)
  {
    if names != [] {
      ActivePatternsCacheGrowth(ignores, names[..|names| - 1], c1, c2);
    }
  }
}
