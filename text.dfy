/**
 * The few Python string operations the hooks use: `str.strip(chars)`,
 * `str.split(sep)` with a one-character separator, `str.startswith`, the
 * substring test `sub in s`, and ASCII case-insensitive prefix matching
 * (what an anchored `re.match` of a literal under `re.IGNORECASE` does
 * on ASCII text).
 */
module Text {

  predicate StartsWith(s: string, prefix: string) {
    |prefix| <= |s| && s[..|prefix|] == prefix
  }

  /** Python's `sub in s` on strings. */
  predicate Contains(s: string, sub: string) {
    exists i :: 0 <= i <= |s| && StartsWith(s[i..], sub)
  }

  predicate AllIn(s: string, cs: set<char>) {
    forall i :: 0 <= i < |s| ==> s[i] in cs
  }

  /** Python's `s.lstrip(chars)`: drops the longest prefix made of `cs`. */
  function LStrip(s: string, cs: set<char>): string {
    if s != [] && s[0] in cs then LStrip(s[1..], cs) else s
  }

  /** What `LStrip` leaves is a suffix of `s` that does not start with a character of `cs`, and what it drops is made of `cs`. */
  lemma {:induction false} LStripSpec(s: string, cs: set<char>)
    ensures var r := LStrip(s, cs);
      |r| <= |s| && r == s[|s| - |r|..] && (r == [] || r[0] !in cs) && AllIn(s[..|s| - |r|], cs)
  {
    if s != [] && s[0] in cs {
      LStripSpec(s[1..], cs);
      var r := LStrip(s, cs);
      assert s[..|s| - |r|] == [s[0]] + s[1..][..|s| - 1 - |r|];
    }
  }

  /** Python's `s.rstrip(chars)`: drops the longest suffix made of `cs`. */
  function RStrip(s: string, cs: set<char>): string {
    if s != [] && s[|s| - 1] in cs then RStrip(s[..|s| - 1], cs) else s
  }

  /** What `RStrip` leaves is a prefix of `s` that does not end with a character of `cs`, and what it drops is made of `cs`. */
  lemma {:induction false} RStripSpec(s: string, cs: set<char>)
    ensures var r := RStrip(s, cs);
      |r| <= |s| && r == s[..|r|] && (r == [] || r[|r| - 1] !in cs) && AllIn(s[|r|..], cs)
  {
    if s != [] && s[|s| - 1] in cs {
      RStripSpec(s[..|s| - 1], cs);
      var r := RStrip(s, cs);
      assert s[|r|..] == s[..|s| - 1][|r|..] + [s[|s| - 1]];
    }
  }

  /** Python's `s.strip(chars)`. */
  function Strip(s: string, cs: set<char>): string {
    RStrip(LStrip(s, cs), cs)
  }

  /**
   * The result of `Strip` is a slice of `s` that neither starts nor ends
   * with a character of `cs`, and everything cut off on either side is
   * made of `cs`.
   */
  lemma StripSpec(s: string, cs: set<char>)
    ensures var r := Strip(s, cs);
      (r == [] || (r[0] !in cs && r[|r| - 1] !in cs)) &&
      exists k :: 0 <= k <= |s| - |r| && r == s[k..k + |r|] && AllIn(s[..k], cs) && AllIn(s[k + |r|..], cs)
  {
    var l := LStrip(s, cs);
    var r := RStrip(l, cs);
    LStripSpec(s, cs);
    RStripSpec(l, cs);
    var k := |s| - |l|;
    assert r == s[k..k + |r|];
    assert s[k + |r|..] == l[|r|..];
  }

  /** Stripping a string that neither starts nor ends with a stripped character changes nothing. */
  lemma StripUnchanged(s: string, cs: set<char>)
    requires s == [] || (s[0] !in cs && s[|s| - 1] !in cs)
    ensures Strip(s, cs) == s
  {
    assert LStrip(s, cs) == s;
    assert RStrip(s, cs) == s;
  }

  /** A string made only of stripped characters strips to nothing. */
  lemma {:induction false} StripAll(s: string, cs: set<char>)
    requires AllIn(s, cs)
    ensures Strip(s, cs) == []
  {
    if s != [] {
      assert AllIn(s[1..], cs) by {
        forall i | 0 <= i < |s| - 1 ensures s[1..][i] in cs {
          assert s[1..][i] == s[i + 1];
        }
      }
      StripAll(s[1..], cs);
    }
  }

  /** The index of the first occurrence of `c` in `s`. */
  function IndexOf(s: string, c: char): (i: nat)
    requires c in s
    ensures i < |s| && s[i] == c && c !in s[..i]
  {
    if s[0] == c then 0 else 1 + IndexOf(s[1..], c)
  }

  /** Python's `sep.join(parts)` for a one-character separator. */
  function Join(parts: seq<string>, sep: char): string
    requires parts != []
  {
    if |parts| == 1 then parts[0] else parts[0] + [sep] + Join(parts[1..], sep)
  }

  /** Python's `s.split(sep)` for a one-character separator. */
  function Split(s: string, sep: char): seq<string>
    decreases |s|
  {
    if sep !in s then [s]
    else
      var i := IndexOf(s, sep);
      [s[..i]] + Split(s[i + 1..], sep)
  }

  /**
   * `Split` gives at least one piece (`"".split(",") == [""]`), no piece
   * holds the separator, and joining the pieces back gives `s`.
   */
  lemma {:induction false} SplitSpec(s: string, sep: char)
    decreases |s|
    ensures var r := Split(s, sep);
      r != [] && (forall i :: 0 <= i < |r| ==> sep !in r[i]) && Join(r, sep) == s
  {
    if sep in s {
      var i := IndexOf(s, sep);
      var rest := Split(s[i + 1..], sep);
      SplitSpec(s[i + 1..], sep);
      var r := [s[..i]] + rest;
      assert r[1..] == rest;
      assert s == s[..i] + [sep] + s[i + 1..];
    }
  }

  /** The first separator of a joined string is the one after the first piece. */
  lemma IndexOfJoined(a: string, sep: char, b: string)
    requires sep !in a
    ensures IndexOf(a + [sep] + b, sep) == |a|
  {
    var s := a + [sep] + b;
    assert s[|a|] == sep;
  }

  /** Splitting undoes joining when no piece holds the separator. */
  lemma {:induction false} SplitJoin(parts: seq<string>, sep: char)
    requires parts != []
    requires forall i :: 0 <= i < |parts| ==> sep !in parts[i]
    ensures Split(Join(parts, sep), sep) == parts
  {
    if |parts| > 1 {
      var tail := Join(parts[1..], sep);
      var s := parts[0] + [sep] + tail;
      assert s[|parts[0]|] == sep;
      IndexOfJoined(parts[0], sep, tail);
      assert s[..|parts[0]|] == parts[0];
      assert s[|parts[0]| + 1..] == tail;
      assert forall i :: 0 <= i < |parts| - 1 ==> parts[1..][i] == parts[i + 1];
      SplitJoin(parts[1..], sep);
      calc {
        Split(Join(parts, sep), sep);
        Split(s, sep);
        [parts[0]] + Split(tail, sep);
        [parts[0]] + parts[1..];
        parts;
      }
    }
  }

  /** ASCII lower-casing of one character. */
  function Lower(c: char): char {
    if 'A' <= c <= 'Z' then (c as int + 32) as char else c
  }

  /**
   * `s` begins with `prefix`, letter case ignored, for a lower-case
   * `prefix` (ASCII folding only).
   */
  predicate StartsWithIgnoreCase(s: string, prefix: string) {
    |prefix| <= |s| && forall i :: 0 <= i < |prefix| ==> Lower(s[i]) == prefix[i]
  }
}
