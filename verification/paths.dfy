/**
 * Output file names are derived from the caller's path with Python's
 * `str.replace(old, new)`, which replaces every non-overlapping occurrence
 * of `old`, scanning left to right.
 */
module Paths {

  const Yaml: string := ".yaml"

  /** `s.replace(pat, rep)` for a non-empty `pat`. */
  function ReplaceAll(s: string, pat: string, rep: string): string
    requires pat != []
    decreases |s|
  {
    if |s| < |pat| then s
    else if s[..|pat|] == pat then rep + ReplaceAll(s[|pat|..], pat, rep)
    else [s[0]] + ReplaceAll(s[1..], pat, rep)
  }

  /** `pat` occurs in `s` starting at position `i`. */
  predicate MatchAt(pat: string, s: string, i: nat) {
    i + |pat| <= |s| && s[i..i + |pat|] == pat
  }

  /** `pat` occurs somewhere in `s`. */
  ghost predicate Occurs(pat: string, s: string) {
    exists i: nat :: MatchAt(pat, s, i)
  }

  /** For a path `stem + ".yaml"` with no other ".yaml" in it, `replace('.yaml', rep)`
      substitutes the suffix only: `stem + rep`. */
  lemma {:induction false} ReplaceYamlSuffix(stem: string, rep: string)
    requires !Occurs(Yaml, stem)
    ensures ReplaceAll(stem + Yaml, Yaml, rep) == stem + rep
    decreases |stem|
  {
    var s := stem + Yaml;
    if stem == [] {
      assert s[..5] == Yaml && s[5..] == [];
    } else {
      assert s[..5] != Yaml by {
        if |stem| >= 5 {
          assert s[..5] == stem[0..5];
          assert !MatchAt(Yaml, stem, 0);
        } else {
          assert s[..5][|stem|] == '.';
          assert Yaml[|stem|] != '.';
        }
      }
      assert !Occurs(Yaml, stem[1..]) by {
        if Occurs(Yaml, stem[1..]) {
          var i: nat :| MatchAt(Yaml, stem[1..], i);
          assert stem[i + 1..i + 6] == Yaml;
          assert MatchAt(Yaml, stem, i + 1);
        }
      }
      ReplaceYamlSuffix(stem[1..], rep);
      assert s[1..] == stem[1..] + Yaml;
    }
  }
}
