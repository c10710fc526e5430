/** The name filter of `common.MatchRegex`: does a resource name pass the
    user's `--filter`, read either as a literal substring or as a regular
    expression? */
module RegexMatch {

  /** The regular-expression library the filter is handed to, left
      uninterpreted: which patterns compile, and whether a compiled pattern
      matches a name. */
  datatype RegexEngine = RegexEngine(compiles: string -> bool, matchString: (string, string) -> bool)

  /** `sub` occurs in `s` at position `i`. */
  predicate OccursAt(s: string, sub: string, i: nat)
  {
    i + |sub| <= |s| && s[i..i + |sub|] == sub
  }

  /** `strings.Contains`: whether `sub` occurs somewhere in `s`, by trying
      each starting position in turn. */
  function Contains(s: string, sub: string): (r: bool)
    ensures r <==> exists i: nat :: OccursAt(s, sub, i)
    decreases |s|
  {
    if |sub| <= |s| && s[..|sub|] == sub then
      assert OccursAt(s, sub, 0);
      true
    else if s == [] then
      false
    else
      var r := Contains(s[1..], sub);
      assert r ==> exists i: nat :: OccursAt(s, sub, i) by {
        if r {
          var i: nat :| OccursAt(s[1..], sub, i);
          assert s[1..][i..i + |sub|] == s[i + 1..i + 1 + |sub|];
          assert OccursAt(s, sub, i + 1);
        }
      }
      assert (exists i: nat :: OccursAt(s, sub, i)) ==> r by {
        if exists i: nat :: OccursAt(s, sub, i) {
          var i: nat :| OccursAt(s, sub, i);
          assert i != 0;
          assert s[1..][i - 1..i - 1 + |sub|] == s[i..i + |sub|];
          assert OccursAt(s[1..], sub, i - 1);
        }
      }
      r
  }

  /** `MatchRegex(resourceName, filter, regex)`. An empty name never
      matches; an empty filter matches every other name; otherwise the filter
      is compiled and run as a pattern when `regex` is set (compiling a bad
      pattern panics, hence the precondition) and searched for as a literal
      substring when it is not. */
  function MatchRegex(resourceName: string, filter: string, regex: bool, engine: RegexEngine): (r: bool)
    requires regex && |resourceName| > 0 && |filter| > 0 ==> engine.compiles(filter)
    ensures |resourceName| == 0 ==> !r
    ensures |resourceName| > 0 && |filter| == 0 ==> r
    ensures |resourceName| > 0 && |filter| > 0 && !regex ==>
              (r <==> exists i: nat :: OccursAt(resourceName, filter, i))
    ensures |resourceName| > 0 && |filter| > 0 && regex ==> r == engine.matchString(filter, resourceName)
  {
    if |resourceName| > 0 then
      if |filter| > 0 then
        if regex then engine.matchString(filter, resourceName)
        else Contains(resourceName, filter)
      else
        true
    else
      false
  }

  /** With an empty filter the regex flag makes no difference. */
  lemma EmptyFilterIgnoresRegexFlag(resourceName: string, engine: RegexEngine)
    ensures MatchRegex(resourceName, "", true, engine) == MatchRegex(resourceName, "", false, engine)
    ensures MatchRegex(resourceName, "", true, engine) <==> |resourceName| > 0
  {
  }

  /** Read literally, every non-empty name matches itself as a filter. */
  lemma LiteralSelfMatch(resourceName: string, engine: RegexEngine)
    requires |resourceName| > 0
    ensures MatchRegex(resourceName, resourceName, false, engine)
  {
    assert OccursAt(resourceName, resourceName, 0);
  }

  /** Read literally, shortening the filter to a non-empty substring of
      itself never loses a match: a narrower literal filter selects at least
      the names a wider one selects. */
  lemma LiteralFilterWidening(resourceName: string, filter: string, part: string, engine: RegexEngine)
    requires |part| > 0
    requires MatchRegex(resourceName, filter, false, engine)
    requires exists j: nat :: OccursAt(filter, part, j)
    ensures MatchRegex(resourceName, part, false, engine)
  {
    if |filter| > 0 {
      var i: nat :| OccursAt(resourceName, filter, i);
      var j: nat :| OccursAt(filter, part, j);
      forall k | 0 <= k < |part|
        ensures part[k] == resourceName[i + j + k]
      {
        assert part[k] == filter[j + k];
        assert filter[j + k] == resourceName[i..i + |filter|][j + k];
      }
      assert part == resourceName[i + j..i + j + |part|];
      assert OccursAt(resourceName, part, i + j);
    }
  }
}
