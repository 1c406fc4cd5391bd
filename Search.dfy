/**
 * `handleSearch` (static/script.js lines 169-179): the lower-cased, trimmed
 * query is looked for in each program's lower-cased name and categories,
 * and the programs that contain it are kept in their original order.
 */
module Search {
  import opened JsString
  import opened Programs

  /** `query.toLowerCase().trim()`. */
  function SearchTerm(query: string): string
  {
    Trim(ToLower(query))
  }

  /** Lower-casing leaves white space where it was, so a blank query gives the empty term. */
  lemma BlankQueryGivesEmptyTerm(query: string)
    requires AllWhitespace(query)
    ensures SearchTerm(query) == ""
  {
    var lower := ToLower(query);
    forall i | 0 <= i < |lower| ensures IsWhitespace(lower[i]) {
      assert IsWhitespace(query[i]);
    }
  }

  /** `categories.some(c => c.toLowerCase().includes(term))`. */
  function AnyIncludes(cats: seq<string>, term: string): (b: bool)
    ensures b <==> exists i :: 0 <= i < |cats| && Includes(ToLower(cats[i]), term)
  {
    if cats == [] then
      false
    else
      var rest := AnyIncludes(cats[1..], term);
      assert rest ==> exists i :: 0 <= i < |cats| && Includes(ToLower(cats[i]), term) by {
        if rest {
          var i :| 0 <= i < |cats[1..]| && Includes(ToLower(cats[1..][i]), term);
          assert cats[1..][i] == cats[i + 1];
        }
      }
      assert (exists i :: 1 <= i < |cats| && Includes(ToLower(cats[i]), term)) ==> rest by {
        if exists i :: 1 <= i < |cats| && Includes(ToLower(cats[i]), term) {
          var i :| 1 <= i < |cats| && Includes(ToLower(cats[i]), term);
          assert cats[1..][i - 1] == cats[i];
        }
      }
      Includes(ToLower(cats[0]), term) || rest
  }

  /** The filter callback: the name or some category contains the term. */
  predicate Matches(p: Program, term: string)
  {
    Includes(ToLower(p.name), term) || AnyIncludes(Categories(p), term)
  }

  /** `allPrograms.filter(...)`: the programs that match, in their order. */
  function Filter(ps: seq<Program>, term: string): (r: seq<Program>)
    ensures |r| <= |ps|
    ensures forall i :: 0 <= i < |r| ==> Matches(r[i], term)
  {
    if ps == [] then []
    else if Matches(ps[0], term) then [ps[0]] + Filter(ps[1..], term)
    else Filter(ps[1..], term)
  }

  /** `r` is `s` with some elements deleted and the rest left in their order. */
  ghost predicate IsSubsequence<T>(r: seq<T>, s: seq<T>)
    decreases |s|
  {
    r == [] || (s != [] && ((r[0] == s[0] && IsSubsequence(r[1..], s[1..])) || IsSubsequence(r, s[1..])))
  }

  lemma {:induction false} SubsequenceOfSelf<T>(s: seq<T>)
    ensures IsSubsequence(s, s)
    decreases |s|
  {
    if s != [] {
      SubsequenceOfSelf(s[1..]);
    }
  }

  /** The filter deletes programs and never reorders them. */
  lemma {:induction false} FilterIsSubsequence(ps: seq<Program>, term: string)
    ensures IsSubsequence(Filter(ps, term), ps)
    decreases |ps|
  {
    if ps != [] {
      FilterIsSubsequence(ps[1..], term);
      var r := Filter(ps, term);
      if Matches(ps[0], term) {
        assert r[0] == ps[0] && r[1..] == Filter(ps[1..], term);
      }
    }
  }

  /**
   * The filter keeps every occurrence of every matching program and nothing
   * else: each program occurs in the result as often as in the input when it
   * matches, and not at all otherwise.
   */
  lemma {:induction false} FilterCounts(ps: seq<Program>, term: string)
    ensures forall p :: multiset(Filter(ps, term))[p] == if Matches(p, term) then multiset(ps)[p] else 0
    decreases |ps|
  {
    if ps != [] {
      FilterCounts(ps[1..], term);
      assert ps == [ps[0]] + ps[1..];
    }
  }

  /** A program is kept exactly when it is in the list and matches. */
  lemma FilterMembership(ps: seq<Program>, term: string, p: Program)
    ensures p in Filter(ps, term) <==> p in ps && Matches(p, term)
  {
    FilterCounts(ps, term);
    assert p in Filter(ps, term) <==> p in multiset(Filter(ps, term));
    assert p in ps <==> p in multiset(ps);
  }

  /** When every program matches, the filter returns the list unchanged. */
  lemma {:induction false} FilterAllMatch(ps: seq<Program>, term: string)
    requires forall i :: 0 <= i < |ps| ==> Matches(ps[i], term)
    ensures Filter(ps, term) == ps
    decreases |ps|
  {
    if ps != [] {
      FilterAllMatch(ps[1..], term);
    }
  }

  /** When no program matches, the filter returns the empty list. */
  lemma {:induction false} FilterNoneMatch(ps: seq<Program>, term: string)
    requires forall i :: 0 <= i < |ps| ==> !Matches(ps[i], term)
    ensures Filter(ps, term) == []
    decreases |ps|
  {
    if ps != [] {
      FilterNoneMatch(ps[1..], term);
    }
  }

  /** An empty or blank query keeps the whole list. */
  lemma BlankQueryKeepsAll(ps: seq<Program>, query: string)
    requires AllWhitespace(query)
    ensures Filter(ps, SearchTerm(query)) == ps
  {
    BlankQueryGivesEmptyTerm(query);
    forall i | 0 <= i < |ps| ensures Matches(ps[i], "") {
      IncludesEmpty(ToLower(ps[i].name));
    }
    FilterAllMatch(ps, "");
  }
}
