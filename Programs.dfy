/**
 * The program records the page lists, the normalisation of their category
 * field, and the one-time ordering by lower-cased name done at start-up.
 */
module Programs {
  import opened Wrappers
  import opened JsString

  /** The `category` field: either one string or an array of strings. */
  datatype Category = One(text: string) | Many(texts: seq<string>)

  /**
   * A program as far as the view state uses it. Logo, social links and
   * details only feed DOM construction and are not part of this model.
   */
  datatype Program = Program(name: string, category: Category, status: Option<string>)

  /**
   * Category normalisation, the same expression at every use: a value that
   * is not an array stands for the one-element list holding it.
   */
  function Categories(p: Program): (cats: seq<string>)
    ensures p.category.One? ==> |cats| == 1 && cats[0] == p.category.text
    ensures p.category.Many? ==> cats == p.category.texts
  {
    match p.category
    case One(text) => [text]
    case Many(texts) => texts
  }

  /** A lone category string and the one-element array holding it are the same to every reader. */
  lemma OneIsSingletonList(name: string, text: string, status: Option<string>)
    ensures Categories(Program(name, One(text), status)) == Categories(Program(name, Many([text]), status))
  {
  }

  /** The sort key: the lower-cased name. */
  function NameKey(p: Program): string
  {
    ToLower(p.name)
  }

  /**
   * What the start-up sort needs of `localeCompare(a, b) <= 0`: a total
   * preorder on strings. Locale collation itself is not modelled.
   */
  ghost predicate TotalPreorder(before: (string, string) -> bool)
  {
    (forall a, b :: before(a, b) || before(b, a)) &&
    (forall a, b, c :: before(a, b) && before(b, c) ==> before(a, c))
  }

  ghost predicate SortedByName(ps: seq<Program>, before: (string, string) -> bool)
  {
    forall i, j :: 0 <= i < j < |ps| ==> before(NameKey(ps[i]), NameKey(ps[j]))
  }

  /**
   * Puts `p` into the list `ps` after every element that does not come
   * strictly after it, as a stable sort does with a later element.
   */
  function InsertByName(p: Program, ps: seq<Program>, before: (string, string) -> bool): (r: seq<Program>)
    ensures multiset(r) == multiset(ps) + multiset{p}
  {
    if ps == [] then
      [p]
    else if !before(NameKey(ps[0]), NameKey(p)) then
      [p] + ps
    else
      assert ps == [ps[0]] + ps[1..];
      [ps[0]] + InsertByName(p, ps[1..], before)
  }

  /** Inserting into a sorted list keeps it sorted. */
  lemma {:induction false} InsertByNameSorted(p: Program, ps: seq<Program>, before: (string, string) -> bool)
    requires TotalPreorder(before) && SortedByName(ps, before)
    ensures SortedByName(InsertByName(p, ps, before), before)
    decreases |ps|
  {
    if ps != [] && before(NameKey(ps[0]), NameKey(p)) {
      var rest := InsertByName(p, ps[1..], before);
      InsertByNameSorted(p, ps[1..], before);
      forall j | 0 <= j < |rest|
        ensures before(NameKey(ps[0]), NameKey(rest[j]))
      {
        assert rest[j] in multiset(rest);
        if rest[j] != p {
          assert rest[j] in multiset(ps[1..]);
          var k :| 0 <= k < |ps[1..]| && ps[1..][k] == rest[j];
          assert ps[k + 1] == rest[j];
        }
      }
    }
  }

  /**
   * The start-up sort of `allPrograms` by lower-cased name (static/script.js
   * lines 2-4), against any comparator that is a total preorder.
   */
  function SortByName(ps: seq<Program>, before: (string, string) -> bool): (r: seq<Program>)
    requires TotalPreorder(before)
    ensures SortedByName(r, before)
    ensures multiset(r) == multiset(ps)
    ensures |r| == |ps|
  {
    if ps == [] then
      []
    else
      var init := ps[..|ps| - 1];
      assert ps == init + [ps[|ps| - 1]];
      var r := InsertByName(ps[|ps| - 1], SortByName(init, before), before);
      InsertByNameSorted(ps[|ps| - 1], SortByName(init, before), before);
      assert |r| == |multiset(r)|;
      r
  }

  /** Code-unit order on strings: one concrete comparator the sort accepts. */
  predicate CodeUnitBefore(a: string, b: string)
  {
    a == [] || (b != [] && (a[0] < b[0] || (a[0] == b[0] && CodeUnitBefore(a[1..], b[1..]))))
  }

  lemma {:induction false} CodeUnitTotal(a: string, b: string)
    ensures CodeUnitBefore(a, b) || CodeUnitBefore(b, a)
  {
    if a != [] && b != [] && a[0] == b[0] {
      CodeUnitTotal(a[1..], b[1..]);
    }
  }

  lemma {:induction false} CodeUnitTransitive(a: string, b: string, c: string)
    requires CodeUnitBefore(a, b) && CodeUnitBefore(b, c)
    ensures CodeUnitBefore(a, c)
  {
    if a != [] && a[0] == b[0] && b[0] == c[0] {
      CodeUnitTransitive(a[1..], b[1..], c[1..]);
    }
  }

  /** Code-unit order meets the sort's requirement. */
  lemma CodeUnitIsTotalPreorder()
    ensures TotalPreorder(CodeUnitBefore)
  {
    forall a, b ensures CodeUnitBefore(a, b) || CodeUnitBefore(b, a) {
      CodeUnitTotal(a, b);
    }
    forall a, b, c | CodeUnitBefore(a, b) && CodeUnitBefore(b, c) ensures CodeUnitBefore(a, c) {
      CodeUnitTransitive(a, b, c);
    }
  }
}
