/** The search-engine query document the repositories build, as an
    algebraic datatype, and a reference reading of it: which documents a
    query selects and which window of the selected hits a body returns.

    The reading keeps only what the repositories rely on: `bool.must` is a
    conjunction, `bool.should` a disjunction (with no `must` beside it, at
    least one clause has to hold), `nested` asks that some element of the
    named array satisfy the inner query, and `term`/`match` on
    `<path>.id` compare that element's id exactly. Relevance, fuzziness and
    ranking are engine internals: a `multi_match` is decided by a predicate
    the caller supplies, and hits keep their stored order. */
module QueryDsl {
  import opened Outcomes
  import opened Documents

  datatype Query =
    | EmptyQuery                                   // the `{}` a builder returns when it has no clause
    | BoolMust(must: seq<Query>)
    | BoolShould(should: seq<Query>)
    | Nested(path: string, query: Query)
    | Term(field: string, value: string)
    | Match(field: string, value: string)
    | MultiMatch(text: string, fuzziness: string)

  /** One element of the body's `sort` list: `{field: {'order': order}}`. */
  datatype SortClause = SortClause(field: string, order: string)

  /** A search body: `size`, `from`, and the optional `query` and `sort` keys. */
  datatype Body = Body(size: int, from: int, query: Option<Query>, sort: Option<seq<SortClause>>)

  /** Python truthiness of a built query dict: only `{}` is falsy. */
  predicate Truthy(q: Query) {
    !q.EmptyQuery?
  }

  /** A query contains no `bool` with an empty clause list anywhere. */
  predicate NoEmptyBool(q: Query)
    decreases q
  {
    match q
    case EmptyQuery => true
    case BoolMust(cs) => |cs| > 0 && forall i :: 0 <= i < |cs| ==> NoEmptyBool(cs[i])
    case BoolShould(cs) => |cs| > 0 && forall i :: 0 <= i < |cs| ==> NoEmptyBool(cs[i])
    case Nested(_, inner) => NoEmptyBool(inner)
    case Term(_, _) => true
    case Match(_, _) => true
    case MultiMatch(_, _) => true
  }

  /** The nested array a `nested.path` names. */
  function NestedRefs(d: Doc, path: string): seq<Ref> {
    if path == "genres" then d.genres.GetOr([])
    else if path == "actors" then d.actors.GetOr([])
    else if path == "writers" then d.writers.GetOr([])
    else if path == "directors" then d.directors.GetOr([])
    else []
  }

  /** Whether the inner query of a `nested` clause holds of one element. */
  predicate ElementMatches(q: Query, path: string, r: Ref)
    decreases q
  {
    match q
    case EmptyQuery => true
    case BoolMust(cs) => forall i :: 0 <= i < |cs| ==> ElementMatches(cs[i], path, r)
    case BoolShould(cs) => |cs| == 0 || exists i :: 0 <= i < |cs| && ElementMatches(cs[i], path, r)
    case Nested(_, _) => false
    case Term(f, v) => f == path + ".id" && r.id == v
    case Match(f, v) => f == path + ".id" && r.id == v
    case MultiMatch(_, _) => false
  }

  /** Whether a query selects a document; `fuzzy` decides `multi_match`. */
  predicate Matches(q: Query, d: Doc, fuzzy: (string, Doc) -> bool)
    decreases q
  {
    match q
    case EmptyQuery => true
    case BoolMust(cs) => forall i :: 0 <= i < |cs| ==> Matches(cs[i], d, fuzzy)
    case BoolShould(cs) => |cs| == 0 || exists i :: 0 <= i < |cs| && Matches(cs[i], d, fuzzy)
    case Nested(path, inner) =>
      var refs := NestedRefs(d, path);
      exists k :: 0 <= k < |refs| && ElementMatches(inner, path, refs[k])
    case Term(f, v) => f == "id" && d.id == Some(v)
    case Match(f, v) => f == "id" && d.id == Some(v)
    case MultiMatch(text, _) => fuzzy(text, d)
  }

  /** A `bool.must` with one clause means that clause. */
  lemma MustOfOne(c: Query, d: Doc, fuzzy: (string, Doc) -> bool)
    ensures Matches(BoolMust([c]), d, fuzzy) <==> Matches(c, d, fuzzy)
    ensures NoEmptyBool(BoolMust([c])) <==> NoEmptyBool(c)
  {
    assert [c][0] == c;
  }

  /** A body without a `query` key selects every document. */
  predicate BodyMatches(b: Body, d: Doc, fuzzy: (string, Doc) -> bool) {
    b.query.None? || Matches(b.query.value, d, fuzzy)
  }

  /** Whether some element of a reference list carries the given id. */
  predicate HasId(refs: seq<Ref>, id: string) {
    exists k :: 0 <= k < |refs| && refs[k].id == id
  }

  /** The hits a body selects, in stored order: each selected hit occurs as
      often as it is stored, and an unselected one not at all. */
  function Select(hits: seq<Hit>, b: Body, fuzzy: (string, Doc) -> bool): (r: seq<Hit>)
    ensures |r| <= |hits|
    ensures forall h :: multiset(r)[h] == (if BodyMatches(b, h.source, fuzzy) then multiset(hits)[h] else 0)
    ensures forall h :: h in r <==> h in hits && BodyMatches(b, h.source, fuzzy)
  {
    if |hits| == 0 then []
    else
      var rest := Select(hits[1..], b, fuzzy);
      assert hits == [hits[0]] + hits[1..];
      if BodyMatches(b, hits[0].source, fuzzy) then [hits[0]] + rest else rest
  }

  /** One step of `Select`: the first hit, when selected, ahead of the
      selection of the rest. */
  lemma SelectUnfold(hits: seq<Hit>, b: Body, fuzzy: (string, Doc) -> bool)
    requires |hits| > 0
    ensures Select(hits, b, fuzzy)
         == (if BodyMatches(b, hits[0].source, fuzzy) then [hits[0]] else []) + Select(hits[1..], b, fuzzy)
  {
  }

  lemma ConsAssoc<T>(x: T, p: seq<T>, q: seq<T>)
    ensures [x] + (p + q) == ([x] + p) + q
  {
  }

  /** Selection distributes over concatenation, so selected hits keep the
      stored order: those from an earlier part of the list come first. */
  lemma {:induction false} SelectConcat(a: seq<Hit>, c: seq<Hit>, b: Body, fuzzy: (string, Doc) -> bool)
    ensures Select(a + c, b, fuzzy) == Select(a, b, fuzzy) + Select(c, b, fuzzy)
  {
    if |a| == 0 {
      assert a + c == c;
    } else {
      var ac := a + c;
      assert ac[0] == a[0];
      assert ac[1..] == a[1..] + c;
      SelectUnfold(ac, b, fuzzy);
      SelectUnfold(a, b, fuzzy);
      SelectConcat(a[1..], c, b, fuzzy);
      var ra, rc := Select(a[1..], b, fuzzy), Select(c, b, fuzzy);
      if BodyMatches(b, a[0].source, fuzzy) {
        ConsAssoc(a[0], ra, rc);
      } else {
        assert [] + (ra + rc) == ra + rc;
        assert [] + ra == ra;
      }
    }
  }

  /** A single hit is kept exactly when the body selects it. */
  lemma SelectOne(h: Hit, b: Body, fuzzy: (string, Doc) -> bool)
    ensures Select([h], b, fuzzy) == if BodyMatches(b, h.source, fuzzy) then [h] else []
  {
    assert [h][1..] == [];
  }

  /** A body every stored hit satisfies selects the whole list. */
  lemma {:induction false} SelectEverything(hits: seq<Hit>, b: Body, fuzzy: (string, Doc) -> bool)
    requires forall k :: 0 <= k < |hits| ==> BodyMatches(b, hits[k].source, fuzzy)
    ensures Select(hits, b, fuzzy) == hits
  {
    if |hits| > 0 {
      var tail := hits[1..];
      assert forall k :: 0 <= k < |tail| ==> tail[k] == hits[k + 1];
      SelectEverything(tail, b, fuzzy);
      assert BodyMatches(b, hits[0].source, fuzzy);
      assert Select(hits, b, fuzzy) == [hits[0]] + Select(tail, b, fuzzy);
      assert hits == [hits[0]] + tail;
    }
  }

  /** Two bodies that select the same documents select the same hits. */
  lemma {:induction false} SelectSameSelection(hits: seq<Hit>, b1: Body, b2: Body, fuzzy: (string, Doc) -> bool)
    requires forall k :: 0 <= k < |hits| ==> (BodyMatches(b1, hits[k].source, fuzzy) <==> BodyMatches(b2, hits[k].source, fuzzy))
    ensures Select(hits, b1, fuzzy) == Select(hits, b2, fuzzy)
  {
    if |hits| > 0 {
      var tail := hits[1..];
      assert forall k :: 0 <= k < |tail| ==> tail[k] == hits[k + 1];
      SelectSameSelection(tail, b1, b2, fuzzy);
    }
  }

  function Clamp(x: int, lo: int, hi: int): int
    requires lo <= hi
  {
    if x < lo then lo else if x > hi then hi else x
  }

  /** The `from`/`size` window of a hit list. */
  function Window(hits: seq<Hit>, from: int, size: int): (r: seq<Hit>)
    ensures from >= 0 && size >= 0 && from + size <= |hits| ==> r == hits[from..from + size]
    ensures from >= 0 && size >= 0 && from <= |hits| < from + size ==> r == hits[from..]
    ensures from >= |hits| ==> r == []
    ensures |r| <= if size < 0 then 0 else size
    ensures multiset(r) <= multiset(hits)
  {
    var lo := Clamp(from, 0, |hits|);
    var hi := Clamp(from + size, lo, |hits|);
    assert hits == hits[..lo] + hits[lo..hi] + hits[hi..];
    hits[lo..hi]
  }
}
