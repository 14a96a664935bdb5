/** The chunk table of `database.py` (`PostgresVectorDB`): one row per
    chunk, a batch insert, a delete by variant, and the read-only queries.
    Vector distance and `ts_rank` are computed by Postgres; the queries take
    the orders they produce as inputs, as sequences of row positions. */
module Store {
  import opened Wrappers
  import opened Text
  import opened Sorting

  /** Each candidate list of `search_hybrid` holds at most this many rows. */
  const CandidateLimit: nat := 50
  /** The constant of reciprocal rank fusion: rank r scores 1/(r + 60). */
  const RrfOffset: nat := 60

  /** A scalar JSON value in a row's `metadata` column: null, a boolean, an
      integer or a string. Floats, lists and objects are not modelled. */
  datatype Value = Null | Bool(b: bool) | Num(n: int) | Str(s: string)

  /** Python truthiness of a metadata value. */
  predicate Truthy(v: Value) {
    match v
    case Null => false
    case Bool(b) => b
    case Num(n) => n != 0
    case Str(s) => s != []
  }

  type Meta = map<string, Value>

  /** `meta.get(key)`: an absent key reads as `None`. */
  function Get(meta: Meta, key: string): Value {
    if key in meta then meta[key] else Null
  }

  /** A row: `content`, `embedding`, `variant`, `metadata`, and the text the
      `tsv` column is computed from. */
  datatype Row = Row(content: string, embedding: seq<real>, variant: string, metadata: Meta, searchText: string)

  // ---------------------------------------------------------------------
  // The search text of `insert_batch`

  /** What is appended to `search_parts` for `key`: the value, when truthy. */
  function Kept(meta: Meta, key: string): seq<Value> {
    if Truthy(Get(meta, key)) then [Get(meta, key)] else []
  }

  /** A value `" ".join` accepts in that position: a falsy value is never
      appended, a truthy one must be a string. */
  predicate Joinable(v: Value) {
    !Truthy(v) || v.Str?
  }

  /** The text `key` adds to the search text: a space and the value. */
  function Suffix(meta: Meta, key: string): string {
    var v := Get(meta, key);
    if Truthy(v) && v.Str? then " " + v.s else ""
  }

  function StrOf(v: Value): string {
    if v.Str? then v.s else ""
  }

  lemma JoinUpToThree(a: string, b: seq<string>, c: seq<string>)
    requires |b| <= 1 && |c| <= 1
    ensures Join(" ", [a] + b + c)
         == a + (if b == [] then "" else " " + b[0]) + (if c == [] then "" else " " + c[0])
  {
    if b != [] && c != [] {
      assert [a] + b + c == [a, b[0], c[0]];
      JoinThree(" ", a, b[0], c[0]);
      AppendAssociative(a, " ", b[0]);
      AppendAssociative(a + " " + b[0], " ", c[0]);
      AppendAssociative(a, " " + b[0], " " + c[0]);
    } else if b != [] {
      assert [a] + b + c == [a, b[0]];
      JoinTwo(" ", a, b[0]);
      AppendAssociative(a, " ", b[0]);
      assert a + (" " + b[0]) + "" == a + (" " + b[0]);
    } else if c != [] {
      assert [a] + b + c == [a, c[0]];
      JoinTwo(" ", a, c[0]);
      AppendAssociative(a, " ", c[0]);
      assert a + "" == a;
    } else {
      assert [a] + b + c == [a];
      assert a + "" + "" == a;
    }
  }

  /** The `search_text` of one row: the content, then a truthy heading,
      then a truthy section, joined by single spaces; `None` when `join`
      raises `TypeError` on a truthy value that is not a string. */
  function SearchText(content: string, meta: Meta): (r: Option<string>)
    ensures r.Some? <==> Joinable(Get(meta, "heading")) && Joinable(Get(meta, "section"))
    ensures r.Some? ==> r.value == content + Suffix(meta, "heading") + Suffix(meta, "section")
  {
    var parts := [Str(content)] + Kept(meta, "heading") + Kept(meta, "section");
    if forall k :: 0 <= k < |parts| ==> parts[k].Str? then
      var h := Map(Kept(meta, "heading"), StrOf);
      var s := Map(Kept(meta, "section"), StrOf);
      assert Map(parts, StrOf) == [content] + h + s;
      JoinUpToThree(content, h, s);
      Some(Join(" ", Map(parts, StrOf)))
    else
      assert !Joinable(Get(meta, "heading")) || !Joinable(Get(meta, "section")) by {
        var k :| 0 <= k < |parts| && !parts[k].Str?;
      }
      None
  }

  // ---------------------------------------------------------------------
  // The rows of a batch

  /** `row` is what `insert_batch` stores for one zipped triple. */
  predicate StoredAs(row: Row, content: string, vector: seq<real>, variant: string, meta: Meta) {
    && row.content == content
    && row.embedding == vector
    && row.variant == variant
    && row.metadata == meta
    && SearchText(content, meta) == Some(row.searchText)
  }

  /** The rows of the first `n` zipped triples, or `None` when building one
      of them raises. */
  function BuildRows(contents: seq<string>, vectors: seq<seq<real>>, variant: string, metas: seq<Meta>, n: nat)
    : (r: Option<seq<Row>>)
    requires n <= |contents| && n <= |vectors| && n <= |metas|
    ensures r.Some? <==> forall i :: 0 <= i < n ==> SearchText(contents[i], metas[i]).Some?
    ensures r.Some? ==> |r.value| == n
    ensures r.Some? ==> forall i :: 0 <= i < n ==> StoredAs(r.value[i], contents[i], vectors[i], variant, metas[i])
  {
    if n == 0 then Some([])
    else
      match BuildRows(contents, vectors, variant, metas, n - 1)
      case None => None
      case Some(rs) =>
        match SearchText(contents[n - 1], metas[n - 1])
        case None => None
        case Some(t) => Some(rs + [Row(contents[n - 1], vectors[n - 1], variant, metas[n - 1], t)])
  }

  function Min3(a: nat, b: nat, c: nat): (r: nat)
    ensures r <= a && r <= b && r <= c && (r == a || r == b || r == c)
  {
    if a <= b && a <= c then a else if b <= c then b else c
  }

  /** The metadata list `insert_batch` zips: one empty map per content
      when none is given. */
  function MetaList(contents: seq<string>, metadatas: Option<seq<Meta>>): (r: seq<Meta>)
    ensures metadatas.Some? ==> r == metadatas.value
    ensures metadatas.None? ==> |r| == |contents| && forall i :: 0 <= i < |r| ==> r[i] == map[]
  {
    if metadatas.None? then seq(|contents|, _ => map[]) else metadatas.value
  }

  /** The rows one `insert_batch` call adds, or `None` when it raises. */
  function BatchRows(contents: seq<string>, vectors: seq<seq<real>>, variant: string, metadatas: Option<seq<Meta>>)
    : Option<seq<Row>>
  {
    var metas := MetaList(contents, metadatas);
    BuildRows(contents, vectors, variant, metas, Min3(|contents|, |vectors|, |metas|))
  }

  /** A batch is as long as its shortest input list, keeps the inputs in
      order, and stores every row under the given variant; without
      metadata every row gets an empty map. */
  lemma BatchRowsShape(contents: seq<string>, vectors: seq<seq<real>>, variant: string, metadatas: Option<seq<Meta>>)
    requires BatchRows(contents, vectors, variant, metadatas).Some?
    ensures var rs := BatchRows(contents, vectors, variant, metadatas).value;
      && |rs| == Min3(|contents|, |vectors|, |MetaList(contents, metadatas)|)
      && (forall i :: 0 <= i < |rs| ==> rs[i].content == contents[i] && rs[i].embedding == vectors[i])
      && (forall i :: 0 <= i < |rs| ==> rs[i].variant == variant)
      && (metadatas.None? ==> forall i :: 0 <= i < |rs| ==> rs[i].metadata == map[] && rs[i].searchText == contents[i])
  {
    var rs := BatchRows(contents, vectors, variant, metadatas).value;
    var metas := MetaList(contents, metadatas);
    forall i | 0 <= i < |rs|
      ensures metadatas.None? ==> rs[i].metadata == map[] && rs[i].searchText == contents[i]
    {
      assert StoredAs(rs[i], contents[i], vectors[i], variant, metas[i]);
      if metadatas.None? {
        assert Get(metas[i], "heading") == Null && Get(metas[i], "section") == Null;
      }
    }
  }

  /** A batch raises exactly when some zipped row has a truthy heading or
      section that is not a string. */
  lemma BatchFailsIff(contents: seq<string>, vectors: seq<seq<real>>, variant: string, metadatas: Option<seq<Meta>>)
    ensures var metas := MetaList(contents, metadatas);
      BatchRows(contents, vectors, variant, metadatas).None?
      <==> exists i :: 0 <= i < Min3(|contents|, |vectors|, |metas|)
             && !(Joinable(Get(metas[i], "heading")) && Joinable(Get(metas[i], "section")))
  {
    var metas := MetaList(contents, metadatas);
    var n := Min3(|contents|, |vectors|, |metas|);
    if BatchRows(contents, vectors, variant, metadatas).None? {
      var i :| 0 <= i < n && !SearchText(contents[i], metas[i]).Some?;
    }
  }

  // ---------------------------------------------------------------------
  // Variants

  function HasVariant(variant: string): Row -> bool {
    (row: Row) => row.variant == variant
  }

  function OtherVariant(variant: string): Row -> bool {
    (row: Row) => row.variant != variant
  }

  /** `variant_exists`: the scan that stops at the first row of the variant. */
  function VariantExists(rows: seq<Row>, variant: string): (r: bool)
    ensures r <==> exists i :: 0 <= i < |rows| && rows[i].variant == variant
  {
    if rows == [] then false
    else if rows[0].variant == variant then true
    else
      var rest := VariantExists(rows[1..], variant);
      assert rest <==> exists i :: 1 <= i < |rows| && rows[i].variant == variant by {
        if rest {
          var i :| 0 <= i < |rows[1..]| && rows[1..][i].variant == variant;
          assert rows[i + 1] == rows[1..][i];
        }
        if exists i :: 1 <= i < |rows| && rows[i].variant == variant {
          var i :| 1 <= i < |rows| && rows[i].variant == variant;
          assert rows[1..][i - 1] == rows[i];
        }
      }
      rest
  }

  /** After `delete_variant(v)`, `variant_exists(v)` is false. */
  lemma DeletedVariantIsGone(rows: seq<Row>, variant: string)
    ensures !VariantExists(Filter(rows, OtherVariant(variant)), variant)
  {
  }

  /** Deleting one variant leaves the rows of every other variant exactly
      as they were, in order. */
  lemma {:induction false} DeleteKeepsOtherVariants(rows: seq<Row>, variant: string, other: string)
    requires other != variant
    ensures Filter(Filter(rows, OtherVariant(variant)), HasVariant(other)) == Filter(rows, HasVariant(other))
  {
    if rows != [] {
      var x, tail := rows[0], rows[1..];
      assert rows == [x] + tail;
      DeleteKeepsOtherVariants(tail, variant, other);
      FilterCons(x, tail, OtherVariant(variant));
      FilterCons(x, tail, HasVariant(other));
      if x.variant == variant {
        assert !HasVariant(other)(x);
        assert !OtherVariant(variant)(x);
        assert Filter(rows, OtherVariant(variant)) == Filter(tail, OtherVariant(variant));
        assert Filter(rows, HasVariant(other)) == Filter(tail, HasVariant(other));
      } else {
        assert OtherVariant(variant)(x);
        FilterCons(x, Filter(tail, OtherVariant(variant)), HasVariant(other));
      }
    }
  }

  /** Replacing a variant (delete, then insert a batch of it): the rows of
      that variant are then exactly the batch. */
  lemma ReplaceVariant(rows: seq<Row>, batch: seq<Row>, variant: string)
    requires forall i :: 0 <= i < |batch| ==> batch[i].variant == variant
    ensures Filter(Filter(rows, OtherVariant(variant)) + batch, HasVariant(variant)) == batch
  {
    var kept := Filter(rows, OtherVariant(variant));
    FilterConcat(kept, batch, HasVariant(variant));
    NoneOfVariant(kept, variant);
    FilterAll(batch, HasVariant(variant));
  }

  lemma {:induction false} NoneOfVariant(rows: seq<Row>, variant: string)
    requires forall i :: 0 <= i < |rows| ==> rows[i].variant != variant
    ensures Filter(rows, HasVariant(variant)) == []
  {
    if rows != [] {
      NoneOfVariant(rows[1..], variant);
    }
  }

  /** The table. */
  class VectorStore {
    var rows: seq<Row>

    constructor ()
      ensures rows == []
    {
      rows := [];
    }

    /** `insert_batch(contents, vectors, variant, metadatas)`: builds every
        row first, then appends them all; when building one raises, nothing
        is written and `false` is returned. */
    method InsertBatch(contents: seq<string>, vectors: seq<seq<real>>, variant: string, metadatas: Option<seq<Meta>>)
      returns (ok: bool)
      modifies this
      ensures ok == BatchRows(contents, vectors, variant, metadatas).Some?
      ensures ok ==> rows == old(rows) + BatchRows(contents, vectors, variant, metadatas).value
      ensures !ok ==> rows == old(rows)
    {
      var metas := MetaList(contents, metadatas);
      var n := Min3(|contents|, |vectors|, |metas|);
      var data: seq<Row> := [];
      var i := 0;
      while i < n
        invariant 0 <= i <= n
        invariant BuildRows(contents, vectors, variant, metas, i) == Some(data)
      {
        var searchText := SearchText(contents[i], metas[i]);
        if searchText.None? {
          return false;
        }
        data := data + [Row(contents[i], vectors[i], variant, metas[i], searchText.value)];
        i := i + 1;
      }
      rows := rows + data;
      return true;
    }

    /** `delete_variant(variant)`. */
    method DeleteVariant(variant: string)
      modifies this
      ensures rows == Filter(old(rows), OtherVariant(variant))
    {
      rows := Filter(rows, OtherVariant(variant));
    }

    /** `variant_exists(variant)` on the current table. */
    function Exists(variant: string): (r: bool)
      reads this
      ensures r <==> exists i :: 0 <= i < |rows| && rows[i].variant == variant
    {
      VariantExists(rows, variant)
    }
  }

  // ---------------------------------------------------------------------
  // Rankings

  /** An order Postgres produces: distinct positions of the table. */
  predicate IsRanking(order: seq<nat>, n: nat) {
    && (forall k :: 0 <= k < |order| ==> order[k] < n)
    && (forall a, b :: 0 <= a < b < |order| ==> order[a] != order[b])
  }

  /** `LIMIT n`. */
  function Limit<T>(s: seq<T>, n: nat): (r: seq<T>)
    ensures |r| == if |s| <= n then |s| else n
    ensures forall k :: 0 <= k < |r| ==> r[k] == s[k]
  {
    if |s| <= n then s else s[..n]
  }

  function OfVariant(rows: seq<Row>, variant: string): nat -> bool {
    (p: nat) => p < |rows| && rows[p].variant == variant
  }

  /** `WHERE variant = :variant ORDER BY … LIMIT limit`. */
  function Candidates(rows: seq<Row>, variant: string, order: seq<nat>, limit: nat): (r: seq<nat>)
    ensures |r| <= limit
    ensures forall k :: 0 <= k < |r| ==> r[k] < |rows| && rows[r[k]].variant == variant && r[k] in order
  {
    Limit(Filter(order, OfVariant(rows, variant)), limit)
  }

  /** The position of `p` in `order`, first occurrence; `|order|` when absent. */
  function IndexOf(order: seq<nat>, p: nat): (r: nat)
    ensures r <= |order|
    ensures r < |order| ==> order[r] == p
    ensures r == |order| <==> p !in order
    ensures forall k :: 0 <= k < r ==> order[k] != p
  {
    if order == [] then 0
    else if order[0] == p then 0
    else 1 + IndexOf(order[1..], p)
  }

  /** In a ranking every position occurs once, so it is found where it is. */
  lemma IndexOfRanking(order: seq<nat>, n: nat, k: nat)
    requires IsRanking(order, n) && k < |order|
    ensures IndexOf(order, order[k]) == k
  {
  }

  /** The reciprocal-rank score one candidate list gives position `p`:
      1/(r + 60) at 1-based rank r, 0 when `p` is not in the list. */
  function Contribution(list: seq<nat>, p: nat): (r: real)
    ensures p !in list ==> r == 0.0
    ensures p in list ==> 0.0 < r <= 1.0 / (RrfOffset + 1) as real
  {
    var i := IndexOf(list, p);
    if i == |list| then 0.0 else ReciprocalRank(i + 1)
  }

  function ReciprocalRank(rank: nat): (r: real)
    requires rank >= 1
    ensures 0.0 < r <= 1.0 / (RrfOffset + 1) as real
  {
    var d := (rank + RrfOffset) as real;
    assert d >= (RrfOffset + 1) as real;
    ReciprocalBound(d, (RrfOffset + 1) as real);
    1.0 / d
  }

  lemma ReciprocalBound(d: real, m: real)
    requires d >= m > 0.0
    ensures 0.0 < 1.0 / d <= 1.0 / m
  {
    assert 1.0 / d * d == 1.0;
    assert 1.0 / m * m == 1.0;
  }

  /** The candidate at 0-based index `r` of a candidate list scores
      1/(r + 61). */
  lemma ContributionAtRank(list: seq<nat>, n: nat, k: nat)
    requires IsRanking(list, n) && k < |list|
    ensures Contribution(list, list[k]) == 1.0 / (k + 1 + RrfOffset) as real
  {
    IndexOfRanking(list, n, k);
  }

  // ---------------------------------------------------------------------
  // `search_hybrid`

  /** The two candidate lists of one hybrid query. */
  datatype Fusion = Fusion(vector: seq<nat>, keyword: seq<nat>) {
    function Score(p: nat): real {
      Contribution(vector, p) + Contribution(keyword, p)
    }

    predicate Present(p: nat) {
      p in vector || p in keyword
    }
  }

  /** `vector_search` and `keyword_search`: the variant's rows in distance
      order and the variant's matching rows in `ts_rank` order, capped. */
  function FusionOf(rows: seq<Row>, variant: string, vectorOrder: seq<nat>, keywordOrder: seq<nat>): Fusion {
    Fusion(Candidates(rows, variant, vectorOrder, CandidateLimit),
           Candidates(rows, variant, keywordOrder, CandidateLimit))
  }

  function Positions(n: nat): (r: seq<nat>)
    ensures |r| == n && forall k :: 0 <= k < n ==> r[k] == k
  {
    seq(n, k => k)
  }

  function PresentIn(f: Fusion): nat -> bool {
    (p: nat) => f.Present(p)
  }

  /** `ORDER BY combined_score DESC`. */
  function ByScore(f: Fusion): (nat, nat) -> bool {
    (a: nat, b: nat) => f.Score(a) >= f.Score(b)
  }

  lemma ByScoreIsTotalPreorder(f: Fusion)
    ensures TotalPreorder(ByScore(f))
  {
  }

  /** The rows joined to at least one candidate list, by descending
      combined score. Postgres breaks ties in no specified order; the model
      keeps table order among equal scores. */
  function Ranked(rows: seq<Row>, f: Fusion): seq<nat> {
    SortBy(Filter(Positions(|rows|), PresentIn(f)), ByScore(f))
  }

  /** One result of `search_hybrid`. */
  datatype Hit = Hit(content: string, variant: string, metadata: Meta, score: real)

  function HitsOf(rows: seq<Row>, f: Fusion, ps: seq<nat>): (r: seq<Hit>)
    requires forall k :: 0 <= k < |ps| ==> ps[k] < |rows|
    ensures |r| == |ps|
    ensures forall k :: 0 <= k < |ps| ==> r[k] == Hit(rows[ps[k]].content, rows[ps[k]].variant, rows[ps[k]].metadata, f.Score(ps[k]))
  {
    seq(|ps|, k requires 0 <= k < |ps| => Hit(rows[ps[k]].content, rows[ps[k]].variant, rows[ps[k]].metadata, f.Score(ps[k])))
  }

  lemma RankedInRange(rows: seq<Row>, f: Fusion)
    ensures forall k :: 0 <= k < |Ranked(rows, f)| ==> Ranked(rows, f)[k] < |rows|
  {
    var all := Filter(Positions(|rows|), PresentIn(f));
    forall k | 0 <= k < |Ranked(rows, f)| ensures Ranked(rows, f)[k] < |rows| {
      var p := Ranked(rows, f)[k];
      assert p in multiset(Ranked(rows, f));
      assert p in multiset(all);
      assert p in all;
    }
  }

  /** `search_hybrid(query, vector, variant, k)`. */
  function SearchHybrid(rows: seq<Row>, variant: string, vectorOrder: seq<nat>, keywordOrder: seq<nat>, k: nat): seq<Hit> {
    var f := FusionOf(rows, variant, vectorOrder, keywordOrder);
    RankedInRange(rows, f);
    HitsOf(rows, f, Limit(Ranked(rows, f), k))
  }

  /** Each candidate list holds at most 50 rows, all of the variant, in the
      order Postgres ranked them. */
  lemma CandidateLists(rows: seq<Row>, variant: string, vectorOrder: seq<nat>, keywordOrder: seq<nat>)
    ensures var f := FusionOf(rows, variant, vectorOrder, keywordOrder);
      && |f.vector| <= CandidateLimit && |f.keyword| <= CandidateLimit
      && (forall k :: 0 <= k < |f.vector| ==> rows[f.vector[k]].variant == variant && f.vector[k] in vectorOrder)
      && (forall k :: 0 <= k < |f.keyword| ==> rows[f.keyword[k]].variant == variant && f.keyword[k] in keywordOrder)
  {
  }

  /** The ranked rows are exactly the rows present in a candidate list,
      each once. */
  lemma RankedIsUnion(rows: seq<Row>, f: Fusion)
    ensures forall p: nat :: p in Ranked(rows, f) <==> p < |rows| && f.Present(p)
    ensures multiset(Ranked(rows, f)) == multiset(Filter(Positions(|rows|), PresentIn(f)))
  {
    var all := Filter(Positions(|rows|), PresentIn(f));
    forall p: nat ensures p in Ranked(rows, f) <==> p < |rows| && f.Present(p) {
      assert p in Ranked(rows, f) <==> p in multiset(all);
      if p < |rows| && f.Present(p) {
        assert Positions(|rows|)[p] == p;
      }
    }
  }

  lemma {:induction false} ScoreOfPresent(f: Fusion, p: nat)
    requires f.Present(p)
    ensures 0.0 < f.Score(p) <= 2.0 / (RrfOffset + 1) as real
  {
  }

  /** Every hit is a row of the variant whose combined score is the sum
      of its two contributions, and lies in (0, 2/61]. */
  lemma HybridHits(rows: seq<Row>, variant: string, vectorOrder: seq<nat>, keywordOrder: seq<nat>, k: nat)
    ensures var f := FusionOf(rows, variant, vectorOrder, keywordOrder);
      var hits := SearchHybrid(rows, variant, vectorOrder, keywordOrder, k);
      forall i :: 0 <= i < |hits| ==>
        && hits[i].variant == variant
        && 0.0 < hits[i].score <= 2.0 / (RrfOffset + 1) as real
  {
    var f := FusionOf(rows, variant, vectorOrder, keywordOrder);
    var ranked := Ranked(rows, f);
    RankedInRange(rows, f);
    RankedIsUnion(rows, f);
    var hits := SearchHybrid(rows, variant, vectorOrder, keywordOrder, k);
    forall i | 0 <= i < |hits|
      ensures hits[i].variant == variant && 0.0 < hits[i].score <= 2.0 / (RrfOffset + 1) as real
    {
      var p := ranked[i];
      assert p in ranked;
      assert f.Present(p);
      ScoreOfPresent(f, p);
      if p in f.vector {
        var j :| 0 <= j < |f.vector| && f.vector[j] == p;
      } else {
        var j :| 0 <= j < |f.keyword| && f.keyword[j] == p;
      }
    }
  }

  /** The hits come in non-increasing score order, and there are `k` of
      them unless fewer rows are present in a candidate list. */
  lemma HybridOrder(rows: seq<Row>, variant: string, vectorOrder: seq<nat>, keywordOrder: seq<nat>, k: nat)
    ensures var f := FusionOf(rows, variant, vectorOrder, keywordOrder);
      var hits := SearchHybrid(rows, variant, vectorOrder, keywordOrder, k);
      && |hits| == (if |Ranked(rows, f)| <= k then |Ranked(rows, f)| else k)
      && (forall i, j :: 0 <= i < j < |hits| ==> hits[i].score >= hits[j].score)
  {
    var f := FusionOf(rows, variant, vectorOrder, keywordOrder);
    ByScoreIsTotalPreorder(f);
    SortBySorted(Filter(Positions(|rows|), PresentIn(f)), ByScore(f));
    var ranked := Ranked(rows, f);
    var hits := SearchHybrid(rows, variant, vectorOrder, keywordOrder, k);
    forall i, j | 0 <= i < j < |hits| ensures hits[i].score >= hits[j].score {
      assert ByScore(f)(ranked[i], ranked[j]);
    }
  }

  /** A row present in a candidate list is among the hits, with its
      combined score, whenever at most `k` rows are present. */
  lemma HybridCoversUnion(rows: seq<Row>, variant: string, vectorOrder: seq<nat>, keywordOrder: seq<nat>, k: nat, p: nat)
    requires p < |rows|
    ensures var f := FusionOf(rows, variant, vectorOrder, keywordOrder);
      var hits := SearchHybrid(rows, variant, vectorOrder, keywordOrder, k);
      && (f.Present(p) && |Ranked(rows, f)| <= k ==> exists i :: 0 <= i < |hits| && hits[i].score == f.Score(p) && hits[i].content == rows[p].content)
  {
    var f := FusionOf(rows, variant, vectorOrder, keywordOrder);
    var ranked := Ranked(rows, f);
    RankedIsUnion(rows, f);
    RankedInRange(rows, f);
    if f.Present(p) && |ranked| <= k {
      var i :| 0 <= i < |ranked| && ranked[i] == p;
      var hits := SearchHybrid(rows, variant, vectorOrder, keywordOrder, k);
      assert hits[i].score == f.Score(p);
    }
  }

  /** The positions of the rows `search_hybrid` returns. */
  function HybridPositions(rows: seq<Row>, variant: string, vectorOrder: seq<nat>, keywordOrder: seq<nat>, k: nat): seq<nat> {
    Limit(Ranked(rows, FusionOf(rows, variant, vectorOrder, keywordOrder)), k)
  }

  lemma PresentRowsDistinct(rows: seq<Row>, f: Fusion)
    ensures Distinct(Ranked(rows, f))
  {
    var all := Filter(Positions(|rows|), PresentIn(f));
    var key := (p: nat) => p as int;
    FilterKeepsIncreasing(Positions(|rows|), PresentIn(f), key);
    forall a, b | 0 <= a < b < |all| ensures all[a] != all[b] {
      assert key(all[a]) < key(all[b]);
    }
    RankedIsUnion(rows, f);
    DistinctPermutation(all, Ranked(rows, f));
  }

  /** `ORDER BY combined_score DESC LIMIT :k` keeps the best rows: the hits
      are distinct rows, each returned with its content and combined score,
      and a row present in a candidate list that was cut scores no higher
      than any hit. */
  lemma HybridKeepsBest(rows: seq<Row>, variant: string, vectorOrder: seq<nat>, keywordOrder: seq<nat>, k: nat)
    ensures var f := FusionOf(rows, variant, vectorOrder, keywordOrder);
      var kept := HybridPositions(rows, variant, vectorOrder, keywordOrder, k);
      var hits := SearchHybrid(rows, variant, vectorOrder, keywordOrder, k);
      && |hits| == |kept| && Distinct(kept)
      && (forall i :: 0 <= i < |kept| ==>
            kept[i] < |rows| && f.Present(kept[i])
            && hits[i] == Hit(rows[kept[i]].content, rows[kept[i]].variant, rows[kept[i]].metadata, f.Score(kept[i])))
      && (forall p: nat, i :: p < |rows| && f.Present(p) && p !in kept && 0 <= i < |hits| ==> f.Score(p) <= hits[i].score)
  {
    var f := FusionOf(rows, variant, vectorOrder, keywordOrder);
    var ranked := Ranked(rows, f);
    var kept := HybridPositions(rows, variant, vectorOrder, keywordOrder, k);
    var hits := SearchHybrid(rows, variant, vectorOrder, keywordOrder, k);
    assert kept == Limit(ranked, k);
    RankedIsUnion(rows, f);
    RankedInRange(rows, f);
    PresentRowsDistinct(rows, f);
    ByScoreIsTotalPreorder(f);
    SortBySorted(Filter(Positions(|rows|), PresentIn(f)), ByScore(f));
    LimitKeepsBest(ranked, f, k);
    forall i | 0 <= i < |kept| ensures f.Present(kept[i]) {
      assert kept[i] in ranked;
    }
    forall p: nat, i | p < |rows| && f.Present(p) && p !in kept && 0 <= i < |hits|
      ensures f.Score(p) <= hits[i].score
    {
      assert p in ranked;
      assert hits[i].score == f.Score(kept[i]);
    }
  }

  /** Cutting a sequence sorted by descending score keeps its distinct
      elements and drops none that scores higher than a kept one. */
  lemma LimitKeepsBest(ranked: seq<nat>, f: Fusion, k: nat)
    requires SortedBy(ranked, ByScore(f)) && Distinct(ranked)
    ensures var kept := Limit(ranked, k);
      && Distinct(kept)
      && forall p, i :: p in ranked && p !in kept && 0 <= i < |kept| ==> f.Score(p) <= f.Score(kept[i])
  {
    var kept := Limit(ranked, k);
    forall a, b | 0 <= a < b < |kept| ensures kept[a] != kept[b] {
      assert kept[a] == ranked[a] && kept[b] == ranked[b];
    }
    forall p, i | p in ranked && p !in kept && 0 <= i < |kept| ensures f.Score(p) <= f.Score(kept[i]) {
      var j :| 0 <= j < |ranked| && ranked[j] == p;
      assert i < j;
      assert ByScore(f)(ranked[i], ranked[j]);
    }
  }

  // ---------------------------------------------------------------------
  // `search`

  /** One result of `search`. */
  datatype Match = Match(content: string, variant: string, metadata: Meta)

  function MatchesOf(rows: seq<Row>, ps: seq<nat>): (r: seq<Match>)
    requires forall k :: 0 <= k < |ps| ==> ps[k] < |rows|
    ensures |r| == |ps|
    ensures forall k :: 0 <= k < |ps| ==> r[k] == Match(rows[ps[k]].content, rows[ps[k]].variant, rows[ps[k]].metadata)
  {
    seq(|ps|, k requires 0 <= k < |ps| => Match(rows[ps[k]].content, rows[ps[k]].variant, rows[ps[k]].metadata))
  }

  /** `search(vector, variant, k)`: the first `k` rows of the variant in
      distance order. */
  function Search(rows: seq<Row>, variant: string, distanceOrder: seq<nat>, k: nat): seq<Match> {
    MatchesOf(rows, Candidates(rows, variant, distanceOrder, k))
  }

  /** A row's place in a ranking. */
  function RankIn(order: seq<nat>): nat -> int {
    (p: nat) => IndexOf(order, p) as int
  }

  /** At most `k` results, every one a row of the variant. */
  lemma SearchBounds(rows: seq<Row>, variant: string, distanceOrder: seq<nat>, k: nat)
    ensures var r := Search(rows, variant, distanceOrder, k);
      && |r| <= k
      && (forall i :: 0 <= i < |r| ==> r[i].variant == variant)
  {
  }

  /** The results follow the distance order, so no row comes twice. */
  lemma SearchInDistanceOrder(rows: seq<Row>, variant: string, distanceOrder: seq<nat>, k: nat)
    requires IsRanking(distanceOrder, |rows|)
    ensures var ps := Candidates(rows, variant, distanceOrder, k);
      forall a, b :: 0 <= a < b < |ps| ==> IndexOf(distanceOrder, ps[a]) < IndexOf(distanceOrder, ps[b])
  {
    var rank := RankIn(distanceOrder);
    forall a, b | 0 <= a < b < |distanceOrder| ensures rank(distanceOrder[a]) < rank(distanceOrder[b]) {
      IndexOfRanking(distanceOrder, |rows|, a);
      IndexOfRanking(distanceOrder, |rows|, b);
    }
    var all := Filter(distanceOrder, OfVariant(rows, variant));
    FilterKeepsIncreasing<nat>(distanceOrder, OfVariant(rows, variant), rank);
    assert forall a, b :: 0 <= a < b < |all| ==> rank(all[a]) < rank(all[b]);
    var ps := Candidates(rows, variant, distanceOrder, k);
    forall a, b | 0 <= a < b < |ps| ensures IndexOf(distanceOrder, ps[a]) < IndexOf(distanceOrder, ps[b]) {
      assert ps[a] == all[a] && ps[b] == all[b];
      assert rank(all[a]) < rank(all[b]);
    }
  }
}
