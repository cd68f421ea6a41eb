/**
 * The retrieval layer over the external vector index (backend/app/vector_store.py):
 * batched indexing of knowledge articles, scripts and tickets, the single-article
 * add used by the learning loop, and the merged, score-ranked search.
 *
 * A collection is the sequence of documents added to it. The embedding and the
 * nearest-neighbour query are not modelled: a `QueryOracle` stands for them and
 * reports, for a collection, a query text and a result count, the neighbours the
 * index returns with their cosine distances.
 */
module VectorStore {
  import opened Wrappers
  import opened Text

  const KbCollection := "kb_articles"
  const ScriptsCollection := "scripts"
  const TicketsCollection := "tickets"

  /** Documents handed to the index per `add` call. */
  const BatchSize: nat := 500
  /** Stored document text is cut to this many characters. */
  const DocLimit: nat := 8000
  /** Titles in metadata and search snippets are cut to this many characters. */
  const SnippetLimit: nat := 500

  type Meta = map<string, string>

  datatype Doc = Doc(id: string, text: string, meta: Meta)

  type Collection = seq<Doc>

  /** Collections by name; a name never used is an empty collection (`_get_or_create`). */
  type Store = map<string, Collection>

  function Col(store: Store, name: string): Collection {
    if name in store then store[name] else []
  }

  /** Some document of the collection carries `id`. */
  predicate HasId(col: Collection, id: string) {
    exists i :: 0 <= i < |col| && col[i].id == id
  }

  // ---------------------------------------------------------------------------
  // Adding documents
  // ---------------------------------------------------------------------------

  /** One document added to a collection; an id already present is left as it is. */
  function AddOne(col: Collection, d: Doc): (r: Collection)
    ensures HasId(r, d.id)
    ensures HasId(col, d.id) ==> r == col
    ensures !HasId(col, d.id) ==> r == col + [d]
  {
    if HasId(col, d.id) then col
    else
      assert (col + [d])[|col|] == d;
      col + [d]
  }

  /** Documents added one after another, in order. */
  function AddDocs(col: Collection, docs: seq<Doc>): Collection
    decreases |docs|
  {
    if docs == [] then col else AddDocs(AddOne(col, docs[0]), docs[1..])
  }

  /** Adding only appends: the old documents stay in front, at most one new one per added document. */
  lemma {:induction false} AddDocsGrows(col: Collection, docs: seq<Doc>)
    ensures var r := AddDocs(col, docs);
      |col| <= |r| <= |col| + |docs| && r[..|col|] == col
    decreases |docs|
  {
    if docs != [] {
      var next := AddOne(col, docs[0]);
      AddDocsGrows(next, docs[1..]);
      var r := AddDocs(col, docs);
      assert next[..|col|] == col;
      assert r[..|col|] == r[..|next|][..|col|];
    }
  }

  /** Adding `a + b` is adding `a`, then adding `b`. */
  lemma {:induction false} AddDocsAppend(col: Collection, a: seq<Doc>, b: seq<Doc>)
    ensures AddDocs(col, a + b) == AddDocs(AddDocs(col, a), b)
    decreases |a|
  {
    if a != [] {
      assert (a + b)[0] == a[0];
      assert (a + b)[1..] == a[1..] + b;
      AddDocsAppend(AddOne(col, a[0]), a[1..], b);
    } else {
      assert a + b == b;
    }
  }

  /** After adding documents, each of their ids, and each id there before, is in the collection. */
  lemma {:induction false} AddDocsContains(col: Collection, docs: seq<Doc>)
    ensures forall i :: 0 <= i < |docs| ==> HasId(AddDocs(col, docs), docs[i].id)
    ensures forall x :: HasId(col, x) ==> HasId(AddDocs(col, docs), x)
    decreases |docs|
  {
    if docs != [] {
      var next := AddOne(col, docs[0]);
      AddDocsContains(next, docs[1..]);
      forall x | HasId(col, x) ensures HasId(next, x) {
        var k :| 0 <= k < |col| && col[k].id == x;
        assert next[k] == col[k];
      }
      forall i | 0 <= i < |docs| ensures HasId(AddDocs(col, docs), docs[i].id) {
        if i > 0 {
          assert docs[i] == docs[1..][i - 1];
        }
      }
    }
  }

  /** Documents with distinct ids, none of them stored yet, are all appended in order. */
  lemma {:induction false} AddDocsFresh(col: Collection, docs: seq<Doc>)
    requires DistinctIds(docs)
    requires forall i :: 0 <= i < |docs| ==> !HasId(col, docs[i].id)
    ensures AddDocs(col, docs) == col + docs
    decreases |docs|
  {
    if docs != [] {
      var next := AddOne(col, docs[0]);
      assert next == col + [docs[0]];
      forall i | 0 <= i < |docs[1..]| ensures !HasId(next, docs[1..][i].id) {
        assert docs[1..][i] == docs[i + 1];
      }
      AddDocsFresh(next, docs[1..]);
      assert col + [docs[0]] + docs[1..] == col + docs;
    }
  }

  /** A sheet whose ids are unique is never refused, and lands whole and in order in an empty collection. */
  lemma UniqueIdsIndexWhole(docs: seq<Doc>)
    requires DistinctIds(docs)
    ensures BatchesDistinct(docs)
    ensures AddDocs([], docs) == docs
  {
    AddDocsFresh([], docs);
    assert [] + docs == docs;
  }

  /** `min(a, b)` on naturals. */
  function Min(a: nat, b: nat): nat {
    if a <= b then a else b
  }

  /** No two documents carry the same id. */
  predicate DistinctIds(docs: seq<Doc>) {
    forall i, j :: 0 <= i < j < |docs| ==> docs[i].id != docs[j].id
  }

  /**
   * No batch repeats an id: positions `i` and `j` fall in the same batch of 500
   * exactly when `i / 500 == j / 500`. The index refuses an `add` whose id list
   * holds a repeat, while an id that is already stored is skipped.
   */
  predicate BatchesDistinct(docs: seq<Doc>) {
    forall i, j :: 0 <= i < j < |docs| && i / BatchSize == j / BatchSize ==> docs[i].id != docs[j].id
  }

  /** `start` opens the first batch of `docs` whose ids repeat. */
  predicate FirstRepeatAt(docs: seq<Doc>, start: nat) {
    && start < |docs| && start % BatchSize == 0
    && BatchesDistinct(docs[..start])
    && !DistinctIds(docs[start..Min(start + BatchSize, |docs|)])
  }

  /**
   * `_batch_add`: hands the documents to the index in slices
   * `[start, min(start + 500, total))` for `start` in `range(0, total, 500)`
   * and returns `total`. The id, text and metadata lists it slices in step are
   * one list of documents here. A slice that repeats an id is refused by the
   * index, which raises; the slices before it stay added and the rest are never
   * sent. `bounds` records the slices sent: slice `k` starts at `500 * k`, and on
   * success there are just enough of them to reach `total`.
   */
  method BatchAdd(col: Collection, docs: seq<Doc>) returns (r: Result<nat, string>, added: Collection, ghost bounds: seq<(nat, nat)>)
    ensures r.Ok? <==> BatchesDistinct(docs)
    ensures r.Ok? ==> r.value == |docs| && added == AddDocs(col, docs)
    ensures r.Err? ==> exists start: nat :: FirstRepeatAt(docs, start) && added == AddDocs(col, docs[..start])
    ensures BatchBounds(bounds, |docs|)
    ensures r.Ok? ==> (|docs| == 0 <==> bounds == [])
    ensures r.Ok? && bounds != [] ==> BatchSize * (|bounds| - 1) < |docs| <= BatchSize * |bounds|
    ensures r.Err? ==> bounds != [] && FirstRepeatAt(docs, bounds[|bounds| - 1].0)
  {
    var total := |docs|;
    added := col;
    bounds := [];
    var start := 0;
    assert docs[..0] == [];
    while start < total
      invariant start == Min(BatchSize * |bounds|, total)
      invariant bounds != [] ==> BatchSize * (|bounds| - 1) < total
      invariant added == AddDocs(col, docs[..start])
      invariant BatchBounds(bounds, total)
      invariant BatchesDistinct(docs[..start])
      decreases total - start
    {
      // the next value of `range(0, total, 500)` is `start + 500`, which is `end` unless the range is done
      var end := Min(start + BatchSize, total);
      BatchBoundsNext(bounds, total, start, end);
      bounds := bounds + [(start, end)];
      if !DistinctIds(docs[start..end]) {
        RepeatInBatch(docs, start, end);
        r := Err("duplicate ids in batch");
        return;
      }
      added := AddDocs(added, docs[start..end]);
      BatchStep(col, docs, start, end);
      DistinctStep(docs, start, end);
      start := end;
    }
    assert docs[..total] == docs;
    r := Ok(total);
  }

  /** Batch `k` starts on a multiple of 500. */
  lemma BatchStart(k: nat)
    ensures (BatchSize * k) % BatchSize == 0 && (BatchSize * k) / BatchSize == k
  {
  }

  /** Positions from `start` to `start + 500`, with `start` a multiple of 500, share a batch. */
  lemma SameBatch(start: nat, i: nat)
    requires start % BatchSize == 0 && start <= i < start + BatchSize
    ensures i / BatchSize == start / BatchSize
  {
  }

  /** A position before `start`, a multiple of 500, lies in an earlier batch than any position from `start` on. */
  lemma EarlierBatch(start: nat, i: nat, j: nat)
    requires start % BatchSize == 0 && i < start <= j
    ensures i / BatchSize < j / BatchSize
  {
  }

  /** A repeat inside the batch `[start, end)` is a repeat inside one batch of `docs`. */
  lemma RepeatInBatch(docs: seq<Doc>, start: nat, end: nat)
    requires start % BatchSize == 0 && start < end <= |docs| && end <= start + BatchSize
    requires BatchesDistinct(docs[..start])
    requires !DistinctIds(docs[start..end])
    ensures !BatchesDistinct(docs)
    ensures end == Min(start + BatchSize, |docs|) ==> FirstRepeatAt(docs, start)
  {
    var slice := docs[start..end];
    var i, j :| 0 <= i < j < |slice| && slice[i].id == slice[j].id;
    SameBatch(start, start + i);
    SameBatch(start, start + j);
    assert docs[start + i] == slice[i] && docs[start + j] == slice[j];
  }

  /** A batch free of repeats extends a repeat-free prefix. */
  lemma DistinctStep(docs: seq<Doc>, start: nat, end: nat)
    requires start % BatchSize == 0 && start <= end <= |docs| && end <= start + BatchSize
    requires BatchesDistinct(docs[..start])
    requires DistinctIds(docs[start..end])
    ensures BatchesDistinct(docs[..end])
  {
    var p := docs[..end];
    forall i, j | 0 <= i < j < |p| && i / BatchSize == j / BatchSize
      ensures p[i].id != p[j].id
    {
      if j < start {
        assert p[i] == docs[..start][i] && p[j] == docs[..start][j];
      } else if i < start {
        EarlierBatch(start, i, j);
      } else {
        assert p[i] == docs[start..end][i - start] && p[j] == docs[start..end][j - start];
      }
    }
  }

  /** Batch `k` is the slice from `500 * k` to `500 * (k + 1)`, cut off at `total`. */
  predicate BatchBounds(bounds: seq<(nat, nat)>, total: nat) {
    forall k :: 0 <= k < |bounds| ==> bounds[k] == (BatchSize * k, Min(BatchSize * k + BatchSize, total))
  }

  /** The slice `[start, end)` the loop sends next is batch number `|bounds|`, and it opens on a multiple of 500. */
  lemma BatchBoundsNext(bounds: seq<(nat, nat)>, total: nat, start: nat, end: nat)
    requires BatchBounds(bounds, total)
    requires start == Min(BatchSize * |bounds|, total) && start < total && end == Min(start + BatchSize, total)
    ensures BatchBounds(bounds + [(start, end)], total)
    ensures start % BatchSize == 0 && start / BatchSize == |bounds|
  {
    BatchStart(|bounds|);
  }

  /** Consecutive batches meet, and every batch is non-empty and at most 500 long. */
  lemma BatchesPartition(bounds: seq<(nat, nat)>, total: nat)
    requires BatchBounds(bounds, total)
    requires bounds != [] ==> BatchSize * (|bounds| - 1) < total <= BatchSize * |bounds|
    ensures forall k :: 0 < k < |bounds| ==> bounds[k].0 == bounds[k - 1].1
    ensures forall k :: 0 <= k < |bounds| ==> bounds[k].0 < bounds[k].1 <= bounds[k].0 + BatchSize
    ensures bounds != [] ==> bounds[0].0 == 0 && bounds[|bounds| - 1].1 == total
  {
    forall k | 0 <= k < |bounds| ensures bounds[k].0 < bounds[k].1 {
      assert BatchSize * k <= BatchSize * (|bounds| - 1);
    }
    forall k | 0 < k < |bounds| ensures bounds[k].0 == bounds[k - 1].1 {
      assert BatchSize * k <= BatchSize * (|bounds| - 1);
    }
  }

  /** Adding the slice `[start, end)` after the first `start` documents adds the first `end`. */
  lemma BatchStep(col: Collection, docs: seq<Doc>, start: nat, end: nat)
    requires start <= end <= |docs|
    ensures AddDocs(AddDocs(col, docs[..start]), docs[start..end]) == AddDocs(col, docs[..end])
  {
    var before, slice := docs[..start], docs[start..end];
    assert before + slice == docs[..end];
    AddDocsAppend(col, before, slice);
  }

  /** `add_kb_article`: one article into the KB collection, unless the index call fails. */
  function AddKbArticle(store: Store, id: string, text: string, meta: Meta, indexFails: bool): (r: Result<Store, string>)
    ensures indexFails <==> r.Err?
    ensures r.Ok? ==> HasId(Col(r.value, KbCollection), id)
    ensures r.Ok? ==> |Col(store, KbCollection)| <= |Col(r.value, KbCollection)|
    ensures r.Ok? ==> Col(store, KbCollection) == Col(r.value, KbCollection)[..|Col(store, KbCollection)|]
    ensures r.Ok? ==> forall name :: name != KbCollection ==> Col(r.value, name) == Col(store, name)
    ensures r.Ok? && !HasId(Col(store, KbCollection), id) ==>
      Col(r.value, KbCollection) == Col(store, KbCollection) + [Doc(id, Take(text, DocLimit), meta)]
  {
    if indexFails then Err("index write failed")
    else Ok(store[KbCollection := AddOne(Col(store, KbCollection), Doc(id, Take(text, DocLimit), meta))])
  }

  // ---------------------------------------------------------------------------
  // Indexing the seed sheets
  // ---------------------------------------------------------------------------

  /** Keeps the rows `keep` accepts, turning each into a document, in order. */
  function Stage(rows: seq<Row>, keep: Row -> bool, toDoc: Row -> Doc): (docs: seq<Doc>)
    ensures |docs| <= |rows|
    ensures forall d :: d in docs ==> exists row :: row in rows && keep(row) && toDoc(row) == d
    ensures forall row :: row in rows && keep(row) ==> toDoc(row) in docs
  {
    if rows == [] then []
    else
      var rest := Stage(rows[1..], keep, toDoc);
      assert forall row :: row in rows[1..] ==> row in rows;
      assert forall row :: row in rows ==> row == rows[0] || row in rows[1..];
      if keep(rows[0]) then [toDoc(rows[0])] + rest else rest
  }

  /** What every staged document satisfies: an id, a bounded text, a doc type and a bounded title. */
  predicate WellStaged(d: Doc, docType: string) {
    && d.id != "" && |d.text| <= DocLimit
    && "doc_type" in d.meta && d.meta["doc_type"] == docType
    && "title" in d.meta && |d.meta["title"]| <= SnippetLimit
  }

  function KbText(a: Row): string {
    Field(a, "Title") + "\n" + Field(a, "Body")
  }

  /**
   * A KB row is indexed when it has an id and its text is not blank
   * (`text.strip()` is empty exactly when the text is all whitespace).
   */
  predicate KbIndexable(a: Row) {
    Field(a, "KB_Article_ID") != "" && !AllSpace(KbText(a))
  }

  /** Metadata with the title cut to 500 characters and the document type set. */
  function StagedMeta(extra: Meta, title: string, docType: string): (m: Meta)
    ensures "title" in m && m["title"] == Take(title, SnippetLimit)
    ensures "doc_type" in m && m["doc_type"] == docType
  {
    extra["title" := Take(title, SnippetLimit)]["doc_type" := docType]
  }

  function KbDoc(a: Row): (d: Doc)
    ensures d.id == Field(a, "KB_Article_ID")
    ensures d.id != "" ==> WellStaged(d, "kb_article")
  {
    Doc(Field(a, "KB_Article_ID"), Take(KbText(a), DocLimit),
        StagedMeta(map["module" := Field(a, "Module"), "category" := Field(a, "Category"),
                       "source_type" := Field(a, "Source_Type")], Field(a, "Title"), "kb_article"))
  }

  function ScriptText(s: Row): string {
    Field(s, "Script_Title") + "\nPurpose: " + Field(s, "Script_Purpose") + "\nInputs: "
    + Field(s, "Script_Inputs") + "\nModule: " + Field(s, "Module") + " / " + Field(s, "Category")
  }

  predicate ScriptIndexable(s: Row) {
    Field(s, "Script_ID") != ""
  }

  function ScriptDoc(s: Row): (d: Doc)
    ensures d.id == Field(s, "Script_ID")
    ensures d.id != "" ==> WellStaged(d, "script")
  {
    Doc(Field(s, "Script_ID"), Take(ScriptText(s), DocLimit),
        StagedMeta(map["module" := Field(s, "Module"), "category" := Field(s, "Category")],
                   Field(s, "Script_Title"), "script"))
  }

  function TicketText(t: Row): string {
    "Subject: " + Field(t, "Subject") + "\nDescription: " + Field(t, "Description")
    + "\nResolution: " + Field(t, "Resolution") + "\nRoot Cause: " + Field(t, "Root_Cause")
  }

  predicate TicketIndexable(t: Row) {
    Field(t, "Ticket_Number") != ""
  }

  function TicketDoc(t: Row): (d: Doc)
    ensures d.id == Field(t, "Ticket_Number")
    ensures d.id != "" ==> WellStaged(d, "ticket")
  {
    Doc(Field(t, "Ticket_Number"), Take(TicketText(t), DocLimit),
        StagedMeta(map["module" := Field(t, "Module"), "category" := Field(t, "Category"),
                       "tier" := Field(t, "Tier"), "status" := Field(t, "Status")], Field(t, "Subject"), "ticket"))
  }

  /** The KB rows `index_kb_articles` hands to the index: exactly the rows with an id and non-blank text. */
  function StageKb(articles: seq<Row>): (docs: seq<Doc>)
    ensures forall d :: d in docs ==> WellStaged(d, "kb_article")
    ensures forall a :: a in articles && KbIndexable(a) ==> KbDoc(a) in docs
    ensures forall d :: d in docs ==> exists a :: a in articles && KbIndexable(a) && d == KbDoc(a)
  {
    Stage(articles, KbIndexable, KbDoc)
  }

  /** The script rows `index_scripts` hands to the index: exactly the rows with an id. */
  function StageScripts(scripts: seq<Row>): (docs: seq<Doc>)
    ensures forall d :: d in docs ==> WellStaged(d, "script")
    ensures forall s :: s in scripts && ScriptIndexable(s) ==> ScriptDoc(s) in docs
    ensures forall d :: d in docs ==> exists s :: s in scripts && ScriptIndexable(s) && d == ScriptDoc(s)
  {
    Stage(scripts, ScriptIndexable, ScriptDoc)
  }

  /** The ticket rows `index_tickets` hands to the index: exactly the rows with a ticket number. */
  function StageTickets(tickets: seq<Row>): (docs: seq<Doc>)
    ensures forall d :: d in docs ==> WellStaged(d, "ticket")
    ensures forall t :: t in tickets && TicketIndexable(t) ==> TicketDoc(t) in docs
    ensures forall d :: d in docs ==> exists t :: t in tickets && TicketIndexable(t) && d == TicketDoc(t)
  {
    Stage(tickets, TicketIndexable, TicketDoc)
  }

  /**
   * The shared shape of the three `index_*` methods: a populated collection is
   * left alone and its size reported; an empty one receives the staged batch,
   * and the call raises when a batch repeats an id, keeping the batches before it.
   */
  method IndexInto(store: Store, name: string, docs: seq<Doc>) returns (r: Result<nat, string>, after: Store)
    ensures |Col(store, name)| > 0 ==> r == Ok(|Col(store, name)|) && after == store
    ensures |Col(store, name)| == 0 ==> (r.Ok? <==> BatchesDistinct(docs))
    ensures |Col(store, name)| == 0 && r.Ok? ==> r.value == |docs| && after == store[name := AddDocs([], docs)]
    ensures |Col(store, name)| == 0 && r.Err? ==>
      exists start: nat :: FirstRepeatAt(docs, start) && after == store[name := AddDocs([], docs[..start])]
  {
    var col := Col(store, name);
    if |col| > 0 {
      return Ok(|col|), store;
    }
    var res, added, _ := BatchAdd(col, docs);
    r := res;
    after := store[name := added];
  }

  method IndexKbArticles(store: Store, articles: seq<Row>) returns (r: Result<nat, string>, after: Store)
    ensures |Col(store, KbCollection)| > 0 ==> r == Ok(|Col(store, KbCollection)|) && after == store
    ensures |Col(store, KbCollection)| == 0 ==> (r.Ok? <==> BatchesDistinct(StageKb(articles)))
    ensures |Col(store, KbCollection)| == 0 && r.Ok? ==>
      r.value == |StageKb(articles)| && after == store[KbCollection := AddDocs([], StageKb(articles))]
    ensures |Col(store, KbCollection)| == 0 && r.Err? ==>
      exists start: nat :: FirstRepeatAt(StageKb(articles), start) && after == store[KbCollection := AddDocs([], StageKb(articles)[..start])]
  {
    r, after := IndexInto(store, KbCollection, StageKb(articles));
  }

  method IndexScripts(store: Store, scripts: seq<Row>) returns (r: Result<nat, string>, after: Store)
    ensures |Col(store, ScriptsCollection)| > 0 ==> r == Ok(|Col(store, ScriptsCollection)|) && after == store
    ensures |Col(store, ScriptsCollection)| == 0 ==> (r.Ok? <==> BatchesDistinct(StageScripts(scripts)))
    ensures |Col(store, ScriptsCollection)| == 0 && r.Ok? ==>
      r.value == |StageScripts(scripts)| && after == store[ScriptsCollection := AddDocs([], StageScripts(scripts))]
    ensures |Col(store, ScriptsCollection)| == 0 && r.Err? ==>
      exists start: nat :: FirstRepeatAt(StageScripts(scripts), start) && after == store[ScriptsCollection := AddDocs([], StageScripts(scripts)[..start])]
  {
    r, after := IndexInto(store, ScriptsCollection, StageScripts(scripts));
  }

  method IndexTickets(store: Store, tickets: seq<Row>) returns (r: Result<nat, string>, after: Store)
    ensures |Col(store, TicketsCollection)| > 0 ==> r == Ok(|Col(store, TicketsCollection)|) && after == store
    ensures |Col(store, TicketsCollection)| == 0 ==> (r.Ok? <==> BatchesDistinct(StageTickets(tickets)))
    ensures |Col(store, TicketsCollection)| == 0 && r.Ok? ==>
      r.value == |StageTickets(tickets)| && after == store[TicketsCollection := AddDocs([], StageTickets(tickets))]
    ensures |Col(store, TicketsCollection)| == 0 && r.Err? ==>
      exists start: nat :: FirstRepeatAt(StageTickets(tickets), start) && after == store[TicketsCollection := AddDocs([], StageTickets(tickets)[..start])]
  {
    r, after := IndexInto(store, TicketsCollection, StageTickets(tickets));
  }

  // ---------------------------------------------------------------------------
  // Search
  // ---------------------------------------------------------------------------

  /** One neighbour as the index reports it; a list the index left out shows up as `None`. */
  datatype Neighbour = Neighbour(id: string, distance: Option<real>, meta: Option<Meta>, text: Option<string>)

  /** The external nearest-neighbour query: collection, query text, `n_results`. */
  type QueryOracle = (Collection, string, nat) -> seq<Neighbour>

  /** An index that never returns more neighbours than asked for. */
  ghost predicate Honest(query: QueryOracle) {
    forall col, q, n :: |query(col, q, n)| <= n
  }

  /** One merged search result. */
  datatype Hit = Hit(id: string, docType: string, title: string, snippet: string, score: real, meta: Meta)

  /** Similarity from a cosine distance, `max(0, 1 - distance)`; a missing distance counts as 1. */
  function Score(distance: Option<real>): (s: real)
    ensures s >= 0.0
    ensures s >= 1.0 - distance.GetOr(1.0)
    ensures s == 0.0 || s == 1.0 - distance.GetOr(1.0)
    ensures distance.Some? && distance.value >= 0.0 ==> s <= 1.0
    ensures distance.None? ==> s == 0.0
  {
    var d := distance.GetOr(1.0);
    if 1.0 - d > 0.0 then 1.0 - d else 0.0
  }

  function MetaOr(meta: Option<Meta>, key: string, default: string): string {
    if meta.Some? && key in meta.value then meta.value[key] else default
  }

  /** A neighbour from collection `name` as a search result. */
  function ToHit(name: string, n: Neighbour): (h: Hit)
    ensures h.id == n.id && h.score >= 0.0
    ensures |h.snippet| <= SnippetLimit
    ensures h.docType == MetaOr(n.meta, "doc_type", name)
  {
    Hit(n.id, MetaOr(n.meta, "doc_type", name), MetaOr(n.meta, "title", ""),
        Take(n.text.GetOr(""), SnippetLimit), Score(n.distance), n.meta.GetOr(map[]))
  }

  /** What one collection contributes: nothing when empty, else its neighbours for `min(top_k, count)`. */
  function CollectionHits(store: Store, name: string, query: string, topK: nat, oracle: QueryOracle): (hs: seq<Hit>)
    ensures |Col(store, name)| == 0 ==> hs == []
    ensures forall i :: 0 <= i < |hs| ==> hs[i].score >= 0.0 && |hs[i].snippet| <= SnippetLimit
  {
    var col := Col(store, name);
    if |col| == 0 then []
    else
      var ns := oracle(col, query, Min(topK, |col|));
      seq(|ns|, i requires 0 <= i < |ns| => ToHit(name, ns[i]))
  }

  /** An honest index gives each collection at most `min(top_k, count)` hits. */
  lemma CollectionHitsBound(store: Store, name: string, query: string, topK: nat, oracle: QueryOracle)
    requires Honest(oracle)
    ensures |CollectionHits(store, name, query, topK, oracle)| <= Min(topK, |Col(store, name)|)
  {
    var col := Col(store, name);
    if |col| > 0 {
      assert |oracle(col, query, Min(topK, |col|))| <= Min(topK, |col|);
    }
  }

  /** The hits of the named collections, concatenated in the order the names are given. */
  function Merge(store: Store, names: seq<string>, query: string, topK: nat, oracle: QueryOracle): (hs: seq<Hit>)
    ensures forall i :: 0 <= i < |hs| ==> hs[i].score >= 0.0 && |hs[i].snippet| <= SnippetLimit
  {
    if names == [] then []
    else CollectionHits(store, names[0], query, topK, oracle) + Merge(store, names[1..], query, topK, oracle)
  }

  predicate SortedByScore(hs: seq<Hit>) {
    forall i, j :: 0 <= i < j < |hs| ==> hs[i].score >= hs[j].score
  }

  /** The hits with score exactly `v`, in their order. */
  function WithScore(hs: seq<Hit>, v: real): seq<Hit> {
    if hs == [] then []
    else (if hs[0].score == v then [hs[0]] else []) + WithScore(hs[1..], v)
  }

  /** Insertion of `x` before the first hit that does not score strictly higher. */
  function Insert(x: Hit, hs: seq<Hit>): (r: seq<Hit>)
    ensures |r| == |hs| + 1
    ensures multiset(r) == multiset(hs) + multiset{x}
    ensures r[0] == x || (hs != [] && r[0] == hs[0])
  {
    if hs == [] || hs[0].score <= x.score then [x] + hs
    else
      assert hs == [hs[0]] + hs[1..];
      [hs[0]] + Insert(x, hs[1..])
  }

  /** Inserting into a ranked list keeps it ranked. */
  lemma {:induction false} InsertSorted(x: Hit, hs: seq<Hit>)
    requires SortedByScore(hs)
    ensures SortedByScore(Insert(x, hs))
  {
    if hs != [] && hs[0].score > x.score {
      var rest := Insert(x, hs[1..]);
      InsertSorted(x, hs[1..]);
      assert hs[0].score >= rest[0].score;
      var r := [hs[0]] + rest;
      forall i, j | 0 <= i < j < |r| ensures r[i].score >= r[j].score {
        if i == 0 {
          assert r[j] == rest[j - 1];
          assert rest[0].score >= rest[j - 1].score || j - 1 == 0;
        } else {
          assert r[i] == rest[i - 1] && r[j] == rest[j - 1];
        }
      }
    }
  }

  /**
   * `list.sort(key=score, reverse=True)`: Python's sort is stable, so this is the
   * unique ordering by non-increasing score that keeps equal scores in input order.
   */
  function SortByScore(hs: seq<Hit>): (r: seq<Hit>)
    ensures multiset(r) == multiset(hs) && |r| == |hs|
    ensures SortedByScore(r)
  {
    if hs == [] then []
    else
      var rest := SortByScore(hs[1..]);
      InsertSorted(hs[0], rest);
      assert hs == [hs[0]] + hs[1..];
      Insert(hs[0], rest)
  }

  lemma {:induction false} InsertWithScore(x: Hit, hs: seq<Hit>, v: real)
    ensures WithScore(Insert(x, hs), v) == (if x.score == v then [x] else []) + WithScore(hs, v)
  {
    if hs == [] || hs[0].score <= x.score {
      assert ([x] + hs)[1..] == hs;
    } else {
      InsertWithScore(x, hs[1..], v);
      assert ([hs[0]] + Insert(x, hs[1..]))[1..] == Insert(x, hs[1..]);
    }
  }

  /** Stability: sorting never reorders hits of equal score. */
  lemma {:induction false} SortByScoreStable(hs: seq<Hit>, v: real)
    ensures WithScore(SortByScore(hs), v) == WithScore(hs, v)
  {
    if hs != [] {
      SortByScoreStable(hs[1..], v);
      InsertWithScore(hs[0], SortByScore(hs[1..]), v);
    }
  }

  /** `None` for the collection list means all three collections. */
  function Targets(collections: Option<seq<string>>): seq<string> {
    collections.GetOr([KbCollection, ScriptsCollection, TicketsCollection])
  }

  /**
   * The best `topK` hits: a stable sort by non-increasing score, then the first
   * `topK`. The result is ranked, drawn from the input, and nothing left out
   * scores higher than anything kept.
   */
  function Top(hs: seq<Hit>, topK: nat): (r: seq<Hit>)
    ensures |r| == Min(topK, |hs|)
    ensures SortedByScore(r)
    ensures multiset(r) <= multiset(hs)
    ensures forall h: Hit, i :: h in multiset(hs) - multiset(r) && 0 <= i < |r| ==> h.score <= r[i].score
  {
    TopBest(hs, topK);
    Take(SortByScore(hs), topK)
  }

  /** `VectorStore.search`: merge the collections' hits, rank by score, keep the best `top_k`. */
  function Search(store: Store, query: string, collections: Option<seq<string>>, topK: nat, oracle: QueryOracle): (r: seq<Hit>)
    ensures var merged := Merge(store, Targets(collections), query, topK, oracle);
      && |r| == Min(topK, |merged|)
      && SortedByScore(r)
      && multiset(r) <= multiset(merged)
      && (forall h: Hit, i :: h in multiset(merged) - multiset(r) && 0 <= i < |r| ==> h.score <= r[i].score)
    ensures forall i :: 0 <= i < |r| ==> r[i].score >= 0.0 && |r[i].snippet| <= SnippetLimit
  {
    var merged := Merge(store, Targets(collections), query, topK, oracle);
    var r := Top(merged, topK);
    forall i | 0 <= i < |r| ensures r[i].score >= 0.0 && |r[i].snippet| <= SnippetLimit {
      assert r[i] in multiset(merged);
    }
    r
  }

  /**
   * Of a ranking that keeps the best `topK > 0` hits, the first is as good as
   * any candidate, and the ranking is empty only when there were no candidates.
   */
  lemma RankedHeadIsBest(merged: seq<Hit>, r: seq<Hit>, topK: nat)
    requires topK > 0
    requires |r| == Min(topK, |merged|) && SortedByScore(r) && multiset(r) <= multiset(merged)
    requires forall h: Hit, i :: h in multiset(merged) - multiset(r) && 0 <= i < |r| ==> h.score <= r[i].score
    ensures r == [] <==> merged == []
    ensures r != [] ==> forall h :: h in merged ==> h.score <= r[0].score
  {
    if r != [] {
      forall h | h in merged ensures h.score <= r[0].score {
        if h !in multiset(r) {
          assert h in multiset(merged) - multiset(r);
        } else {
          var k :| 0 <= k < |r| && r[k] == h;
        }
      }
    }
  }

  /** The hits of a prefix with a given score form a prefix of the whole list's. */
  lemma {:induction false} WithScorePrefix(hs: seq<Hit>, n: nat, v: real)
    requires n <= |hs|
    ensures WithScore(hs[..n], v) <= WithScore(hs, v)
  {
    if n > 0 {
      assert hs[..n][1..] == hs[1..][..n - 1];
      WithScorePrefix(hs[1..], n - 1, v);
    }
  }

  /**
   * Equal scores keep the order of the merged list (which lists the collections
   * in the order they were passed): the returned hits of any one score are the
   * first ones of that score in the merged list.
   */
  lemma SearchKeepsTieOrder(store: Store, query: string, collections: Option<seq<string>>, topK: nat, oracle: QueryOracle, v: real)
    ensures WithScore(Search(store, query, collections, topK, oracle), v)
         <= WithScore(Merge(store, Targets(collections), query, topK, oracle), v)
  {
    TopKeepsTieOrder(Merge(store, Targets(collections), query, topK, oracle), topK, v);
  }

  lemma TopKeepsTieOrder(hs: seq<Hit>, topK: nat, v: real)
    ensures WithScore(Top(hs, topK), v) <= WithScore(hs, v)
  {
    var sorted := SortByScore(hs);
    SortByScoreStable(hs, v);
    WithScorePrefix(sorted, |Take(sorted, topK)|, v);
  }

  /** What a ranked list leaves after its first `n` entries scores no higher than any of them. */
  lemma RankedTail(sorted: seq<Hit>, n: nat, h: Hit)
    requires SortedByScore(sorted) && n <= |sorted|
    requires h in multiset(sorted[n..])
    ensures forall i :: 0 <= i < n ==> h.score <= sorted[i].score
  {
    var tail := sorted[n..];
    assert h in tail;
    var j :| 0 <= j < |tail| && tail[j] == h;
    assert sorted[n + j] == h;
  }

  /** Keeping the best `topK` of a ranked copy leaves out nothing that scores higher. */
  lemma TopBest(merged: seq<Hit>, topK: nat)
    ensures var r := Take(SortByScore(merged), topK);
            && SortedByScore(r)
            && multiset(r) <= multiset(merged)
            && forall h: Hit, i :: h in multiset(merged) - multiset(r) && 0 <= i < |r| ==> h.score <= r[i].score
  {
    var sorted := SortByScore(merged);
    var r := Take(sorted, topK);
    RankedPrefix(sorted, |r|);
  }

  /** The first `n` of a ranked list are ranked, and nothing after them scores higher. */
  lemma RankedPrefix(sorted: seq<Hit>, n: nat)
    requires SortedByScore(sorted) && n <= |sorted|
    ensures SortedByScore(sorted[..n])
    ensures multiset(sorted[..n]) <= multiset(sorted)
    ensures forall h: Hit, i :: h in multiset(sorted) - multiset(sorted[..n]) && 0 <= i < n ==> h.score <= sorted[i].score
  {
    PrefixSplit(sorted, n);
    forall h: Hit | h in multiset(sorted) - multiset(sorted[..n])
      ensures forall i :: 0 <= i < n ==> h.score <= sorted[i].score
    {
      RankedTail(sorted, n, h);
    }
  }

  lemma PrefixSplit(s: seq<Hit>, n: nat)
    requires n <= |s|
    ensures multiset(s) == multiset(s[..n]) + multiset(s[n..])
  {
    assert s == s[..n] + s[n..];
  }

  /** With an honest index the merged list holds at most `min(top_k, count)` hits per collection. */
  lemma {:induction false} MergeBound(store: Store, names: seq<string>, query: string, topK: nat, oracle: QueryOracle)
    requires Honest(oracle)
    ensures |Merge(store, names, query, topK, oracle)| <= |names| * topK
  {
    if names != [] {
      CollectionHitsBound(store, names[0], query, topK, oracle);
      MergeBound(store, names[1..], query, topK, oracle);
      assert |names| * topK == (|names| - 1) * topK + topK;
    }
  }
}
