/**
 * Writing an approved article into the in-memory data (backend/app/main.py):
 * the upsert of its record into the article rows and the id lookup, and the
 * duplicate-free append of its lineage rows.
 */
module KbRecords {
  import opened Wrappers
  import opened Text
  import opened LearningState

  // ---------------------------------------------------------------------------
  // Article upsert
  // ---------------------------------------------------------------------------

  /** `row.get("KB_Article_ID") == article_id`. */
  predicate Carries(row: Row, id: string) {
    "KB_Article_ID" in row && row["KB_Article_ID"] == id
  }

  /** The position of the first row carrying `id`. */
  function FirstCarrying(rows: seq<Row>, id: string): (r: Option<nat>)
    ensures r.Some? ==> r.value < |rows| && Carries(rows[r.value], id)
    ensures r.Some? ==> forall j :: 0 <= j < r.value ==> !Carries(rows[j], id)
    ensures r.None? ==> forall j :: 0 <= j < |rows| ==> !Carries(rows[j], id)
  {
    if rows == [] then None
    else if Carries(rows[0], id) then Some(0)
    else
      var r := FirstCarrying(rows[1..], id);
      if r.Some? then Some(r.value + 1) else None
  }

  /** The eight fields of an article record. */
  function ArticleRecord(id: string, title: string, body: string, tags: string, moduleName: string,
                         category: string, sourceType: string, createdAt: string): Row {
    map["KB_Article_ID" := id, "Title" := title, "Body" := body, "Tags" := tags, "Module" := moduleName,
        "Category" := category, "Source_Type" := sourceType, "Created_At" := createdAt]
  }

  /** An article record reads back the values it was built from. */
  lemma ArticleRecordReads(id: string, title: string, body: string, tags: string, moduleName: string,
                           category: string, sourceType: string, createdAt: string)
    ensures var r := ArticleRecord(id, title, body, tags, moduleName, category, sourceType, createdAt);
      && Field(r, "KB_Article_ID") == id && Field(r, "Title") == title && Field(r, "Body") == body
      && Field(r, "Source_Type") == sourceType
  {
  }

  /** A row holds every field of a record with the record's value (`row.update(record)` does this). */
  predicate Includes(row: Row, record: Row) {
    forall k :: k in record ==> k in row && row[k] == record[k]
  }

  /** The creation time an upsert keeps: the stored one of an existing record, else now. */
  function CreatedAt(existing: Option<Row>, now: string): string {
    if Found(existing) then FieldOr(existing.value, "Created_At", now) else now
  }

  /**
   * The article rows after an upsert of `record`: when the lookup knew the id,
   * the first row carrying it is updated in place (`row.update(record)`); when
   * no row carries it, or the lookup did not know it, the record is appended.
   */
  function UpsertRows(rows: seq<Row>, id: string, record: Row, known: bool): (r: seq<Row>)
    requires Carries(record, id)
    ensures |r| == |rows| + 1 <==> !(known && FirstCarrying(rows, id).Some?)
    ensures |rows| <= |r| <= |rows| + 1
    ensures |r| == |rows| + 1 ==> r[|rows|] == record
    ensures forall i :: 0 <= i < |rows| && !Carries(rows[i], id) ==> r[i] == rows[i]
    ensures forall i :: 0 <= i < |rows| && r[i] != rows[i] ==> FirstCarrying(rows, id) == Some(i)
    ensures exists i :: 0 <= i < |r| && Carries(r[i], id) && Includes(r[i], record)
    ensures forall i :: 0 <= i < |rows| && r[i] != rows[i] ==> Includes(r[i], record)
    ensures forall i, k :: 0 <= i < |rows| && k in rows[i] && k !in record ==> k in r[i] && r[i][k] == rows[i][k]
    ensures forall i, k :: 0 <= i < |rows| && k in r[i] ==> k in rows[i] || k in record
  {
    if known && FirstCarrying(rows, id).Some? then
      var i := FirstCarrying(rows, id).value;
      assert Includes(rows[i] + record, record);
      rows[i := rows[i] + record]
    else
      assert (rows + [record])[|rows|] == record;
      rows + [record]
  }

  /**
   * `_upsert_kb_article_record`: the lookup maps the id to the new record, which
   * keeps an existing record's creation time, and nothing else in the lookup
   * changes; the article rows are upserted as `UpsertRows` says.
   */
  function UpsertArticle(st: State, id: string, title: string, body: string, tags: string,
                         moduleName: string, category: string, sourceType: string, now: string): (r: State)
    ensures id in r.kbArticles && r.kbArticles == st.kbArticles[id := r.kbArticles[id]]
    ensures r.kbArticles[id] == ArticleRecord(id, title, body, tags, moduleName, category, sourceType,
                                              CreatedAt(Get(st.kbArticles, id), now))
    ensures r == st.(articles := UpsertRows(st.articles, id, r.kbArticles[id], Found(Get(st.kbArticles, id))),
                     kbArticles := r.kbArticles)
  {
    var existing := Get(st.kbArticles, id);
    var record := ArticleRecord(id, title, body, tags, moduleName, category, sourceType, CreatedAt(existing, now));
    st.(articles := UpsertRows(st.articles, id, record, Found(existing)), kbArticles := st.kbArticles[id := record])
  }

  /** Every id the lookup knows is carried by some article row. */
  predicate LookupBacked(st: State) {
    forall k :: k in st.kbArticles ==> exists i :: 0 <= i < |st.articles| && Carries(st.articles[i], k)
  }

  /** An upsert keeps every lookup id backed by an article row. */
  lemma UpsertKeepsLookupBacked(st: State, id: string, title: string, body: string, tags: string,
                                moduleName: string, category: string, sourceType: string, now: string)
    requires LookupBacked(st)
    ensures LookupBacked(UpsertArticle(st, id, title, body, tags, moduleName, category, sourceType, now))
  {
    var r := UpsertArticle(st, id, title, body, tags, moduleName, category, sourceType, now);
    forall k | k in r.kbArticles ensures exists i :: 0 <= i < |r.articles| && Carries(r.articles[i], k) {
      if k != id {
        var i :| 0 <= i < |st.articles| && Carries(st.articles[i], k);
        assert Carries(r.articles[i], k);
      }
    }
  }

  /**
   * Upserting the same article twice is the same as upserting it once, when
   * the id is either known to the lookup or carried by no row.
   */
  lemma UpsertIdempotent(st: State, id: string, title: string, body: string, tags: string,
                         moduleName: string, category: string, sourceType: string, now: string)
    requires Found(Get(st.kbArticles, id)) || FirstCarrying(st.articles, id).None?
    ensures var once := UpsertArticle(st, id, title, body, tags, moduleName, category, sourceType, now);
            UpsertArticle(once, id, title, body, tags, moduleName, category, sourceType, now) == once
  {
    var once := UpsertArticle(st, id, title, body, tags, moduleName, category, sourceType, now);
    var twice := UpsertArticle(once, id, title, body, tags, moduleName, category, sourceType, now);
    var record := once.kbArticles[id];
    assert Get(once.kbArticles, id) == Some(record);
    assert CreatedAt(Get(once.kbArticles, id), now) == record["Created_At"];
    assert twice.kbArticles == once.kbArticles;
    var i := FirstCarrying(once.articles, id).value;
    assert once.articles[i] + record == once.articles[i];
  }

  // ---------------------------------------------------------------------------
  // Lineage append
  // ---------------------------------------------------------------------------

  /** What makes a lineage row a duplicate: article, source id, source type, relationship. */
  datatype LineageKey = LineageKey(articleId: string, sourceId: string, sourceType: string, relationship: string)

  /** The key of a stored lineage row, each missing field read as "". */
  function KeyOf(row: Row): LineageKey {
    LineageKey(Field(row, "KB_Article_ID"), Field(row, "Source_ID"), Field(row, "Source_Type"), Field(row, "Relationship"))
  }

  function SourceKey(articleId: string, src: Source): LineageKey {
    LineageKey(articleId, src.sourceId, src.sourceType, src.relationship)
  }

  /** The lineage row written for a source. */
  function LineageRow(articleId: string, src: Source): (row: Row)
    ensures KeyOf(row) == SourceKey(articleId, src)
  {
    map["KB_Article_ID" := articleId, "Source_ID" := src.sourceId, "Source_Type" := src.sourceType,
        "Relationship" := src.relationship]
  }

  predicate HasKey(rows: seq<Row>, key: LineageKey) {
    exists i :: 0 <= i < |rows| && KeyOf(rows[i]) == key
  }

  /** No two lineage rows share a key. */
  predicate DistinctKeys(rows: seq<Row>) {
    forall i, j :: 0 <= i < j < |rows| ==> KeyOf(rows[i]) != KeyOf(rows[j])
  }

  /** One source of `_append_kb_lineage`: skipped without an id or when its key is present, else appended. */
  function AppendSource(rows: seq<Row>, articleId: string, src: Source): (r: seq<Row>)
    ensures HasKey(r, SourceKey(articleId, src)) || src.sourceId == ""
    ensures r == rows || (r == rows + [LineageRow(articleId, src)] && !HasKey(rows, SourceKey(articleId, src)))
    ensures src.sourceId == "" ==> r == rows
  {
    if src.sourceId == "" || HasKey(rows, SourceKey(articleId, src)) then rows
    else
      var r := rows + [LineageRow(articleId, src)];
      assert KeyOf(r[|rows|]) == SourceKey(articleId, src);
      r
  }

  /** `_append_kb_lineage`: the sources in order, each appended unless skipped. */
  function AppendLineage(rows: seq<Row>, articleId: string, sources: seq<Source>): seq<Row>
    decreases |sources|
  {
    if sources == [] then rows
    else AppendLineage(AppendSource(rows, articleId, sources[0]), articleId, sources[1..])
  }

  /** Appending only: the old rows stay in front, and every new row is one of the sources' rows. */
  lemma {:induction false} AppendLineageOnlyAppends(rows: seq<Row>, articleId: string, sources: seq<Source>)
    ensures var r := AppendLineage(rows, articleId, sources);
      && |rows| <= |r| <= |rows| + |sources|
      && r[..|rows|] == rows
      && forall j :: |rows| <= j < |r| ==>
           exists s :: s in sources && s.sourceId != "" && r[j] == LineageRow(articleId, s)
    decreases |sources|
  {
    if sources != [] {
      var once := AppendSource(rows, articleId, sources[0]);
      AppendLineageOnlyAppends(once, articleId, sources[1..]);
      var r := AppendLineage(rows, articleId, sources);
      assert r[..|once|] == once;
      assert r[..|rows|] == once[..|rows|];
      forall j | |rows| <= j < |r|
        ensures exists s :: s in sources && s.sourceId != "" && r[j] == LineageRow(articleId, s)
      {
        if j < |once| {
          assert r[j] == once[j];
        } else {
          var s :| s in sources[1..] && s.sourceId != "" && r[j] == LineageRow(articleId, s);
          assert s in sources;
        }
      }
    }
  }

  /** Every source with an id has its key present afterwards. */
  lemma {:induction false} AppendLineageCovers(rows: seq<Row>, articleId: string, sources: seq<Source>)
    ensures forall s :: s in sources && s.sourceId != "" ==>
      HasKey(AppendLineage(rows, articleId, sources), SourceKey(articleId, s))
    decreases |sources|
  {
    if sources != [] {
      var once := AppendSource(rows, articleId, sources[0]);
      AppendLineageCovers(once, articleId, sources[1..]);
      AppendLineageOnlyAppends(once, articleId, sources[1..]);
      var r := AppendLineage(rows, articleId, sources);
      if sources[0].sourceId != "" {
        var i :| 0 <= i < |once| && KeyOf(once[i]) == SourceKey(articleId, sources[0]);
        assert r[i] == r[..|once|][i];
      }
    }
  }

  /** Rows whose keys are distinct stay so: no key already present is added, nor one key twice in a call. */
  lemma {:induction false} AppendLineageDistinct(rows: seq<Row>, articleId: string, sources: seq<Source>)
    requires DistinctKeys(rows)
    ensures DistinctKeys(AppendLineage(rows, articleId, sources))
    decreases |sources|
  {
    if sources != [] {
      var once := AppendSource(rows, articleId, sources[0]);
      if once != rows {
        forall i, j | 0 <= i < j < |once| ensures KeyOf(once[i]) != KeyOf(once[j]) {
          if j == |rows| {
            assert KeyOf(once[j]) == SourceKey(articleId, sources[0]);
            assert once[i] == rows[i];
          } else {
            assert once[i] == rows[i] && once[j] == rows[j];
          }
        }
      }
      AppendLineageDistinct(once, articleId, sources[1..]);
    }
  }

  /** When every source is skipped, nothing is appended. */
  lemma {:induction false} AppendLineageNothingNew(rows: seq<Row>, articleId: string, sources: seq<Source>)
    requires forall s :: s in sources && s.sourceId != "" ==> HasKey(rows, SourceKey(articleId, s))
    ensures AppendLineage(rows, articleId, sources) == rows
    decreases |sources|
  {
    if sources != [] {
      assert AppendSource(rows, articleId, sources[0]) == rows;
      AppendLineageNothingNew(rows, articleId, sources[1..]);
    }
  }

  /** Appending the same sources a second time adds nothing. */
  lemma AppendLineageIdempotent(rows: seq<Row>, articleId: string, sources: seq<Source>)
    ensures var once := AppendLineage(rows, articleId, sources);
            AppendLineage(once, articleId, sources) == once
  {
    var once := AppendLineage(rows, articleId, sources);
    AppendLineageCovers(rows, articleId, sources);
    AppendLineageNothingNew(once, articleId, sources);
  }
}
