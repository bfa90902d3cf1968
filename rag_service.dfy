/** The hybrid glossary retrieval of services/rag_service.py: a relational
    keyword search (`filter_sql`), a vector-index search whose ids are
    hydrated from the glossary table, a merge that drops repeated labels
    (SQL rows first), a rerank that scores every candidate and sorts by
    score, and a wrapper that turns every exception into an empty answer. */
module RagService {
  import opened Text
  import opened Subsequences
  import opened Glossary
  import opened ScoreSort

  /** The capabilities the engine calls out to, passed in explicitly.
      - `keywordExtraction`: RAKE's ranked phrases for a query;
      - `generateEmbedding`: the embedding of a text, `[]` when the call failed;
      - `cosine`: the cosine similarity of two vectors of equal length (dot
        product over the product of the norms);
      - `indexQuery`: the vector index's matches for a vector and `top_k`;
      - `glossaryTable`: the rows of the glossary table, `Raised` when the
        relational query cannot be run;
      - `hydrate`: the rows whose id is in the given list, in database order. */
  datatype Services = Services(
    keywordExtraction: string -> seq<string>,
    generateEmbedding: string -> seq<real>,
    cosine: (seq<real>, seq<real>) -> real,
    indexQuery: (seq<real>, int) -> Fallible<seq<Match>>,
    glossaryTable: Fallible<seq<GlossaryTerm>>,
    hydrate: seq<string> -> Fallible<seq<GlossaryTerm>>)

  // ---------------------------------------------------------------------
  // Relational keyword search
  // ---------------------------------------------------------------------

  /** A SQL filter expression, as SQLAlchemy builds it. */
  datatype Clause =
    | NotDeleted                          // deleted_at IS NULL
    | TermILike(keyword: string)          // term ILIKE '%keyword%'
    | AnyOf(left: Clause, right: Clause)  // left OR right
    | AllOf(left: Clause, right: Clause)  // left AND right

  predicate Holds(c: Clause, row: GlossaryTerm) {
    match c
    case NotDeleted => row.deletedAt.None?
    case TermILike(keyword) => ContainsIgnoreCase(row.term, keyword)
    case AnyOf(left, right) => Holds(left, row) || Holds(right, row)
    case AllOf(left, right) => Holds(left, row) && Holds(right, row)
  }

  /** The rows satisfying `keep`, in table order, each as often as the
      table holds it. */
  function Filter(rows: seq<GlossaryTerm>, keep: GlossaryTerm -> bool): (r: seq<GlossaryTerm>)
    ensures forall t :: t in r <==> t in rows && keep(t)
    ensures forall t :: multiset(r)[t] == if keep(t) then multiset(rows)[t] else 0
    ensures SubsequenceOf(r, rows)
  {
    if rows == [] then []
    else
      var rest := Filter(rows[1..], keep);
      FilterCountsStep(rows, keep, rest);
      SubsequencePrepend(rows, keep(rows[0]), rest);
      if keep(rows[0]) then [rows[0]] + rest else rest
  }

  /** Counting step of `Filter`: the first row is kept exactly when it
      satisfies the filter. */
  lemma FilterCountsStep(rows: seq<GlossaryTerm>, keep: GlossaryTerm -> bool, rest: seq<GlossaryTerm>)
    requires rows != []
    requires forall t :: multiset(rest)[t] == if keep(t) then multiset(rows[1..])[t] else 0
    ensures forall t ::
      multiset(if keep(rows[0]) then [rows[0]] + rest else rest)[t] == (if keep(t) then multiset(rows)[t] else 0)
  {
    CountsOfHead(rows);
    assert multiset([rows[0]] + rest) == multiset{rows[0]} + multiset(rest);
  }

  /** A live row whose label contains one of the keywords, ignoring case. */
  predicate Relevant(keywords: seq<string>, row: GlossaryTerm) {
    row.deletedAt.None? && exists k :: 0 <= k < |keywords| && ContainsIgnoreCase(row.term, keywords[k])
  }

  /** The rows the keyword search is meant to return. */
  function Selected(keywords: seq<string>, rows: seq<GlossaryTerm>): seq<GlossaryTerm> {
    Filter(rows, row => Relevant(keywords, row))
  }

  lemma {:induction false} FilterAgrees(rows: seq<GlossaryTerm>, p: GlossaryTerm -> bool, q: GlossaryTerm -> bool)
    requires forall t :: p(t) == q(t)
    ensures Filter(rows, p) == Filter(rows, q)
  {
    if rows != [] {
      FilterAgrees(rows[1..], p, q);
    }
  }

  /** The `term` column is unique, so the search never returns a label twice. */
  lemma {:induction false} FilterKeepsDistinctTerms(rows: seq<GlossaryTerm>, keep: GlossaryTerm -> bool)
    requires DistinctTerms(rows)
    ensures DistinctTerms(Filter(rows, keep))
  {
    if rows != [] {
      FilterKeepsDistinctTerms(rows[1..], keep);
      var rest := Filter(rows[1..], keep);
      if keep(rows[0]) {
        forall t | t in rest ensures t.term != rows[0].term {
          var k :| 0 <= k < |rows[1..]| && rows[1..][k] == t;
        }
      }
    }
  }

  /** `filter_sql`: nothing is queried when no keyword is extracted;
      otherwise the live rows whose label contains some keyword. */
  method FilterSql(query: string, svc: Services) returns (r: Fallible<seq<GlossaryTerm>>)
    ensures svc.keywordExtraction(query) == [] ==> r == Ok([])
    ensures svc.keywordExtraction(query) != [] ==> (r.Raised? <==> svc.glossaryTable.Raised?)
    ensures svc.keywordExtraction(query) != [] && svc.glossaryTable.Ok? ==>
      r == Ok(Selected(svc.keywordExtraction(query), svc.glossaryTable.value))
  {
    var keywords := svc.keywordExtraction(query);
    if keywords == [] {
      return Ok([]);
    }
    var keywordFilters := seq(|keywords|, k requires 0 <= k < |keywords| => TermILike(keywords[k]));
    // combine the keyword filters with OR
    var finalFilter := keywordFilters[0];
    for i := 1 to |keywordFilters|
      invariant forall row :: Holds(finalFilter, row) <==>
        exists k :: 0 <= k < i && ContainsIgnoreCase(row.term, keywords[k])
    {
      finalFilter := AnyOf(finalFilter, keywordFilters[i]);
    }
    match svc.glossaryTable
    case Raised =>
      r := Raised;
    case Ok(rows) =>
      var dbQuery := AllOf(NotDeleted, finalFilter);
      assert forall row :: Holds(dbQuery, row) == Relevant(keywords, row);
      FilterAgrees(rows, row => Holds(dbQuery, row), row => Relevant(keywords, row));
      r := Ok(Filter(rows, row => Holds(dbQuery, row)));
  }

  /** The search returns rows in table order and, the `term` column being
      unique, no label twice. */
  lemma SelectedOrderAndDistinct(keywords: seq<string>, rows: seq<GlossaryTerm>)
    ensures SubsequenceOf(Selected(keywords, rows), rows)
    ensures DistinctTerms(rows) ==> DistinctTerms(Selected(keywords, rows))
  {
    if DistinctTerms(rows) {
      FilterKeepsDistinctTerms(rows, row => Relevant(keywords, row));
    }
  }

  // ---------------------------------------------------------------------
  // Index scores
  // ---------------------------------------------------------------------

  /** `pinecone_id_score`: each id mapped to its score, a later match with
      the same id overwriting an earlier one. */
  function ScoreIndex(matches: seq<Match>): map<string, real>
    decreases |matches|
  {
    if matches == [] then map[]
    else ScoreIndex(matches[..|matches| - 1])[matches[|matches| - 1].id := matches[|matches| - 1].score]
  }

  /** Lookup in the `defaultdict(float)`: a missing id reads as 0.0. */
  function ScoreOf(scores: map<string, real>, id: string): real {
    if id in scores then scores[id] else 0.0
  }

  /** An id the index did not return is absent from the map, so it scores
      0.0. */
  lemma {:induction false} UnmatchedIdScoresZero(matches: seq<Match>, id: string)
    requires forall k :: 0 <= k < |matches| ==> matches[k].id != id
    ensures id !in ScoreIndex(matches) && ScoreOf(ScoreIndex(matches), id) == 0.0
    decreases |matches|
  {
    if matches != [] {
      var n := |matches| - 1;
      assert forall k :: 0 <= k < n ==> matches[..n][k] == matches[k];
      UnmatchedIdScoresZero(matches[..n], id);
    }
  }

  /** A matched id scores what its last match says. */
  lemma {:induction false} LastMatchScores(matches: seq<Match>, k: int)
    requires 0 <= k < |matches|
    requires forall l :: k < l < |matches| ==> matches[l].id != matches[k].id
    ensures matches[k].id in ScoreIndex(matches)
    ensures ScoreOf(ScoreIndex(matches), matches[k].id) == matches[k].score
    decreases |matches|
  {
    var n := |matches| - 1;
    if k < n {
      var front := matches[..n];
      assert front[k] == matches[k];
      assert forall l :: k < l < n ==> front[l] == matches[l];
      LastMatchScores(front, k);
    }
  }

  /** The loop of `retrieve_glossary_rag` that fills `pinecone_id_score`. */
  method IndexScores(matches: seq<Match>) returns (scores: map<string, real>)
    ensures scores == ScoreIndex(matches)
  {
    scores := map[];
    for i := 0 to |matches|
      invariant scores == ScoreIndex(matches[..i])
    {
      assert matches[..i + 1][..i] == matches[..i];
      scores := scores[matches[i].id := matches[i].score];
    }
    assert matches[..|matches|] == matches;
  }

  // ---------------------------------------------------------------------
  // Merge and de-duplication
  // ---------------------------------------------------------------------

  function SqlCandidate(t: GlossaryTerm): Candidate {
    Candidate(t.term, t.definition, t.simplifiedExplanation, t.contextualExamples, true, None)
  }

  function VectorCandidate(t: GlossaryTerm, score: real): Candidate {
    Candidate(t.term, t.definition, t.simplifiedExplanation, t.contextualExamples, false, Some(score))
  }

  predicate HasTerm(cs: seq<Candidate>, term: string) {
    exists k :: 0 <= k < |cs| && cs[k].term == term
  }

  function Seeded(sqlRows: seq<GlossaryTerm>): seq<Candidate> {
    seq(|sqlRows|, k requires 0 <= k < |sqlRows| => SqlCandidate(sqlRows[k]))
  }

  /** The candidate list after the SQL rows and the first `|hydrated|`
      hydrated rows have been processed. */
  function Merged(sqlRows: seq<GlossaryTerm>, hydrated: seq<GlossaryTerm>, scores: map<string, real>): seq<Candidate>
    decreases |hydrated|
  {
    if hydrated == [] then Seeded(sqlRows)
    else
      var prev := Merged(sqlRows, hydrated[..|hydrated| - 1], scores);
      var t := hydrated[|hydrated| - 1];
      if HasTerm(prev, t.term) then prev else prev + [VectorCandidate(t, ScoreOf(scores, t.id))]
  }

  /** The merge loops of `retrieve_glossary_rag`: seed with the SQL rows,
      then append each hydrated row whose label no earlier entry has. */
  method MergeCandidates(filteredTerms: seq<GlossaryTerm>, glossaryTerms: seq<GlossaryTerm>, scores: map<string, real>)
    returns (results: seq<Candidate>)
    ensures results == Merged(filteredTerms, glossaryTerms, scores)
  {
    results := [];
    for i := 0 to |filteredTerms|
      invariant results == Seeded(filteredTerms[..i])
    {
      results := results + [SqlCandidate(filteredTerms[i])];
    }
    assert filteredTerms[..|filteredTerms|] == filteredTerms;
    for i := 0 to |glossaryTerms|
      invariant results == Merged(filteredTerms, glossaryTerms[..i], scores)
    {
      var term := glossaryTerms[i];
      // scan the list built so far for an entry with the same label
      var duplicate := false;
      var j := 0;
      while j < |results| && !duplicate
        invariant 0 <= j <= |results|
        invariant duplicate <==> exists k :: 0 <= k < j && results[k].term == term.term
      {
        duplicate := results[j].term == term.term;
        j := j + 1;
      }
      assert glossaryTerms[..i + 1][..i] == glossaryTerms[..i];
      if !duplicate {
        results := results + [VectorCandidate(term, ScoreOf(scores, term.id))];
      }
    }
    assert glossaryTerms[..|glossaryTerms|] == glossaryTerms;
  }

  /** Hydrated row `j` is the first row of its label: no SQL row and no
      earlier hydrated row carries it. */
  predicate FirstOfItsTerm(sqlRows: seq<GlossaryTerm>, hydrated: seq<GlossaryTerm>, j: int)
    requires 0 <= j < |hydrated|
  {
    && (forall i :: 0 <= i < |sqlRows| ==> sqlRows[i].term != hydrated[j].term)
    && (forall i :: 0 <= i < j ==> hydrated[i].term != hydrated[j].term)
  }

  /** Processing one more hydrated row only ever appends. */
  lemma MergedExtends(sqlRows: seq<GlossaryTerm>, hydrated: seq<GlossaryTerm>, scores: map<string, real>)
    requires hydrated != []
    ensures var prev := Merged(sqlRows, hydrated[..|hydrated| - 1], scores);
      |prev| <= |Merged(sqlRows, hydrated, scores)| &&
      forall k :: 0 <= k < |prev| ==> Merged(sqlRows, hydrated, scores)[k] == prev[k]
  {
  }

  /** The merged list starts with every SQL row, in SQL order, flagged
      `fromSql`; every later entry comes from the vector path. */
  lemma {:induction false} MergedSeedsSqlFirst(sqlRows: seq<GlossaryTerm>, hydrated: seq<GlossaryTerm>, scores: map<string, real>)
    ensures |sqlRows| <= |Merged(sqlRows, hydrated, scores)|
    ensures forall k :: 0 <= k < |sqlRows| ==> Merged(sqlRows, hydrated, scores)[k] == SqlCandidate(sqlRows[k])
    ensures forall k :: |sqlRows| <= k < |Merged(sqlRows, hydrated, scores)| ==>
      !Merged(sqlRows, hydrated, scores)[k].fromSql && Merged(sqlRows, hydrated, scores)[k].cosScore.Some?
    decreases |hydrated|
  {
    if hydrated != [] {
      MergedSeedsSqlFirst(sqlRows, hydrated[..|hydrated| - 1], scores);
      MergedExtends(sqlRows, hydrated, scores);
    }
  }

  /** Every hydrated label ends up in the merged list. */
  lemma {:induction false} MergedHasHydratedTerm(sqlRows: seq<GlossaryTerm>, hydrated: seq<GlossaryTerm>, scores: map<string, real>, j: int)
    requires 0 <= j < |hydrated|
    ensures HasTerm(Merged(sqlRows, hydrated, scores), hydrated[j].term)
    decreases |hydrated|
  {
    var n := |hydrated| - 1;
    var prev := Merged(sqlRows, hydrated[..n], scores);
    var m := Merged(sqlRows, hydrated, scores);
    MergedExtends(sqlRows, hydrated, scores);
    if j < n {
      MergedHasHydratedTerm(sqlRows, hydrated[..n], scores, j);
      var k :| 0 <= k < |prev| && prev[k].term == hydrated[..n][j].term;
      assert m[k].term == hydrated[j].term;
    } else if !HasTerm(prev, hydrated[n].term) {
      assert m[|prev|].term == hydrated[n].term;
    }
  }

  /** Every entry after the SQL rows is the vector candidate of a hydrated
      row that is the first of its label, carrying the index score of its id. */
  lemma {:induction false} MergedVectorEntry(sqlRows: seq<GlossaryTerm>, hydrated: seq<GlossaryTerm>, scores: map<string, real>, k: int)
    requires |sqlRows| <= k < |Merged(sqlRows, hydrated, scores)|
    ensures exists j :: (0 <= j < |hydrated| && FirstOfItsTerm(sqlRows, hydrated, j) &&
      Merged(sqlRows, hydrated, scores)[k] == VectorCandidate(hydrated[j], ScoreOf(scores, hydrated[j].id)))
    decreases |hydrated|
  {
    var n := |hydrated| - 1;
    var front := hydrated[..n];
    var prev := Merged(sqlRows, front, scores);
    var m := Merged(sqlRows, hydrated, scores);
    MergedExtends(sqlRows, hydrated, scores);
    if k < |prev| {
      MergedVectorEntry(sqlRows, front, scores, k);
      var j :| 0 <= j < n && FirstOfItsTerm(sqlRows, front, j) &&
        prev[k] == VectorCandidate(front[j], ScoreOf(scores, front[j].id));
      assert front[j] == hydrated[j];
      assert forall i :: 0 <= i < j ==> front[i] == hydrated[i];
      assert FirstOfItsTerm(sqlRows, hydrated, j);
    } else {
      var t := hydrated[n];
      assert !HasTerm(prev, t.term);
      MergedSeedsSqlFirst(sqlRows, front, scores);
      forall i | 0 <= i < |sqlRows| ensures sqlRows[i].term != t.term {
        assert prev[i].term == sqlRows[i].term;
      }
      forall i | 0 <= i < n ensures hydrated[i].term != t.term {
        MergedHasHydratedTerm(sqlRows, front, scores, i);
        assert front[i] == hydrated[i];
      }
      assert FirstOfItsTerm(sqlRows, hydrated, n);
      assert m[k] == VectorCandidate(t, ScoreOf(scores, t.id));
    }
  }

  /** The last hydrated row, when it is the first of its label, finds no
      entry with that label in the list built before it. */
  lemma FirstOfItsTermIsNew(sqlRows: seq<GlossaryTerm>, hydrated: seq<GlossaryTerm>, scores: map<string, real>)
    requires hydrated != [] && FirstOfItsTerm(sqlRows, hydrated, |hydrated| - 1)
    ensures !HasTerm(Merged(sqlRows, hydrated[..|hydrated| - 1], scores), hydrated[|hydrated| - 1].term)
  {
    var n := |hydrated| - 1;
    var front := hydrated[..n];
    var prev := Merged(sqlRows, front, scores);
    var t := hydrated[n];
    MergedSeedsSqlFirst(sqlRows, front, scores);
    forall k | 0 <= k < |prev| ensures prev[k].term != t.term {
      if k < |sqlRows| {
        assert prev[k].term == sqlRows[k].term;
      } else {
        MergedVectorEntry(sqlRows, front, scores, k);
        var j' :| 0 <= j' < |front| && FirstOfItsTerm(sqlRows, front, j') &&
          prev[k] == VectorCandidate(front[j'], ScoreOf(scores, front[j'].id));
        assert front[j'] == hydrated[j'];
      }
    }
  }

  /** Conversely, every hydrated row that is the first of its label is
      appended as a vector candidate with the index score of its id. */
  lemma {:induction false} MergedIncludesFirstOfTerm(sqlRows: seq<GlossaryTerm>, hydrated: seq<GlossaryTerm>, scores: map<string, real>, j: int)
    requires 0 <= j < |hydrated| && FirstOfItsTerm(sqlRows, hydrated, j)
    ensures VectorCandidate(hydrated[j], ScoreOf(scores, hydrated[j].id)) in Merged(sqlRows, hydrated, scores)
    decreases |hydrated|
  {
    var n := |hydrated| - 1;
    var front := hydrated[..n];
    var prev := Merged(sqlRows, front, scores);
    var m := Merged(sqlRows, hydrated, scores);
    MergedExtends(sqlRows, hydrated, scores);
    if j < n {
      assert front[j] == hydrated[j];
      assert forall i :: 0 <= i < j ==> front[i] == hydrated[i];
      MergedIncludesFirstOfTerm(sqlRows, front, scores, j);
      var k :| 0 <= k < |prev| && prev[k] == VectorCandidate(front[j], ScoreOf(scores, front[j].id));
      assert m[k] == prev[k];
    } else {
      var t := hydrated[n];
      FirstOfItsTermIsNew(sqlRows, hydrated, scores);
      assert m[|prev|] == VectorCandidate(t, ScoreOf(scores, t.id));
    }
  }

  /** Vector-sourced entries keep hydration order: of two hydrated rows that
      are each the first of their label, the earlier one is appended first. */
  lemma {:induction false} MergedVectorOrder(sqlRows: seq<GlossaryTerm>, hydrated: seq<GlossaryTerm>, scores: map<string, real>,
                                             j1: int, j2: int)
    requires 0 <= j1 < j2 < |hydrated|
    requires FirstOfItsTerm(sqlRows, hydrated, j1) && FirstOfItsTerm(sqlRows, hydrated, j2)
    ensures exists k1, k2 :: (|sqlRows| <= k1 < k2 < |Merged(sqlRows, hydrated, scores)| &&
      Merged(sqlRows, hydrated, scores)[k1] == VectorCandidate(hydrated[j1], ScoreOf(scores, hydrated[j1].id)) &&
      Merged(sqlRows, hydrated, scores)[k2] == VectorCandidate(hydrated[j2], ScoreOf(scores, hydrated[j2].id)))
    decreases |hydrated|
  {
    var n := |hydrated| - 1;
    var front := hydrated[..n];
    var prev := Merged(sqlRows, front, scores);
    var m := Merged(sqlRows, hydrated, scores);
    MergedExtends(sqlRows, hydrated, scores);
    assert front[j1] == hydrated[j1];
    assert forall i :: 0 <= i < j1 ==> front[i] == hydrated[i];
    assert FirstOfItsTerm(sqlRows, front, j1);
    if j2 < n {
      assert front[j2] == hydrated[j2];
      assert forall i :: 0 <= i < j2 ==> front[i] == hydrated[i];
      MergedVectorOrder(sqlRows, front, scores, j1, j2);
      var k1, k2 :| |sqlRows| <= k1 < k2 < |prev| &&
        prev[k1] == VectorCandidate(front[j1], ScoreOf(scores, front[j1].id)) &&
        prev[k2] == VectorCandidate(front[j2], ScoreOf(scores, front[j2].id));
      assert m[k1] == prev[k1] && m[k2] == prev[k2];
    } else {
      var t := hydrated[n];
      FirstOfItsTermIsNew(sqlRows, hydrated, scores);
      assert m[|prev|] == VectorCandidate(t, ScoreOf(scores, t.id));
      MergedSeedsSqlFirst(sqlRows, front, scores);
      MergedIncludesFirstOfTerm(sqlRows, front, scores, j1);
      var k1 :| 0 <= k1 < |prev| && prev[k1] == VectorCandidate(front[j1], ScoreOf(scores, front[j1].id));
      assert m[k1] == prev[k1];
    }
  }

  /** With distinct SQL labels (the `term` column is unique) the merged list
      never holds a label twice. */
  lemma {:induction false} MergedDistinctTerms(sqlRows: seq<GlossaryTerm>, hydrated: seq<GlossaryTerm>, scores: map<string, real>)
    requires DistinctTerms(sqlRows)
    ensures DistinctCandidateTerms(Merged(sqlRows, hydrated, scores))
    decreases |hydrated|
  {
    if hydrated != [] {
      var n := |hydrated| - 1;
      var prev := Merged(sqlRows, hydrated[..n], scores);
      MergedDistinctTerms(sqlRows, hydrated[..n], scores);
      var t := hydrated[n];
      if !HasTerm(prev, t.term) {
        var m := prev + [VectorCandidate(t, ScoreOf(scores, t.id))];
        forall k, l | 0 <= k < l < |m| ensures m[k].term != m[l].term {
          if l == |prev| {
            assert m[k] == prev[k];
          } else {
            assert m[k] == prev[k] && m[l] == prev[l];
          }
        }
      }
    } else {
      var m := Seeded(sqlRows);
      forall k, l | 0 <= k < l < |m| ensures m[k].term != m[l].term {
        assert m[k].term == sqlRows[k].term && m[l].term == sqlRows[l].term;
      }
    }
  }

  /** Provenance precedence: a label the SQL search found is represented
      only by its SQL entry, whatever the vector path returned. */
  lemma SqlEntryWinsSharedTerm(sqlRows: seq<GlossaryTerm>, hydrated: seq<GlossaryTerm>, scores: map<string, real>, i: int)
    requires DistinctTerms(sqlRows) && 0 <= i < |sqlRows|
    ensures forall k :: 0 <= k < |Merged(sqlRows, hydrated, scores)| && Merged(sqlRows, hydrated, scores)[k].term == sqlRows[i].term ==>
      k == i && Merged(sqlRows, hydrated, scores)[k] == SqlCandidate(sqlRows[i]) && Merged(sqlRows, hydrated, scores)[k].fromSql
  {
    var m := Merged(sqlRows, hydrated, scores);
    MergedSeedsSqlFirst(sqlRows, hydrated, scores);
    MergedDistinctTerms(sqlRows, hydrated, scores);
    assert m[i].term == sqlRows[i].term;
  }

  // ---------------------------------------------------------------------
  // Rerank
  // ---------------------------------------------------------------------

  /** The default `sql_boost`: below one, so it discounts SQL hits. */
  const DefaultSqlBoost: real := 0.95

  /** The scoring rule of `rerank_results`: an SQL candidate scores the cosine between
      the query and its label, times `sqlBoost`; any other candidate scores
      its stored index score, 1 when it has none. */
  function HybridScore(c: Candidate, queryEmbedding: seq<real>, embed: string -> seq<real>,
                       cosine: (seq<real>, seq<real>) -> real, sqlBoost: real): real
  {
    if c.fromSql then cosine(queryEmbedding, embed(c.term)) * sqlBoost
    else match c.cosScore
      case Some(s) => s
      case None => 1.0
  }

  function WithScore(c: Candidate, score: real): Ranked {
    Ranked(c.term, c.definition, c.simplifiedExplanation, c.contextualExample, c.fromSql, score)
  }

  /** Every candidate with its hybrid score, in input order. */
  function Scored(results: seq<Candidate>, queryEmbedding: seq<real>, embed: string -> seq<real>,
                  cosine: (seq<real>, seq<real>) -> real, sqlBoost: real): seq<Ranked>
  {
    seq(|results|, k requires 0 <= k < |results| => WithScore(results[k], HybridScore(results[k], queryEmbedding, embed, cosine, sqlBoost)))
  }

  /** `np.dot` raises when two vectors differ in length. The cosine is
      computed for every candidate, so one mismatching label embedding (a
      failed embedding call returns `[]`) raises. */
  predicate EmbeddingMismatch(results: seq<Candidate>, queryEmbedding: seq<real>, embed: string -> seq<real>) {
    exists k :: 0 <= k < |results| && |embed(results[k].term)| != |queryEmbedding|
  }

  /** `rerank_results`. */
  method Rerank(results: seq<Candidate>, queryEmbedding: seq<real>, embed: string -> seq<real>,
                cosine: (seq<real>, seq<real>) -> real, sqlBoost: real)
    returns (r: Fallible<seq<Ranked>>)
    ensures results == [] ==> r == Ok([])
    ensures r.Raised? <==> EmbeddingMismatch(results, queryEmbedding, embed)
    ensures r.Ok? ==> IsStableSortByScore(r.value, Scored(results, queryEmbedding, embed, cosine, sqlBoost))
  {
    if results == [] {
      assert StablySortedBy([], Scored(results, queryEmbedding, embed, cosine, sqlBoost), []);
      return Ok([]);
    }
    var reranked: seq<Ranked> := [];
    for i := 0 to |results|
      invariant |reranked| == i
      invariant forall k :: 0 <= k < i ==> |embed(results[k].term)| == |queryEmbedding|
      invariant forall k :: 0 <= k < i ==>
        reranked[k] == WithScore(results[k], HybridScore(results[k], queryEmbedding, embed, cosine, sqlBoost))
    {
      var result := results[i];
      var candidateTextEmbeddings := embed(result.term);
      if |candidateTextEmbeddings| != |queryEmbedding| {
        return Raised;
      }
      var cosScore := cosine(queryEmbedding, candidateTextEmbeddings);
      var baseScore := cosScore;
      if result.fromSql {
        baseScore := baseScore * sqlBoost;
      } else {
        baseScore := match result.cosScore case Some(s) => s case None => 1.0;
      }
      reranked := reranked + [WithScore(result, baseScore)];
    }
    var sorted := new Ranked[|reranked|](k requires 0 <= k < |reranked| => reranked[k]);
    assert sorted[..] == Scored(results, queryEmbedding, embed, cosine, sqlBoost);
    ghost var perm := SortByScoreDescending(sorted);
    r := Ok(sorted[..]);
  }

  /** `x` is one of the candidates, its fields copied and its hybrid score
      added. */
  predicate IsScoredCandidate(x: Ranked, results: seq<Candidate>, queryEmbedding: seq<real>,
                              embed: string -> seq<real>, cosine: (seq<real>, seq<real>) -> real, sqlBoost: real)
  {
    exists i :: 0 <= i < |results| && x == WithScore(results[i], HybridScore(results[i], queryEmbedding, embed, cosine, sqlBoost))
  }

  /** Reranking yields one entry per candidate, each a scored candidate, in
      non-increasing score order. */
  lemma RerankedEntries(out: seq<Ranked>, results: seq<Candidate>, queryEmbedding: seq<real>,
                        embed: string -> seq<real>, cosine: (seq<real>, seq<real>) -> real, sqlBoost: real)
    requires IsStableSortByScore(out, Scored(results, queryEmbedding, embed, cosine, sqlBoost))
    ensures |out| == |results|
    ensures forall k :: 0 <= k < |out| ==> IsScoredCandidate(out[k], results, queryEmbedding, embed, cosine, sqlBoost)
    ensures forall k, l :: 0 <= k < l < |out| ==> out[k].score >= out[l].score
  {
    var inp := Scored(results, queryEmbedding, embed, cosine, sqlBoost);
    var perm :| StablySortedBy(out, inp, perm);
    forall k | 0 <= k < |out|
      ensures IsScoredCandidate(out[k], results, queryEmbedding, embed, cosine, sqlBoost)
    {
      var i := perm[k];
      assert out[k] == inp[i] == WithScore(results[i], HybridScore(results[i], queryEmbedding, embed, cosine, sqlBoost));
    }
  }

  /** The scoring rule follows provenance: an SQL entry scores its label
      cosine times the boost; a vector entry scores the index score of the
      hydrated row it came from (0.0 for an id the index did not return),
      never the recomputed cosine. */
  lemma {:induction false} MergedScoresFollowProvenance(sqlRows: seq<GlossaryTerm>, hydrated: seq<GlossaryTerm>,
                                                        scores: map<string, real>, queryEmbedding: seq<real>,
                                                        embed: string -> seq<real>, cosine: (seq<real>, seq<real>) -> real,
                                                        sqlBoost: real, k: int)
    requires 0 <= k < |Merged(sqlRows, hydrated, scores)|
    ensures var x := Scored(Merged(sqlRows, hydrated, scores), queryEmbedding, embed, cosine, sqlBoost)[k];
      && (x.fromSql <==> k < |sqlRows|)
      && (x.fromSql ==> x.score == cosine(queryEmbedding, embed(x.term)) * sqlBoost)
      && (!x.fromSql ==>
            exists j :: (0 <= j < |hydrated| && FirstOfItsTerm(sqlRows, hydrated, j) &&
              x.term == hydrated[j].term && x.score == ScoreOf(scores, hydrated[j].id)))
  {
    MergedSeedsSqlFirst(sqlRows, hydrated, scores);
    if k >= |sqlRows| {
      MergedVectorEntry(sqlRows, hydrated, scores, k);
    }
  }

  /** Stable sorting keeps the discovery order on ties: when every
      candidate of `fromSql` provenance comes before every other one, an
      SQL entry is never placed after a vector entry of equal score. */
  lemma StableTieKeepsSqlFirst(out: seq<Ranked>, results: seq<Candidate>, queryEmbedding: seq<real>,
                               embed: string -> seq<real>, cosine: (seq<real>, seq<real>) -> real, sqlBoost: real)
    requires IsStableSortByScore(out, Scored(results, queryEmbedding, embed, cosine, sqlBoost))
    requires forall i, j :: 0 <= i < j < |results| && results[j].fromSql ==> results[i].fromSql
    ensures forall k, l :: 0 <= k < l < |out| && out[k].score == out[l].score && out[l].fromSql ==> out[k].fromSql
  {
    var inp := Scored(results, queryEmbedding, embed, cosine, sqlBoost);
    var perm :| StablySortedBy(out, inp, perm);
    forall k, l | 0 <= k < l < |out| && out[k].score == out[l].score && out[l].fromSql
      ensures out[k].fromSql
    {
      assert perm[k] < perm[l];
      assert out[k] == inp[perm[k]] && out[l] == inp[perm[l]];
      assert results[perm[l]].fromSql;
    }
  }

  // ---------------------------------------------------------------------
  // Retrieval
  // ---------------------------------------------------------------------

  function MatchIds(matches: seq<Match>): seq<string> {
    seq(|matches|, k requires 0 <= k < |matches| => matches[k].id)
  }

  /** What `filter_sql` yields for a query. */
  function SqlRows(query: string, svc: Services): Fallible<seq<GlossaryTerm>> {
    var keywords := svc.keywordExtraction(query);
    if keywords == [] then Ok([])
    else match svc.glossaryTable
      case Raised => Raised
      case Ok(rows) => Ok(Selected(keywords, rows))
  }

  /** The candidate list handed to the reranker, or `Raised` when the
      relational query, the index query or the hydration raised. */
  function Candidates(query: string, topK: int, svc: Services): Fallible<seq<Candidate>> {
    var sql := SqlRows(query, svc);
    var search := svc.indexQuery(svc.generateEmbedding(query), topK);
    if sql.Raised? || search.Raised? then Raised
    else
      var hydrated := svc.hydrate(MatchIds(search.value));
      if hydrated.Raised? then Raised
      else Ok(Merged(sql.value, hydrated.value, ScoreIndex(search.value)))
  }

  /** The reranked merged list: scores do not increase, an SQL entry scores
      its label cosine times the default boost, on equal scores no SQL entry
      follows a vector entry, and with distinct SQL labels no label repeats. */
  lemma RerankedMergeProperties(out: seq<Ranked>, sqlRows: seq<GlossaryTerm>, hydrated: seq<GlossaryTerm>,
                                scores: map<string, real>, queryEmbedding: seq<real>,
                                embed: string -> seq<real>, cosine: (seq<real>, seq<real>) -> real)
    requires IsStableSortByScore(out, Scored(Merged(sqlRows, hydrated, scores), queryEmbedding, embed, cosine, DefaultSqlBoost))
    ensures forall k, l :: 0 <= k < l < |out| ==> out[k].score >= out[l].score
    ensures forall k :: 0 <= k < |out| && out[k].fromSql ==>
      out[k].score == cosine(queryEmbedding, embed(out[k].term)) * DefaultSqlBoost
    ensures forall k, l :: 0 <= k < l < |out| && out[k].score == out[l].score && out[l].fromSql ==> out[k].fromSql
    ensures DistinctTerms(sqlRows) ==> DistinctRankedTerms(out)
  {
    var results := Merged(sqlRows, hydrated, scores);
    RerankedEntries(out, results, queryEmbedding, embed, cosine, DefaultSqlBoost);
    MergedSeedsSqlFirst(sqlRows, hydrated, scores);
    StableTieKeepsSqlFirst(out, results, queryEmbedding, embed, cosine, DefaultSqlBoost);
    if DistinctTerms(sqlRows) {
      MergedDistinctTerms(sqlRows, hydrated, scores);
      var scored := Scored(results, queryEmbedding, embed, cosine, DefaultSqlBoost);
      assert forall k :: 0 <= k < |scored| ==> scored[k].term == results[k].term;
      StableSortKeepsDistinctTerms(out, scored);
    }
  }

  /** What `FilterSql` promises pins its result down to `SqlRows`. */
  lemma FilterSqlIsSqlRows(query: string, svc: Services, r: Fallible<seq<GlossaryTerm>>)
    requires svc.keywordExtraction(query) == [] ==> r == Ok([])
    requires svc.keywordExtraction(query) != [] ==> (r.Raised? <==> svc.glossaryTable.Raised?)
    requires svc.keywordExtraction(query) != [] && svc.glossaryTable.Ok? ==>
      r == Ok(Selected(svc.keywordExtraction(query), svc.glossaryTable.value))
    ensures r == SqlRows(query, svc)
  {
  }

  /** When all three queries succeed, the candidates are the merge of their
      results. */
  lemma CandidatesOfQueries(query: string, topK: int, svc: Services, sqlRows: seq<GlossaryTerm>,
                            matches: seq<Match>, hydrated: seq<GlossaryTerm>)
    requires SqlRows(query, svc) == Ok(sqlRows)
    requires svc.indexQuery(svc.generateEmbedding(query), topK) == Ok(matches)
    requires svc.hydrate(MatchIds(matches)) == Ok(hydrated)
    ensures Candidates(query, topK, svc) == Ok(Merged(sqlRows, hydrated, ScoreIndex(matches)))
  {
  }

  /** `retrieve_glossary_rag`: never raises; any exception on the way gives
      the empty list, otherwise the reranked candidates. */
  method RetrieveGlossaryRag(query: string, topK: int, svc: Services) returns (r: seq<Ranked>)
    ensures Candidates(query, topK, svc).Raised? ==> r == []
    ensures Candidates(query, topK, svc).Ok? ==>
      (EmbeddingMismatch(Candidates(query, topK, svc).value, svc.generateEmbedding(query), svc.generateEmbedding) ==> r == [])
    ensures Candidates(query, topK, svc).Ok? ==>
      (!EmbeddingMismatch(Candidates(query, topK, svc).value, svc.generateEmbedding(query), svc.generateEmbedding) ==>
      IsStableSortByScore(r, Scored(Candidates(query, topK, svc).value, svc.generateEmbedding(query),
                                    svc.generateEmbedding, svc.cosine, DefaultSqlBoost)))
    ensures forall k, l :: 0 <= k < l < |r| ==> r[k].score >= r[l].score
    ensures forall k :: 0 <= k < |r| && r[k].fromSql ==>
      r[k].score == svc.cosine(svc.generateEmbedding(query), svc.generateEmbedding(r[k].term)) * DefaultSqlBoost
    ensures forall k, l :: 0 <= k < l < |r| && r[k].score == r[l].score && r[l].fromSql ==> r[k].fromSql
    ensures svc.glossaryTable.Ok? && DistinctTerms(svc.glossaryTable.value) ==> DistinctRankedTerms(r)
    ensures svc.keywordExtraction(query) == [] ==> DistinctRankedTerms(r)
  {
    var filtered := FilterSql(query, svc);
    FilterSqlIsSqlRows(query, svc, filtered);
    if filtered.Raised? {
      return [];
    }
    var filteredTerms := filtered.value;
    var queryEmbedding := svc.generateEmbedding(query);
    var searchResults := svc.indexQuery(queryEmbedding, topK);
    if searchResults.Raised? {
      return [];
    }
    var matches := searchResults.value;
    var pineconeIds := MatchIds(matches);
    var pineconeIdScore := IndexScores(matches);
    var glossaryTerms := svc.hydrate(pineconeIds);
    if glossaryTerms.Raised? {
      return [];
    }
    var results := MergeCandidates(filteredTerms, glossaryTerms.value, pineconeIdScore);
    CandidatesOfQueries(query, topK, svc, filteredTerms, matches, glossaryTerms.value);
    var reranked := Rerank(results, queryEmbedding, svc.generateEmbedding, svc.cosine, DefaultSqlBoost);
    if reranked.Raised? {
      return [];
    }
    r := reranked.value;
    RerankedMergeProperties(r, filteredTerms, glossaryTerms.value, pineconeIdScore, queryEmbedding,
                            svc.generateEmbedding, svc.cosine);
    if svc.glossaryTable.Ok? && DistinctTerms(svc.glossaryTable.value) && svc.keywordExtraction(query) != [] {
      SelectedOrderAndDistinct(svc.keywordExtraction(query), svc.glossaryTable.value);
    }
  }
}
