/** The records the retrieval engine reads and produces: the glossary row of
    models/glossary.py, the merged candidate and the scored result (both
    Python dictionaries in services/rag_service.py), and one match of the
    vector index. */
module Glossary {

  datatype Option<T> = None | Some(value: T)

  /** The outcome of a call that may raise an exception. */
  datatype Fallible<T> = Ok(value: T) | Raised

  /** A row of the `glossary` table. `id` is the UUID in its string form
      (`str(term.id)`); `contextualExamples` is the JSON payload, kept as its
      text; `deletedAt` is the soft-delete timestamp, `None` when live. */
  datatype GlossaryTerm = GlossaryTerm(
    id: string,
    term: string,
    definition: string,
    simplifiedExplanation: Option<string>,
    contextualExamples: Option<string>,
    deletedAt: Option<int>)

  /** A merged candidate. `fromSql` is the provenance flag; `cosScore` is the
      index score, present only on candidates the vector path contributed. */
  datatype Candidate = Candidate(
    term: string,
    definition: string,
    simplifiedExplanation: Option<string>,
    contextualExample: Option<string>,
    fromSql: bool,
    cosScore: Option<real>)

  /** One entry of the reranked result list. */
  datatype Ranked = Ranked(
    term: string,
    definition: string,
    simplifiedExplanation: Option<string>,
    contextualExample: Option<string>,
    fromSql: bool,
    score: real)

  /** One `(id, score)` match returned by the vector index. */
  datatype Match = Match(id: string, score: real)

  /** The `term` column is unique: no two rows carry the same label. */
  predicate DistinctTerms(rows: seq<GlossaryTerm>) {
    forall k, l :: 0 <= k < l < |rows| ==> rows[k].term != rows[l].term
  }

  predicate DistinctCandidateTerms(cs: seq<Candidate>) {
    forall k, l :: 0 <= k < l < |cs| ==> cs[k].term != cs[l].term
  }

  predicate DistinctRankedTerms(rs: seq<Ranked>) {
    forall k, l :: 0 <= k < l < |rs| ==> rs[k].term != rs[l].term
  }
}
