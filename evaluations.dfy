/**
 * The self, peer and supervisor evaluation handlers: each kind keeps its own table of
 * submissions, and create and update score the submitted sections before anything
 * is written, storing the sections together with their results.
 */
module Evaluations {
  import opened Results
  import opened Scoring

  datatype Kind = SelfEvaluation | PeerEvaluation | SupervisorEvaluation

  /** A row of `self_evaluation`, `peer_evaluation` or `supervisor_evaluation`. */
  datatype Submission = Submission(userId: int, sections: Sections, results: Scores)

  /** The stored results are the score of the stored sections. */
  predicate Consistent(s: Submission) {
    CivilServiceScore(s.sections) == Ok(s.results)
  }

  /** Every row of a table is consistent. */
  predicate AllConsistent(rows: map<int, Submission>) {
    forall id :: id in rows ==> Consistent(rows[id])
  }

  /** Writing a consistent row, new or overwriting, keeps the table consistent. */
  lemma WriteConsistent(rows: map<int, Submission>, eid: int, row: Submission)
    requires AllConsistent(rows) && Consistent(row)
    ensures AllConsistent(rows[eid := row])
  {
  }

  /** `SELECT * ... WHERE user_id = uid`. */
  function RowsOfUser(rows: map<int, Submission>, uid: int): (r: map<int, Submission>)
    ensures forall id :: id in r <==> id in rows && rows[id].userId == uid
    ensures forall id :: id in r ==> r[id] == rows[id]
  {
    map id | id in rows && rows[id].userId == uid :: rows[id]
  }

  /**
   * What a stored submission's results tell about its sections: every one of the
   * eighteen levels lies in [1,4], the team rating in [1,5], and the overall result
   * in [24.25, 100].
   */
  lemma StoredSubmission(s: Submission)
    requires Consistent(s)
    ensures AllLevelsValid(s.sections) && IsTeamScore(Field(s.sections, TeamKey))
    ensures 24.25 <= s.results.overallResult <= 100.0
    ensures 75.0 <= s.results.averagePoint <= 300.0
  {
    ScoreMeaning(s.sections);
    ScoreBounds(s.sections);
  }

  /** One evaluation table; `kind` says which of the three. */
  class SubmissionTable {
    const kind: Kind
    var rows: map<int, Submission>
    var nextId: int

    /** Keys lie below the next auto-increment id and no row holds stale results. */
    predicate Valid()
      reads this
    {
      && nextId >= 1
      && (forall id :: id in rows ==> 1 <= id < nextId)
      && AllConsistent(rows)
    }

    constructor (kind: Kind)
      ensures Valid() && this.kind == kind && rows == map[] && nextId == 1
    {
      this.kind := kind;
      rows := map[];
      nextId := 1;
    }

    /** `create...Evaluation`: score, and insert only when scoring succeeded. */
    method Create(userId: int, sections: Sections) returns (r: Result<Scores, ScoreError>)
      requires Valid()
      modifies this
      ensures Valid()
      ensures r == CivilServiceScore(sections)
      ensures r.Ok? ==> rows == old(rows)[old(nextId) := Submission(userId, sections, r.value)]
                        && nextId == old(nextId) + 1
      ensures r.Err? ==> rows == old(rows) && nextId == old(nextId)
    {
      r := CivilServiceScore(sections);
      if r.Err? {
        return;
      }
      var row := Submission(userId, sections, r.value);
      WriteConsistent(rows, nextId, row);
      rows := rows[nextId := row];
      nextId := nextId + 1;
    }

    /**
     * `update...Evaluation`: score, then overwrite sections and results of row `eid`
     * together. The handler answers with the results whether or not `eid` exists.
     */
    method Update(eid: int, sections: Sections) returns (r: Result<Scores, ScoreError>)
      requires Valid()
      modifies this
      ensures Valid() && nextId == old(nextId)
      ensures r == CivilServiceScore(sections)
      ensures r.Ok? && eid in old(rows) ==>
                rows == old(rows)[eid := Submission(old(rows)[eid].userId, sections, r.value)]
      ensures r.Err? || eid !in old(rows) ==> rows == old(rows)
    {
      r := CivilServiceScore(sections);
      if r.Err? || eid !in rows {
        return;
      }
      Replace(eid, Submission(rows[eid].userId, sections, r.value));
    }

    /** Overwrites row `eid` with a consistent row. */
    method Replace(eid: int, row: Submission)
      requires Valid() && eid in rows && Consistent(row)
      modifies this
      ensures Valid() && nextId == old(nextId)
      ensures rows == old(rows)[eid := row]
    {
      WriteConsistent(rows, eid, row);
      rows := rows[eid := row];
    }

    /** `delete...Evaluation`: removes row `eid` if there is one; it always succeeds. */
    method Delete(eid: int)
      requires Valid()
      modifies this
      ensures Valid() && nextId == old(nextId)
      ensures rows == old(rows) - {eid}
    {
      rows := rows - {eid};
    }

    /** `get...EvaluationsByUser`: exactly the rows whose user is `uid`. */
    function ByUser(uid: int): (r: map<int, Submission>)
      reads this
      ensures forall id :: id in r <==> id in rows && rows[id].userId == uid
      ensures forall id :: id in r ==> r[id] == rows[id]
    {
      RowsOfUser(rows, uid)
    }
  }
}
