/**
 * The criteria of each evaluation type, with the weight-capacity guard: the weights of
 * the criteria of one type never add up to more than 100. Create and update validate
 * the converted fields in a fixed order, then ask `canApplyWeight` whether the weight
 * still fits, and write only when it does.
 */
module Criteria {
  import opened Results
  import opened Js
  import opened Tables
  import opened Pagination
  import opened Types

  /** A row of the `criteria` table (its key, `cid`, is the map key). */
  datatype Criterion = Criterion(tid: int, criteria: Json, weight: real, level: int)

  /** The request body of create and update. */
  datatype Body = Body(tid: Json, criteria: Json, weight: Json, level: Json)

  datatype CriteriaError =
    | FieldsRequired              // create: tid, criteria, weight and level are required
    | TidNotANumber
    | WeightOutOfRange            // weight not in [0, 100]
    | LevelOutOfRange             // level not in [1, 4]
    | UnknownType                 // no type row has the tid
    | CapacityExceeded(remaining: real)
    | CriteriaNotFound

  /** The `{ ok, remaining }` answer of `canApplyWeight`. */
  datatype Capacity = Capacity(ok: bool, remaining: real)

  /** A criterion joined with its type, as the read queries return it. */
  datatype CriterionView = CriterionView(cid: int, criterion: Criterion, typeOfEvaluation: Json, sectionPercentage: real)

  // ---------------------------------------------------------------------------
  // The weight sum per type

  /** The weight a row contributes to the sum of type `tid`. */
  function Share(c: Criterion, tid: int): real {
    if c.tid == tid then c.weight else 0.0
  }

  /** `SELECT COALESCE(SUM(weight), 0) FROM criteria WHERE tid = ?`, summed in key order. */
  function TidSum(rows: map<int, Criterion>, tid: int): real
    decreases |rows|
  {
    if rows == map[] then 0.0
    else
      var k := MinKey(rows.Keys);
      Share(rows[k], tid) + TidSum(rows - {k}, tid)
  }

  /** The rows `canApplyWeight` sums over: all of them, or all but `cid` (`cid <> ?`). */
  function Excluding(rows: map<int, Criterion>, cid: Option<int>): map<int, Criterion> {
    match cid
    case None => rows
    case Some(c) => rows - {c}
  }

  /**
   * `canApplyWeight(tid, weight, cid)`: what is left of 100 once the weights of type
   * `tid` (without row `cid`) are taken, and whether `weight` fits in it.
   */
  function CanApplyWeight(rows: map<int, Criterion>, tid: int, weight: real, cid: Option<int>): Capacity {
    var remaining := 100.0 - TidSum(Excluding(rows, cid), tid);
    Capacity(weight <= remaining, remaining)
  }

  predicate WellFormed(c: Criterion) {
    0.0 <= c.weight <= 100.0 && 1 <= c.level <= 4
  }

  predicate AllWellFormed(rows: map<int, Criterion>) {
    forall k :: k in rows ==> WellFormed(rows[k])
  }

  /** For every type, the weights of its criteria add up to at most 100. */
  ghost predicate WithinCapacity(rows: map<int, Criterion>) {
    forall tid :: TidSum(rows, tid) <= 100.0
  }

  /** The sum does not depend on the order rows are taken in: any row can be taken first. */
  lemma {:induction false} TidSumSplit(rows: map<int, Criterion>, k: int, tid: int)
    requires k in rows
    ensures TidSum(rows, tid) == Share(rows[k], tid) + TidSum(rows - {k}, tid)
    decreases |rows|
  {
    var m := MinKey(rows.Keys);
    if k != m {
      var rest := rows - {m};
      TidSumSplit(rest, k, tid);
      var rest2 := rows - {k};
      TidSumSplit(rest2, m, tid);
      assert rest - {k} == rest2 - {m};
    }
  }

  lemma {:induction false} TidSumNonNegative(rows: map<int, Criterion>, tid: int)
    requires AllWellFormed(rows)
    ensures TidSum(rows, tid) >= 0.0
    decreases |rows|
  {
    if rows != map[] {
      var k := MinKey(rows.Keys);
      TidSumNonNegative(rows - {k}, tid);
    }
  }

  /** Writing row `k` replaces its old share of the sum with the new one. */
  lemma TidSumPut(rows: map<int, Criterion>, k: int, c: Criterion, tid: int)
    ensures TidSum(rows[k := c], tid) == Share(c, tid) + TidSum(rows - {k}, tid)
  {
    TidSumSplit(rows[k := c], k, tid);
    assert rows[k := c] - {k} == rows - {k};
  }

  /** Removing a row never raises the sum of any type. */
  lemma TidSumRemove(rows: map<int, Criterion>, k: int, tid: int)
    requires AllWellFormed(rows)
    ensures TidSum(rows - {k}, tid) <= TidSum(rows, tid)
  {
    if k in rows {
      TidSumSplit(rows, k, tid);
    } else {
      assert rows - {k} == rows;
    }
  }

  /**
   * For a new row: the check passes exactly when, after the insert, the weights of
   * type `tid` add up to at most 100; `remaining` is what is left before it.
   */
  lemma CanApplyWeightOnInsert(rows: map<int, Criterion>, k: int, c: Criterion)
    requires k !in rows
    ensures CanApplyWeight(rows, c.tid, c.weight, None).ok <==> TidSum(rows[k := c], c.tid) <= 100.0
    ensures CanApplyWeight(rows, c.tid, c.weight, None).remaining == 100.0 - TidSum(rows, c.tid)
  {
    TidSumPut(rows, k, c, c.tid);
    assert rows - {k} == rows;
  }

  /**
   * For an existing row `cid` rewritten as `c`: the check passes exactly when, after
   * the write, the weights of type `c.tid` add up to at most 100, whichever type the
   * row belonged to before.
   */
  lemma CanApplyWeightOnUpdate(rows: map<int, Criterion>, cid: int, c: Criterion)
    ensures CanApplyWeight(rows, c.tid, c.weight, Some(cid)).ok <==> TidSum(rows[cid := c], c.tid) <= 100.0
  {
    TidSumPut(rows, cid, c, c.tid);
  }

  // ---------------------------------------------------------------------------
  // Validation and the two write decisions

  /** A value produced by `parseInt`, or a stored integer column. */
  predicate Integral(n: Number) {
    n.Finite? ==> n.x == n.x.Floor as real
  }

  /**
   * The checks create and update share, in this order, on the converted fields: the
   * tid is a number, the weight lies in [0, 100], the level in [1, 4], and a type row
   * with the tid exists. Every comparison with NaN is false, so NaN fails each range.
   */
  function CheckRecord(tid: Number, criteria: Json, weight: Number, level: Number, types: map<int, TypeRow>)
    : (r: Result<Criterion, CriteriaError>)
    requires Integral(tid) && Integral(level)
    ensures r.Ok? ==> WellFormed(r.value) && r.value.tid in types && r.value.criteria == criteria
    ensures r.Ok? ==> tid == Finite(r.value.tid as real) && weight == Finite(r.value.weight)
                      && level == Finite(r.value.level as real)
    ensures r.Ok? <==> tid.Finite? && tid.x.Floor in types && AtLeast(weight, 0.0) && AtMost(weight, 100.0)
                       && AtLeast(level, 1.0) && AtMost(level, 4.0)
    ensures tid.NaN? ==> r == Err(TidNotANumber)
    ensures tid.Finite? && !(AtLeast(weight, 0.0) && AtMost(weight, 100.0)) ==> r == Err(WeightOutOfRange)
    ensures (tid.Finite? && AtLeast(weight, 0.0) && AtMost(weight, 100.0)
             && !(AtLeast(level, 1.0) && AtMost(level, 4.0))) ==> r == Err(LevelOutOfRange)
    ensures (r.Err? && tid.Finite? && AtLeast(weight, 0.0) && AtMost(weight, 100.0)
             && AtLeast(level, 1.0) && AtMost(level, 4.0)) ==> r == Err(UnknownType) && tid.x.Floor !in types
  {
    if tid.NaN? then Err(TidNotANumber)
    else if !(AtLeast(weight, 0.0) && AtMost(weight, 100.0)) then Err(WeightOutOfRange)
    else if !(AtLeast(level, 1.0) && AtMost(level, 4.0)) then Err(LevelOutOfRange)
    else if IntOf(tid) !in types then Err(UnknownType)
    else Ok(Criterion(IntOf(tid), criteria, weight.x, IntOf(level)))
  }

  /** `!tid || !criteria || weight == null || level == null` */
  predicate MissingFields(body: Body) {
    !Truthy(body.tid) || !Truthy(body.criteria) || IsNullish(body.weight) || IsNullish(body.level)
  }

  /** What `createCriteria` decides for `body`: the row to insert, or the error it answers with. */
  function CreateOutcome(rows: map<int, Criterion>, types: map<int, TypeRow>, body: Body)
    : Result<Criterion, CriteriaError>
  {
    if MissingFields(body) then Err(FieldsRequired)
    else
      var c :- CheckRecord(ParseInt(body.tid), body.criteria, ToNumber(body.weight), ParseInt(body.level), types);
      var cap := CanApplyWeight(rows, c.tid, c.weight, None);
      if !cap.ok then Err(CapacityExceeded(cap.remaining)) else Ok(c)
  }

  /** The tid, criteria, weight and level `updateCriteria` validates: the body's, or the stored ones. */
  function Merged(current: Criterion, body: Body): (Number, Json, Number, Number) {
    ( if !IsNullish(body.tid) then ParseInt(body.tid) else Finite(current.tid as real),
      if !IsNullish(body.criteria) then body.criteria else current.criteria,
      if !IsNullish(body.weight) then ToNumber(body.weight) else Finite(current.weight),
      if !IsNullish(body.level) then ParseInt(body.level) else Finite(current.level as real) )
  }

  /** What `updateCriteria` decides for row `cid`: its new value, or the error it answers with. */
  function UpdateOutcome(rows: map<int, Criterion>, types: map<int, TypeRow>, cid: int, body: Body)
    : Result<Criterion, CriteriaError>
  {
    if cid !in rows then Err(CriteriaNotFound)
    else
      var m := Merged(rows[cid], body);
      var c :- CheckRecord(m.0, m.1, m.2, m.3, types);
      var cap := CanApplyWeight(rows, c.tid, c.weight, Some(cid));
      if !cap.ok then Err(CapacityExceeded(cap.remaining)) else Ok(c)
  }

  /**
   * A created row is well formed, has an existing type, carries the body's criteria and
   * converted weight, and fits in what its type has left; a missing field is reported
   * before anything else, and a capacity refusal reports what was left.
   */
  lemma CreateOutcomeMeaning(rows: map<int, Criterion>, types: map<int, TypeRow>, body: Body)
    ensures CreateOutcome(rows, types, body) == Err(FieldsRequired) <==> MissingFields(body)
    ensures CreateOutcome(rows, types, body).Ok? ==>
              var c := CreateOutcome(rows, types, body).value;
              && WellFormed(c) && c.tid in types && c.criteria == body.criteria
              && Finite(c.weight) == ToNumber(body.weight)
              && TidSum(rows, c.tid) + c.weight <= 100.0
    ensures CreateOutcome(rows, types, body).Err? && CreateOutcome(rows, types, body).error.CapacityExceeded? ==>
              var t := IntOf(ParseInt(body.tid));
              && CreateOutcome(rows, types, body).error.remaining == 100.0 - TidSum(rows, t)
              && ToNumber(body.weight).Finite? && ToNumber(body.weight).x > 100.0 - TidSum(rows, t)
  {
  }

  /**
   * Update answers 404 exactly for an unknown `cid`. A saved row is well formed, has an
   * existing type and fits in what its type has left without its old weight; each field
   * is the body's converted value when the body has one, and the stored value otherwise.
   * A capacity refusal reports what the type has left without row `cid`.
   */
  lemma UpdateOutcomeMeaning(rows: map<int, Criterion>, types: map<int, TypeRow>, cid: int, body: Body)
    ensures UpdateOutcome(rows, types, cid, body) == Err(CriteriaNotFound) <==> cid !in rows
    ensures UpdateOutcome(rows, types, cid, body).Ok? ==>
              var c := UpdateOutcome(rows, types, cid, body).value;
              var stored := rows[cid];
              && WellFormed(c) && c.tid in types
              && TidSum(rows - {cid}, c.tid) + c.weight <= 100.0
              && Finite(c.tid as real) == (if IsNullish(body.tid) then Finite(stored.tid as real) else ParseInt(body.tid))
              && c.criteria == (if IsNullish(body.criteria) then stored.criteria else body.criteria)
              && Finite(c.weight) == (if IsNullish(body.weight) then Finite(stored.weight) else ToNumber(body.weight))
              && Finite(c.level as real)
                 == (if IsNullish(body.level) then Finite(stored.level as real) else ParseInt(body.level))
    ensures UpdateOutcome(rows, types, cid, body).Err? && UpdateOutcome(rows, types, cid, body).error.CapacityExceeded? ==>
              var m := Merged(rows[cid], body);
              && m.0.Finite? && m.2.Finite?
              && UpdateOutcome(rows, types, cid, body).error.remaining == 100.0 - TidSum(rows - {cid}, IntOf(m.0))
              && m.2.x > 100.0 - TidSum(rows - {cid}, IntOf(m.0))
  {
  }

  /** Create keeps every stored row well formed and every type within capacity. */
  lemma CreateKeepsCapacity(rows: map<int, Criterion>, types: map<int, TypeRow>, body: Body, k: int)
    requires AllWellFormed(rows) && WithinCapacity(rows) && k !in rows
    requires CreateOutcome(rows, types, body).Ok?
    ensures AllWellFormed(rows[k := CreateOutcome(rows, types, body).value])
    ensures WithinCapacity(rows[k := CreateOutcome(rows, types, body).value])
  {
    var c := CreateOutcome(rows, types, body).value;
    var after := rows[k := c];
    assert rows - {k} == rows;
    forall tid ensures TidSum(after, tid) <= 100.0 {
      TidSumPut(rows, k, c, tid);
    }
  }

  /**
   * Update keeps every stored row well formed and every type within capacity, also
   * when it moves the row to another type.
   */
  lemma UpdateKeepsCapacity(rows: map<int, Criterion>, types: map<int, TypeRow>, cid: int, body: Body)
    requires AllWellFormed(rows) && WithinCapacity(rows)
    requires UpdateOutcome(rows, types, cid, body).Ok?
    ensures cid in rows
    ensures AllWellFormed(rows[cid := UpdateOutcome(rows, types, cid, body).value])
    ensures WithinCapacity(rows[cid := UpdateOutcome(rows, types, cid, body).value])
  {
    var c := UpdateOutcome(rows, types, cid, body).value;
    var after := rows[cid := c];
    forall tid ensures TidSum(after, tid) <= 100.0 {
      TidSumPut(rows, cid, c, tid);
      if tid != c.tid {
        TidSumRemove(rows, cid, tid);
      }
    }
  }

  /** Delete keeps every type within capacity. */
  lemma DeleteKeepsCapacity(rows: map<int, Criterion>, cid: int)
    requires AllWellFormed(rows) && WithinCapacity(rows)
    ensures AllWellFormed(rows - {cid}) && WithinCapacity(rows - {cid})
  {
    forall tid ensures TidSum(rows - {cid}, tid) <= 100.0 {
      TidSumRemove(rows, cid, tid);
    }
  }

  /** In a table within capacity, a stored row fits again with its own tid and weight. */
  lemma ResaveFits(rows: map<int, Criterion>, cid: int)
    requires AllWellFormed(rows) && WithinCapacity(rows) && cid in rows
    ensures CanApplyWeight(rows, rows[cid].tid, rows[cid].weight, Some(cid)).ok
  {
    TidSumSplit(rows, cid, rows[cid].tid);
  }

  /**
   * Re-saving a row with an empty body (every field defaulting to the stored one)
   * succeeds and leaves the row as it was, as long as its type still exists.
   */
  lemma ResaveUnchanged(rows: map<int, Criterion>, types: map<int, TypeRow>, cid: int)
    requires AllWellFormed(rows) && WithinCapacity(rows) && cid in rows && rows[cid].tid in types
    ensures UpdateOutcome(rows, types, cid, Body(Undefined, Undefined, Undefined, Undefined)) == Ok(rows[cid])
  {
    ResaveFits(rows, cid);
    var c := rows[cid];
    assert (c.tid as real).Floor == c.tid && (c.level as real).Floor == c.level;
  }

  // ---------------------------------------------------------------------------
  // Reads

  /** The rows with type `tid`, or all rows when there is no filter. */
  function Matching(rows: map<int, Criterion>, tidFilter: Option<int>): (r: map<int, Criterion>)
    ensures forall k :: k in r <==> k in rows && (tidFilter.Some? ==> rows[k].tid == tidFilter.value)
    ensures forall k :: k in r ==> r[k] == rows[k]
  {
    match tidFilter
    case None => rows
    case Some(t) => map k | k in rows && rows[k].tid == t :: rows[k]
  }

  /** `criteria c JOIN type t ON t.tid = c.tid`, over the keys `ks` in their order. */
  function Joined(rows: map<int, Criterion>, types: map<int, TypeRow>, ks: seq<int>): (r: seq<CriterionView>)
    requires forall i :: 0 <= i < |ks| ==> ks[i] in rows
    ensures |r| <= |ks|
    ensures forall j :: 0 <= j < |r| ==>
              && r[j].cid in ks && r[j].cid in rows && r[j].criterion == rows[r[j].cid]
              && r[j].criterion.tid in types
              && r[j].typeOfEvaluation == types[r[j].criterion.tid].name
              && r[j].sectionPercentage == types[r[j].criterion.tid].sectionPercentage
  {
    if ks == [] then []
    else
      var rest := Joined(rows, types, ks[1..]);
      var c := rows[ks[0]];
      if c.tid in types then
        [CriterionView(ks[0], c, types[c.tid].name, types[c.tid].sectionPercentage)] + rest
      else rest
  }

  /** The join keeps every row whose type exists. */
  lemma {:induction false} JoinedKeeps(rows: map<int, Criterion>, types: map<int, TypeRow>, ks: seq<int>, i: int)
    requires forall i :: 0 <= i < |ks| ==> ks[i] in rows
    requires 0 <= i < |ks| && rows[ks[i]].tid in types
    ensures exists j :: 0 <= j < |Joined(rows, types, ks)| && Joined(rows, types, ks)[j].cid == ks[i]
    decreases |ks|
  {
    var all := Joined(rows, types, ks);
    if i == 0 {
      assert all[0].cid == ks[0];
    } else {
      var rest := Joined(rows, types, ks[1..]);
      JoinedKeeps(rows, types, ks[1..], i - 1);
      var j :| 0 <= j < |rest| && rest[j].cid == ks[1..][i - 1];
      if rows[ks[0]].tid in types {
        assert all[j + 1] == rest[j];
      } else {
        assert all[j] == rest[j];
      }
    }
  }

  /** Over keys in ascending order the join lists the rows in ascending `cid` order. */
  lemma {:induction false} JoinedOrdered(rows: map<int, Criterion>, types: map<int, TypeRow>, ks: seq<int>)
    requires forall i :: 0 <= i < |ks| ==> ks[i] in rows
    requires forall a, b :: 0 <= a < b < |ks| ==> ks[a] < ks[b]
    ensures forall a, b :: 0 <= a < b < |Joined(rows, types, ks)| ==>
              Joined(rows, types, ks)[a].cid < Joined(rows, types, ks)[b].cid
    decreases |ks|
  {
    if ks != [] {
      JoinedOrdered(rows, types, ks[1..]);
      var all, rest := Joined(rows, types, ks), Joined(rows, types, ks[1..]);
      forall j | 0 <= j < |rest| ensures ks[0] < rest[j].cid {
        var i :| 0 <= i < |ks[1..]| && ks[1..][i] == rest[j].cid;
        assert ks[i + 1] == rest[j].cid;
      }
      if rows[ks[0]].tid in types {
        PrependOrdered(all[0], rest);
      }
    }
  }

  /** A view with a smaller `cid` than all of an ordered list, put in front, keeps it ordered. */
  lemma PrependOrdered(v: CriterionView, rest: seq<CriterionView>)
    requires forall j :: 0 <= j < |rest| ==> v.cid < rest[j].cid
    requires forall a, b :: 0 <= a < b < |rest| ==> rest[a].cid < rest[b].cid
    ensures forall a, b :: 0 <= a < b < |[v] + rest| ==> ([v] + rest)[a].cid < ([v] + rest)[b].cid
  {
    var r := [v] + rest;
    forall a, b | 0 <= a < b < |r| ensures r[a].cid < r[b].cid {
      assert r[b] == rest[b - 1];
      if a > 0 {
        assert r[a] == rest[a - 1];
      }
    }
  }

  /** A window of views in ascending `cid` order is still in ascending `cid` order. */
  lemma WindowInCidOrder(views: seq<CriterionView>, limit: int, offset: int)
    requires limit >= 1 && offset >= 0
    requires forall a, b :: 0 <= a < b < |views| ==> views[a].cid < views[b].cid
    ensures var w := Window(views, limit, offset);
            forall a, b :: 0 <= a < b < |w| ==> w[a].cid < w[b].cid
  {
    var w := Window(views, limit, offset);
    forall a, b | 0 <= a < b < |w| ensures w[a].cid < w[b].cid {
      assert w[a] == views[offset + a] && w[b] == views[offset + b];
    }
  }

  class CriteriaTable {
    var rows: map<int, Criterion>
    var nextCid: int

    /** Every row is well formed and no type's weights exceed 100. */
    ghost predicate Valid()
      reads this
    {
      && nextCid >= 1
      && (forall k :: k in rows ==> 1 <= k < nextCid)
      && AllWellFormed(rows)
      && WithinCapacity(rows)
    }

    constructor ()
      ensures Valid() && rows == map[] && nextCid == 1
    {
      rows := map[];
      nextCid := 1;
    }

    /**
     * `createCriteria`: the presence check, the conversions, the shared checks and the
     * capacity guard, each returning early; only a request that passes all of them
     * inserts, as exactly one new row.
     */
    method CreateCriteria(types: map<int, TypeRow>, body: Body) returns (r: Result<(int, Criterion), CriteriaError>)
      requires Valid()
      modifies this
      ensures Valid()
      ensures r.Ok? <==> CreateOutcome(old(rows), types, body).Ok?
      ensures r.Err? ==> r.error == CreateOutcome(old(rows), types, body).error
                         && rows == old(rows) && nextCid == old(nextCid)
      ensures r.Ok? ==> && r.value == (old(nextCid), CreateOutcome(old(rows), types, body).value)
                        && rows == old(rows)[old(nextCid) := r.value.1]
                        && nextCid == old(nextCid) + 1
    {
      if MissingFields(body) {
        return Err(FieldsRequired);
      }
      var tid := ParseInt(body.tid);
      var weight := ToNumber(body.weight);
      var level := ParseInt(body.level);
      var checked := CheckRecord(tid, body.criteria, weight, level, types);
      if checked.Err? {
        return Err(checked.error);
      }
      var c := checked.value;
      var cap := CanApplyWeight(rows, c.tid, c.weight, None);
      if !cap.ok {
        return Err(CapacityExceeded(cap.remaining));
      }
      CreateKeepsCapacity(rows, types, body, nextCid);
      rows := rows[nextCid := c];
      r := Ok((nextCid, c));
      nextCid := nextCid + 1;
    }

    /**
     * `updateCriteria`: 404 for an unknown `cid`, then the omitted fields default to the
     * stored row, the full record goes through the create checks, and the capacity guard
     * leaves the row itself out of the sum.
     */
    method UpdateCriteria(types: map<int, TypeRow>, cid: int, body: Body) returns (r: Result<(), CriteriaError>)
      requires Valid()
      modifies this
      ensures Valid() && nextCid == old(nextCid)
      ensures r.Ok? <==> UpdateOutcome(old(rows), types, cid, body).Ok?
      ensures r.Err? ==> r.error == UpdateOutcome(old(rows), types, cid, body).error && rows == old(rows)
      ensures r.Ok? ==> rows == old(rows)[cid := UpdateOutcome(old(rows), types, cid, body).value]
    {
      if cid !in rows {
        return Err(CriteriaNotFound);
      }
      var merged := Merged(rows[cid], body);
      var checked := CheckRecord(merged.0, merged.1, merged.2, merged.3, types);
      if checked.Err? {
        return Err(checked.error);
      }
      var c := checked.value;
      var cap := CanApplyWeight(rows, c.tid, c.weight, Some(cid));
      if !cap.ok {
        return Err(CapacityExceeded(cap.remaining));
      }
      UpdateKeepsCapacity(rows, types, cid, body);
      rows := rows[cid := c];
      r := Ok(());
    }

    /** `deleteCriteria`: removes only row `cid`, with no rebalancing, or answers 404. */
    method DeleteCriteria(cid: int) returns (r: Result<(), CriteriaError>)
      requires Valid()
      modifies this
      ensures Valid() && nextCid == old(nextCid)
      ensures r.Ok? <==> cid in old(rows)
      ensures r.Err? ==> r.error == CriteriaNotFound && rows == old(rows)
      ensures r.Ok? ==> rows == old(rows) - {cid}
    {
      if cid !in rows {
        return Err(CriteriaNotFound);
      }
      DeleteKeepsCapacity(rows, cid);
      rows := rows - {cid};
      r := Ok(());
    }

    /** `getCriteriaById`: the row joined with its type; 404 when either is missing. */
    function GetCriteriaById(types: map<int, TypeRow>, cid: int): (r: Result<CriterionView, CriteriaError>)
      reads this
      ensures r.Ok? <==> cid in rows && rows[cid].tid in types
      ensures r.Ok? ==> && r.value.cid == cid && r.value.criterion == rows[cid]
                        && r.value.typeOfEvaluation == types[rows[cid].tid].name
                        && r.value.sectionPercentage == types[rows[cid].tid].sectionPercentage
      ensures r.Err? ==> r.error == CriteriaNotFound
    {
      if cid in rows && rows[cid].tid in types then
        var c := rows[cid];
        Ok(CriterionView(cid, c, types[c.tid].name, types[c.tid].sectionPercentage))
      else Err(CriteriaNotFound)
    }

    /**
     * `getAllCriteria`: the joined rows in `cid` order, windowed by `page` and `limit`.
     * The count query has no join, so `total` also counts rows whose type is gone.
     */
    function ListCriteria(types: map<int, TypeRow>, tidFilter: Option<int>, pageParam: Json, limitParam: Json)
      : (r: (seq<CriterionView>, PageInfo))
      reads this
      ensures r.1 == Paging(|Matching(rows, tidFilter)|, pageParam, limitParam)
      ensures var matching := Matching(rows, tidFilter);
              r.0 == Window(Joined(matching, types, SortedKeys(matching.Keys)), r.1.limit, r.1.offset)
      ensures |r.0| <= r.1.limit
      ensures forall j :: 0 <= j < |r.0| ==>
                && r.0[j].cid in rows && r.0[j].criterion == rows[r.0[j].cid]
                && r.0[j].criterion.tid in types
                && (tidFilter.Some? ==> r.0[j].criterion.tid == tidFilter.value)
      ensures forall a, b :: 0 <= a < b < |r.0| ==> r.0[a].cid < r.0[b].cid
    {
      var matching := Matching(rows, tidFilter);
      var ks := SortedKeys(matching.Keys);
      var info := Paging(|matching|, pageParam, limitParam);
      var joined := Joined(matching, types, ks);
      JoinedOrdered(matching, types, ks);
      WindowInCidOrder(joined, info.limit, info.offset);
      (PageRows(joined, info), info)
    }
  }
}
