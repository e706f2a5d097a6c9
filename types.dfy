/**
 * The evaluation-type table: a name, a description and a section percentage that
 * must lie in (0, 100]. The percentage is read with `parseFloat`, and anything
 * non-numeric counts as 0, which is rejected.
 */
module Types {
  import opened Results
  import opened Js

  /** A row of the `type` table. */
  datatype TypeRow = TypeRow(name: Json, description: Json, sectionPercentage: real)

  datatype TypeError = PercentageOutOfRange | TypeNotFound

  /** `safeNumber(value)`: `parseFloat(value)`, or 0 when that is NaN. */
  function SafeNumber(value: Json): (r: real)
    ensures ParseFloat(value).NaN? ==> r == 0.0
    ensures ParseFloat(value).Finite? ==> r == ParseFloat(value).x
  {
    match ParseFloat(value)
    case NaN => 0.0
    case Finite(x) => x
  }

  predicate ValidPercentage(p: real) {
    0.0 < p <= 100.0
  }

  /**
   * The percentage check of create and update: the value parses to a number in
   * (0, 100], and that number is what gets stored.
   */
  function CheckPercentage(value: Json): (r: Result<real, TypeError>)
    ensures r.Ok? <==> ParseFloat(value).Finite? && ValidPercentage(ParseFloat(value).x)
    ensures r.Ok? ==> r.value == ParseFloat(value).x
    ensures r.Err? ==> r.error == PercentageOutOfRange
  {
    var total := SafeNumber(value);
    if total <= 0.0 || total > 100.0 then Err(PercentageOutOfRange) else Ok(total)
  }

  /**
   * A percentage followed by a unit or other text ("50%") is accepted with its leading
   * number, when that number is in range.
   */
  lemma PercentageWithUnit(digits: string, unit: string)
    requires digits != [] && AllDigits(digits)
    requires unit != [] && !IsDigit(unit[0]) && unit[0] != '.' && unit[0] != 'e' && unit[0] != 'E'
    requires 0 < DigitsValue(digits) <= 100
    ensures CheckPercentage(Str(digits + unit)) == Ok(DigitsValue(digits) as real)
  {
    ParseFloatLeadingDigits(digits, unit);
  }

  /** Text that does not start with a number is coerced to 0 and rejected. */
  lemma TextRejected(s: string)
    requires TrimStart(s) != []
    requires var c := TrimStart(s)[0]; !IsDigit(c) && !IsSign(c) && c != '.'
    ensures CheckPercentage(Str(s)) == Err(PercentageOutOfRange)
  {
    ParseFloatNoDigits(s);
  }

  /** An absent value, zero and values above 100 are rejected; 100 itself is accepted. */
  lemma PercentageBounds()
    ensures CheckPercentage(Undefined) == Err(PercentageOutOfRange)
    ensures CheckPercentage(Num(0.0)) == Err(PercentageOutOfRange)
    ensures CheckPercentage(Num(100.5)) == Err(PercentageOutOfRange)
    ensures CheckPercentage(Num(100.0)) == Ok(100.0)
  {
  }

  class TypeTable {
    var rows: map<int, TypeRow>
    var nextId: int

    /** Every stored percentage lies in (0, 100]. */
    predicate Valid()
      reads this
    {
      && nextId >= 1
      && (forall id :: id in rows ==> 1 <= id < nextId)
      && (forall id :: id in rows ==> ValidPercentage(rows[id].sectionPercentage))
    }

    constructor ()
      ensures Valid() && rows == map[] && nextId == 1
    {
      rows := map[];
      nextId := 1;
    }

    /**
     * `createType`: the percentage check first; on success one row with the parsed
     * percentage under a fresh id. Names need not be unique.
     */
    method CreateType(name: Json, description: Json, sectionPercentage: Json)
      returns (r: Result<(int, TypeRow), TypeError>)
      requires Valid()
      modifies this
      ensures Valid()
      ensures r.Ok? <==> CheckPercentage(sectionPercentage).Ok?
      ensures r.Err? ==> r.error == PercentageOutOfRange && rows == old(rows) && nextId == old(nextId)
      ensures r.Ok? ==>
                var row := TypeRow(name, description, CheckPercentage(sectionPercentage).value);
                && r.value == (old(nextId), row)
                && rows == old(rows)[old(nextId) := row]
                && nextId == old(nextId) + 1
    {
      var checked := CheckPercentage(sectionPercentage);
      if checked.Err? {
        return Err(PercentageOutOfRange);
      }
      var row := TypeRow(name, description, checked.value);
      r := Ok((nextId, row));
      rows := rows[nextId := row];
      nextId := nextId + 1;
    }

    /**
     * `updateType`: the percentage check before the write, then 404 when no row has
     * the id; otherwise all three columns are overwritten.
     */
    method UpdateType(tid: int, name: Json, description: Json, sectionPercentage: Json)
      returns (r: Result<TypeRow, TypeError>)
      requires Valid()
      modifies this
      ensures Valid() && nextId == old(nextId)
      ensures CheckPercentage(sectionPercentage).Err? ==> r == Err(PercentageOutOfRange)
      ensures CheckPercentage(sectionPercentage).Ok? && tid !in old(rows) ==> r == Err(TypeNotFound)
      ensures CheckPercentage(sectionPercentage).Ok? && tid in old(rows) ==> r.Ok?
      ensures r.Err? ==> rows == old(rows)
      ensures r.Ok? ==>
                && CheckPercentage(sectionPercentage).Ok? && tid in old(rows)
                && r.value == TypeRow(name, description, CheckPercentage(sectionPercentage).value)
                && rows == old(rows)[tid := r.value]
    {
      var checked := CheckPercentage(sectionPercentage);
      if checked.Err? {
        return Err(PercentageOutOfRange);
      }
      if tid !in rows {
        return Err(TypeNotFound);
      }
      var row := TypeRow(name, description, checked.value);
      rows := rows[tid := row];
      r := Ok(row);
    }

    /** `deleteType`: removes only row `tid`, or answers 404. */
    method DeleteType(tid: int) returns (r: Result<(), TypeError>)
      requires Valid()
      modifies this
      ensures Valid() && nextId == old(nextId)
      ensures r.Ok? <==> tid in old(rows)
      ensures r.Err? ==> r.error == TypeNotFound && rows == old(rows)
      ensures r.Ok? ==> rows == old(rows) - {tid}
    {
      if tid !in rows {
        return Err(TypeNotFound);
      }
      rows := rows - {tid};
      r := Ok(());
    }

    /** `getTypeById` */
    function GetTypeById(tid: int): (r: Result<TypeRow, TypeError>)
      reads this
      ensures r.Ok? <==> tid in rows
      ensures r.Ok? ==> r.value == rows[tid]
      ensures r.Err? ==> r.error == TypeNotFound
    {
      if tid in rows then Ok(rows[tid]) else Err(TypeNotFound)
    }
  }
}
