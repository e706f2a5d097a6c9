/**
 * The division table: names are stored trimmed and never empty, create refuses a
 * name that is already there, and the listing is paginated like the criteria one.
 */
module Divisions {
  import opened Results
  import opened Js
  import opened Tables
  import opened Pagination

  datatype DivisionError =
    | NameRequired       // absent, empty or whitespace-only name
    | NameNotText        // a truthy name that is not a string has no `trim`: a server error
    | DivisionExists
    | DivisionNotFound

  /** A stored name: non-empty, starting and ending with a non-space. */
  predicate IsTrimmedName(s: string) {
    s != [] && !IsSpace(s[0]) && !IsSpace(s[|s| - 1])
  }

  /** A stored name has nothing left to trim. */
  lemma TrimmedNameIsFixed(s: string)
    requires IsTrimmedName(s)
    ensures Trim(s) == s
  {
    assert TrimStart(s) == s;
    assert TrimEnd(s) == s;
  }

  /** Every stored name is trimmed. */
  predicate AllTrimmed(rows: map<int, string>) {
    forall id :: id in rows ==> IsTrimmedName(rows[id])
  }

  /** Writing a trimmed name, new or overwriting, keeps every name trimmed. */
  lemma WriteTrimmed(rows: map<int, string>, id: int, name: string)
    requires AllTrimmed(rows) && IsTrimmedName(name)
    ensures AllTrimmed(rows[id := name])
  {
  }

  /** Some row holds exactly `name`. */
  predicate NameTaken(rows: map<int, string>, name: string) {
    exists id :: id in rows && rows[id] == name
  }

  /**
   * `!name || !name.trim()` and then `name.trim()`: the name create and update store.
   * It is refused when absent or blank, and fails when it is not a string.
   */
  function CheckName(name: Json): (r: Result<string, DivisionError>)
    ensures r.Ok? <==> name.Str? && !AllSpace(name.s)
    ensures r.Ok? ==> r.value == Trim(name.s) && IsTrimmedName(r.value)
    ensures r.Err? && r.error == NameNotText <==> Truthy(name) && !name.Str?
    ensures r.Err? ==> r.error == NameRequired || r.error == NameNotText
  {
    if !Truthy(name) then Err(NameRequired)
    else if !name.Str? then Err(NameNotText)
    else
      var t := Trim(name.s);
      if t == [] then Err(NameRequired) else Ok(t)
  }

  /** Whitespace around a stored name is trimmed away again. */
  lemma TrimPadded(name: string)
    requires IsTrimmedName(name)
    ensures Trim(" " + name + " ") == name
  {
    var padded := " " + name + " ";
    assert padded[1..] == name + " ";
    assert TrimStart(padded) == name + " ";
    assert (name + " ")[..|name|] == name;
    assert TrimEnd(name) == name;
    assert TrimEnd(name + " ") == name;
  }

  /** A blank name is missing, exactly like an absent one. */
  lemma BlankNameRequired(s: string)
    requires AllSpace(s)
    ensures CheckName(Str(s)) == Err(NameRequired)
  {
  }

  /** Surrounding whitespace is dropped: a padded name is stored as the name itself. */
  lemma PaddedNameAccepted(name: string)
    requires IsTrimmedName(name)
    ensures CheckName(Str(" " + name + " ")) == Ok(name)
  {
    TrimPadded(name);
  }

  /** Names of blanks only, empty names and non-strings are refused. */
  lemma RefusedNameExamples()
    ensures CheckName(Str("  ")) == Err(NameRequired)
    ensures CheckName(Str("")) == Err(NameRequired)
    ensures CheckName(Num(7.0)) == Err(NameNotText)
  {
    BlankNameRequired("  ");
    BlankNameRequired("");
  }

  /** A window of rows in ascending id order is still in ascending id order. */
  lemma WindowInIdOrder(ordered: seq<(int, string)>, limit: int, offset: int)
    requires limit >= 1 && offset >= 0
    requires forall a, b :: 0 <= a < b < |ordered| ==> ordered[a].0 < ordered[b].0
    ensures var w := Window(ordered, limit, offset);
            forall a, b :: 0 <= a < b < |w| ==> w[a].0 < w[b].0
  {
    var w := Window(ordered, limit, offset);
    forall a, b | 0 <= a < b < |w| ensures w[a].0 < w[b].0 {
      assert w[a] == ordered[offset + a] && w[b] == ordered[offset + b];
    }
  }

  class DivisionTable {
    var rows: map<int, string>
    var nextId: int

    /** Every stored name is trimmed and non-empty. */
    predicate Valid()
      reads this
    {
      && nextId >= 1
      && (forall id :: id in rows ==> 1 <= id < nextId)
      && AllTrimmed(rows)
    }

    constructor ()
      ensures Valid() && rows == map[] && nextId == 1
    {
      rows := map[];
      nextId := 1;
    }

    /**
     * `createDivision`: the name check, then the uniqueness check on the trimmed name,
     * then one new row holding the trimmed name.
     */
    method CreateDivision(name: Json) returns (r: Result<(int, string), DivisionError>)
      requires Valid()
      modifies this
      ensures Valid()
      ensures CheckName(name).Err? ==> r == Err(CheckName(name).error)
      ensures CheckName(name).Ok? && NameTaken(old(rows), CheckName(name).value) ==> r == Err(DivisionExists)
      ensures CheckName(name).Ok? && !NameTaken(old(rows), CheckName(name).value) ==> r.Ok?
      ensures r.Err? ==> rows == old(rows) && nextId == old(nextId)
      ensures r.Ok? ==>
                && CheckName(name).Ok? && r.value == (old(nextId), CheckName(name).value)
                && !NameTaken(old(rows), r.value.1)
                && rows == old(rows)[old(nextId) := r.value.1]
                && nextId == old(nextId) + 1
    {
      var checked := CheckName(name);
      if checked.Err? {
        return Err(checked.error);
      }
      var trimmed := checked.value;
      if NameTaken(rows, trimmed) {
        return Err(DivisionExists);
      }
      r := Ok((nextId, trimmed));
      Append(trimmed);
    }

    /** Adds a row holding a trimmed name under the next id. */
    method Append(name: string)
      requires Valid() && IsTrimmedName(name)
      modifies this
      ensures Valid() && nextId == old(nextId) + 1
      ensures rows == old(rows)[old(nextId) := name]
    {
      WriteTrimmed(rows, nextId, name);
      rows := rows[nextId := name];
      nextId := nextId + 1;
    }

    /**
     * `updateDivision`: the name check, then 404 for an unknown id; the trimmed name is
     * stored without any uniqueness check.
     */
    method UpdateDivision(id: int, name: Json) returns (r: Result<(), DivisionError>)
      requires Valid()
      modifies this
      ensures Valid() && nextId == old(nextId)
      ensures CheckName(name).Err? ==> r == Err(CheckName(name).error)
      ensures CheckName(name).Ok? && id !in old(rows) ==> r == Err(DivisionNotFound)
      ensures CheckName(name).Ok? && id in old(rows) ==> r.Ok?
      ensures r.Err? ==> rows == old(rows)
      ensures r.Ok? ==> CheckName(name).Ok? && id in old(rows) && rows == old(rows)[id := CheckName(name).value]
    {
      var checked := CheckName(name);
      if checked.Err? {
        return Err(checked.error);
      }
      if id !in rows {
        return Err(DivisionNotFound);
      }
      Rename(id, checked.value);
      r := Ok(());
    }

    /** Overwrites the name of row `id` with a trimmed name. */
    method Rename(id: int, name: string)
      requires Valid() && id in rows && IsTrimmedName(name)
      modifies this
      ensures Valid() && nextId == old(nextId)
      ensures rows == old(rows)[id := name]
    {
      WriteTrimmed(rows, id, name);
      rows := rows[id := name];
    }

    /** `deleteDivision`: removes only row `id`, or answers 404. */
    method DeleteDivision(id: int) returns (r: Result<(), DivisionError>)
      requires Valid()
      modifies this
      ensures Valid() && nextId == old(nextId)
      ensures r.Ok? <==> id in old(rows)
      ensures r.Err? ==> r.error == DivisionNotFound && rows == old(rows)
      ensures r.Ok? ==> rows == old(rows) - {id}
    {
      if id !in rows {
        return Err(DivisionNotFound);
      }
      rows := rows - {id};
      r := Ok(());
    }

    /**
     * `getDivisionIdByName`: the id of a row holding exactly `name` (the query has no
     * order, so any such row), or 404. The name is not trimmed, so a name with
     * surrounding whitespace is never found.
     */
    method GetDivisionIdByName(name: string) returns (r: Result<int, DivisionError>)
      requires Valid()
      ensures r.Ok? <==> NameTaken(rows, name)
      ensures r.Ok? ==> r.value in rows && rows[r.value] == name
      ensures r.Err? ==> r.error == DivisionNotFound
      ensures Trim(name) != name ==> r == Err(DivisionNotFound)
    {
      if !NameTaken(rows, name) {
        return Err(DivisionNotFound);
      }
      var id :| id in rows && rows[id] == name;
      r := Ok(id);
    }

    /** `SELECT * FROM division ORDER BY id` */
    function InIdOrder(): (r: seq<(int, string)>)
      reads this
      ensures |r| == |rows|
      ensures forall j :: 0 <= j < |r| ==> r[j].0 in rows && rows[r[j].0] == r[j].1
      ensures forall a, b :: 0 <= a < b < |r| ==> r[a].0 < r[b].0
    {
      var stored := rows;
      var ks := SortedKeys(stored.Keys);
      assert |stored| == |stored.Keys|;
      seq(|ks|, i requires 0 <= i < |ks| => (ks[i], stored[ks[i]]))
    }

    /** `getAllDivisions`: the rows in id order, windowed by `page` and `limit`. */
    function ListDivisions(pageParam: Json, limitParam: Json): (r: (seq<(int, string)>, PageInfo))
      reads this
      ensures r.1 == Paging(|rows|, pageParam, limitParam)
      ensures r.0 == Window(InIdOrder(), r.1.limit, r.1.offset)
      ensures |r.0| <= r.1.limit
      ensures forall j :: 0 <= j < |r.0| ==> r.0[j].0 in rows && rows[r.0[j].0] == r.0[j].1
      ensures forall a, b :: 0 <= a < b < |r.0| ==> r.0[a].0 < r.0[b].0
    {
      var ordered := InIdOrder();
      var info := Paging(|rows|, pageParam, limitParam);
      WindowInIdOrder(ordered, info.limit, info.offset);
      (PageRows(ordered, info), info)
    }
  }
}
