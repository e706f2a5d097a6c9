/**
 * Keyed tables as the controllers see them: rows addressed by an integer primary key,
 * read back in ascending key order (`ORDER BY id`).
 */
module Tables {

  lemma Inhabited(s: set<int>)
    requires s != {}
    ensures exists k :: k in s
  {
    if forall k :: k !in s {
      assert false;
    }
  }

  /** A least element of a non-empty key set, chosen by removing one key at a time. */
  ghost function Least(s: set<int>): (m: int)
    requires s != {}
    ensures m in s && forall k :: k in s ==> m <= k
    decreases |s|
  {
    Inhabited(s);
    var x :| x in s;
    if s == {x} then x
    else
      var m := Least(s - {x});
      assert forall k :: k in s ==> k == x || k in s - {x};
      if x < m then x else m
  }

  /** The least key of a non-empty key set. */
  function MinKey(s: set<int>): (m: int)
    requires s != {}
    ensures m in s && forall k :: k in s ==> m <= k
  {
    var least := Least(s);
    var m :| m in s && forall k :: k in s ==> m <= k;
    m
  }

  /** The keys of `s` in ascending order: the order of `ORDER BY id`. */
  function SortedKeys(s: set<int>): (r: seq<int>)
    ensures |r| == |s|
    ensures forall i :: 0 <= i < |r| ==> r[i] in s
    ensures forall k :: k in s ==> k in r
    ensures forall i, j :: 0 <= i < j < |r| ==> r[i] < r[j]
    decreases |s|
  {
    if s == {} then []
    else
      var m := MinKey(s);
      var rest := SortedKeys(s - {m});
      PrependLeast(s, m, rest);
      [m] + rest
  }

  /** Putting the least key in front of the others in ascending order lists `s` in ascending order. */
  lemma PrependLeast(s: set<int>, m: int, rest: seq<int>)
    requires m in s && forall k :: k in s ==> m <= k
    requires |rest| == |s - {m}|
    requires forall i :: 0 <= i < |rest| ==> rest[i] in s - {m}
    requires forall k :: k in s - {m} ==> k in rest
    requires forall i, j :: 0 <= i < j < |rest| ==> rest[i] < rest[j]
    ensures var r := [m] + rest;
            && |r| == |s|
            && (forall i :: 0 <= i < |r| ==> r[i] in s)
            && (forall k :: k in s ==> k in r)
            && (forall i, j :: 0 <= i < j < |r| ==> r[i] < r[j])
  {
    var r := [m] + rest;
    forall i, j | 0 <= i < j < |r| ensures r[i] < r[j] {
      assert r[j] == rest[j - 1];
      if i > 0 {
        assert r[i] == rest[i - 1];
      }
    }
    forall k | k in s ensures k in r {
      if k != m {
        assert k in s - {m};
      }
    }
  }
}
