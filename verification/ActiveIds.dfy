/** The active list as a value: client ids in the order in which they will be served. */
module ActiveIds {

  ghost predicate Distinct(list: seq<int>) {
    forall i, j :: 0 <= i < j < |list| ==> list[i] != list[j]
  }

  /** Append keeps one entry per client. */
  function AppendId(list: seq<int>, id: int): seq<int> {
    if id in list then list else list + [id]
  }

  function IdSet(list: seq<int>): (ids: set<int>)
    ensures forall id :: id in ids <==> id in list
  {
    set id | id in list
  }

  lemma {:induction false} CountDistinct(ids: seq<int>)
    requires Distinct(ids)
    ensures |IdSet(ids)| == |ids|
  {
    if ids != [] {
      CountDistinct(ids[1..]);
      assert IdSet(ids) == IdSet(ids[1..]) + {ids[0]};
      assert ids[0] !in ids[1..];
    }
  }

  lemma {:induction false} CountRepeated(ids: seq<int>)
    requires !Distinct(ids)
    ensures 0 < |IdSet(ids)| < |ids|
  {
    assert IdSet(ids) == IdSet(ids[1..]) + {ids[0]};
    if ids[0] in ids[1..] {
      CountAtMost(ids[1..]);
    } else {
      assert !Distinct(ids[1..]) by {
        var i, j :| 0 <= i < j < |ids| && ids[i] == ids[j];
        assert ids[1..][i - 1] == ids[1..][j - 1];
      }
      CountRepeated(ids[1..]);
    }
  }

  lemma {:induction false} CountAtMost(ids: seq<int>)
    ensures |IdSet(ids)| <= |ids|
    ensures ids != [] ==> |IdSet(ids)| > 0
  {
    if ids != [] {
      CountAtMost(ids[1..]);
      assert IdSet(ids) == IdSet(ids[1..]) + {ids[0]};
    }
  }
}
