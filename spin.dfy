/** What `spin` in App.tsx computes before it changes any state: the check that
    every list has items, and the one draw per list. The random source
    `Math.random()` is a caller-supplied real in [0, 1) per list. */
module SpinDraw {
  import opened Types

  /** Values that `Math.random()` can return, one per list. */
  predicate UnitDraws(rs: seq<real>)
  {
    forall i :: 0 <= i < |rs| ==> 0.0 <= rs[i] < 1.0
  }

  /** `Math.floor(r * n)`: the index drawn from a list of `n` items. */
  function Pick(r: real, n: nat): (k: nat)
    requires 0.0 <= r < 1.0 && n > 0
    ensures k < n
  {
    var x := r * n as real;
    assert 0.0 <= x < n as real by {
      assert r * n as real < 1.0 * n as real;
    }
    x.Floor
  }

  /** Index `j` is drawn exactly when `r` lies in [j/n, (j+1)/n), an interval of
      width 1/n: a uniform `r` draws every index with the same chance. */
  lemma PickPreimage(r: real, n: nat, j: nat)
    requires 0.0 <= r < 1.0 && n > 0
    ensures Pick(r, n) == j <==> (j as real) / (n as real) <= r < ((j + 1) as real) / (n as real)
  {
    var nr := n as real;
    var x := r * nr;
    var lo, hi := (j as real) / nr, ((j + 1) as real) / nr;
    assert lo * nr == j as real;
    assert hi * nr == (j + 1) as real;
    ScaleMonotone(lo, r, nr);
    ScaleMonotone(r, hi, nr);
  }

  lemma ScaleMonotone(a: real, b: real, c: real)
    requires c > 0.0
    ensures a <= b <==> a * c <= b * c
    ensures a < b <==> a * c < b * c
  {
  }

  /** The result of one list in one spin: the item at the drawn index. */
  function Draw(l: TextList, r: real): (res: SpinResult)
    requires 0.0 <= r < 1.0 && |l.items| > 0
    ensures res.listId == l.id && res.selectedItem in l.items
  {
    SpinResult(l.id, l.items[Pick(r, |l.items|)])
  }

  /** Every item of a list can be drawn. */
  lemma DrawReachesEveryItem(l: TextList, j: nat)
    requires j < |l.items|
    ensures var r := (j as real) / (|l.items| as real);
            0.0 <= r < 1.0 && Draw(l, r).selectedItem == l.items[j]
  {
    var n := |l.items|;
    var r := (j as real) / (n as real);
    assert 0.0 <= r < 1.0 by {
      assert r * (n as real) == j as real;
      ScaleMonotone(r, 1.0, n as real);
    }
    PickPreimage(r, n, j);
  }

  /** Every list has at least one item. */
  predicate AllFilled(lists: seq<TextList>)
  {
    forall i :: 0 <= i < |lists| ==> |lists[i].items| > 0
  }

  /** `lists.filter(l => l.items.length === 0)`. */
  function EmptyLists(lists: seq<TextList>): (r: seq<TextList>)
    ensures |r| <= |lists|
    ensures forall l :: l in r <==> l in lists && |l.items| == 0
  {
    if lists == [] then []
    else if |lists[0].items| == 0 then [lists[0]] + EmptyLists(lists[1..])
    else EmptyLists(lists[1..])
  }

  /** The spin's validation gate: some list is empty exactly when not all lists are filled. */
  lemma EmptyListsGate(lists: seq<TextList>)
    ensures |EmptyLists(lists)| > 0 <==> !AllFilled(lists)
  {
    if |EmptyLists(lists)| > 0 {
      assert EmptyLists(lists)[0] in EmptyLists(lists);
    }
    if !AllFilled(lists) {
      var i :| 0 <= i < |lists| && |lists[i].items| == 0;
      assert lists[i] in lists;
    }
  }

  /** `lists.map(list => ({ listId: list.id, selectedItem: ... }))`: one result per
      list, in list order, each naming its list and holding one of its items. */
  function SpinResults(lists: seq<TextList>, rs: seq<real>): (res: seq<SpinResult>)
    requires AllFilled(lists) && UnitDraws(rs) && |rs| == |lists|
    ensures |res| == |lists|
    ensures forall i :: 0 <= i < |lists| ==> res[i].listId == lists[i].id
    ensures forall i :: 0 <= i < |lists| ==> res[i].selectedItem in lists[i].items
  {
    if lists == [] then [] else [Draw(lists[0], rs[0])] + SpinResults(lists[1..], rs[1..])
  }

  /** The result of list `i` depends only on list `i` and its own draw. */
  lemma {:induction false} SpinResultsAt(lists: seq<TextList>, rs: seq<real>, i: nat)
    requires AllFilled(lists) && UnitDraws(rs) && |rs| == |lists| && i < |lists|
    ensures SpinResults(lists, rs)[i] == Draw(lists[i], rs[i])
  {
    if i > 0 {
      SpinResultsAt(lists[1..], rs[1..], i - 1);
    }
  }

  /** Lists of one item each give the same results whatever is drawn. */
  lemma SpinResultsSingletons(lists: seq<TextList>, rs: seq<real>)
    requires AllFilled(lists) && UnitDraws(rs) && |rs| == |lists|
    requires forall i :: 0 <= i < |lists| ==> |lists[i].items| == 1
    ensures forall i :: 0 <= i < |lists| ==>
              SpinResults(lists, rs)[i] == SpinResult(lists[i].id, lists[i].items[0])
  {
  }
}
