/** The state of the App component of App.tsx and the handlers that overwrite it.
    The `setTimeout` callback that ends a spin is the separate step `Complete`; the
    results it will publish wait in `pending` until then. */
module App {
  import opened Types
  import ListStore
  import SpinDraw

  /** What a call of `spin` did: ignored during a spin, rejected (the alert) when
      some list is empty, or accepted. */
  datatype SpinOutcome = Ignored | Rejected | Accepted

  class AppState {
    var lists: seq<TextList>
    var results: seq<SpinResult>
    var isSpinning: bool
    /** The results captured by the scheduled completion, while one is scheduled. */
    var pending: Option<seq<SpinResult>>

    /** A completion is scheduled exactly while a spin is running. */
    ghost predicate Valid()
      reads this
    {
      isSpinning <==> pending.Some?
    }

    /** The initial state: the default lists, no results, not spinning. */
    constructor ()
      ensures Valid()
      ensures lists == ListStore.DefaultLists && results == [] && !isSpinning
    {
      lists := ListStore.DefaultLists;
      results := [];
      isSpinning := false;
      pending := None;
    }

    /** `addList`, with the id that the random source would produce. */
    method AddList(freshId: string)
      requires Valid()
      modifies this`lists
      ensures Valid()
      ensures lists == ListStore.AddList(old(lists), freshId)
      ensures ListStore.StoreInvariant(old(lists)) && freshId !in ListStore.Ids(old(lists)) ==>
                ListStore.StoreInvariant(lists)
    {
      if ListStore.UniqueIds(lists) && freshId !in ListStore.Ids(lists) {
        ListStore.AddListKeepsUniqueIds(lists, freshId);
      }
      lists := ListStore.AddList(lists, freshId);
    }

    /** `removeList`: a no-op while at most one list is left. */
    method RemoveList(id: string)
      requires Valid()
      modifies this`lists
      ensures Valid()
      ensures lists == ListStore.RemoveList(old(lists), id)
      ensures |old(lists)| <= 1 ==> lists == old(lists)
      ensures ListStore.StoreInvariant(old(lists)) ==> ListStore.StoreInvariant(lists)
    {
      if ListStore.StoreInvariant(lists) {
        ListStore.RemoveKeepsInvariant(lists, id);
      }
      lists := ListStore.RemoveList(lists, id);
    }

    /** `updateList`: merge `u` into the lists whose id matches. */
    method UpdateList(id: string, u: ListUpdate)
      requires Valid()
      modifies this`lists
      ensures Valid()
      ensures lists == ListStore.UpdateList(old(lists), id, u)
      ensures ListStore.StoreInvariant(old(lists)) && ListStore.RenamesSafely(old(lists), id, u) ==>
                ListStore.StoreInvariant(lists)
    {
      if ListStore.UniqueIds(lists) && ListStore.RenamesSafely(lists, id, u) {
        ListStore.UpdateKeepsUniqueIds(lists, id, u);
      }
      lists := ListStore.UpdateList(lists, id, u);
    }

    /** `spin`, with the values `Math.random()` returns for the lists, in order.
        Ignored while spinning; rejected, changing nothing, when a list is empty;
        otherwise the flag is raised and the results are computed at once and
        scheduled for publication. */
    method Spin(rs: seq<real>) returns (outcome: SpinOutcome)
      requires Valid() && SpinDraw.UnitDraws(rs) && |rs| == |lists|
      modifies this`isSpinning, this`pending
      ensures Valid()
      ensures old(isSpinning) ==>
                outcome == Ignored && isSpinning && pending == old(pending)
      ensures !old(isSpinning) && !SpinDraw.AllFilled(lists) ==>
                outcome == Rejected && !isSpinning && pending == old(pending)
      ensures !old(isSpinning) && SpinDraw.AllFilled(lists) ==>
                outcome == Accepted && isSpinning && pending == Some(SpinDraw.SpinResults(lists, rs))
    {
      if isSpinning {
        return Ignored;
      }
      var emptyLists := SpinDraw.EmptyLists(lists);
      SpinDraw.EmptyListsGate(lists);
      if |emptyLists| > 0 {
        return Rejected;
      }
      isSpinning := true;
      pending := Some(SpinDraw.SpinResults(lists, rs));
      outcome := Accepted;
    }

    /** The timer callback, 2000 ms after an accepted spin: the captured
        results replace the old ones wholesale and the flag drops. */
    method Complete()
      requires Valid() && isSpinning
      modifies this`results, this`isSpinning, this`pending
      ensures Valid()
      ensures results == old(pending).value && !isSpinning && pending.None?
    {
      results := pending.value;
      isSpinning := false;
      pending := None;
    }
  }

  /** Three lists of one item each, spun and completed, show exactly those items in
      list order, whatever the random source returns. */
  method GoldenScenario(rs: seq<real>) returns (shown: seq<SpinResult>)
    requires SpinDraw.UnitDraws(rs) && |rs| == 3
    ensures shown == [SpinResult("1", "cat"), SpinResult("2", "jumps"), SpinResult("3", "high")]
  {
    var app := new AppState();
    ListStore.DefaultListsWellFormed();
    var d := ListStore.DefaultLists;
    assert d[0].id == "1" && d[1].id == "2" && d[2].id == "3";
    app.UpdateList("1", ListUpdate(None, None, Some(["cat"]), Some("cat")));
    app.UpdateList("2", ListUpdate(None, None, Some(["jumps"]), Some("jumps")));
    app.UpdateList("3", ListUpdate(None, None, Some(["high"]), Some("high")));
    ghost var ls := app.lists;
    assert |ls| == 3;
    assert ls[0] == TextList("1", d[0].title, ["cat"], "cat");
    assert ls[1] == TextList("2", d[1].title, ["jumps"], "jumps");
    assert ls[2] == TextList("3", d[2].title, ["high"], "high");
    var outcome := app.Spin(rs);
    SpinDraw.SpinResultsSingletons(ls, rs);
    app.Complete();
    shown := app.results;
  }

  /** A second spin while the first is pending is ignored, an edit made meanwhile
      does not change what is published, and completion publishes the single
      result sequence computed by the first spin. */
  method SpinCycleScenario(rs1: seq<real>, rs2: seq<real>) returns (first: SpinOutcome, second: SpinOutcome, shown: seq<SpinResult>, count: nat)
    requires SpinDraw.UnitDraws(rs1) && |rs1| == 3
    requires SpinDraw.UnitDraws(rs2) && |rs2| == 3
    ensures first == Accepted && second == Ignored
    ensures shown == SpinDraw.SpinResults(ListStore.DefaultLists, rs1)
    ensures shown[0].listId == "1" && count == 2
  {
    var app := new AppState();
    ghost var d := app.lists;
    ListStore.DefaultListsWellFormed();
    assert SpinDraw.AllFilled(d);
    first := app.Spin(rs1);
    second := app.Spin(rs2);
    app.RemoveList("1");
    assert ListStore.Ids(d)[0] == "1";
    ListStore.RemoveKnownId(d, "1");
    app.Complete();
    shown := app.results;
    count := |app.lists|;
  }

  /** Spinning after adding an empty list is rejected and leaves the state as it was. */
  method RejectedScenario(freshId: string, rs: seq<real>) returns (outcome: SpinOutcome, spinning: bool, shown: seq<SpinResult>)
    requires SpinDraw.UnitDraws(rs) && |rs| == 4
    ensures outcome == Rejected && !spinning && shown == []
  {
    var app := new AppState();
    app.AddList(freshId);
    assert |app.lists[3].items| == 0;
    outcome := app.Spin(rs);
    spinning := app.isSpinning;
    shown := app.results;
  }
}
