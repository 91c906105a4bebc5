/** The list store of App.tsx: the ordered collection of lists and the three
    handlers that replace it (`addList`, `removeList`, `updateList`). Each handler
    builds a new collection from the old one; the functions below are those
    builders, and the stateful handlers in module App call them. */
module ListStore {
  import opened Types
  import Decimal

  /** The three lists the application starts with (subject, verb, object). */
  const DefaultLists: seq<TextList> := [
    TextList("1", "الفاعل",
             ["قطة", "رائد فضاء", "مبرمج", "طباخ", "تنين"],
             "قطة\nرائد فضاء\nمبرمج\nطباخ\nتنين"),
    TextList("2", "الفعل",
             ["يأكل", "يبرمج", "يرقص", "يطير فوق", "يكتب"],
             "يأكل\nيبرمج\nيرقص\nيطير فوق\nيكتب"),
    TextList("3", "المفعول به",
             ["بيتزا ببروني", "تطبيق ذكاء اصطناعي", "سحابة وردية", "كتاب سحري", "لابتوب"],
             "بيتزا ببروني\nتطبيق ذكاء اصطناعي\nسحابة وردية\nكتاب سحري\nلابتوب")
  ]

  /** The text in front of the number in the title of an added list ("new list "). */
  const NewListPrefix: string := "قائمة جديدة "

  /** The title an added list gets when it becomes the `n`-th list. */
  function NewListTitle(n: nat): string
  {
    NewListPrefix + Decimal.Format(n)
  }

  function Ids(lists: seq<TextList>): seq<string>
  {
    seq(|lists|, i requires 0 <= i < |lists| => lists[i].id)
  }

  /** No two lists of the collection share an id. */
  predicate UniqueIds(lists: seq<TextList>)
  {
    forall i, j :: 0 <= i < j < |lists| ==> lists[i].id != lists[j].id
  }

  /** What the store keeps true under the premises of `Admissible`. */
  predicate StoreInvariant(lists: seq<TextList>)
  {
    |lists| >= 1 && UniqueIds(lists)
  }

  /** The starting collection has three lists with distinct ids, none of them empty. */
  lemma DefaultListsWellFormed()
    ensures StoreInvariant(DefaultLists) && |DefaultLists| == 3
    ensures DefaultLists[0].id == "1" && DefaultLists[1].id == "2" && DefaultLists[2].id == "3"
    ensures forall i :: 0 <= i < |DefaultLists| ==> |DefaultLists[i].items| == 5
  {
  }

  /** Two added lists get the same title only when they were added as the same number. */
  lemma NewListTitleInjective(a: nat, b: nat)
    ensures NewListTitle(a) == NewListTitle(b) <==> a == b
  {
    if NewListTitle(a) == NewListTitle(b) {
      var p := |NewListPrefix|;
      assert Decimal.Format(a) == NewListTitle(a)[p..];
      assert Decimal.Format(b) == NewListTitle(b)[p..];
      Decimal.FormatInjective(a, b);
    }
  }

  // ---------------------------------------------------------------- addList

  /** `addList`: append a new, empty list numbered after the current count. */
  function AddList(lists: seq<TextList>, freshId: string): (r: seq<TextList>)
    ensures |r| == |lists| + 1 && r[..|lists|] == lists
    ensures r[|lists|].id == freshId && r[|lists|].title == NewListTitle(|lists| + 1)
    ensures r[|lists|].items == [] && r[|lists|].rawText == ""
  {
    lists + [TextList(freshId, NewListTitle(|lists| + 1), [], "")]
  }

  /** Adding under an id that is not in use keeps the ids distinct. */
  lemma AddListKeepsUniqueIds(lists: seq<TextList>, freshId: string)
    requires UniqueIds(lists) && freshId !in Ids(lists)
    ensures UniqueIds(AddList(lists, freshId))
  {
    var r := AddList(lists, freshId);
    forall i, j | 0 <= i < j < |r| ensures r[i].id != r[j].id {
      if j == |lists| {
        assert Ids(lists)[i] == r[i].id;
      }
    }
  }

  // ------------------------------------------------------------- removeList

  /** `lists.filter(l => l.id !== id)`. */
  function WithoutId(lists: seq<TextList>, id: string): (r: seq<TextList>)
    ensures |r| <= |lists|
    ensures forall l :: l in r <==> l in lists && l.id != id
  {
    if lists == [] then []
    else if lists[0].id != id then [lists[0]] + WithoutId(lists[1..], id)
    else WithoutId(lists[1..], id)
  }

  /** `removeList`: drop the lists with this id, unless at most one list is left. */
  function RemoveList(lists: seq<TextList>, id: string): (r: seq<TextList>)
    ensures |lists| <= 1 ==> r == lists
    ensures |lists| > 1 ==> forall l :: l in r <==> l in lists && l.id != id
  {
    if |lists| <= 1 then lists else WithoutId(lists, id)
  }

  /** Filtering a concatenation filters each part and keeps them in order. */
  lemma {:induction false} WithoutIdConcat(a: seq<TextList>, b: seq<TextList>, id: string)
    ensures WithoutId(a + b, id) == WithoutId(a, id) + WithoutId(b, id)
  {
    if a != [] {
      assert (a + b)[1..] == a[1..] + b;
      WithoutIdConcat(a[1..], b, id);
    } else {
      assert a + b == b;
    }
  }

  /** Filtering out an id that no list carries returns the collection unchanged. */
  lemma {:induction false} WithoutIdAbsent(lists: seq<TextList>, id: string)
    requires id !in Ids(lists)
    ensures WithoutId(lists, id) == lists
  {
    if lists != [] {
      assert Ids(lists)[0] == lists[0].id;
      assert Ids(lists[1..]) == Ids(lists)[1..];
      WithoutIdAbsent(lists[1..], id);
    }
  }

  /** Removing an unknown id leaves the collection unchanged. */
  lemma RemoveUnknownId(lists: seq<TextList>, id: string)
    requires id !in Ids(lists)
    ensures RemoveList(lists, id) == lists
  {
    if |lists| > 1 {
      WithoutIdAbsent(lists, id);
    }
  }

  /** With distinct ids, the id of list `k` occurs neither before nor after it. */
  lemma IdOnlyAt(lists: seq<TextList>, id: string, k: nat)
    requires UniqueIds(lists) && k < |lists| && lists[k].id == id
    ensures id !in Ids(lists[..k]) && id !in Ids(lists[k + 1..])
  {
    var before, after := lists[..k], lists[k + 1..];
    forall i | 0 <= i < |before| ensures Ids(before)[i] != id {
      assert before[i] == lists[i];
    }
    forall i | 0 <= i < |after| ensures Ids(after)[i] != id {
      assert after[i] == lists[k + 1 + i];
    }
  }

  /** With distinct ids and at least two lists, removing the id of list `k` removes
      exactly that list and keeps the others in their order. */
  lemma RemoveUniqueAt(lists: seq<TextList>, id: string, k: nat)
    requires UniqueIds(lists) && 2 <= |lists|
    requires k < |lists| && lists[k].id == id
    ensures RemoveList(lists, id) == lists[..k] + lists[k + 1..]
  {
    var before, after := lists[..k], lists[k + 1..];
    assert lists == before + [lists[k]] + after;
    IdOnlyAt(lists, id, k);
    calc {
      RemoveList(lists, id);
      WithoutId(before + [lists[k]] + after, id);
      { WithoutIdConcat(before + [lists[k]], after, id); }
      WithoutId(before + [lists[k]], id) + WithoutId(after, id);
      { WithoutIdConcat(before, [lists[k]], id); }
      WithoutId(before, id) + WithoutId([lists[k]], id) + WithoutId(after, id);
      { WithoutIdAbsent(before, id); WithoutIdAbsent(after, id); }
      before + WithoutId([lists[k]], id) + after;
      { assert WithoutId([lists[k]], id) == []; }
      before + after;
    }
  }

  /** With distinct ids and at least two lists, removing an id in use removes exactly
      one list. */
  lemma RemoveKnownId(lists: seq<TextList>, id: string)
    requires UniqueIds(lists) && 2 <= |lists| && id in Ids(lists)
    ensures |RemoveList(lists, id)| == |lists| - 1
  {
    var k :| 0 <= k < |lists| && Ids(lists)[k] == id;
    RemoveUniqueAt(lists, id, k);
  }

  /** Taking one list out of a collection with distinct ids leaves distinct ids. */
  lemma UniqueIdsWithout(lists: seq<TextList>, k: nat)
    requires UniqueIds(lists) && k < |lists|
    ensures UniqueIds(lists[..k] + lists[k + 1..])
  {
    var r := lists[..k] + lists[k + 1..];
    forall i, j | 0 <= i < j < |r| ensures r[i].id != r[j].id {
      var i', j' := if i < k then i else i + 1, if j < k then j else j + 1;
      assert r[i] == lists[i'] && r[j] == lists[j'];
    }
  }

  /** Removing a list from a collection with distinct ids keeps at least one list and
      keeps the ids distinct. */
  lemma RemoveKeepsInvariant(lists: seq<TextList>, id: string)
    requires StoreInvariant(lists)
    ensures StoreInvariant(RemoveList(lists, id))
  {
    if |lists| > 1 {
      if id in Ids(lists) {
        var k :| 0 <= k < |lists| && Ids(lists)[k] == id;
        RemoveUniqueAt(lists, id, k);
        UniqueIdsWithout(lists, k);
      } else {
        RemoveUnknownId(lists, id);
      }
    }
  }

  // ------------------------------------------------------------- updateList

  /** `updateList`: spread `u` over every list whose id matches. */
  function UpdateList(lists: seq<TextList>, id: string, u: ListUpdate): (r: seq<TextList>)
    ensures |r| == |lists|
    ensures forall i :: 0 <= i < |lists| && lists[i].id != id ==> r[i] == lists[i]
    ensures forall i :: 0 <= i < |lists| && lists[i].id == id ==> r[i] == Merge(lists[i], u)
  {
    seq(|lists|, i requires 0 <= i < |lists| => if lists[i].id == id then Merge(lists[i], u) else lists[i])
  }

  /** An update that does not touch the id field, or writes back the same id. */
  predicate KeepsId(id: string, u: ListUpdate)
  {
    u.id.None? || u.id.value == id
  }

  /** Updating an unknown id leaves the collection unchanged. */
  lemma UpdateUnknownId(lists: seq<TextList>, id: string, u: ListUpdate)
    requires id !in Ids(lists)
    ensures UpdateList(lists, id, u) == lists
  {
    var r := UpdateList(lists, id, u);
    forall i | 0 <= i < |lists| ensures r[i] == lists[i] {
      assert Ids(lists)[i] == lists[i].id;
    }
  }

  /** Applying the same update twice is the same as applying it once. */
  lemma UpdateIdempotent(lists: seq<TextList>, id: string, u: ListUpdate)
    ensures UpdateList(UpdateList(lists, id, u), id, u) == UpdateList(lists, id, u)
  {
    var once := UpdateList(lists, id, u);
    var twice := UpdateList(once, id, u);
    forall i | 0 <= i < |lists| ensures twice[i] == once[i] {
      if lists[i].id == id {
        MergeIdempotent(lists[i], u);
      }
    }
  }

  /** An update that keeps the id keeps every id in place, so distinct ids stay distinct. */
  lemma UpdateKeepsIds(lists: seq<TextList>, id: string, u: ListUpdate)
    requires KeepsId(id, u)
    ensures Ids(UpdateList(lists, id, u)) == Ids(lists)
    ensures UniqueIds(lists) ==> UniqueIds(UpdateList(lists, id, u))
  {
    var r := UpdateList(lists, id, u);
    assert forall i :: 0 <= i < |lists| ==> r[i].id == lists[i].id;
  }

  /** An update that keeps the ids distinct: it keeps the id, or renames to an id
      that no list carries. */
  predicate RenamesSafely(lists: seq<TextList>, id: string, u: ListUpdate)
  {
    KeepsId(id, u) || u.id.value !in Ids(lists)
  }

  /** With distinct ids, renaming to an id not in use keeps the ids distinct. */
  lemma UpdateRenameFresh(lists: seq<TextList>, id: string, u: ListUpdate)
    requires UniqueIds(lists) && u.id.Some? && u.id.value !in Ids(lists)
    ensures UniqueIds(UpdateList(lists, id, u))
  {
    var r := UpdateList(lists, id, u);
    forall i, j | 0 <= i < j < |r| ensures r[i].id != r[j].id {
      assert Ids(lists)[i] == lists[i].id && Ids(lists)[j] == lists[j].id;
    }
  }

  /** Every update that renames safely keeps distinct ids distinct. */
  lemma UpdateKeepsUniqueIds(lists: seq<TextList>, id: string, u: ListUpdate)
    requires UniqueIds(lists) && RenamesSafely(lists, id, u)
    ensures UniqueIds(UpdateList(lists, id, u))
  {
    if KeepsId(id, u) {
      UpdateKeepsIds(lists, id, u);
    } else {
      UpdateRenameFresh(lists, id, u);
    }
  }

  /** With distinct ids, updating the id of list `k` changes list `k` alone. */
  lemma UpdateUniqueAt(lists: seq<TextList>, id: string, u: ListUpdate, k: nat)
    requires UniqueIds(lists) && k < |lists| && lists[k].id == id
    ensures UpdateList(lists, id, u) == lists[k := Merge(lists[k], u)]
  {
  }

  // ------------------------------------------------------- sequences of edits

  /** One user edit of the collection. */
  datatype ListOp = Add(freshId: string) | Remove(id: string) | Update(id: string, u: ListUpdate)

  function Apply(lists: seq<TextList>, op: ListOp): seq<TextList>
  {
    match op
    case Add(freshId) => AddList(lists, freshId)
    case Remove(id) => RemoveList(lists, id)
    case Update(id, u) => UpdateList(lists, id, u)
  }

  function Run(lists: seq<TextList>, ops: seq<ListOp>): seq<TextList>
    decreases |ops|
  {
    if ops == [] then lists else Run(Apply(lists, ops[0]), ops[1..])
  }

  /** An edit under the premises the store relies on, which its callers (the random
      id source and the editing component) are assumed to meet: a new list gets an
      id not in use, and an update either keeps the id or renames to an id not in
      use. */
  predicate Admissible(lists: seq<TextList>, op: ListOp)
  {
    match op
    case Add(freshId) => freshId !in Ids(lists)
    case Remove(_) => true
    case Update(id, u) => RenamesSafely(lists, id, u)
  }

  predicate AdmissibleRun(lists: seq<TextList>, ops: seq<ListOp>)
    decreases |ops|
  {
    ops == [] || (Admissible(lists, ops[0]) && AdmissibleRun(Apply(lists, ops[0]), ops[1..]))
  }

  /** Every admissible edit keeps at least one list and distinct ids. */
  lemma ApplyKeepsInvariant(lists: seq<TextList>, op: ListOp)
    requires StoreInvariant(lists) && Admissible(lists, op)
    ensures StoreInvariant(Apply(lists, op))
  {
    match op
    case Add(freshId) => AddListKeepsUniqueIds(lists, freshId);
    case Remove(id) => RemoveKeepsInvariant(lists, id);
    case Update(id, u) => UpdateKeepsUniqueIds(lists, id, u);
  }

  /** Any sequence of admissible edits keeps at least one list and distinct ids. */
  lemma {:induction false} RunKeepsInvariant(lists: seq<TextList>, ops: seq<ListOp>)
    requires StoreInvariant(lists) && AdmissibleRun(lists, ops)
    ensures StoreInvariant(Run(lists, ops))
    decreases |ops|
  {
    if ops != [] {
      ApplyKeepsInvariant(lists, ops[0]);
      RunKeepsInvariant(Apply(lists, ops[0]), ops[1..]);
    }
  }

  /** From the starting collection, under those premises, the count never drops
      below one. */
  lemma ReachableFromDefaults(ops: seq<ListOp>)
    requires AdmissibleRun(DefaultLists, ops)
    ensures |Run(DefaultLists, ops)| >= 1 && UniqueIds(Run(DefaultLists, ops))
  {
    DefaultListsWellFormed();
    RunKeepsInvariant(DefaultLists, ops);
  }

  /** The guard counts lists, not distinct ids: once an update renames one of two lists
      to the other's id, removing that id empties the collection. */
  lemma RenameThenRemoveEmpties()
    ensures
      var two := [TextList("1", "a", ["x"], "x"), TextList("2", "b", ["y"], "y")];
      var rename := ListUpdate(Some("1"), None, None, None);
      Run(two, [Update("2", rename), Remove("1")]) == []
  {
    var two := [TextList("1", "a", ["x"], "x"), TextList("2", "b", ["y"], "y")];
    var rename := ListUpdate(Some("1"), None, None, None);
    var renamed := UpdateList(two, "2", rename);
    assert renamed == [two[0], TextList("1", "b", ["y"], "y")];
    assert WithoutId(renamed, "1") == [];
    var ops := [Update("2", rename), Remove("1")];
    assert Run(two, ops) == Run(renamed, ops[1..]);
    assert Run(renamed, ops[1..]) == Run(RemoveList(renamed, "1"), []);
  }
}
