/** The records of types.ts, and the partial record that the list store merges. */
module Types {

  datatype Option<T> = None | Some(value: T)

  /** One user-configured list of phrases to draw from (types.ts TextList). */
  datatype TextList = TextList(id: string, title: string, items: seq<string>, rawText: string)

  /** The item drawn from one list in one spin (types.ts SpinResult). */
  datatype SpinResult = SpinResult(listId: string, selectedItem: string)

  /** A `Partial<TextList>`: a field that is `None` is absent from the update object. */
  datatype ListUpdate = ListUpdate(
    id: Option<string>,
    title: Option<string>,
    items: Option<seq<string>>,
    rawText: Option<string>)

  /** The update object with no fields, `{}`. */
  const NoUpdate := ListUpdate(None, None, None, None)

  /** The value of one field after a spread: the update's value when present. */
  function Override<T>(base: T, field: Option<T>): T
  {
    if field.Some? then field.value else base
  }

  /** `{ ...l, ...u }`: every field present in `u` replaces the one of `l`. */
  function Merge(l: TextList, u: ListUpdate): TextList
  {
    TextList(Override(l.id, u.id), Override(l.title, u.title),
             Override(l.items, u.items), Override(l.rawText, u.rawText))
  }

  /** `{ ...u, ...v }`: two update objects spread into one, the later one winning. */
  function Combine(u: ListUpdate, v: ListUpdate): ListUpdate
  {
    ListUpdate(if v.id.Some? then v.id else u.id,
               if v.title.Some? then v.title else u.title,
               if v.items.Some? then v.items else u.items,
               if v.rawText.Some? then v.rawText else u.rawText)
  }

  /** Spreading nothing over a list changes nothing. */
  lemma MergeNothing(l: TextList)
    ensures Merge(l, NoUpdate) == l
  {
  }

  /** Field by field: a field the update carries is replaced, every other field is kept. */
  lemma MergeFields(l: TextList, u: ListUpdate)
    ensures u.id.None? ==> Merge(l, u).id == l.id
    ensures u.title.None? ==> Merge(l, u).title == l.title
    ensures u.items.None? ==> Merge(l, u).items == l.items
    ensures u.rawText.None? ==> Merge(l, u).rawText == l.rawText
    ensures u.id.Some? ==> Merge(l, u).id == u.id.value
    ensures u.title.Some? ==> Merge(l, u).title == u.title.value
    ensures u.items.Some? ==> Merge(l, u).items == u.items.value
    ensures u.rawText.Some? ==> Merge(l, u).rawText == u.rawText.value
  {
  }

  /** Two successive spreads equal one spread of the combined update. */
  lemma MergeCompose(l: TextList, u: ListUpdate, v: ListUpdate)
    ensures Merge(Merge(l, u), v) == Merge(l, Combine(u, v))
  {
  }

  /** Spreading the same update twice is the same as spreading it once. */
  lemma MergeIdempotent(l: TextList, u: ListUpdate)
    ensures Merge(Merge(l, u), u) == Merge(l, u)
  {
    MergeCompose(l, u, u);
    assert Combine(u, u) == u;
  }
}
