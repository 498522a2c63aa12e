/** What the user and role forms share: the checkbox list that adds or removes
    one identifier, and the choice of request a submit sends. */
module Forms {
  import opened Common

  /** A checkbox is drawn checked when its identifier is in the field's list (`includes`). */
  predicate IsChecked<T(==)>(list: seq<T>, item: T)
  {
    item in list
  }

  /** `onCheckedChange`: checking appends the identifier, unchecking filters
      out every occurrence of it. */
  function Toggle<T(==)>(list: seq<T>, item: T, checked: bool): (r: seq<T>)
    ensures IsChecked(r, item) == checked
    ensures checked ==> |r| == |list| + 1 && r[..|list|] == list && r[|list|] == item
    ensures !checked ==> IsSubsequence(r, list)
    ensures !checked ==> forall i :: 0 <= i < |list| && list[i] != item ==> list[i] in r
  {
    if checked then list + [item]
    else
      FilterIsSubsequence(list, x => x != item);
      Filter(list, x => x != item)
  }

  /** Toggling changes how often the toggled identifier occurs and nothing else. */
  lemma ToggleCounts<T>(list: seq<T>, item: T, checked: bool, x: T)
    ensures multiset(Toggle(list, item, checked))[x] ==
      if x != item then multiset(list)[x]
      else if checked then multiset(list)[x] + 1
      else 0
  {
    if !checked {
      FilterCount(list, y => y != item, x);
    }
  }

  /** Unchecking a box that was just checked restores a list that did not hold it. */
  lemma {:induction false} UncheckUndoesCheck<T>(list: seq<T>, item: T)
    requires item !in list
    ensures Toggle(Toggle(list, item, true), item, false) == list
  {
    var keep := x => x != item;
    FilterKeepsAll(list, keep);
    FilterAppendOne(list, item, keep);
  }

  /** Filtering a list with one element appended. */
  lemma {:induction false} FilterAppendOne<T>(list: seq<T>, item: T, keep: T -> bool)
    ensures Filter(list + [item], keep) == Filter(list, keep) + (if keep(item) then [item] else [])
  {
    if list == [] {
      assert [] + [item] == [item];
      assert [item][1..] == [];
    } else {
      assert (list + [item])[1..] == list[1..] + [item];
      FilterAppendOne(list[1..], item, keep);
    }
  }

  /** The page a form is on. */
  datatype Mode = CreateMode | EditMode | ShowMode

  /** The request a submit sends: a POST to the store route, a PUT to the
      update route of one row, or none at all. */
  datatype Request<T> = Post(route: string, payload: T) | Put(route: string, id: int, payload: T) | NoRequest

  /** JavaScript truthiness of a nullable number: present and not zero. */
  predicate Truthy(id: Option<int>)
  {
    id.Some? && id.value != 0
  }

  /** `onSubmit`: create posts to `<area>.store`; edit puts to `<area>.update`
      only when the identifier is truthy; a show page sends nothing. */
  function Submit<T>(area: string, mode: Mode, id: Option<int>, payload: T): (r: Request<T>)
    ensures r.Post? <==> mode == CreateMode
    ensures r.Put? <==> mode == EditMode && id.Some? && id.value != 0
    ensures r.Post? ==> r.route == area + ".store" && r.payload == payload
    ensures r.Put? ==> r.route == area + ".update" && Some(r.id) == id && r.payload == payload
  {
    match mode
    case CreateMode => Post(area + ".store", payload)
    case EditMode => if Truthy(id) then Put(area + ".update", id.value, payload) else NoRequest
    case ShowMode => NoRequest
  }
}
