/** The shopping-list entry as the page receives it from the list resource,
    and the identifier facts every store operation is stated against. */
module Items {

  datatype Option<T> = None | Some(value: T)

  /** One row of the list.  `details` is nullable in the source; `date`
      and `userId` are opaque strings here (a timestamp and the anonymous
      session key). */
  datatype ShoppingListItem = ShoppingListItem(
    id: int,
    priority: int,
    item: string,
    quantity: int,
    details: Option<string>,
    date: string,
    userId: string)

  /** The ids present in a list. */
  function Ids(p: seq<ShoppingListItem>): set<int>
  {
    set x | x in p :: x.id
  }

  /** No two entries share an id (the remote resource assigns ids). */
  predicate UniqueIds(p: seq<ShoppingListItem>)
  {
    forall i, j | 0 <= i < j < |p| :: p[i].id != p[j].id
  }

  /** Appending an item whose id is new keeps the ids unique and adds
      exactly that id. */
  lemma AppendFresh(p: seq<ShoppingListItem>, x: ShoppingListItem)
    requires UniqueIds(p) && x.id !in Ids(p)
    ensures UniqueIds(p + [x])
    ensures Ids(p + [x]) == Ids(p) + {x.id}
  {
    var q := p + [x];
    forall i, j | 0 <= i < j < |q| ensures q[i].id != q[j].id {
      if j == |p| {
        assert q[i] in p;
      }
    }
  }
}
