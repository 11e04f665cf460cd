/** The two list transformations the page hands to its list setter:
    the `filter` that deletes by id and the `map` that replaces by id.
    (Appending is plain `p + [x]`; its id fact is `Items.AppendFresh`.) */
module ListOps {
  import opened Items

  /** `p.filter(it => it.id !== id)`. */
  function RemoveId(p: seq<ShoppingListItem>, id: int): (r: seq<ShoppingListItem>)
    ensures |r| <= |p|
  {
    if p == [] then []
    else if p[0].id == id then RemoveId(p[1..], id)
    else [p[0]] + RemoveId(p[1..], id)
  }

  /** The entries kept are exactly the entries whose id differs. */
  lemma {:induction false} RemoveIdMembers(p: seq<ShoppingListItem>, id: int, x: ShoppingListItem)
    ensures x in RemoveId(p, id) <==> x in p && x.id != id
  {
    if p != [] {
      RemoveIdMembers(p[1..], id, x);
      assert p == [p[0]] + p[1..];
    }
  }

  /** Filtering distributes over concatenation, so the entries that stay
      keep their relative order. */
  lemma {:induction false} RemoveIdConcat(a: seq<ShoppingListItem>, b: seq<ShoppingListItem>, id: int)
    ensures RemoveId(a + b, id) == RemoveId(a, id) + RemoveId(b, id)
  {
    if a == [] {
      assert a + b == b;
    } else {
      assert (a + b)[0] == a[0];
      assert (a + b)[1..] == a[1..] + b;
      RemoveIdConcat(a[1..], b, id);
    }
  }

  /** Deleting an id that is not present changes nothing. */
  lemma {:induction false} RemoveIdAbsent(p: seq<ShoppingListItem>, id: int)
    requires id !in Ids(p)
    ensures RemoveId(p, id) == p
  {
    if p != [] {
      assert p[0] in p;
      assert Ids(p[1..]) <= Ids(p) by {
        forall x | x in p[1..] ensures x in p { }
      }
      RemoveIdAbsent(p[1..], id);
    }
  }

  /** The tail of a uniquely identified list is uniquely identified and does
      not contain the head's id. */
  lemma UniqueTail(p: seq<ShoppingListItem>)
    requires UniqueIds(p) && p != []
    ensures UniqueIds(p[1..])
    ensures p[0].id !in Ids(p[1..])
  {
    forall i, j | 0 <= i < j < |p| - 1 ensures p[1..][i].id != p[1..][j].id {
      assert p[1..][i] == p[i + 1] && p[1..][j] == p[j + 1];
    }
    forall x | x in p[1..] ensures x.id != p[0].id {
      var j :| 0 <= j < |p| - 1 && p[1..][j] == x;
      assert x == p[j + 1];
    }
  }

  /** With unique ids, deleting the id of entry k removes exactly that
      entry: the list loses one element and the rest keep their places. */
  lemma {:induction false} RemoveIdAt(p: seq<ShoppingListItem>, k: nat)
    requires UniqueIds(p) && k < |p|
    ensures RemoveId(p, p[k].id) == p[..k] + p[k+1..]
    ensures |RemoveId(p, p[k].id)| == |p| - 1
  {
    UniqueTail(p);
    if k == 0 {
      RemoveIdAbsent(p[1..], p[0].id);
    } else {
      var t := p[1..];
      assert t[k - 1] == p[k];
      RemoveIdAt(t, k - 1);
      assert p[0].id != p[k].id;
      assert RemoveId(p, p[k].id) == [p[0]] + RemoveId(t, p[k].id);
      assert t[..k - 1] == p[1..k];
      assert t[k..] == p[k+1..];
      assert p[..k] == [p[0]] + p[1..k];
    }
  }

  /** Ids of a list built from a head and a tail. */
  lemma IdsCons(x: ShoppingListItem, r: seq<ShoppingListItem>)
    ensures Ids([x] + r) == {x.id} + Ids(r)
  {
    assert forall y :: y in [x] + r <==> y == x || y in r;
  }

  /** Putting an item with a new id in front of a uniquely identified list. */
  lemma ConsUnique(x: ShoppingListItem, r: seq<ShoppingListItem>)
    requires UniqueIds(r) && x.id !in Ids(r)
    ensures UniqueIds([x] + r)
  {
    var q := [x] + r;
    forall i, j | 0 <= i < j < |q| ensures q[i].id != q[j].id {
      if i == 0 {
        assert q[j] in r;
      } else {
        assert q[i] == r[i - 1] && q[j] == r[j - 1];
      }
    }
  }

  /** Deleting keeps the ids unique and removes exactly the deleted id. */
  lemma {:induction false} RemoveIdKeepsUnique(p: seq<ShoppingListItem>, id: int)
    requires UniqueIds(p)
    ensures UniqueIds(RemoveId(p, id))
    ensures Ids(RemoveId(p, id)) == Ids(p) - {id}
  {
    if p != [] {
      UniqueTail(p);
      RemoveIdKeepsUnique(p[1..], id);
      assert p == [p[0]] + p[1..];
      IdsCons(p[0], p[1..]);
      if p[0].id != id {
        var r := RemoveId(p[1..], id);
        assert p[0].id !in Ids(r) by {
          forall x | x in r ensures x.id != p[0].id {
            RemoveIdMembers(p[1..], id, x);
          }
        }
        ConsUnique(p[0], r);
        IdsCons(p[0], r);
      }
    }
  }

  /** `prev.map(it => it.id === id ? x : it)`. */
  function ReplaceId(p: seq<ShoppingListItem>, id: int, x: ShoppingListItem): (r: seq<ShoppingListItem>)
    ensures |r| == |p|
  {
    seq(|p|, k requires 0 <= k < |p| => if p[k].id == id then x else p[k])
  }

  /** Replacing an absent id changes nothing. */
  lemma ReplaceIdAbsent(p: seq<ShoppingListItem>, id: int, x: ShoppingListItem)
    requires id !in Ids(p)
    ensures ReplaceId(p, id, x) == p
  {
    forall k | 0 <= k < |p| ensures ReplaceId(p, id, x)[k] == p[k] {
      assert p[k] in p;
    }
  }

  /** With unique ids, replacing the id of entry k is an in-place update of
      position k alone. */
  lemma ReplaceIdAt(p: seq<ShoppingListItem>, k: nat, x: ShoppingListItem)
    requires UniqueIds(p) && k < |p|
    ensures ReplaceId(p, p[k].id, x) == p[k := x]
  {
    forall j | 0 <= j < |p| ensures ReplaceId(p, p[k].id, x)[j] == p[k := x][j] {
      if j < k {
        assert p[j].id != p[k].id;
      } else if j > k {
        assert p[k].id != p[j].id;
      }
    }
  }

  /** When the server's representation keeps the id, replacing keeps the ids
      unique and the id set unchanged. */
  lemma ReplaceIdKeepsUnique(p: seq<ShoppingListItem>, id: int, x: ShoppingListItem)
    requires UniqueIds(p) && x.id == id
    ensures UniqueIds(ReplaceId(p, id, x))
    ensures Ids(ReplaceId(p, id, x)) == Ids(p)
  {
    var r := ReplaceId(p, id, x);
    forall k | 0 <= k < |p| ensures r[k].id == p[k].id { }
    forall i, j | 0 <= i < j < |r| ensures r[i].id != r[j].id {
      assert r[i].id == p[i].id && r[j].id == p[j].id;
    }
    forall y | y in Ids(r) ensures y in Ids(p) {
      var z :| z in r && z.id == y;
      var k :| 0 <= k < |r| && r[k] == z;
      assert p[k] in p;
    }
    forall y | y in Ids(p) ensures y in Ids(r) {
      var z :| z in p && z.id == y;
      var k :| 0 <= k < |p| && p[k] == z;
      assert r[k] in r;
    }
  }
}
