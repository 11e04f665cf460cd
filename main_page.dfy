/** The state of the `MainPage` component and its event handlers.  Each
    remote call the handlers await is replaced by its outcome, passed in as
    an argument, and each handler returns the request it would have sent
    (None when its guard returns before any fetch). */
module Page {
  import opened Items
  import opened ListOps
  import opened Text
  import opened Clipboard

  /** How a fetch ended: the promise rejected, the response was not ok, or
      it was ok. */
  datatype Status = NoResponse | NotOk | Ok

  /** A response whose JSON body the handler reads; `body` is None when
      `res.json()` throws. */
  datatype Reply<T> = Reply(status: Status, body: Option<T>)

  /** The four input fields. */
  datatype Form = Form(priority: int, item: string, quantity: int, details: string)

  /** What the handlers reset the fields to. */
  const ClearedForm := Form(1, "", 1, "")

  /** The remote calls, with the data each one sends. */
  datatype Request =
    | Create(form: Form, date: string, owner: string)
    | Update(target: Option<int>, form: Form, owner: string)
    | Delete(id: int, owner: string)
    | DeleteAll(owner: string)

  class MainPage {
    /** The anonymous session key, fixed for the page's lifetime. */
    const userId: string

    var shoppingList: seq<ShoppingListItem>
    var selection: Option<int>
    var item: string
    var priority: int
    var quantity: int
    var details: string
    var isEditing: bool

    function Fields(): Form
      reads this
    {
      Form(priority, item, quantity, details)
    }

    /** The invariant "edit mode implies a selection": every handler but
        `AddItem` keeps it. */
    ghost predicate EditingSelected()
      reads this
    {
      isEditing ==> selection.Some?
    }

    /** The initial state; the details field starts as "No Description",
        not as the empty string the handlers reset it to. */
    constructor (userId: string)
      ensures this.userId == userId
      ensures shoppingList == [] && selection == None && !isEditing
      ensures Fields() == Form(1, "", 1, "No Description")
      ensures EditingSelected()
    {
      this.userId := userId;
      shoppingList := [];
      selection := None;
      item, priority, quantity, details := "", 1, 1, "No Description";
      isEditing := false;
    }

    /** The initial load: the fetched list replaces the whole list. */
    method Load(items: seq<ShoppingListItem>)
      modifies this
      ensures shoppingList == items
      ensures selection == old(selection) && isEditing == old(isEditing) && Fields() == old(Fields())
    {
      shoppingList := items;
    }

    // ---- the input fields' onChange handlers ----

    method SetItem(s: string)
      modifies this
      ensures Fields() == old(Fields()).(item := s)
      ensures shoppingList == old(shoppingList) && selection == old(selection) && isEditing == old(isEditing)
    {
      item := s;
    }

    method SetPriority(p: int)
      modifies this
      ensures Fields() == old(Fields()).(priority := p)
      ensures shoppingList == old(shoppingList) && selection == old(selection) && isEditing == old(isEditing)
    {
      priority := p;
    }

    method SetQuantity(q: int)
      modifies this
      ensures Fields() == old(Fields()).(quantity := q)
      ensures shoppingList == old(shoppingList) && selection == old(selection) && isEditing == old(isEditing)
    {
      quantity := q;
    }

    method SetDetails(d: string)
      modifies this
      ensures Fields() == old(Fields()).(details := d)
      ensures shoppingList == old(shoppingList) && selection == old(selection) && isEditing == old(isEditing)
    {
      details := d;
    }

    // ---- handlers ----

    /** `addItem`: a blank name is refused before any request; a failed
        request changes nothing; an ok response appends the returned item
        when its body parses, and in both ok cases the fields reset and the
        selection is cleared.  `date` is the creation time sent along. */
    method AddItem(date: string, reply: Reply<ShoppingListItem>) returns (sent: Option<Request>)
      modifies this
      ensures sent == if Blank(old(item)) then None else Some(Create(old(Fields()), date, userId))
      ensures sent == None || reply.status != Ok ==> unchanged(this)
      ensures sent != None && reply.status == Ok ==>
        && shoppingList == old(shoppingList) + (if reply.body.Some? then [reply.body.value] else [])
        && Fields() == ClearedForm && selection == None && isEditing == old(isEditing)
      ensures old(UniqueIds(shoppingList)) && (reply.body.Some? ==> reply.body.value.id !in Ids(old(shoppingList)))
        ==> UniqueIds(shoppingList)
    {
      if Blank(item) {
        return None;
      }
      sent := Some(Create(Fields(), date, userId));
      if reply.status != Ok {
        return;
      }
      if reply.body.Some? {
        if UniqueIds(shoppingList) && reply.body.value.id !in Ids(shoppingList) {
          AppendFresh(shoppingList, reply.body.value);
        }
        shoppingList := shoppingList + [reply.body.value];
      }
      item, priority, quantity, details := "", 1, 1, "";
      selection := None;
    }

    /** `deleteItem`: nothing without a selection; once a response arrives
        the form leaves edit mode whatever it says; only an ok response
        removes the selected id from the list and clears the form. */
    method DeleteItem(status: Status) returns (sent: Option<Request>)
      modifies this
      ensures sent == if old(selection).None? then None else Some(Delete(old(selection).value, userId))
      ensures sent == None || status == NoResponse ==> unchanged(this)
      ensures sent != None && status == NotOk ==>
        && !isEditing && shoppingList == old(shoppingList) && selection == old(selection) && Fields() == old(Fields())
      ensures sent != None && status == Ok ==>
        && !isEditing && selection == None && Fields() == ClearedForm
        && shoppingList == RemoveId(old(shoppingList), old(selection).value)
      ensures sent != None && status == Ok && old(UniqueIds(shoppingList)) && old(selection).value in Ids(old(shoppingList)) ==>
        |shoppingList| == |old(shoppingList)| - 1
      ensures old(UniqueIds(shoppingList)) ==> UniqueIds(shoppingList)
      ensures old(EditingSelected()) ==> EditingSelected()
    {
      if selection.None? {
        return None;
      }
      var id := selection.value;
      sent := Some(Delete(id, userId));
      if status == NoResponse {
        return;
      }
      isEditing := false;
      if status == NotOk {
        return;
      }
      if UniqueIds(shoppingList) {
        RemoveIdKeepsUnique(shoppingList, id);
        if id in Ids(shoppingList) {
          var x :| x in shoppingList && x.id == id;
          var k :| 0 <= k < |shoppingList| && shoppingList[k] == x;
          RemoveIdAt(shoppingList, k);
        }
      }
      shoppingList := RemoveId(shoppingList, id);
      item, priority, quantity, details := "", 1, 1, "";
      selection := None;
    }

    /** `updateItem`: nothing unless editing; a failed request or an
        unreadable body changes nothing; otherwise every entry with the
        selected id is replaced by the returned item in place, and the form
        resets and leaves edit mode. */
    method UpdateItem(reply: Reply<ShoppingListItem>) returns (sent: Option<Request>)
      modifies this
      ensures sent == if !old(isEditing) then None else Some(Update(old(selection), old(Fields()), userId))
      ensures sent == None || reply.status != Ok || reply.body == None ==> unchanged(this)
      ensures sent != None && reply.status == Ok && reply.body.Some? ==>
        && |shoppingList| == |old(shoppingList)|
        && shoppingList == (if old(selection).Some? then ReplaceId(old(shoppingList), old(selection).value, reply.body.value)
                            else old(shoppingList))
        && Fields() == ClearedForm && selection == None && !isEditing
      ensures old(UniqueIds(shoppingList)) && (reply.body.Some? && old(selection).Some? ==> reply.body.value.id == old(selection).value)
        ==> UniqueIds(shoppingList)
      ensures old(EditingSelected()) ==> EditingSelected()
    {
      if !isEditing {
        return None;
      }
      sent := Some(Update(selection, Fields(), userId));
      if reply.status != Ok || reply.body.None? {
        return;
      }
      var updated := reply.body.value;
      if selection.Some? {
        if UniqueIds(shoppingList) && updated.id == selection.value {
          ReplaceIdKeepsUnique(shoppingList, selection.value, updated);
        }
        shoppingList := ReplaceId(shoppingList, selection.value, updated);
      }
      item, priority, quantity, details := "", 1, 1, "";
      selection := None;
      isEditing := false;
    }

    /** `copyItem`: the text handed to the clipboard, None for an empty
        list.  `stamp` is the text of the current date. */
    method CopyItem(stamp: string) returns (text: Option<string>)
      ensures text == Export(shoppingList, stamp)
    {
      text := Export(shoppingList, stamp);
    }

    /** `confirmDelete`: asks only when the list is non-empty, sends only
        when the user confirms, and empties the list only on an ok
        response.  Selection, edit mode and fields are never touched. */
    method ConfirmDelete(confirmed: bool, status: Status) returns (sent: Option<Request>)
      modifies this
      ensures sent == if old(shoppingList) == [] || !confirmed then None else Some(DeleteAll(userId))
      ensures sent != None && status == Ok ==>
        && shoppingList == []
        && selection == old(selection) && isEditing == old(isEditing) && Fields() == old(Fields())
      ensures !(sent != None && status == Ok) ==> unchanged(this)
    {
      if |shoppingList| == 0 {
        return None;
      }
      if !confirmed {
        return None;
      }
      sent := Some(DeleteAll(userId));
      if status == Ok {
        shoppingList := [];
      }
    }

    /** `clearSelection`: back to create mode with cleared fields; the new
        state does not depend on the old one apart from the list, so a
        second call changes nothing. */
    method ClearSelection()
      modifies this
      ensures Fields() == ClearedForm && selection == None && !isEditing
      ensures shoppingList == old(shoppingList)
    {
      item, priority, quantity, details := "", 1, 1, "";
      selection := None;
      isEditing := false;
    }

    /** A row's `onClick`: selects the row's id, copies its fields into the
        form (absent details as the empty string) and enters edit mode. */
    method SelectRow(row: ShoppingListItem)
      requires row in shoppingList
      modifies this
      ensures selection == Some(row.id) && selection.value in Ids(shoppingList)
      ensures Fields() == Form(row.priority, row.item, row.quantity, if row.details.Some? then row.details.value else "")
      ensures isEditing && EditingSelected()
      ensures shoppingList == old(shoppingList)
    {
      selection := Some(row.id);
      item := row.item;
      priority := row.priority;
      quantity := row.quantity;
      details := if row.details.Some? then row.details.value else "";
      isEditing := true;
    }
  }

  // ---- scenarios, proved from the contracts above ----

  /** A whitespace-only name is refused locally: no request and no change. */
  method ScenarioBlankName(reply: Reply<ShoppingListItem>)
  {
    var page := new MainPage("user");
    page.SetItem("   ");
    assert Blank("   ");
    var sent := page.AddItem("now", reply);
    assert sent == None;
    assert page.shoppingList == [] && page.Fields() == Form(1, "   ", 1, "No Description");
  }

  /** Selecting an entry and deleting it successfully returns to create mode
      with the entry gone. */
  method ScenarioDeleteSelected(x: ShoppingListItem)
  {
    var page := new MainPage("user");
    page.Load([x]);
    page.SelectRow(x);
    var sent := page.DeleteItem(Ok);
    assert sent == Some(Delete(x.id, "user"));
    assert !page.isEditing && page.selection == None;
    RemoveIdAt([x], 0);
    assert page.shoppingList == [];
  }

  /** A refused update leaves the list and the edit mode as they were. */
  method ScenarioUpdateRefused(x: ShoppingListItem, y: ShoppingListItem)
  {
    var page := new MainPage("user");
    page.Load([x]);
    page.SelectRow(x);
    var sent := page.UpdateItem(Reply(NotOk, Some(y)));
    assert sent.Some?;
    assert page.shoppingList == [x] && page.isEditing && page.selection == Some(x.id);
  }

  /** Clearing the whole list keeps the selection and edit mode, which then
      name an id no longer in the list. */
  method ScenarioClearAllKeepsSelection(x: ShoppingListItem)
  {
    var page := new MainPage("user");
    page.Load([x]);
    page.SelectRow(x);
    var sent := page.ConfirmDelete(true, Ok);
    assert sent == Some(DeleteAll("user"));
    assert page.shoppingList == [] && page.isEditing && page.selection == Some(x.id);
    assert x.id !in Ids(page.shoppingList);
  }

  /** Clearing the selection twice is the same as clearing it once. */
  method ScenarioClearSelectionTwice(x: ShoppingListItem)
  {
    var page := new MainPage("user");
    page.Load([x]);
    page.SelectRow(x);
    page.ClearSelection();
    var once := (page.shoppingList, page.selection, page.isEditing, page.Fields());
    page.ClearSelection();
    assert (page.shoppingList, page.selection, page.isEditing, page.Fields()) == once;
  }
}
