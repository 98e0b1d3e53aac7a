/** The goods page of the React client (UsersPage.jsx): the local list of goods and
    the state of the create/edit modal, with the handlers that move between states.
    The outcome of each server call is a parameter: `None` (or `false`) is a call
    that threw. */
module UsersPage {

  import opened Wrappers
  import Lists

  /** A good as the client receives it from the server; its id is a string. */
  datatype Good = Good(id: string, name: string, category: string, description: string,
                       price: int, stock: int, image: Option<string>)

  /** What the modal submits. Its `id` is the edited good's id, and is absent when
      the modal was opened for creation. */
  datatype Payload = Payload(id: Option<string>, name: string, category: string,
                             description: string, price: int, stock: int)

  datatype Mode = Create | Edit

  /** The request a handler sends to the server. */
  datatype Request = CreateGood(payload: Payload)
                   | UpdateGood(target: Option<string>, payload: Payload)
                   | DeleteGood(goodId: string)

  function GoodId(g: Good): string { g.id }

  /** The id a good is compared with `payload.id` by (`g.id === payload.id`). */
  function SomeId(g: Good): Option<string> { Some(g.id) }

  class Page {
    var goods: seq<Good>
    var modalOpen: bool
    var modalMode: Mode
    var editingGood: Option<Good>

    /** A good is being edited only while the modal is open in edit mode. */
    predicate Valid()
      reads this
    {
      editingGood.Some? ==> modalOpen && modalMode == Edit
    }

    /** The initial `useState` values. */
    constructor ()
      ensures Valid()
      ensures goods == [] && !modalOpen && modalMode == Create && editingGood == None
    {
      goods := [];
      modalOpen := false;
      modalMode := Create;
      editingGood := None;
    }

    method OpenCreate()
      requires Valid()
      modifies this
      ensures Valid()
      ensures modalMode == Create && editingGood == None && modalOpen
      ensures goods == old(goods)
    {
      modalMode := Create;
      editingGood := None;
      modalOpen := true;
    }

    method OpenEdit(g: Good)
      requires Valid()
      modifies this
      ensures Valid()
      ensures modalMode == Edit && editingGood == Some(g) && modalOpen
      ensures goods == old(goods)
    {
      modalMode := Edit;
      editingGood := Some(g);
      modalOpen := true;
    }

    /** Closes the modal; the mode is left as it was. */
    method CloseModal()
      requires Valid()
      modifies this
      ensures Valid()
      ensures !modalOpen && editingGood == None
      ensures modalMode == old(modalMode) && goods == old(goods)
    {
      modalOpen := false;
      editingGood := None;
    }

    /** `handleDelete(id)`: `confirmed` is the answer to the confirmation dialog and
        `deleted` whether the server call succeeded. A declined confirmation sends
        nothing; a failed call leaves the list as it was. */
    method HandleDelete(id: string, confirmed: bool, deleted: bool) returns (sent: Option<Request>)
      requires Valid()
      modifies this
      ensures Valid()
      ensures sent == if confirmed then Some(DeleteGood(id)) else None
      ensures goods == if confirmed && deleted then Lists.FilterOut(old(goods), GoodId, id)
                       else old(goods)
      ensures modalOpen == old(modalOpen) && modalMode == old(modalMode)
      ensures editingGood == old(editingGood)
    {
      if !confirmed {
        return None;
      }
      sent := Some(DeleteGood(id));
      if deleted {
        goods := Lists.FilterOut(goods, GoodId, id);
      }
    }

    /** `handleSubmitModal(payload)`: `reply` is the good the server returned, or
        `None` when the call threw. On success the list is patched locally and the
        modal closed; on failure nothing changes. */
    method HandleSubmitModal(payload: Payload, reply: Option<Good>) returns (sent: Request)
      requires Valid()
      modifies this
      ensures Valid()
      ensures sent == if old(modalMode) == Create then CreateGood(payload)
                      else UpdateGood(payload.id, payload)
      ensures reply.None? ==>
        goods == old(goods) && modalOpen == old(modalOpen) && editingGood == old(editingGood)
      ensures reply.Some? && old(modalMode) == Create ==> goods == old(goods) + [reply.value]
      ensures reply.Some? && old(modalMode) == Edit ==>
        goods == Lists.ReplaceWhere(old(goods), SomeId, payload.id, reply.value)
      ensures reply.Some? ==> !modalOpen && editingGood == None
      ensures modalMode == old(modalMode)
    {
      if modalMode == Create {
        sent := CreateGood(payload);
        if reply.Some? {
          goods := goods + [reply.value];
        }
      } else {
        sent := UpdateGood(payload.id, payload);
        if reply.Some? {
          goods := Lists.ReplaceWhere(goods, SomeId, payload.id, reply.value);
        }
      }
      if reply.Some? {
        CloseModal();
      }
    }
  }
}
