/** The goods catalog of the Express server in prak2-express/app.js: a module-level
    array of `{ id, name, price }` records behind five routes under `/goods`. */
module Goods {

  import opened Wrappers
  import opened Http
  import Lists

  datatype Good = Good(id: int, name: string, price: int)

  function GoodId(g: Good): int { g.id }

  /** The fields of a POST or PATCH body; `None` is a field the client did not send. */
  datatype GoodBody = GoodBody(name: Option<string>, price: Option<int>)

  const NOT_FOUND_TEXT: string := "Товар не найден"
  const REQUIRED_TEXT: string := "Название и цена обязательны"
  const DELETED_TEXT: string := "Товар удален"

  /** The POST guard `!name || !price` fails: both fields are present and truthy.
      An empty name is falsy, and so is a price sent as the JSON number 0. */
  predicate Complete(b: GoodBody)
  {
    b.name.Some? && b.name.value != "" && b.price.Some? && b.price.value != 0
  }

  /** A good after a PATCH body was applied to it: each field the body carries
      overwrites the good's, the others stay. */
  function Patched(g: Good, b: GoodBody): (r: Good)
    ensures r.id == g.id
    ensures b == GoodBody(None, None) ==> r == g
  {
    Good(g.id,
         if b.name.Some? then b.name.value else g.name,
         if b.price.Some? then b.price.value else g.price)
  }

  /** Two PATCH bodies merged, the later one winning where both carry a field. */
  function Then(first: GoodBody, second: GoodBody): GoodBody
  {
    GoodBody(if second.name.Some? then second.name else first.name,
             if second.price.Some? then second.price else first.price)
  }

  /** Two PATCHes in a row act as one PATCH with the merged body: a field that
      neither body mentions keeps its original value. */
  lemma PatchedTwice(g: Good, first: GoodBody, second: GoodBody)
    ensures Patched(Patched(g, first), second) == Patched(g, Then(first, second))
    ensures first.name.None? && second.name.None? ==> Patched(Patched(g, first), second).name == g.name
    ensures first.price.None? && second.price.None? ==> Patched(Patched(g, first), second).price == g.price
  {
  }

  class Store {
    var goods: seq<Good>

    /** The two goods the server starts with. */
    constructor ()
      ensures goods == [Good(1, "Чай черный", 150), Good(2, "Кофе молотый", 400)]
    {
      goods := [Good(1, "Чай черный", 150), Good(2, "Кофе молотый", 400)];
    }

    /** GET /goods */
    method List() returns (r: Response<seq<Good>>)
      ensures r.status == OK && r.body == Value(goods)
    {
      r := Response(OK, Value(goods));
    }

    /** GET /goods/:id */
    method Get(id: int) returns (r: Response<Good>)
      ensures r.status == NOT_FOUND <==> !Lists.HasKey(goods, GoodId, id)
      ensures r.status == NOT_FOUND ==> r.body == Error(NOT_FOUND_TEXT)
      ensures r.status != NOT_FOUND ==>
        r == Response(OK, Value(goods[Lists.FindIndex(goods, GoodId, id)]))
      ensures r.status == OK ==>
        exists i :: 0 <= i < |goods| && goods[i] == r.body.value && goods[i].id == id &&
          forall j :: 0 <= j < i ==> goods[j].id != id
    {
      var i := Lists.FindIndex(goods, GoodId, id);
      if i == -1 {
        return Response(NOT_FOUND, Error(NOT_FOUND_TEXT));
      }
      r := Response(OK, Value(goods[i]));
    }

    /** POST /goods, with `now` the value `Date.now()` gives the new good as its id. */
    method Create(body: GoodBody, now: int) returns (r: Response<Good>)
      modifies this
      ensures !Complete(body) ==> goods == old(goods) && r == Response(BAD_REQUEST, Error(REQUIRED_TEXT))
      ensures body.price == Some(0) ==> r.status == BAD_REQUEST
      ensures Complete(body) ==>
        var g := Good(now, body.name.value, body.price.value);
        goods == old(goods) + [g] && r == Response(CREATED, Value(g))
    {
      if body.name.None? || body.name.value == "" || body.price.None? || body.price.value == 0 {
        return Response(BAD_REQUEST, Error(REQUIRED_TEXT));
      }
      var g := Good(now, body.name.value, body.price.value);
      goods := goods + [g];
      r := Response(CREATED, Value(g));
    }

    /** PATCH /goods/:id: the first good with the id is updated in place. */
    method Patch(id: int, body: GoodBody) returns (r: Response<Good>)
      modifies this
      ensures !Lists.HasKey(old(goods), GoodId, id) ==>
        goods == old(goods) && r == Response(NOT_FOUND, Error(NOT_FOUND_TEXT))
      ensures Lists.HasKey(old(goods), GoodId, id) ==>
        var i := Lists.FindIndex(old(goods), GoodId, id);
        goods == old(goods)[i := Patched(old(goods)[i], body)] && r == Response(OK, Value(goods[i]))
      ensures |goods| == |old(goods)|
      ensures forall j :: 0 <= j < |goods| ==> goods[j].id == old(goods)[j].id
      ensures forall j :: 0 <= j < |goods| && goods[j].id != id ==> goods[j] == old(goods)[j]
      ensures body == GoodBody(None, None) ==> goods == old(goods)
    {
      var i := Lists.FindIndex(goods, GoodId, id);
      if i == -1 {
        return Response(NOT_FOUND, Error(NOT_FOUND_TEXT));
      }
      var item := goods[i];
      if body.name.Some? {
        item := item.(name := body.name.value);
      }
      if body.price.Some? {
        item := item.(price := body.price.value);
      }
      goods := goods[i := item];
      r := Response(OK, Value(item));
    }

    /** DELETE /goods/:id: every good with the id is filtered out; the reply is 404
        exactly when the array kept its length. */
    method Delete(id: int) returns (r: Response<Good>)
      modifies this
      ensures goods == Lists.FilterOut(old(goods), GoodId, id)
      ensures r.status == NOT_FOUND <==> |goods| == |old(goods)|
      ensures r.status == NOT_FOUND <==> !Lists.HasKey(old(goods), GoodId, id)
      ensures r == if r.status == NOT_FOUND then Response(NOT_FOUND, Error(NOT_FOUND_TEXT))
                   else Response(OK, Message(DELETED_TEXT))
      ensures !Lists.HasKey(goods, GoodId, id)
    {
      var initialLength := |goods|;
      goods := Lists.FilterOut(goods, GoodId, id);
      if |goods| == initialLength {
        return Response(NOT_FOUND, Error(NOT_FOUND_TEXT));
      }
      r := Response(OK, Message(DELETED_TEXT));
    }
  }

  /** A session against a fresh server: create, read, patch, delete, read again. */
  method Session()
  {
    var store := new Store();
    var bad := store.Create(GoodBody(Some("Чай"), Some(0)), 1000);
    assert bad.status == BAD_REQUEST && |store.goods| == 2;
    var created := store.Create(GoodBody(Some("Чай"), Some(150)), 1000);
    assert created == Response(CREATED, Value(Good(1000, "Чай", 150)));
    Lists.FindIndexAfterAppend(store.goods[..2], Good(1000, "Чай", 150), GoodId, 1000);
    assert store.goods[..2] + [Good(1000, "Чай", 150)] == store.goods;
    var got := store.Get(1000);
    assert got.body == Value(Good(1000, "Чай", 150));
    var patched := store.Patch(1000, GoodBody(None, Some(200)));
    assert patched.body == Value(Good(1000, "Чай", 200));
    assert store.goods[2] in store.goods && store.goods[2].id == 1000;
    var deleted := store.Delete(1000);
    assert deleted.status == OK;
    got := store.Get(1000);
    assert got.status == NOT_FOUND;
    deleted := store.Delete(1000);
    assert deleted.status == NOT_FOUND;
  }
}
