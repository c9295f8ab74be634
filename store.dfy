// The record-store mutations of the ledger, as pure functions from the old
// collections to the new ones: the client and order form submit handlers
// (app.js:444-476, 538-574) and the two delete handlers (app.js:494-507, 598-608).
module RecordStore {
  import opened Lists
  import opened Text
  import opened Records

  /** What the client form holds when it is submitted; `editId` is the hidden
      `#clientId` input, empty when the form adds a new client. */
  datatype ClientForm = ClientForm(editId: string, name: string, phone: string)

  /** What the order form holds when it is submitted; `editId` is `#orderId`. */
  datatype OrderForm = OrderForm(
    editId: string,
    clientId: string,
    details: string,
    amount: real,
    paymentMethod: string,
    paymentStatus: string,
    orderStage: string)

  /** Outcome of a submit handler: the new collection, or the edited id that
      `find` did not locate, which makes `find(...).createdAt` throw before
      anything changes. */
  datatype Saved<T> = Saved(records: seq<T>) | NotFound(id: string)

  /** The client submit handler: an empty `editId` appends a new client with the
      generated id `newId` and `createdAt = now`; otherwise the first client with
      that id is replaced in place, keeping its `createdAt`. */
  function SaveClient(clients: seq<Client>, form: ClientForm, now: int, newId: string): (r: Saved<Client>)
    ensures form.editId == "" ==>
              && r.Saved? && |r.records| == |clients| + 1 && r.records[..|clients|] == clients
              && r.records[|clients|] == Client(newId, Trim(form.name), Trim(form.phone), now)
    ensures form.editId != "" ==> (r.Saved? <==> form.editId in Keys(clients, ClientKey))
    ensures form.editId != "" && r.Saved? ==>
              var i := IndexWhere(clients, ClientHasId(form.editId));
              && 0 <= i < |clients| && |r.records| == |clients|
              && r.records[i].id == form.editId == clients[i].id
              && r.records[i].createdAt == clients[i].createdAt
              && r.records[i].name == Trim(form.name) && r.records[i].phone == Trim(form.phone)
              && (forall j :: 0 <= j < |clients| && j != i ==> r.records[j] == clients[j])
  {
    if form.editId == "" then
      Saved(clients + [Client(newId, Trim(form.name), Trim(form.phone), now)])
    else
      var i := IndexWhere(clients, ClientHasId(form.editId));
      if i == -1 then NotFound(form.editId)
      else Saved(clients[i := Client(form.editId, Trim(form.name), Trim(form.phone), clients[i].createdAt)])
  }

  /** The order submit handler, with the same add/edit split as `SaveClient`. */
  function SaveOrder(orders: seq<Order>, form: OrderForm, now: int, newId: string): (r: Saved<Order>)
    ensures form.editId == "" ==>
              && r.Saved? && |r.records| == |orders| + 1 && r.records[..|orders|] == orders
              && r.records[|orders|] == FormOrder(form, newId, now)
    ensures form.editId != "" ==> (r.Saved? <==> form.editId in Keys(orders, OrderKey))
    ensures form.editId != "" && r.Saved? ==>
              var i := IndexWhere(orders, OrderHasId(form.editId));
              && 0 <= i < |orders| && |r.records| == |orders|
              && r.records[i].id == form.editId == orders[i].id
              && r.records[i].createdAt == orders[i].createdAt
              && r.records[i] == FormOrder(form, form.editId, orders[i].createdAt)
              && (forall j :: 0 <= j < |orders| && j != i ==> r.records[j] == orders[j])
  {
    if form.editId == "" then
      Saved(orders + [FormOrder(form, newId, now)])
    else
      var i := IndexWhere(orders, OrderHasId(form.editId));
      if i == -1 then NotFound(form.editId)
      else Saved(orders[i := FormOrder(form, form.editId, orders[i].createdAt)])
  }

  /** The record `{ ...orderData, id }` built from the form; only `details` is trimmed. */
  function FormOrder(form: OrderForm, id: string, createdAt: int): Order {
    Order(id, form.clientId, Trim(form.details), form.amount,
          form.paymentMethod, form.paymentStatus, form.orderStage, createdAt)
  }

  /** The delete-client handler. Nothing happens unless a client has `id` and the
      user confirms; then every client with that id and every order of that
      client are removed, and the rest keep their order. */
  function DeleteClient(c: Collections, id: string, confirmed: bool): (r: Collections)
    ensures !(id in Keys(c.clients, ClientKey) && confirmed) ==> r == c
    ensures id in Keys(c.clients, ClientKey) && confirmed ==>
              && (forall x :: multiset(r.clients)[x] == if x.id == id then 0 else multiset(c.clients)[x])
              && (forall o :: multiset(r.orders)[o] == if o.clientId == id then 0 else multiset(c.orders)[o])
              && SubsequenceOf(r.clients, c.clients)
              && SubsequenceOf(r.orders, c.orders)
  {
    if id in Keys(c.clients, ClientKey) && confirmed then
      var r := Collections(Filter(c.clients, ClientIdIsNot(id)), Filter(c.orders, OrderClientIsNot(id)));
      FilterIsSubsequence(c.clients, ClientIdIsNot(id));
      FilterIsSubsequence(c.orders, OrderClientIsNot(id));
      assert forall x :: multiset(r.clients)[x] == if x.id == id then 0 else multiset(c.clients)[x] by {
        forall x { FilterCount(c.clients, ClientIdIsNot(id), x); }
      }
      assert forall o :: multiset(r.orders)[o] == if o.clientId == id then 0 else multiset(c.orders)[o] by {
        forall o { FilterCount(c.orders, OrderClientIsNot(id), o); }
      }
      r
    else c
  }

  /** The delete-order handler: on confirmation every order with `id` is removed
      and the rest keep their order; an absent id changes nothing. */
  function DeleteOrder(orders: seq<Order>, id: string, confirmed: bool): (r: seq<Order>)
    ensures !confirmed || id !in Keys(orders, OrderKey) ==> r == orders
    ensures confirmed ==>
              && (forall o :: multiset(r)[o] == if o.id == id then 0 else multiset(orders)[o])
              && SubsequenceOf(r, orders)
  {
    if confirmed then
      var r := Filter(orders, OrderIdIsNot(id));
      FilterIsSubsequence(orders, OrderIdIsNot(id));
      assert forall o :: multiset(r)[o] == if o.id == id then 0 else multiset(orders)[o] by {
        forall o { FilterCount(orders, OrderIdIsNot(id), o); }
      }
      assert id !in Keys(orders, OrderKey) ==> r == orders by {
        if id !in Keys(orders, OrderKey) {
          FilterKeepsAll(orders, OrderIdIsNot(id));
        }
      }
      r
    else orders
  }

  /** Saving a client changes no id except by adding the fresh one, so the ids stay
      unique when `newId` is fresh, as `generateId` is meant to guarantee. */
  lemma SaveClientKeepsIdsUnique(clients: seq<Client>, form: ClientForm, now: int, newId: string)
    requires UniqueKeys(clients, ClientKey)
    requires form.editId == "" ==> newId !in Keys(clients, ClientKey)
    ensures SaveClient(clients, form, now, newId).Saved? ==>
              UniqueKeys(SaveClient(clients, form, now, newId).records, ClientKey)
  {
    var r := SaveClient(clients, form, now, newId);
    if r.Saved? {
      var s := r.records;
      forall i, j | 0 <= i < j < |s| ensures s[i].id != s[j].id {
        if form.editId == "" {
          if j == |clients| {
            assert s[i] == clients[i];
          } else {
            assert s[i] == clients[i] && s[j] == clients[j];
          }
        } else {
          assert s[i].id == clients[i].id && s[j].id == clients[j].id;
        }
      }
    }
  }

  /** After a client is added under a fresh id, looking that id up (`find`) yields
      exactly the record built from the form. */
  lemma AddClientThenFind(clients: seq<Client>, form: ClientForm, now: int, newId: string)
    requires form.editId == "" && newId !in Keys(clients, ClientKey)
    ensures var s := SaveClient(clients, form, now, newId).records;
            var i := IndexWhere(s, ClientHasId(newId));
            0 <= i && s[i] == Client(newId, Trim(form.name), Trim(form.phone), now)
  {
    var s := SaveClient(clients, form, now, newId).records;
    var i := IndexWhere(s, ClientHasId(newId));
    assert ClientHasId(newId)(s[|clients|]);
  }

  /** The order counterpart of `SaveClientKeepsIdsUnique`. */
  lemma SaveOrderKeepsIdsUnique(orders: seq<Order>, form: OrderForm, now: int, newId: string)
    requires UniqueKeys(orders, OrderKey)
    requires form.editId == "" ==> newId !in Keys(orders, OrderKey)
    ensures SaveOrder(orders, form, now, newId).Saved? ==>
              UniqueKeys(SaveOrder(orders, form, now, newId).records, OrderKey)
  {
    var r := SaveOrder(orders, form, now, newId);
    if r.Saved? {
      var s := r.records;
      forall i, j | 0 <= i < j < |s| ensures s[i].id != s[j].id {
        if form.editId == "" {
          if j == |orders| {
            assert s[i] == orders[i];
          } else {
            assert s[i] == orders[i] && s[j] == orders[j];
          }
        } else {
          assert s[i].id == orders[i].id && s[j].id == orders[j].id;
        }
      }
    }
  }

  /** After an order is added under a fresh id, `find` on that id yields it. */
  lemma AddOrderThenFind(orders: seq<Order>, form: OrderForm, now: int, newId: string)
    requires form.editId == "" && newId !in Keys(orders, OrderKey)
    ensures var s := SaveOrder(orders, form, now, newId).records;
            var i := IndexWhere(s, OrderHasId(newId));
            0 <= i && s[i] == FormOrder(form, newId, now)
  {
    var s := SaveOrder(orders, form, now, newId).records;
    var i := IndexWhere(s, OrderHasId(newId));
    assert OrderHasId(newId)(s[|orders|]);
  }

  /** Saving a client keeps every existing client id, so no order loses its client. */
  lemma SaveClientKeepsReferences(c: Collections, form: ClientForm, now: int, newId: string)
    requires ReferencesResolve(c.clients, c.orders)
    ensures SaveClient(c.clients, form, now, newId).Saved? ==>
              ReferencesResolve(SaveClient(c.clients, form, now, newId).records, c.orders)
  {
    var r := SaveClient(c.clients, form, now, newId);
    if r.Saved? {
      forall k | 0 <= k < |c.orders| ensures c.orders[k].clientId in Keys(r.records, ClientKey) {
        var i :| 0 <= i < |c.clients| && c.clients[i].id == c.orders[k].clientId;
        assert r.records[i].id == c.clients[i].id;
      }
    }
  }

  /** Saving an order whose client exists keeps every order's client existing. */
  lemma SaveOrderKeepsReferences(c: Collections, form: OrderForm, now: int, newId: string)
    requires ReferencesResolve(c.clients, c.orders)
    requires form.clientId in Keys(c.clients, ClientKey)
    ensures SaveOrder(c.orders, form, now, newId).Saved? ==>
              ReferencesResolve(c.clients, SaveOrder(c.orders, form, now, newId).records)
  {
    var r := SaveOrder(c.orders, form, now, newId);
    if r.Saved? {
      forall k | 0 <= k < |r.records| ensures r.records[k].clientId in Keys(c.clients, ClientKey) {
        if k < |c.orders| && r.records[k] != c.orders[k] {
          assert r.records[k].clientId == form.clientId;
        }
      }
    }
  }

  /** The cascade leaves no order of the deleted client and no dangling reference. */
  lemma DeleteClientKeepsReferences(c: Collections, id: string, confirmed: bool)
    requires ReferencesResolve(c.clients, c.orders)
    ensures ReferencesResolve(DeleteClient(c, id, confirmed).clients, DeleteClient(c, id, confirmed).orders)
    ensures id in Keys(c.clients, ClientKey) && confirmed ==>
              forall o :: o in DeleteClient(c, id, confirmed).orders ==> o.clientId != id
  {
    var r := DeleteClient(c, id, confirmed);
    if id in Keys(c.clients, ClientKey) && confirmed {
      forall o | o in r.orders ensures o.clientId != id && o.clientId in Keys(r.clients, ClientKey) {
        assert multiset(r.orders)[o] > 0;
        SurvivingOrderResolves(c.clients, c.orders, id, o);
      }
      forall k | 0 <= k < |r.orders| ensures r.orders[k].clientId in Keys(r.clients, ClientKey) {
        assert r.orders[k] in r.orders;
      }
    }
  }

  /** An order of another client than the deleted one still names a client that is left. */
  lemma SurvivingOrderResolves(clients: seq<Client>, orders: seq<Order>, id: string, o: Order)
    requires ReferencesResolve(clients, orders)
    requires o in orders && o.clientId != id
    ensures o.clientId in Keys(Filter(clients, ClientIdIsNot(id)), ClientKey)
  {
    var k :| 0 <= k < |orders| && orders[k] == o;
    var i :| 0 <= i < |clients| && clients[i].id == o.clientId;
    var x := clients[i];
    var left := Filter(clients, ClientIdIsNot(id));
    assert x in left;
    var j :| 0 <= j < |left| && left[j] == x;
    assert ClientKey(left[j]) in Keys(left, ClientKey);
  }

  /** Deleting clients or orders cannot create a duplicate id. */
  lemma DeletesKeepIdsUnique(c: Collections, clientId: string, orderId: string, confirmed: bool)
    requires UniqueKeys(c.clients, ClientKey) && UniqueKeys(c.orders, OrderKey)
    ensures UniqueKeys(DeleteClient(c, clientId, confirmed).clients, ClientKey)
    ensures UniqueKeys(DeleteClient(c, clientId, confirmed).orders, OrderKey)
    ensures UniqueKeys(DeleteOrder(c.orders, orderId, confirmed), OrderKey)
  {
    FilterKeepsUnique(c.clients, ClientIdIsNot(clientId), ClientKey);
    FilterKeepsUnique(c.orders, OrderClientIsNot(clientId), OrderKey);
    FilterKeepsUnique(c.orders, OrderIdIsNot(orderId), OrderKey);
  }
}
