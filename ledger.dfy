// The ledger's mutable state: the module-level arrays `clients` and `orders`
// (app.js:9-10), the copy of them kept in localStorage (app.js:29-51), and the
// event handlers that change them in place.
module LedgerState {
  import opened Lists
  import opened Text
  import opened Records
  import opened RecordStore
  import opened Snapshot

  /** How localStorage answers the two `setItem` calls of `saveToLocalStorage`:
      both written, the quota hit on the second (orders) write, or on the first. */
  datatype StorageResponse = WriteOk | QuotaAfterClients | QuotaExceeded

  class Ledger {
    var clients: seq<Client>
    var orders: seq<Order>
    /** The `clientsDB` and `ordersDB` entries of localStorage. */
    var storedClients: seq<Client>
    var storedOrders: seq<Order>

    /** The in-memory collections are what storage holds. */
    ghost predicate Synced()
      reads this
    {
      storedClients == clients && storedOrders == orders
    }

    /** The stored copy after `saveToLocalStorage` answered `response`, given the
        copy before it. */
    ghost predicate Persisted(response: StorageResponse, before: Collections)
      reads this
    {
      && storedClients == (if response == QuotaExceeded then before.clients else clients)
      && storedOrders == (if response == WriteOk then orders else before.orders)
    }

    /** Start-up: `loadFromLocalStorage` fills both collections from storage. */
    constructor (stored: Collections)
      ensures clients == stored.clients && orders == stored.orders
      ensures Synced()
    {
      clients, orders := stored.clients, stored.orders;
      storedClients, storedOrders := stored.clients, stored.orders;
    }

    /** `saveToLocalStorage`: a failed write leaves its entry as it was and the
        in-memory collections untouched. */
    method SaveToLocalStorage(response: StorageResponse)
      modifies this`storedClients, this`storedOrders
      ensures Persisted(response, old(Collections(storedClients, storedOrders)))
      ensures response == WriteOk ==> Synced()
    {
      if response != QuotaExceeded {
        storedClients := clients;
        if response == WriteOk {
          storedOrders := orders;
        }
      }
    }

    /** The `#clientForm` submit handler (app.js:444-476), past form validation. */
    method SubmitClientForm(form: ClientForm, now: int, newId: string, response: StorageResponse)
      returns (saved: bool)
      modifies this
      ensures saved == SaveClient(old(clients), form, now, newId).Saved?
      ensures saved ==> clients == SaveClient(old(clients), form, now, newId).records
      ensures saved ==> Persisted(response, old(Collections(storedClients, storedOrders)))
      ensures !saved ==> unchanged(this)
      ensures orders == old(orders)
    {
      if form.editId != "" {
        var i := IndexWhere(clients, ClientHasId(form.editId));
        if i == -1 {
          // `clients.find(...)` is undefined and reading its `createdAt` throws.
          return false;
        }
        clients := clients[i := Client(form.editId, Trim(form.name), Trim(form.phone), clients[i].createdAt)];
      } else {
        clients := clients + [Client(newId, Trim(form.name), Trim(form.phone), now)];
      }
      SaveToLocalStorage(response);
      saved := true;
    }

    /** The `#orderForm` submit handler (app.js:538-574), past form validation. */
    method SubmitOrderForm(form: OrderForm, now: int, newId: string, response: StorageResponse)
      returns (saved: bool)
      modifies this
      ensures saved == SaveOrder(old(orders), form, now, newId).Saved?
      ensures saved ==> orders == SaveOrder(old(orders), form, now, newId).records
      ensures saved ==> Persisted(response, old(Collections(storedClients, storedOrders)))
      ensures !saved ==> unchanged(this)
      ensures clients == old(clients)
    {
      if form.editId != "" {
        var i := IndexWhere(orders, OrderHasId(form.editId));
        if i == -1 {
          // `orders.find(...)` is undefined and reading its `createdAt` throws.
          return false;
        }
        orders := orders[i := FormOrder(form, form.editId, orders[i].createdAt)];
      } else {
        orders := orders + [FormOrder(form, newId, now)];
      }
      SaveToLocalStorage(response);
      saved := true;
    }

    /** The `.delete-client` click handler (app.js:494-507); `confirmed` is the
        answer to `confirm`, which is only asked when the client exists. */
    method DeleteClientClicked(id: string, confirmed: bool, response: StorageResponse)
      modifies this
      ensures Collections(clients, orders) == DeleteClient(old(Collections(clients, orders)), id, confirmed)
      ensures id in Keys(old(clients), ClientKey) && confirmed ==>
                Persisted(response, old(Collections(storedClients, storedOrders)))
      ensures !(id in Keys(old(clients), ClientKey) && confirmed) ==> unchanged(this)
    {
      var i := IndexWhere(clients, ClientHasId(id));
      if i != -1 && confirmed {
        clients := Filter(clients, ClientIdIsNot(id));
        orders := Filter(orders, OrderClientIsNot(id));
        SaveToLocalStorage(response);
      }
    }

    /** The `.delete-order` click handler (app.js:598-608): the filter and the save
        run on confirmation whether or not the id exists. */
    method DeleteOrderClicked(id: string, confirmed: bool, response: StorageResponse)
      modifies this
      ensures orders == DeleteOrder(old(orders), id, confirmed)
      ensures clients == old(clients)
      ensures confirmed ==> Persisted(response, old(Collections(storedClients, storedOrders)))
      ensures !confirmed ==> unchanged(this)
    {
      if confirmed {
        orders := Filter(orders, OrderIdIsNot(id));
        SaveToLocalStorage(response);
      }
    }

    /** The `#importForm` submit handler (app.js:633-702). With a file chosen it
        first reloads both collections from storage (app.js:645), then applies the
        read file; merge mode appends in two `forEach` loops. */
    method Import(file: ImportFile, mode: string, confirmed: bool, response: StorageResponse)
      returns (status: ImportStatus)
      modifies this
      ensures file == NoFile ==> status == NoFileSelected && unchanged(this)
      ensures file != NoFile ==>
                var r := ImportInto(Collections(old(storedClients), old(storedOrders)), file, mode, confirmed);
                && status == r.status
                && clients == r.collections.clients && orders == r.collections.orders
      ensures status == Imported ==> Persisted(response, old(Collections(storedClients, storedOrders)))
      ensures status != Imported ==> storedClients == old(storedClients) && storedOrders == old(storedOrders)
      ensures old(Synced()) && status != Imported ==> clients == old(clients) && orders == old(orders)
    {
      if file == NoFile {
        return NoFileSelected;
      }
      clients, orders := storedClients, storedOrders;
      if file.Unparsable? {
        return ReadError;
      }
      var verdict := ValidateImportData(file.data);
      if verdict == Rejected {
        return InvalidFormat;
      } else if verdict == Threw {
        return ReadError;
      }
      var decoded := DecodeSnapshot(file.data);
      if decoded.None? {
        return Unrepresentable;
      }
      var imported := decoded.value;
      if mode == "replace" {
        if !confirmed {
          return Declined;
        }
        clients, orders := imported.clients, imported.orders;
      } else {
        MergeImported(imported);
      }
      SaveToLocalStorage(response);
      status := Imported;
    }

    /** Merge mode (app.js:665-678): both id sets are taken before anything is
        appended, then each imported record with an id not in its set is pushed. */
    method MergeImported(imported: Collections)
      modifies this`clients, this`orders
      ensures clients == AppendAbsent(old(clients), imported.clients, ClientKey)
      ensures orders == AppendAbsent(old(orders), imported.orders, OrderKey)
    {
      var existingClientIds := Keys(clients, ClientKey);
      var existingOrderIds := Keys(orders, OrderKey);
      AppendClients(imported.clients, existingClientIds);
      AppendOrders(imported.orders, existingOrderIds);
    }

    /** `(importData.clients || []).forEach(...)`: push each client whose id is
        not in `existingIds`. */
    method AppendClients(imported: seq<Client>, existingIds: set<string>)
      requires existingIds == Keys(clients, ClientKey)
      modifies this`clients
      ensures clients == AppendAbsent(old(clients), imported, ClientKey)
    {
      ghost var start := clients;
      var k := 0;
      while k < |imported|
        invariant 0 <= k <= |imported|
        invariant clients == start + Filter(imported[..k], KeyAbsent(existingIds, ClientKey))
      {
        var client := imported[k];
        assert imported[..k + 1] == imported[..k] + [client];
        KeyAbsentSnoc(imported[..k], client, existingIds, ClientKey);
        if client.id !in existingIds {
          clients := clients + [client];
        }
        k := k + 1;
      }
      assert imported[..k] == imported;
      AppendAbsentIsFilter(start, imported, ClientKey);
    }

    /** `(importData.orders || []).forEach(...)`: push each order whose id is
        not in `existingIds`. */
    method AppendOrders(imported: seq<Order>, existingIds: set<string>)
      requires existingIds == Keys(orders, OrderKey)
      modifies this`orders
      ensures orders == AppendAbsent(old(orders), imported, OrderKey)
    {
      ghost var start := orders;
      var k := 0;
      while k < |imported|
        invariant 0 <= k <= |imported|
        invariant orders == start + Filter(imported[..k], KeyAbsent(existingIds, OrderKey))
      {
        var order := imported[k];
        assert imported[..k + 1] == imported[..k] + [order];
        KeyAbsentSnoc(imported[..k], order, existingIds, OrderKey);
        if order.id !in existingIds {
          orders := orders + [order];
        }
        k := k + 1;
      }
      assert imported[..k] == imported;
      AppendAbsentIsFilter(start, imported, OrderKey);
    }
  }
}
