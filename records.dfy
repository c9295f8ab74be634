// The two record types of the ledger, as the form handlers build them
// (app.js:452-457 and 546-554), and the JSON values an imported file holds.

/** A parsed JSON value, as `JSON.parse` returns it. Numbers are exact reals. */
module Json {
  datatype Value =
    | Null
    | Bool(b: bool)
    | Num(n: real)
    | Str(s: string)
    | Arr(items: seq<Value>)
    | Obj(fields: map<string, Value>)
}

module Records {
  import opened Lists

  /** A client: `{ name, phone, createdAt, id }`; `createdAt` is milliseconds since the epoch. */
  datatype Client = Client(id: string, name: string, phone: string, createdAt: int)

  /** An order. The three enumerations are kept as the strings the form selects
      (`cash`/`app`, `paid`/`deferred`, `pending`/`ready`/`received`), because an
      imported file may carry any string there. */
  datatype Order = Order(
    id: string,
    clientId: string,
    details: string,
    amount: real,
    paymentMethod: string,
    paymentStatus: string,
    orderStage: string,
    createdAt: int)

  /** The two module-level arrays `clients` and `orders`, taken together. */
  datatype Collections = Collections(clients: seq<Client>, orders: seq<Order>)

  function ClientKey(c: Client): string { c.id }
  function OrderKey(o: Order): string { o.id }

  /** The predicate `c => c.id === id` of `find`/`findIndex`. */
  function ClientHasId(id: string): Client -> bool { (c: Client) => c.id == id }
  function OrderHasId(id: string): Order -> bool { (o: Order) => o.id == id }

  /** The predicates kept by the delete handlers' `filter` calls. */
  function ClientIdIsNot(id: string): Client -> bool { (c: Client) => c.id != id }
  function OrderIdIsNot(id: string): Order -> bool { (o: Order) => o.id != id }
  function OrderClientIsNot(id: string): Order -> bool { (o: Order) => o.clientId != id }

  /** Every order refers to a client that exists. */
  predicate ReferencesResolve(clients: seq<Client>, orders: seq<Order>) {
    forall i :: 0 <= i < |orders| ==> orders[i].clientId in Keys(clients, ClientKey)
  }
}
