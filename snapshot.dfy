// The export/import engine of the ledger: the snapshot written by the export
// button (app.js:613-618), `validateImportData` (app.js:705-721), and the
// replace/merge reconciliation of the import form handler (app.js:645-679).
module Snapshot {
  import opened Lists
  import opened Json
  import opened Records

  datatype Option<T> = None | Some(value: T)

  /** The keys every imported client and order must have (app.js:709-710). */
  const ClientFields: seq<string> := ["id", "name", "createdAt"]
  const OrderFields: seq<string> :=
    ["id", "clientId", "details", "amount", "paymentMethod", "paymentStatus", "orderStage", "createdAt"]

  /** `validateImportData` returns true or false, or throws: `field in entry` raises
      a TypeError when the entry is a primitive (null, boolean, number or string). */
  datatype Verdict = Accepted | Rejected | Threw

  /** `required.every(field => field in entry)` is true. */
  predicate HasFields(e: Value, required: seq<string>) {
    e.Obj? && forall f :: f in required ==> f in e.fields
  }

  /** The `in` operator throws on this value. */
  predicate IsPrimitive(e: Value) {
    e.Null? || e.Bool? || e.Num? || e.Str?
  }

  function LacksFields(required: seq<string>): Value -> bool {
    e => !HasFields(e, required)
  }

  /** The verdict on one entry. `every` stops at the first missing key, so a
      primitive throws on the first key; an array lacks every required key
      (none of them names an array property). */
  function EntryVerdict(e: Value, required: seq<string>): (v: Verdict)
    requires required != []
    ensures v == Accepted <==> HasFields(e, required)
    ensures v == Threw <==> IsPrimitive(e)
  {
    if e.Obj? then (if forall f :: f in required ==> f in e.fields then Accepted else Rejected)
    else if e.Arr? then Rejected
    else Threw
  }

  /** One `for (const entry of entries)` loop of `validateImportData`: the first
      entry without the required keys decides the verdict. */
  function CheckEntries(entries: seq<Value>, required: seq<string>): (v: Verdict)
    requires required != []
    ensures v == Accepted <==> forall i :: 0 <= i < |entries| ==> HasFields(entries[i], required)
    ensures var i := IndexWhere(entries, LacksFields(required));
            0 <= i ==> v == (if IsPrimitive(entries[i]) then Threw else Rejected)
  {
    if entries == [] then Accepted
    else
      var v := EntryVerdict(entries[0], required);
      if v == Accepted then CheckEntries(entries[1..], required) else v
  }

  /** The shape `validateImportData` accepts, stated on its own. */
  predicate WellFormedSnapshot(data: Value) {
    && data.Obj?
    && "clients" in data.fields && data.fields["clients"].Arr?
    && "orders" in data.fields && data.fields["orders"].Arr?
    && (forall e :: e in data.fields["clients"].items ==> HasFields(e, ClientFields))
    && (forall e :: e in data.fields["orders"].items ==> HasFields(e, OrderFields))
  }

  /** `validateImportData(data)`. */
  function ValidateImportData(data: Value): (v: Verdict)
    ensures v == Accepted <==> WellFormedSnapshot(data)
    ensures v == Threw ==>
              && data.Obj? && "clients" in data.fields && data.fields["clients"].Arr?
              && "orders" in data.fields && data.fields["orders"].Arr?
              && exists e :: (e in data.fields["clients"].items || e in data.fields["orders"].items) && IsPrimitive(e)
  {
    if !data.Obj? then Rejected
    else if !("clients" in data.fields && data.fields["clients"].Arr?) then Rejected
    else if !("orders" in data.fields && data.fields["orders"].Arr?) then Rejected
    else
      var clients, orders := data.fields["clients"].items, data.fields["orders"].items;
      var v := CheckEntries(clients, ClientFields);
      if v != Accepted then
        assert v == Threw ==> IsPrimitive(clients[IndexWhere(clients, LacksFields(ClientFields))]);
        v
      else
        var w := CheckEntries(orders, OrderFields);
        assert w == Threw ==> IsPrimitive(orders[IndexWhere(orders, LacksFields(OrderFields))]);
        w
  }

  /** A JSON number holding an integer. */
  predicate IsInteger(v: Value) {
    v.Num? && v.n == v.n.Floor as real
  }

  function StringField(f: map<string, Value>, k: string): Option<string> {
    if k in f && f[k].Str? then Some(f[k].s) else None
  }

  /** A client entry whose fields have the JSON types the application writes.
      A missing `phone` reads as the empty string, as the edit form shows it. */
  function DecodeClient(e: Value): Option<Client> {
    if !e.Obj? then None
    else
      var f := e.fields;
      var phone := if "phone" !in f then Some("") else StringField(f, "phone");
      if StringField(f, "id").Some? && StringField(f, "name").Some? && phone.Some?
         && "createdAt" in f && IsInteger(f["createdAt"])
      then Some(Client(f["id"].s, f["name"].s, phone.value, f["createdAt"].n.Floor))
      else None
  }

  /** An order entry whose fields have the JSON types the application writes. */
  function DecodeOrder(e: Value): Option<Order> {
    if !e.Obj? then None
    else
      var f := e.fields;
      if && StringField(f, "id").Some? && StringField(f, "clientId").Some?
         && StringField(f, "details").Some? && "amount" in f && f["amount"].Num?
         && StringField(f, "paymentMethod").Some? && StringField(f, "paymentStatus").Some?
         && StringField(f, "orderStage").Some? && "createdAt" in f && IsInteger(f["createdAt"])
      then Some(Order(f["id"].s, f["clientId"].s, f["details"].s, f["amount"].n,
                      f["paymentMethod"].s, f["paymentStatus"].s, f["orderStage"].s,
                      f["createdAt"].n.Floor))
      else None
  }

  /** Decodes every entry, or nothing if one entry cannot be represented. */
  function DecodeAll<T>(es: seq<Value>, decode: Value -> Option<T>): (r: Option<seq<T>>)
    ensures r.Some? <==> forall i :: 0 <= i < |es| ==> decode(es[i]).Some?
    ensures r.Some? ==> |r.value| == |es| && forall i :: 0 <= i < |es| ==> decode(es[i]) == Some(r.value[i])
  {
    if es == [] then Some([])
    else
      match (decode(es[0]), DecodeAll(es[1..], decode))
      case (Some(x), Some(xs)) => Some([x] + xs)
      case _ => None
  }

  /** The `clients` and `orders` arrays of an imported snapshot as records. */
  function DecodeSnapshot(data: Value): Option<Collections> {
    if data.Obj? && "clients" in data.fields && data.fields["clients"].Arr?
       && "orders" in data.fields && data.fields["orders"].Arr?
    then
      match (DecodeAll(data.fields["clients"].items, DecodeClient),
             DecodeAll(data.fields["orders"].items, DecodeOrder))
      case (Some(cs), Some(os)) => Some(Collections(cs, os))
      case _ => None
    else None
  }

  /** A client as `JSON.stringify` writes it. */
  function EncodeClient(c: Client): Value {
    Obj(map["name" := Str(c.name), "phone" := Str(c.phone),
            "createdAt" := Num(c.createdAt as real), "id" := Str(c.id)])
  }

  /** An order as `JSON.stringify` writes it. */
  function EncodeOrder(o: Order): Value {
    Obj(map["clientId" := Str(o.clientId), "details" := Str(o.details), "amount" := Num(o.amount),
            "paymentMethod" := Str(o.paymentMethod), "paymentStatus" := Str(o.paymentStatus),
            "orderStage" := Str(o.orderStage), "createdAt" := Num(o.createdAt as real),
            "id" := Str(o.id)])
  }

  /** The export button's snapshot `{ version, exportDate, clients, orders }`. */
  function Export(c: Collections, exportDate: string): (r: Value)
    ensures r.Obj? && r.fields.Keys == {"version", "exportDate", "clients", "orders"}
    ensures r.fields["version"] == Str("1.0") && r.fields["exportDate"] == Str(exportDate)
    ensures r.fields["clients"].Arr? && |r.fields["clients"].items| == |c.clients|
    ensures forall i :: 0 <= i < |c.clients| ==> r.fields["clients"].items[i] == EncodeClient(c.clients[i])
    ensures r.fields["orders"].Arr? && |r.fields["orders"].items| == |c.orders|
    ensures forall i :: 0 <= i < |c.orders| ==> r.fields["orders"].items[i] == EncodeOrder(c.orders[i])
  {
    Obj(map["version" := Str("1.0"), "exportDate" := Str(exportDate),
            "clients" := Arr(seq(|c.clients|, i requires 0 <= i < |c.clients| => EncodeClient(c.clients[i]))),
            "orders" := Arr(seq(|c.orders|, i requires 0 <= i < |c.orders| => EncodeOrder(c.orders[i])))])
  }

  lemma DecodeEncodeClient(c: Client)
    ensures DecodeClient(EncodeClient(c)) == Some(c)
  {
    assert EncodeClient(c).fields["createdAt"].n.Floor == c.createdAt;
  }

  lemma DecodeEncodeOrder(o: Order)
    ensures DecodeOrder(EncodeOrder(o)) == Some(o)
  {
    assert EncodeOrder(o).fields["createdAt"].n.Floor == o.createdAt;
  }

  /** Every exported snapshot passes `validateImportData`. */
  lemma ExportIsValid(c: Collections, exportDate: string)
    ensures ValidateImportData(Export(c, exportDate)) == Accepted
  {
    var data := Export(c, exportDate);
    forall e | e in data.fields["clients"].items ensures HasFields(e, ClientFields) {
      var i :| 0 <= i < |c.clients| && e == data.fields["clients"].items[i];
    }
    forall e | e in data.fields["orders"].items ensures HasFields(e, OrderFields) {
      var i :| 0 <= i < |c.orders| && e == data.fields["orders"].items[i];
    }
  }

  /** Reading back an export yields exactly the exported collections. */
  lemma ExportDecodes(c: Collections, exportDate: string)
    ensures DecodeSnapshot(Export(c, exportDate)) == Some(c)
  {
    var data := Export(c, exportDate);
    var cs, os := data.fields["clients"].items, data.fields["orders"].items;
    forall i | 0 <= i < |cs| ensures DecodeClient(cs[i]) == Some(c.clients[i]) {
      DecodeEncodeClient(c.clients[i]);
    }
    forall i | 0 <= i < |os| ensures DecodeOrder(os[i]) == Some(c.orders[i]) {
      DecodeEncodeOrder(c.orders[i]);
    }
    var dc, dor := DecodeAll(cs, DecodeClient), DecodeAll(os, DecodeOrder);
    assert dc.value == c.clients;
    assert dor.value == c.orders;
  }

  /** The predicate `x => !existingIds.has(x.id)` of the merge loops. */
  function KeyAbsent<T>(ks: set<string>, key: T -> string): T -> bool {
    x => key(x) !in ks
  }

  /** Merge mode on one collection: the id set of `existing` is built once, then
      every imported record whose id is not in it is appended, in import order.
      Existing records are never touched; two imported records that share a new
      id are both appended. */
  function AppendAbsent<T(!new)>(existing: seq<T>, imported: seq<T>, key: T -> string): (r: seq<T>)
    ensures |r| >= |existing| && r[..|existing|] == existing
    ensures forall x :: multiset(r[|existing|..])[x] ==
                          if key(x) in Keys(existing, key) then 0 else multiset(imported)[x]
    ensures SubsequenceOf(r[|existing|..], imported)
  {
    var added := Filter(imported, KeyAbsent(Keys(existing, key), key));
    var r := existing + added;
    assert r[..|existing|] == existing && r[|existing|..] == added;
    FilterIsSubsequence(imported, KeyAbsent(Keys(existing, key), key));
    assert forall x :: multiset(added)[x] ==
                         if key(x) in Keys(existing, key) then 0 else multiset(imported)[x] by {
      forall x { FilterCount(imported, KeyAbsent(Keys(existing, key), key), x); }
    }
    r
  }

  /** One step of a merge loop: the next imported record is appended iff its id is absent. */
  lemma KeyAbsentSnoc<T>(prefix: seq<T>, x: T, ks: set<string>, key: T -> string)
    ensures Filter(prefix + [x], KeyAbsent(ks, key)) ==
            Filter(prefix, KeyAbsent(ks, key)) + (if key(x) !in ks then [x] else [])
  {
    FilterSnoc(prefix, x, KeyAbsent(ks, key));
  }

  /** `AppendAbsent` is the existing records followed by the filtered imported ones. */
  lemma AppendAbsentIsFilter<T(!new)>(existing: seq<T>, imported: seq<T>, key: T -> string)
    ensures AppendAbsent(existing, imported, key) == existing + Filter(imported, KeyAbsent(Keys(existing, key), key))
  {
  }

  /** What the user picked in the import form: no file, a file `JSON.parse`
      rejects, or a parsed value. */
  datatype ImportFile = NoFile | Unparsable | Parsed(data: Value)

  /** The alert the import handler ends with (or the silent return of a declined replace). */
  datatype ImportStatus = NoFileSelected | ReadError | InvalidFormat | Unrepresentable | Declined | Imported

  datatype ImportResult = ImportResult(status: ImportStatus, collections: Collections)

  /** The import handler from the point where the file has been read, applied to
      the collections it has just reloaded. `mode` is the checked `importMode`
      radio value: exactly `"replace"` replaces, anything else merges. */
  function ImportInto(current: Collections, file: ImportFile, mode: string, confirmed: bool): (r: ImportResult)
    ensures r.status != Imported ==> r.collections == current
    ensures r.status == Imported <==>
              && file.Parsed? && ValidateImportData(file.data) == Accepted
              && DecodeSnapshot(file.data).Some? && (mode == "replace" ==> confirmed)
    ensures r.status == InvalidFormat <==> file.Parsed? && ValidateImportData(file.data) == Rejected
    ensures r.status == ReadError <==>
              file.Unparsable? || (file.Parsed? && ValidateImportData(file.data) == Threw)
    ensures r.status == Imported && mode == "replace" ==> r.collections == DecodeSnapshot(file.data).value
    ensures r.status == Imported && mode != "replace" ==>
              var imported := DecodeSnapshot(file.data).value;
              && r.collections.clients == AppendAbsent(current.clients, imported.clients, ClientKey)
              && r.collections.orders == AppendAbsent(current.orders, imported.orders, OrderKey)
  {
    match file
    case NoFile => ImportResult(NoFileSelected, current)
    case Unparsable => ImportResult(ReadError, current)
    case Parsed(data) =>
      match ValidateImportData(data)
      case Rejected => ImportResult(InvalidFormat, current)
      case Threw => ImportResult(ReadError, current)
      case Accepted =>
        match DecodeSnapshot(data)
        case None => ImportResult(Unrepresentable, current)
        case Some(imported) =>
          if mode == "replace" then
            if confirmed then ImportResult(Imported, imported) else ImportResult(Declined, current)
          else
            ImportResult(Imported, Collections(AppendAbsent(current.clients, imported.clients, ClientKey),
                                               AppendAbsent(current.orders, imported.orders, OrderKey)))
  }

  /** Merging the same records twice adds nothing the second time. */
  lemma {:induction false} AppendAbsentIdempotent<T(!new)>(existing: seq<T>, imported: seq<T>, key: T -> string)
    ensures AppendAbsent(AppendAbsent(existing, imported, key), imported, key) == AppendAbsent(existing, imported, key)
  {
    var once := AppendAbsent(existing, imported, key);
    var ks := Keys(once, key);
    forall i | 0 <= i < |imported| ensures !KeyAbsent(ks, key)(imported[i]) {
      var x := imported[i];
      if key(x) !in Keys(existing, key) {
        assert multiset(once[|existing|..])[x] > 0;
        assert x in once[|existing|..];
        var j :| 0 <= j < |once| - |existing| && once[|existing|..][j] == x;
        assert once[|existing| + j] == x;
      } else {
        var j :| 0 <= j < |existing| && key(existing[j]) == key(x);
        assert once[j] == existing[j];
      }
    }
    FilterDropsAll(imported, KeyAbsent(ks, key));
    assert once + [] == once;
  }

  /** Merging a collection with a copy of itself (importing one's own export) changes nothing. */
  lemma AppendAbsentSelf<T(!new)>(existing: seq<T>, key: T -> string)
    ensures AppendAbsent(existing, existing, key) == existing
  {
    var ks := Keys(existing, key);
    FilterDropsAll(existing, KeyAbsent(ks, key));
    assert existing + [] == existing;
  }

  /** Merge keeps ids unique when both sides have unique ids. */
  lemma AppendAbsentKeepsUnique<T(!new)>(existing: seq<T>, imported: seq<T>, key: T -> string)
    requires UniqueKeys(existing, key) && UniqueKeys(imported, key)
    ensures UniqueKeys(AppendAbsent(existing, imported, key), key)
  {
    var ks := Keys(existing, key);
    var added := Filter(imported, KeyAbsent(ks, key));
    FilterKeepsUnique(imported, KeyAbsent(ks, key), key);
    var r := existing + added;
    forall i, j | 0 <= i < j < |r| ensures key(r[i]) != key(r[j]) {
      if i < |existing| && j >= |existing| {
        assert r[j] in added;
        assert key(r[i]) in ks;
      } else if i >= |existing| {
        assert r[i] == added[i - |existing|] && r[j] == added[j - |existing|];
      }
    }
  }

  /** Because the id set is built before appending, an imported file holding two
      records under one new id puts both into the collection. */
  lemma AppendAbsentKeepsImportedDuplicates(a: Client, b: Client)
    requires a.id == b.id
    ensures AppendAbsent([], [a, b], ClientKey) == [a, b]
    ensures !UniqueKeys(AppendAbsent([], [a, b], ClientKey), ClientKey)
  {
    var ks := Keys([], ClientKey);
    assert ks == {};
    FilterKeepsAll([a, b], KeyAbsent(ks, ClientKey));
  }

  /** Exporting and then importing in replace mode (confirmed) reproduces the collections. */
  lemma ExportThenReplace(current: Collections, other: Collections, exportDate: string)
    ensures ImportInto(other, Parsed(Export(current, exportDate)), "replace", true)
              == ImportResult(Imported, current)
  {
    ExportIsValid(current, exportDate);
    ExportDecodes(current, exportDate);
  }

  /** Exporting and then merging the export back changes nothing. */
  lemma ExportThenMerge(current: Collections, exportDate: string, mode: string)
    requires mode != "replace"
    ensures ImportInto(current, Parsed(Export(current, exportDate)), mode, true)
              == ImportResult(Imported, current)
  {
    ExportIsValid(current, exportDate);
    ExportDecodes(current, exportDate);
    AppendAbsentSelf(current.clients, ClientKey);
    AppendAbsentSelf(current.orders, OrderKey);
  }

  /** The import does not re-check references: replacing with a snapshot whose
      order names no client succeeds and leaves that order dangling. */
  lemma ImportDoesNotCheckReferences(o: Order, exportDate: string)
    ensures var r := ImportInto(Collections([], []), Parsed(Export(Collections([], [o]), exportDate)), "replace", true);
            r.status == Imported && !ReferencesResolve(r.collections.clients, r.collections.orders)
  {
    ExportThenReplace(Collections([], [o]), Collections([], []), exportDate);
  }
}
