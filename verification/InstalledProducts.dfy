/** The installed products of every opportunity (installed-product.service.ts). */
module InstalledProducts {
  import opened Common

  datatype Row = Row(
    opportunityId: string,
    productId: string,
    quantity: int,
    arrayIndex: Option<nat>,
    createdBy: string,
    updatedBy: string)

  datatype Item = Item(productId: string, quantity: int)

  /** The product lists of a system design; a panel array is its model and its number of panels. */
  datatype Design = Design(
    ancillaryEquipments: seq<Item>,
    inverters: seq<Item>,
    storage: seq<Item>,
    panelArray: seq<Item>)

  datatype ProductError = InvalidArrayLength

  // ---------------------------------------------------------------- specification

  function RowFor(opp: string, user: string, item: Item, arrayIndex: Option<nat>): Row {
    Row(opp, item.productId, item.quantity, arrayIndex, user, user)
  }

  function ItemRows(opp: string, user: string, items: seq<Item>): seq<Row> {
    seq(|items|, k requires 0 <= k < |items| => RowFor(opp, user, items[k], None))
  }

  function UnitRows(opp: string, user: string, item: Item, n: nat): seq<Row> {
    seq(n, _ => RowFor(opp, user, item.(quantity := 1), None))
  }

  /** One row of quantity 1 for every battery. */
  function StorageRows(opp: string, user: string, items: seq<Item>): seq<Row> {
    if items == [] then []
    else StorageRows(opp, user, Init(items))
         + UnitRows(opp, user, Last(items), if Last(items).quantity < 0 then 0 else Last(items).quantity)
  }

  function PanelRows(opp: string, user: string, items: seq<Item>): seq<Row> {
    seq(|items|, k requires 0 <= k < |items| => RowFor(opp, user, items[k], Some(k)))
  }

  function Flatten(opp: string, user: string, d: Design): seq<Row> {
    ItemRows(opp, user, d.ancillaryEquipments) + ItemRows(opp, user, d.inverters)
    + StorageRows(opp, user, d.storage) + PanelRows(opp, user, d.panelArray)
  }

  /** `[...Array(quantity)]` throws on a negative length. */
  predicate Flattens(d: Design) {
    forall k :: 0 <= k < |d.storage| ==> d.storage[k].quantity >= 0
  }

  function RowsOf(rows: seq<Row>, opp: string): seq<Row> {
    if rows == [] then []
    else RowsOf(Init(rows), opp) + if Last(rows).opportunityId == opp then [Last(rows)] else []
  }

  function Without(rows: seq<Row>, opp: string): seq<Row> {
    if rows == [] then []
    else Without(Init(rows), opp) + if Last(rows).opportunityId != opp then [Last(rows)] else []
  }

  function Replace(rows: seq<Row>, opp: string, user: string, d: Design): seq<Row> {
    if Flattens(d) then Without(rows, opp) + Flatten(opp, user, d) else rows
  }

  // ---------------------------------------------------------------- the service

  class Store {
    var rows: seq<Row>

    constructor ()
      ensures rows == []
    {
      rows := [];
    }

    method RemoveManyByOppId(oppId: string)
      modifies this
      ensures rows == Without(old(rows), oppId)
    {
      var kept: seq<Row> := [];
      for k := 0 to |rows|
        invariant rows == old(rows)
        invariant kept == Without(rows[..k], oppId)
      {
        assert Init(rows[..k + 1]) == rows[..k];
        if rows[k].opportunityId != oppId {
          kept := kept + [rows[k]];
        }
      }
      assert rows[..|rows|] == rows;
      rows := kept;
    }

    method UpdateLatestProductData(oppId: string, userId: string, payload: Design)
      returns (r: Result<(), ProductError>)
      modifies this
      ensures r.Ok? <==> Flattens(payload)
      ensures rows == Replace(old(rows), oppId, userId, payload)
    {
      var installedProducts: seq<Row> := [];
      for k := 0 to |payload.ancillaryEquipments|
        invariant rows == old(rows)
        invariant installedProducts == ItemRows(oppId, userId, payload.ancillaryEquipments[..k])
      {
        installedProducts := installedProducts + [RowFor(oppId, userId, payload.ancillaryEquipments[k], None)];
      }
      ghost var ancillary := ItemRows(oppId, userId, payload.ancillaryEquipments);
      assert payload.ancillaryEquipments[..|payload.ancillaryEquipments|] == payload.ancillaryEquipments;
      for k := 0 to |payload.inverters|
        invariant rows == old(rows)
        invariant installedProducts == ancillary + ItemRows(oppId, userId, payload.inverters[..k])
      {
        installedProducts := installedProducts + [RowFor(oppId, userId, payload.inverters[k], None)];
      }
      ghost var items := ancillary + ItemRows(oppId, userId, payload.inverters);
      assert payload.inverters[..|payload.inverters|] == payload.inverters;
      for k := 0 to |payload.storage|
        invariant rows == old(rows)
        invariant forall j :: 0 <= j < k ==> payload.storage[j].quantity >= 0
        invariant installedProducts == items + StorageRows(oppId, userId, payload.storage[..k])
      {
        var e := payload.storage[k];
        assert Init(payload.storage[..k + 1]) == payload.storage[..k];
        if e.quantity < 0 {
          return Err(InvalidArrayLength);
        }
        ghost var before := installedProducts;
        for n := 0 to e.quantity
          invariant rows == old(rows)
          invariant installedProducts == before + UnitRows(oppId, userId, e, n)
        {
          installedProducts := installedProducts + [RowFor(oppId, userId, e.(quantity := 1), None)];
        }
      }
      ghost var upToStorage := items + StorageRows(oppId, userId, payload.storage);
      assert payload.storage[..|payload.storage|] == payload.storage;
      for idx := 0 to |payload.panelArray|
        invariant rows == old(rows)
        invariant installedProducts == upToStorage + PanelRows(oppId, userId, payload.panelArray[..idx])
      {
        installedProducts := installedProducts + [RowFor(oppId, userId, payload.panelArray[idx], Some(idx))];
      }
      assert payload.panelArray[..|payload.panelArray|] == payload.panelArray;
      RemoveManyByOppId(oppId);
      rows := rows + installedProducts;
      r := Ok(());
    }
  }

  // ---------------------------------------------------------------- runs over many opportunities

  datatype Update = Update(opportunityId: string, userId: string, design: Design)

  function Run(rows: seq<Row>, updates: seq<Update>): seq<Row> {
    if updates == [] then rows
    else Replace(Run(rows, Init(updates)), Last(updates).opportunityId, Last(updates).userId, Last(updates).design)
  }

  /** Position of the last update of the opportunity that did not throw, or -1. */
  function LastUpdate(updates: seq<Update>, opp: string): (j: int)
    ensures -1 <= j < |updates|
    ensures j >= 0 ==> updates[j].opportunityId == opp && Flattens(updates[j].design)
    ensures forall k :: j < k < |updates| && updates[k].opportunityId == opp ==> !Flattens(updates[k].design)
  {
    if updates == [] then -1
    else if Last(updates).opportunityId == opp && Flattens(Last(updates).design) then |updates| - 1
    else LastUpdate(Init(updates), opp)
  }

  lemma {:induction false} RowsOfAppend(a: seq<Row>, b: seq<Row>, opp: string)
    ensures RowsOf(a + b, opp) == RowsOf(a, opp) + RowsOf(b, opp)
    decreases |b|
  {
    if b == [] {
      assert a + b == a;
    } else {
      assert Init(a + b) == a + Init(b);
      RowsOfAppend(a, Init(b), opp);
    }
  }

  lemma {:induction false} RowsOfWithout(rows: seq<Row>, opp: string, removed: string)
    ensures RowsOf(Without(rows, removed), opp) == if opp == removed then [] else RowsOf(rows, opp)
  {
    if rows != [] {
      RowsOfWithout(Init(rows), opp, removed);
      var last := if Last(rows).opportunityId != removed then [Last(rows)] else [];
      RowsOfAppend(Without(Init(rows), removed), last, opp);
      assert last != [] ==> Init(last) == [];
    }
  }

  lemma {:induction false} RowsOfUniform(rows: seq<Row>, owner: string, opp: string)
    requires forall k :: 0 <= k < |rows| ==> rows[k].opportunityId == owner
    ensures RowsOf(rows, opp) == if opp == owner then rows else []
  {
    if rows != [] {
      RowsOfUniform(Init(rows), owner, opp);
      assert Last(rows).opportunityId == owner;
      assert rows == Init(rows) + [Last(rows)];
    }
  }

  lemma {:induction false} StorageRowsFacts(opp: string, user: string, items: seq<Item>)
    ensures forall k :: 0 <= k < |StorageRows(opp, user, items)| ==>
              var r := StorageRows(opp, user, items)[k];
              r.opportunityId == opp && r.quantity == 1 && r.arrayIndex == None
  {
    if items != [] {
      StorageRowsFacts(opp, user, Init(items));
    }
  }

  lemma FlattenIsOwned(opp: string, user: string, d: Design)
    ensures forall k :: 0 <= k < |Flatten(opp, user, d)| ==> Flatten(opp, user, d)[k].opportunityId == opp
  {
    StorageRowsFacts(opp, user, d.storage);
  }

  /** After any updates, an opportunity has the rows of its last payload, untouched by all other opportunities. */
  lemma {:induction false} RowsAreLastPayload(rows: seq<Row>, updates: seq<Update>, opp: string)
    ensures var j := LastUpdate(updates, opp);
            RowsOf(Run(rows, updates), opp)
            == if j < 0 then RowsOf(rows, opp) else Flatten(opp, updates[j].userId, updates[j].design)
  {
    if updates != [] {
      RowsAreLastPayload(rows, Init(updates), opp);
      RowsOfReplace(Run(rows, Init(updates)), Last(updates), opp);
    }
  }

  lemma RowsOfReplace(rows: seq<Row>, u: Update, opp: string)
    ensures RowsOf(Replace(rows, u.opportunityId, u.userId, u.design), opp)
         == if u.opportunityId == opp && Flattens(u.design) then Flatten(opp, u.userId, u.design) else RowsOf(rows, opp)
  {
    if Flattens(u.design) {
      var added := Flatten(u.opportunityId, u.userId, u.design);
      assert Replace(rows, u.opportunityId, u.userId, u.design) == Without(rows, u.opportunityId) + added;
      RowsOfAppend(Without(rows, u.opportunityId), added, opp);
      RowsOfWithout(rows, opp, u.opportunityId);
      FlattenIsOwned(u.opportunityId, u.userId, u.design);
      RowsOfUniform(added, u.opportunityId, opp);
    }
  }

  // ---------------------------------------------------------------- what flattening preserves

  function RowQuantity(rows: seq<Row>, product: string): int {
    if rows == [] then 0
    else RowQuantity(Init(rows), product) + if Last(rows).productId == product then Last(rows).quantity else 0
  }

  function ItemQuantity(items: seq<Item>, product: string): int {
    if items == [] then 0
    else ItemQuantity(Init(items), product) + if Last(items).productId == product then Last(items).quantity else 0
  }

  lemma {:induction false} RowQuantityAppend(a: seq<Row>, b: seq<Row>, product: string)
    ensures RowQuantity(a + b, product) == RowQuantity(a, product) + RowQuantity(b, product)
    decreases |b|
  {
    if b == [] {
      assert a + b == a;
    } else {
      assert Init(a + b) == a + Init(b);
      RowQuantityAppend(a, Init(b), product);
    }
  }

  lemma {:induction false} RowsCarryItems(rows: seq<Row>, items: seq<Item>, product: string)
    requires |rows| == |items|
    requires forall k :: 0 <= k < |items| ==>
               rows[k].productId == items[k].productId && rows[k].quantity == items[k].quantity
    ensures RowQuantity(rows, product) == ItemQuantity(items, product)
  {
    if items != [] {
      RowsCarryItems(Init(rows), Init(items), product);
    }
  }

  lemma {:induction false} UnitsAddUp(opp: string, user: string, item: Item, n: nat, product: string)
    ensures RowQuantity(UnitRows(opp, user, item, n), product) == if item.productId == product then n else 0
  {
    if n > 0 {
      UnitsAddUp(opp, user, item, n - 1, product);
      assert Init(UnitRows(opp, user, item, n)) == UnitRows(opp, user, item, n - 1);
    }
  }

  lemma {:induction false} StorageAddsUp(opp: string, user: string, items: seq<Item>, product: string)
    requires forall k :: 0 <= k < |items| ==> items[k].quantity >= 0
    ensures RowQuantity(StorageRows(opp, user, items), product) == ItemQuantity(items, product)
  {
    if items != [] {
      var n := Last(items).quantity;
      StorageAddsUp(opp, user, Init(items), product);
      UnitsAddUp(opp, user, Last(items), n, product);
      RowQuantityAppend(StorageRows(opp, user, Init(items)), UnitRows(opp, user, Last(items), n), product);
    }
  }

  /** Flattening keeps the total quantity of every product. */
  lemma FlatteningPreservesQuantities(opp: string, user: string, d: Design, product: string)
    requires Flattens(d)
    ensures RowQuantity(Flatten(opp, user, d), product)
         == ItemQuantity(d.ancillaryEquipments, product) + ItemQuantity(d.inverters, product)
            + ItemQuantity(d.storage, product) + ItemQuantity(d.panelArray, product)
  {
    var a, i := ItemRows(opp, user, d.ancillaryEquipments), ItemRows(opp, user, d.inverters);
    var s, p := StorageRows(opp, user, d.storage), PanelRows(opp, user, d.panelArray);
    RowsCarryItems(a, d.ancillaryEquipments, product);
    RowsCarryItems(i, d.inverters, product);
    StorageAddsUp(opp, user, d.storage, product);
    RowsCarryItems(p, d.panelArray, product);
    RowQuantityAppend(a, i, product);
    RowQuantityAppend(a + i, s, product);
    RowQuantityAppend(a + i + s, p, product);
  }

  /** The rows with an array index are the panel arrays, numbered from 0 in order and standing last. */
  lemma PanelRowsAreNumbered(opp: string, user: string, d: Design, k: nat)
    requires k < |Flatten(opp, user, d)|
    ensures var rows := Flatten(opp, user, d);
            var n := |rows| - |d.panelArray|;
            && n >= 0
            && (k < n ==> rows[k].arrayIndex == None)
            && (k >= n ==> rows[k] == RowFor(opp, user, d.panelArray[k - n], Some(k - n)))
  {
    StorageRowsFacts(opp, user, d.storage);
  }

  /** Row by row: ancillary equipment and inverters as listed, every row by and for whom it is. */
  lemma RowsAreAsListed(opp: string, user: string, d: Design, k: nat)
    requires k < |Flatten(opp, user, d)|
    ensures var rows, a, i := Flatten(opp, user, d), |d.ancillaryEquipments|, |d.inverters|;
            && rows[k].opportunityId == opp && rows[k].createdBy == user && rows[k].updatedBy == user
            && (k < a ==> rows[k].productId == d.ancillaryEquipments[k].productId
                          && rows[k].quantity == d.ancillaryEquipments[k].quantity && rows[k].arrayIndex == None)
            && (a <= k < a + i ==> rows[k].productId == d.inverters[k - a].productId
                                   && rows[k].quantity == d.inverters[k - a].quantity && rows[k].arrayIndex == None)
  {
    StorageRowsAreOwned(opp, user, d.storage);
  }

  lemma {:induction false} StorageRowsAreOwned(opp: string, user: string, items: seq<Item>)
    ensures forall k :: 0 <= k < |StorageRows(opp, user, items)| ==>
              var r := StorageRows(opp, user, items)[k];
              r.opportunityId == opp && r.createdBy == user && r.updatedBy == user
  {
    if items != [] {
      StorageRowsAreOwned(opp, user, Init(items));
    }
  }
}
