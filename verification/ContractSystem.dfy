/**
  Contracts, payments, opportunity figures and installed products together: what saving and voiding contracts
  does to the figures of an opportunity (contract.service.ts, void-contracts.interceptor.ts).
 */
module ContractSystem {
  import opened Common
  import opened Contracts
  import opened CustomerPayments
  import opened PaymentLedger
  import Products = InstalledProducts

  datatype Attributes = Attributes(pvKw: real, batteryKw: real, batteryKwh: real)

  const NO_ATTRIBUTES := Attributes(0.0, 0.0, 0.0)

  datatype System = System(
    ledger: Ledger,
    /** Opportunity and project amounts; an update of a missing one changes nothing. */
    amounts: map<string, real>,
    projectAmounts: map<string, real>,
    /** System attributes are created when missing. */
    attributes: map<string, Attributes>,
    rows: seq<Products.Row>)

  datatype SystemError =
    | QuoteMissing
    | NotQualified
    | PaymentNotComputed
    | UtilityMissing
    | VoidedAlready
    | PrimaryMissing
    | RowsNotComputed

  // ---------------------------------------------------------------- saving

  /** What a save learns from other services. */
  datatype SaveContext = SaveContext(
    quote: Option<Quote>,
    qualifiedForGridServices: bool,
    /** The figures `syncWithWav` computes, `None` when it finds no quote or no utility. */
    wav: Option<Attributes>,
    now: int,
    paymentId: string)

  function Stored(c: StoredContract): StoredContract {
    c.(contractStatus := Initiated)
  }

  function SetAmount(amounts: map<string, real>, opp: string, amount: real): map<string, real> {
    if opp in amounts then amounts[opp := amount] else amounts
  }

  /** `syncWithWav` for a primary contract whose payment is `d`. */
  function SyncWithWav(s: System, opp: string, d: Document, wav: Attributes): System {
    s.(amounts := SetAmount(s.amounts, opp, Number(d, Amount)), attributes := s.attributes[opp := wav])
  }

  /** `saveContract` in add mode. What is stored before a failure stays stored. */
  function SaveContract(s: System, selection: Selection, c: StoredContract, ctx: SaveContext)
    : (Result<(), SystemError>, System)
  {
    if ctx.quote.None? then (Err(QuoteMissing), s)
    else if c.contractType == GridServicesPacket && !ctx.qualifiedForGridServices then (Err(NotQualified), s)
    else
      var saved := s.(ledger := Create(s.ledger, selection, Stored(c), ctx.quote.value, ctx.now, ctx.paymentId));
      if |saved.ledger.payments| == |s.ledger.payments| then (Err(PaymentNotComputed), saved)
      else if c.contractType != PrimaryContract then (Ok(()), saved)
      else if ctx.wav.None? then (Err(UtilityMissing), saved)
      else (Ok(()), SyncWithWav(saved, c.opportunityId, Last(saved.ledger.payments), ctx.wav.value))
  }

  /** `saveChangeOrder` in add mode. */
  function SaveChangeOrder(s: System, selection: Selection, c: StoredContract, ctx: SaveContext): System {
    if ctx.quote.None? then s
    else s.(ledger := Create(s.ledger, selection, Stored(c), ctx.quote.value, ctx.now, ctx.paymentId))
  }

  // ---------------------------------------------------------------- voiding

  predicate NoneCompleted(contracts: seq<StoredContract>, opp: string) {
    forall k :: 0 <= k < |contracts| && contracts[k].opportunityId == opp
                && contracts[k].contractType != GridServicesPacket
      ==> contracts[k].contractStatus != Completed
  }

  function ZeroAmounts(amounts: map<string, real>, opps: set<string>): map<string, real> {
    map o | o in amounts :: if o in opps then 0.0 else amounts[o]
  }

  function ZeroAttributes(attributes: map<string, Attributes>, opps: set<string>): map<string, Attributes> {
    map o | o in attributes.Keys + opps :: if o in opps then NO_ATTRIBUTES else attributes[o]
  }

  function Zero(s: System, opps: set<string>): System {
    s.(amounts := ZeroAmounts(s.amounts, opps),
       projectAmounts := ZeroAmounts(s.projectAmounts, opps),
       attributes := ZeroAttributes(s.attributes, opps))
  }

  function WithVoided(contracts: seq<StoredContract>, voided: set<nat>): seq<StoredContract> {
    seq(|contracts|, k requires 0 <= k < |contracts| =>
      if k in voided then contracts[k].(contractStatus := Voided) else contracts[k])
  }

  /** One `voidContract`, without the installed products: the status, then the figures. */
  function VoidOne(s: System, k: nat): System
    requires k < |s.ledger.contracts|
  {
    var opp := s.ledger.contracts[k].opportunityId;
    var after := s.(ledger := s.ledger.(contracts := WithVoided(s.ledger.contracts, {k})));
    if NoneCompleted(after.ledger.contracts, opp) then Zero(after, {opp}) else after
  }

  /** Opportunities that lose their last completed contract when these contracts are voided, or had none. */
  function Emptied(s: System, voided: set<nat>): set<string> {
    set k | k in voided && k < |s.ledger.contracts|
            && NoneCompleted(WithVoided(s.ledger.contracts, voided), s.ledger.contracts[k].opportunityId)
          :: s.ledger.contracts[k].opportunityId
  }

  /** Many contracts voided, said at once. */
  function VoidAll(s: System, voided: set<nat>): System {
    Zero(s.(ledger := s.ledger.(contracts := WithVoided(s.ledger.contracts, voided))), Emptied(s, voided))
  }

  function IndexOfContract(contracts: seq<StoredContract>, id: string): (r: int)
    ensures -1 <= r < |contracts|
    ensures r >= 0 ==> contracts[r].id == id
  {
    if contracts == [] then -1
    else if Last(contracts).id == id then |contracts| - 1
    else IndexOfContract(Init(contracts), id)
  }

  /** Who voids, and the system designs by contract id. */
  datatype VoidContext = VoidContext(
    isUpdateInstalledProduct: bool,
    userId: Option<string>,
    designs: map<string, Products.Design>)

  /** The installed products after voiding a contract: those of the primary contract, for a change order. */
  function RowsAfterVoid(s: System, c: StoredContract, ctx: VoidContext): Result<seq<Products.Row>, SystemError> {
    if !ctx.isUpdateInstalledProduct || ctx.userId.None? || c.contractType != ChangeOrder then Ok(s.rows)
    else if IndexOfContract(s.ledger.contracts, c.primaryContractId) < 0 then Err(PrimaryMissing)
    else if c.primaryContractId !in ctx.designs then Ok(s.rows)
    else if !Products.Flattens(ctx.designs[c.primaryContractId]) then Err(RowsNotComputed)
    else Ok(Products.Replace(s.rows, c.opportunityId, ctx.userId.value, ctx.designs[c.primaryContractId]))
  }

  /** `voidContract`: figures are zeroed even when finding the products then throws. */
  function VoidContract(s: System, k: nat, ctx: VoidContext): (Result<(), SystemError>, System)
    requires k < |s.ledger.contracts|
  {
    var after := VoidOne(s, k);
    match RowsAfterVoid(after, s.ledger.contracts[k], ctx)
    case Ok(rows) => (Ok(()), after.(rows := rows))
    case Err(error) => (Err(error), after)
  }

  /** `getCOContractsByPrimaryContractId`. */
  function Related(contracts: seq<StoredContract>, primaryId: string): set<nat> {
    set k: nat | k < |contracts| && contracts[k].primaryContractId == primaryId
                 && contracts[k].contractType != GridServicesPacket
  }

  /** The void endpoint: the contract itself, then every contract that names it as primary. */
  function VoidRoute(s: System, k: nat, ctx: VoidContext): (Result<(), SystemError>, System)
    requires k < |s.ledger.contracts|
  {
    var c := s.ledger.contracts[k];
    if c.contractStatus == Voided then (Err(VoidedAlready), s)
    else
      var (reply, after) := VoidContract(s, k, ctx);
      if reply.Err? then (reply, after)
      else (reply, VoidAll(s, {k} + Related(s.ledger.contracts, c.id)).(rows := after.rows))
  }

  // ---------------------------------------------------------------- the service

  class Service {
    var contracts: seq<StoredContract>
    var payments: seq<Document>
    var amounts: map<string, real>
    var projectAmounts: map<string, real>
    var attributes: map<string, Attributes>
    const products: Products.Store

    function View(): System
      reads this, products
    {
      System(Ledger(contracts, payments), amounts, projectAmounts, attributes, products.rows)
    }

    constructor (products: Products.Store, amounts: map<string, real>, projectAmounts: map<string, real>,
                 attributes: map<string, Attributes>)
      ensures this.products == products
      ensures View() == System(Ledger([], []), amounts, projectAmounts, attributes, products.rows)
    {
      this.products := products;
      this.contracts, this.payments := [], [];
      this.amounts, this.projectAmounts, this.attributes := amounts, projectAmounts, attributes;
    }

    method SaveContractAdd(selection: Selection, c: StoredContract, ctx: SaveContext)
      returns (reply: Result<(), SystemError>)
      modifies this
      ensures (reply, View()) == SaveContract(old(View()), selection, c, ctx)
    {
      if ctx.quote.None? {
        return Err(QuoteMissing);
      }
      if c.contractType == GridServicesPacket && !ctx.qualifiedForGridServices {
        return Err(NotQualified);
      }
      var paid := StoreAndPay(selection, Stored(c), ctx.quote.value, ctx.now, ctx.paymentId);
      if !paid {
        return Err(PaymentNotComputed);
      }
      if c.contractType == PrimaryContract {
        if ctx.wav.None? {
          return Err(UtilityMissing);
        }
        UpdateWav(c.opportunityId, Last(payments), ctx.wav.value);
      }
      reply := Ok(());
    }

    /** The contract is saved, then its customer payment created from the quote and the payment it copies. */
    method StoreAndPay(selection: Selection, c: StoredContract, quote: Quote, now: int, paymentId: string)
      returns (paid: bool)
      modifies this`contracts, this`payments
      ensures View().ledger == Create(old(View().ledger), selection, c, quote, now, paymentId)
      ensures paid <==> |payments| != |old(payments)|
    {
      contracts := contracts + [c];
      var position := LatestPayment(Ledger(contracts, payments), c.id, c.opportunityId, selection);
      var latest := PaymentAt(Ledger(contracts, payments), position);
      var payment := CalculateContractCustomPayment(latest, c.id, c.opportunityId, quote, now);
      if payment.Err? {
        return false;
      }
      payments := payments + [payment.value[Id := Text(paymentId)]];
      paid := true;
    }

    /** The writes of `syncWithWav`. */
    method UpdateWav(opp: string, payment: Document, wav: Attributes)
      modifies this`amounts, this`attributes
      ensures View() == SyncWithWav(old(View()), opp, payment, wav)
    {
      if opp in amounts {
        amounts := amounts[opp := Number(payment, Amount)];
      }
      attributes := attributes[opp := wav];
    }

    method ZeroFigures(opp: string)
      modifies this`amounts, this`projectAmounts, this`attributes
      ensures View() == Zero(old(View()), {opp})
    {
      if opp in amounts {
        amounts := amounts[opp := 0.0];
      }
      if opp in projectAmounts {
        projectAmounts := projectAmounts[opp := 0.0];
      }
      attributes := attributes[opp := NO_ATTRIBUTES];
      assert amounts == ZeroAmounts(old(amounts), {opp});
      assert projectAmounts == ZeroAmounts(old(projectAmounts), {opp});
      assert attributes == ZeroAttributes(old(attributes), {opp});
    }

    /** `voidContract` up to the installed products. */
    method VoidRecord(k: nat)
      requires k < |contracts|
      modifies this
      ensures View() == VoidOne(old(View()), k)
    {
      var c := contracts[k];
      contracts := contracts[k := c.(contractStatus := Voided)];
      assert contracts == WithVoided(old(contracts), {k});
      if NoneCompleted(contracts, c.opportunityId) {
        ZeroFigures(c.opportunityId);
      }
    }

    method VoidContractAt(k: nat, ctx: VoidContext) returns (reply: Result<(), SystemError>)
      requires k < |contracts|
      modifies this, products
      ensures (reply, View()) == VoidContract(old(View()), k, ctx)
    {
      var c := contracts[k];
      VoidRecord(k);
      if ctx.isUpdateInstalledProduct && ctx.userId.Some? && c.contractType == ChangeOrder {
        var primary := IndexOfContract(contracts, c.primaryContractId);
        if primary == -1 {
          return Err(PrimaryMissing);
        }
        if c.primaryContractId in ctx.designs {
          var updated := products.UpdateLatestProductData(
            c.opportunityId, ctx.userId.value, ctx.designs[c.primaryContractId]);
          if updated.Err? {
            return Err(RowsNotComputed);
          }
        }
      }
      reply := Ok(());
    }

    /** The related contracts are voided in no particular order, as `Promise.all` leaves it open. */
    method VoidEndpoint(k: nat, ctx: VoidContext) returns (reply: Result<(), SystemError>)
      requires k < |contracts|
      modifies this, products
      ensures (reply, View()) == VoidRoute(old(View()), k, ctx)
    {
      var id := contracts[k].id;
      if contracts[k].contractStatus == Voided {
        return Err(VoidedAlready);
      }
      reply := VoidContractAt(k, ctx);
      if reply.Err? {
        return;
      }
      ghost var rows := products.rows;
      assert Related(contracts, id) == Related(old(contracts), id);
      ghost var order := VoidEach(Related(contracts, id));
      CascadeAfterFirst(old(View()), k, order, rows);
    }

    /** A related contract is voided without touching the installed products. */
    method VoidRelated(k: nat)
      requires k < |contracts|
      modifies this, products
      ensures View() == VoidOne(old(View()), k)
    {
      var _ := VoidContractAt(k, VoidContext(false, None, map[]));
    }

    /** Voids these contracts one by one in an order nobody fixed. */
    method VoidEach(contractsToVoid: set<nat>) returns (ghost order: seq<nat>)
      requires forall r :: r in contractsToVoid ==> r < |contracts|
      modifies this, products
      ensures forall n :: 0 <= n < |order| ==> order[n] < |old(contracts)|
      ensures Elements(order) == contractsToVoid
      ensures View() == VoidInOrder(old(View()), order)
    {
      ghost var first := View();
      order := [];
      var todo := contractsToVoid;
      while todo != {}
        invariant todo <= contractsToVoid
        invariant forall n :: 0 <= n < |order| ==> order[n] < |first.ledger.contracts|
        invariant Elements(order) + todo == contractsToVoid
        invariant View() == VoidInOrder(first, order)
        decreases |todo|
      {
        var r :| r in todo;
        assert |View().ledger.contracts| == |first.ledger.contracts|;
        VoidRelated(r);
        InitLast(order, r);
        order := order + [r];
        todo := todo - {r};
      }
    }
  }

  // ---------------------------------------------------------------- the cascade does not depend on its order

  lemma NothingVoided(s: System)
    ensures VoidAll(s, {}) == s
  {
    assert WithVoided(s.ledger.contracts, {}) == s.ledger.contracts;
    assert Emptied(s, {}) == {};
    assert ZeroAmounts(s.amounts, {}) == s.amounts && ZeroAmounts(s.projectAmounts, {}) == s.projectAmounts;
    assert ZeroAttributes(s.attributes, {}) == s.attributes;
  }

  /** Voiding one contract after others is voiding them all. */
  lemma VoidOneMore(s: System, voided: set<nat>, k: nat)
    requires k < |s.ledger.contracts|
    ensures VoidOne(VoidAll(s, voided), k) == VoidAll(s, voided + {k})
  {
    var after := WithVoided(s.ledger.contracts, voided + {k});
    assert WithVoided(WithVoided(s.ledger.contracts, voided), {k}) == after;
    EmptiedOneMore(s, voided, k);
    var base := s.(ledger := s.ledger.(contracts := after));
    var opp := s.ledger.contracts[k].opportunityId;
    if NoneCompleted(after, opp) {
      ZeroTwice(base, Emptied(s, voided), {opp});
    } else {
      assert Emptied(s, voided + {k}) == Emptied(s, voided);
    }
  }

  lemma VoidOneMoreRelated(s: System, voided: set<nat>, k: nat, rows: seq<Products.Row>)
    requires k < |s.ledger.contracts|
    ensures VoidOne(VoidAll(s, voided).(rows := rows), k) == VoidAll(s, voided + {k}).(rows := rows)
  {
    VoidOneMore(s, voided, k);
    VoidOneIgnoresRows(VoidAll(s, voided), k, rows);
  }

  lemma VoidOneIgnoresRows(s: System, k: nat, rows: seq<Products.Row>)
    requires k < |s.ledger.contracts|
    ensures VoidOne(s.(rows := rows), k) == VoidOne(s, k).(rows := rows)
  {
  }

  lemma ZeroTwice(s: System, a: set<string>, b: set<string>)
    ensures Zero(Zero(s, a), b) == Zero(s, a + b)
  {
    assert ZeroAmounts(ZeroAmounts(s.amounts, a), b) == ZeroAmounts(s.amounts, a + b);
    assert ZeroAmounts(ZeroAmounts(s.projectAmounts, a), b) == ZeroAmounts(s.projectAmounts, a + b);
    assert ZeroAttributes(ZeroAttributes(s.attributes, a), b) == ZeroAttributes(s.attributes, a + b);
  }

  lemma NoneCompletedOneMore(contracts: seq<StoredContract>, voided: set<nat>, k: nat, opp: string)
    requires k < |contracts|
    ensures NoneCompleted(WithVoided(contracts, voided), opp) ==>
              NoneCompleted(WithVoided(contracts, voided + {k}), opp)
    ensures opp != contracts[k].opportunityId ==>
              (NoneCompleted(WithVoided(contracts, voided + {k}), opp) ==>
                 NoneCompleted(WithVoided(contracts, voided), opp))
  {
    var before, after := WithVoided(contracts, voided), WithVoided(contracts, voided + {k});
    if NoneCompleted(before, opp) {
      forall j | 0 <= j < |after| && after[j].opportunityId == opp && after[j].contractType != GridServicesPacket
        ensures after[j].contractStatus != Completed
      {
        assert before[j].contractStatus != Completed;
      }
    }
    if NoneCompleted(after, opp) && opp != contracts[k].opportunityId {
      forall j | 0 <= j < |before| && before[j].opportunityId == opp && before[j].contractType != GridServicesPacket
        ensures before[j].contractStatus != Completed
      {
        assert after[j] == before[j];
      }
    }
  }

  lemma EmptiedOneMore(s: System, voided: set<nat>, k: nat)
    requires k < |s.ledger.contracts|
    ensures var opp := s.ledger.contracts[k].opportunityId;
            Emptied(s, voided + {k}) == Emptied(s, voided)
              + if NoneCompleted(WithVoided(s.ledger.contracts, voided + {k}), opp) then {opp} else {}
  {
    var contracts, opp := s.ledger.contracts, s.ledger.contracts[k].opportunityId;
    forall o
      ensures o in Emptied(s, voided + {k})
         <==> o in Emptied(s, voided) || (o == opp && NoneCompleted(WithVoided(contracts, voided + {k}), opp))
    {
      NoneCompletedOneMore(contracts, voided, k, o);
      if o in Emptied(s, voided) {
        var j :| j in voided && j < |contracts| && contracts[j].opportunityId == o;
        assert j in voided + {k};
      }
    }
  }

  function VoidInOrder(s: System, order: seq<nat>): System
    requires forall n :: 0 <= n < |order| ==> order[n] < |s.ledger.contracts|
    ensures |VoidInOrder(s, order).ledger.contracts| == |s.ledger.contracts|
  {
    if order == [] then s else VoidOne(VoidInOrder(s, Init(order)), Last(order))
  }

  function Elements(order: seq<nat>): set<nat> {
    if order == [] then {} else Elements(Init(order)) + {Last(order)}
  }

  /** In whatever order a set of contracts is voided, and however often, the outcome is the same. */
  lemma {:induction false} CascadeIgnoresOrder(s: System, order: seq<nat>)
    requires forall n :: 0 <= n < |order| ==> order[n] < |s.ledger.contracts|
    ensures VoidInOrder(s, order) == VoidAll(s, Elements(order))
  {
    if order == [] {
      NothingVoided(s);
    } else {
      CascadeIgnoresOrder(s, Init(order));
      VoidOneMore(s, Elements(Init(order)), Last(order));
    }
  }

  lemma {:induction false} CascadeAfterFirst(s: System, k: nat, order: seq<nat>, rows: seq<Products.Row>)
    requires k < |s.ledger.contracts|
    requires forall n :: 0 <= n < |order| ==> order[n] < |s.ledger.contracts|
    ensures VoidInOrder(VoidOne(s, k).(rows := rows), order) == VoidAll(s, {k} + Elements(order)).(rows := rows)
  {
    if order == [] {
      NothingVoided(s);
      VoidOneMore(s, {}, k);
      assert {} + {k} == {k} + Elements([]);
    } else {
      CascadeAfterFirst(s, k, Init(order), rows);
      VoidOneMoreRelated(s, {k} + Elements(Init(order)), Last(order), rows);
      assert {k} + Elements(order) == {k} + Elements(Init(order)) + {Last(order)};
    }
  }

  /** Voiding these left the figures of the opportunity at zero. */
  ghost predicate Zeroes(s: System, order: seq<nat>, opp: string)
    requires forall n :: 0 <= n < |order| ==> order[n] < |s.ledger.contracts|
  {
    && (exists n :: 0 <= n < |order| && s.ledger.contracts[order[n]].opportunityId == opp)
    && var after := VoidInOrder(s, order).ledger.contracts;
       forall k :: 0 <= k < |after| && after[k].opportunityId == opp && after[k].contractStatus == Completed
         ==> after[k].contractType == GridServicesPacket
  }

  /**
    After any voids, one after the other, the figures of an opportunity are zeroed exactly when a contract of it
    was voided and no completed contract other than a grid-service packet remains at the end; nothing else
    changes them.
   */
  lemma FiguresAreZeroedExactly(s: System, order: seq<nat>, opp: string)
    requires forall n :: 0 <= n < |order| ==> order[n] < |s.ledger.contracts|
    ensures var after, zeroed := VoidInOrder(s, order), Zeroes(s, order, opp);
            && (opp in after.amounts <==> opp in s.amounts)
            && (opp in s.amounts ==> after.amounts[opp] == if zeroed then 0.0 else s.amounts[opp])
            && (opp in after.projectAmounts <==> opp in s.projectAmounts)
            && (opp in s.projectAmounts ==> after.projectAmounts[opp] == if zeroed then 0.0 else s.projectAmounts[opp])
            && (zeroed ==> opp in after.attributes && after.attributes[opp] == NO_ATTRIBUTES)
            && (!zeroed ==> (opp in after.attributes <==> opp in s.attributes)
                            && (opp in s.attributes ==> after.attributes[opp] == s.attributes[opp]))
  {
    CascadeIgnoresOrder(s, order);
    ElementsAre(order);
    var voided := Elements(order);
    assert opp in Emptied(s, voided) <==>
      (exists k :: k in voided && s.ledger.contracts[k].opportunityId == opp)
      && NoneCompleted(VoidAll(s, voided).ledger.contracts, opp);
  }

  lemma {:induction false} ElementsAre(order: seq<nat>)
    ensures forall k :: k in Elements(order) <==> k in order
  {
    if order != [] {
      ElementsAre(Init(order));
      assert order == Init(order) + [Last(order)];
    }
  }

  /** Voiding a change order, with a user and a known design, leaves the primary contract's products installed. */
  lemma VoidedChangeOrderRestoresProducts(s: System, k: nat, ctx: VoidContext)
    requires k < |s.ledger.contracts|
    requires s.ledger.contracts[k].contractType == ChangeOrder && s.ledger.contracts[k].contractStatus != Voided
    requires ctx.isUpdateInstalledProduct && ctx.userId.Some?
    requires IndexOfContract(VoidOne(s, k).ledger.contracts, s.ledger.contracts[k].primaryContractId) >= 0
    requires s.ledger.contracts[k].primaryContractId in ctx.designs
    requires Products.Flattens(ctx.designs[s.ledger.contracts[k].primaryContractId])
    ensures var c, (reply, after) := s.ledger.contracts[k], VoidRoute(s, k, ctx);
            && reply.Ok?
            && Products.RowsOf(after.rows, c.opportunityId)
               == Products.Flatten(c.opportunityId, ctx.userId.value, ctx.designs[c.primaryContractId])
            && forall o :: o != c.opportunityId ==> Products.RowsOf(after.rows, o) == Products.RowsOf(s.rows, o)
  {
    var c := s.ledger.contracts[k];
    RouteReplacesRows(s, k, ctx);
    forall o
      ensures Products.RowsOf(VoidRoute(s, k, ctx).1.rows, o)
           == if o == c.opportunityId then Products.Flatten(o, ctx.userId.value, ctx.designs[c.primaryContractId])
              else Products.RowsOf(s.rows, o)
    {
      var update := Products.Update(c.opportunityId, ctx.userId.value, ctx.designs[c.primaryContractId]);
      Products.RowsOfReplace(s.rows, update, o);
    }
  }

  lemma RouteReplacesRows(s: System, k: nat, ctx: VoidContext)
    requires k < |s.ledger.contracts|
    requires s.ledger.contracts[k].contractType == ChangeOrder && s.ledger.contracts[k].contractStatus != Voided
    requires ctx.isUpdateInstalledProduct && ctx.userId.Some?
    requires IndexOfContract(VoidOne(s, k).ledger.contracts, s.ledger.contracts[k].primaryContractId) >= 0
    requires s.ledger.contracts[k].primaryContractId in ctx.designs
    requires Products.Flattens(ctx.designs[s.ledger.contracts[k].primaryContractId])
    ensures var c, (reply, after) := s.ledger.contracts[k], VoidRoute(s, k, ctx);
            reply.Ok? && after.rows == Products.Replace(s.rows, c.opportunityId, ctx.userId.value,
                                                        ctx.designs[c.primaryContractId])
  {
  }

  // ---------------------------------------------------------------- where an opportunity's amount comes from

  datatype Step =
    | SaveStep(selection: Selection, contract: StoredContract, context: SaveContext)
    | ChangeOrderStep(selection: Selection, contract: StoredContract, context: SaveContext)
    | ChangeOrderUpdateStep(position: nat)
    | LifecycleStep(position: nat, status: ProcessStatus)
    | PaidStep(paymentPosition: nat, field: Field, amount: real)
    | VoidStep(position: nat, voidContext: VoidContext)

  function Apply(s: System, step: Step): System {
    match step
    case SaveStep(selection, c, ctx) => SaveContract(s, selection, c, ctx).1
    case ChangeOrderStep(selection, c, ctx) =>
      if c.contractType == ChangeOrder || c.contractType == NoCostChangeOrder
      then SaveChangeOrder(s, selection, c, ctx) else s
    case ChangeOrderUpdateStep(k) => s.(ledger := PaymentLedger.Apply(s.ledger, IdOnly, MakeChangeOrder(k)))
    case LifecycleStep(k, status) => s.(ledger := PaymentLedger.Apply(s.ledger, IdOnly, SetStatus(k, status)))
    case PaidStep(k, f, amount) => s.(ledger := PaymentLedger.Apply(s.ledger, IdOnly, RecordActual(k, f, amount)))
    case VoidStep(k, ctx) => if k < |s.ledger.contracts| then VoidRoute(s, k, ctx).1 else s
  }

  function Run(s: System, steps: seq<Step>): System {
    if steps == [] then s else Apply(Run(s, Init(steps)), Last(steps))
  }

  /**
    Step n of the run saved a primary contract of the opportunity and created a payment of the amount for it,
    and that record is still in the ledger with that amount.
   */
  ghost predicate PaidAtStep(s: System, steps: seq<Step>, opp: string, amount: real, n: int) {
    && 0 <= n < |steps| && steps[n].SaveStep?
    && steps[n].contract.contractType == PrimaryContract && steps[n].contract.opportunityId == opp
    && var k := |Run(s, steps[..n]).ledger.payments|;
       && |Run(s, steps[..n + 1]).ledger.payments| == k + 1
       && MadeFor(Run(s, steps[..n + 1]).ledger.payments[k], steps[n].contract)
       && k < |Run(s, steps).ledger.payments|
       && SameOrigin(Run(s, steps[..n + 1]).ledger.payments[k], Run(s, steps).ledger.payments[k])
       && Number(Run(s, steps).ledger.payments[k], Amount) == amount
  }

  ghost predicate Explained(s: System, steps: seq<Step>, opp: string, amount: real)
    requires opp in s.amounts
  {
    amount == s.amounts[opp] || amount == 0.0 || exists n :: PaidAtStep(s, steps, opp, amount, n)
  }

  /**
    In any run of saves, change orders, their updates, voids, completions and payments, an amount is the initial
    one, zero, or that of the payment created by a step of the run that saved a primary contract.
   */
  lemma {:induction false} AmountsAreExplained(s: System, steps: seq<Step>, opp: string)
    requires opp in s.amounts
    ensures var after := Run(s, steps);
            opp in after.amounts && Explained(s, steps, opp, after.amounts[opp])
  {
    if steps != [] {
      var before, n := Run(s, Init(steps)), |steps| - 1;
      AmountsAreExplained(s, Init(steps), opp);
      StepKeepsOpportunities(before, Last(steps));
      var amount := Run(s, steps).amounts[opp];
      if amount != before.amounts[opp] && amount != 0.0 {
        SaveExplainsAmount(before, Last(steps), opp);
        assert steps[..n] == Init(steps) && steps[..n + 1] == steps;
        assert PaidAtStep(s, steps, opp, amount, n);
      } else if exists m :: PaidAtStep(s, Init(steps), opp, amount, m) {
        var m :| PaidAtStep(s, Init(steps), opp, amount, m);
        StillPaid(s, steps, opp, amount, m);
      }
    }
  }

  lemma StillPaid(s: System, steps: seq<Step>, opp: string, amount: real, n: int)
    requires steps != [] && PaidAtStep(s, Init(steps), opp, amount, n)
    ensures PaidAtStep(s, steps, opp, amount, n)
  {
    assert Init(steps)[..n] == steps[..n] && Init(steps)[..n + 1] == steps[..n + 1];
    StepExtends(Run(s, Init(steps)), Last(steps));
  }

  /** A step that gives an opportunity a new amount is a save of a primary contract of it, and that is its payment's. */
  lemma SaveExplainsAmount(s: System, step: Step, opp: string)
    requires opp in s.amounts && opp in Apply(s, step).amounts
    requires Apply(s, step).amounts[opp] != s.amounts[opp] && Apply(s, step).amounts[opp] != 0.0
    ensures var after := Apply(s, step);
            && step.SaveStep?
            && step.contract.contractType == PrimaryContract && step.contract.opportunityId == opp
            && |after.ledger.payments| == |s.ledger.payments| + 1
            && MadeFor(Last(after.ledger.payments), step.contract)
            && Number(Last(after.ledger.payments), Amount) == after.amounts[opp]
  {
    OnlySavesRaise(s, step, opp);
    var (reply, after) := SaveContract(s, step.selection, step.contract, step.context);
    assert reply.Ok?;
    NewRecordOf(s.ledger, step.selection, Stored(step.contract), step.context.quote.value, step.context.now,
                step.context.paymentId);
  }

  lemma OnlySavesRaise(s: System, step: Step, opp: string)
    requires opp in s.amounts && opp in Apply(s, step).amounts
    requires Apply(s, step).amounts[opp] != s.amounts[opp] && Apply(s, step).amounts[opp] != 0.0
    ensures step.SaveStep? && step.contract.contractType == PrimaryContract && step.contract.opportunityId == opp
  {
  }

  /** Payments keep contract, opportunity and amount, and there are only ever more of them. */
  ghost predicate Extends(before: Ledger, after: Ledger) {
    && |before.payments| <= |after.payments|
    && forall k :: 0 <= k < |before.payments| ==> SameOrigin(before.payments[k], after.payments[k])
  }

  predicate SameOrigin(before: Document, after: Document) {
    && TextOf(after, OpportunityId) == TextOf(before, OpportunityId)
    && TextOf(after, WqtContractId) == TextOf(before, WqtContractId)
    && Number(after, Amount) == Number(before, Amount)
  }

  lemma CreateExtends(l: Ledger, selection: Selection, c: StoredContract, quote: Quote, now: int, paymentId: string)
    ensures Extends(l, Create(l, selection, c, quote, now, paymentId))
  {
  }

  lemma StepExtends(s: System, step: Step)
    ensures Extends(s.ledger, Apply(s, step).ledger)
  {
    match step
    case SaveStep(selection, c, ctx) =>
      SavingExtends(s, selection, c, ctx);
    case ChangeOrderStep(selection, c, ctx) =>
      SavingExtends(s, selection, c, ctx);
    case ChangeOrderUpdateStep(k) =>
      LedgerStepExtends(s.ledger, MakeChangeOrder(k));
    case LifecycleStep(k, status) =>
      LedgerStepExtends(s.ledger, SetStatus(k, status));
    case PaidStep(k, f, amount) =>
      LedgerStepExtends(s.ledger, RecordActual(k, f, amount));
    case VoidStep(k, ctx) =>
      if k < |s.ledger.contracts| {
        VoidRouteExtends(s, k, ctx);
      }
  }

  lemma SavingExtends(s: System, selection: Selection, c: StoredContract, ctx: SaveContext)
    ensures Extends(s.ledger, SaveContract(s, selection, c, ctx).1.ledger)
    ensures c.contractType == ChangeOrder || c.contractType == NoCostChangeOrder ==>
              Extends(s.ledger, SaveChangeOrder(s, selection, c, ctx).ledger)
  {
    if ctx.quote.Some? {
      CreateExtends(s.ledger, selection, Stored(c), ctx.quote.value, ctx.now, ctx.paymentId);
    }
  }

  lemma VoidRouteExtends(s: System, k: nat, ctx: VoidContext)
    requires k < |s.ledger.contracts|
    ensures Extends(s.ledger, VoidRoute(s, k, ctx).1.ledger)
  {
    VoidingExtends(s.ledger, {k});
    VoidingExtends(s.ledger, {k} + Related(s.ledger.contracts, s.ledger.contracts[k].id));
  }

  lemma LedgerStepExtends(l: Ledger, e: Event)
    requires !e.CreateContract?
    ensures Extends(l, PaymentLedger.Apply(l, IdOnly, e))
  {
  }

  lemma VoidingExtends(l: Ledger, voided: set<nat>)
    ensures Extends(l, l.(contracts := WithVoided(l.contracts, voided)))
  {
  }

  lemma StepKeepsOpportunities(s: System, step: Step)
    ensures Apply(s, step).amounts.Keys == s.amounts.Keys
  {
    match step
    case SaveStep(selection, c, ctx) =>
      SavingKeepsOpportunities(s, selection, c, ctx);
    case VoidStep(k, ctx) =>
      if k < |s.ledger.contracts| {
        VoidingKeepsOpportunities(s, k, ctx);
      }
    case _ =>
  }

  lemma SavingKeepsOpportunities(s: System, selection: Selection, c: StoredContract, ctx: SaveContext)
    ensures SaveContract(s, selection, c, ctx).1.amounts.Keys == s.amounts.Keys
  {
  }

  lemma VoidingKeepsOpportunities(s: System, k: nat, ctx: VoidContext)
    requires k < |s.ledger.contracts|
    ensures VoidRoute(s, k, ctx).1.amounts.Keys == s.amounts.Keys
  {
  }

  // ---------------------------------------------------------------- saving and voiding, field by field

  /** What a save does: the stored contract, when a payment is made, when the figures are set and to what. */
  lemma SaveDoes(s: System, selection: Selection, c: StoredContract, ctx: SaveContext)
    ensures var (reply, after) := SaveContract(s, selection, c, ctx);
            var stored := ctx.quote.Some? && (c.contractType == GridServicesPacket ==> ctx.qualifiedForGridServices);
            var paid := stored && AllNumbers(ctx.quote.value);
            var figured := paid && c.contractType == PrimaryContract && ctx.wav.Some?;
            && (!stored ==> after == s)
            && (stored ==> after.ledger.contracts == s.ledger.contracts + [c.(contractStatus := Initiated)])
            && (reply.Ok? <==> paid && (c.contractType == PrimaryContract ==> ctx.wav.Some?))
            && (stored && !paid ==> after.ledger.payments == s.ledger.payments)
            && (paid ==> |after.ledger.payments| == |s.ledger.payments| + 1
                         && after.ledger.payments[..|s.ledger.payments|] == s.ledger.payments
                         && MadeFor(after.ledger.payments[|s.ledger.payments|], c))
            && after.projectAmounts == s.projectAmounts && after.rows == s.rows
            && (!figured ==> after.amounts == s.amounts && after.attributes == s.attributes)
            && (figured ==>
                  && after.attributes == s.attributes[c.opportunityId := ctx.wav.value]
                  && after.amounts == if c.opportunityId !in s.amounts then s.amounts else
                       s.amounts[c.opportunityId := Number(after.ledger.payments[|s.ledger.payments|], Amount)])
  {
    if ctx.quote.Some? {
      CreateDoes(s.ledger, selection, Stored(c), ctx.quote.value, ctx.now, ctx.paymentId);
    }
  }

  /** A new change order is stored and paid for like any contract; figures and products stay. */
  lemma SaveChangeOrderDoes(s: System, selection: Selection, c: StoredContract, ctx: SaveContext)
    ensures var after := SaveChangeOrder(s, selection, c, ctx);
            && after == s.(ledger := after.ledger)
            && (ctx.quote.None? ==> after == s)
            && (ctx.quote.Some? ==>
                  && after.ledger.contracts == s.ledger.contracts + [c.(contractStatus := Initiated)]
                  && |after.ledger.payments| == |s.ledger.payments| + if AllNumbers(ctx.quote.value) then 1 else 0)
  {
    if ctx.quote.Some? {
      CreateDoes(s.ledger, selection, Stored(c), ctx.quote.value, ctx.now, ctx.paymentId);
    }
  }

  lemma CreateDoes(l: Ledger, selection: Selection, c: StoredContract, quote: Quote, now: int, paymentId: string)
    ensures var after := Create(l, selection, c, quote, now, paymentId);
            && after.contracts == l.contracts + [c]
            && (!AllNumbers(quote) ==> after.payments == l.payments)
            && (AllNumbers(quote) ==>
                  && |after.payments| == |l.payments| + 1 && after.payments[..|l.payments|] == l.payments
                  && MadeFor(after.payments[|l.payments|], c)
                  && Id in after.payments[|l.payments|] && after.payments[|l.payments|][Id] == Text(paymentId))
  {
    var stored := l.(contracts := l.contracts + [c]);
    var latest := PaymentAt(stored, LatestPayment(stored, c.id, c.opportunityId, selection));
    RecordIsComputedExactly(latest, c.id, c.opportunityId, quote, now);
    if AllNumbers(quote) {
      NewRecordOf(l, selection, c, quote, now, paymentId);
    }
  }

  /** The amount it sets, from the quote alone. */
  lemma SavedAmountIs(s: System, selection: Selection, c: StoredContract, ctx: SaveContext)
    requires SaveContract(s, selection, c, ctx).0.Ok? && c.contractType == PrimaryContract
    requires c.opportunityId in s.amounts
    ensures var after := SaveContract(s, selection, c, ctx).1;
            c.opportunityId in after.amounts && after.amounts[c.opportunityId] == Gross(ctx.quote.value)
  {
    SaveDoes(s, selection, c, ctx);
    CreatedAmountIs(s.ledger, selection, Stored(c), ctx.quote.value, ctx.now, ctx.paymentId);
    SavedLedgerIs(s, selection, c, ctx);
  }

  lemma SavedLedgerIs(s: System, selection: Selection, c: StoredContract, ctx: SaveContext)
    requires SaveContract(s, selection, c, ctx).0.Ok?
    ensures SaveContract(s, selection, c, ctx).1.ledger
         == Create(s.ledger, selection, Stored(c), ctx.quote.value, ctx.now, ctx.paymentId)
  {
  }

  lemma CreatedAmountIs(l: Ledger, selection: Selection, c: StoredContract, quote: Quote, now: int, paymentId: string)
    requires AllNumbers(quote)
    ensures var after := Create(l, selection, c, quote, now, paymentId).payments;
            && |after| == |l.payments| + 1
            && Number(after[|l.payments|], Amount) == Gross(quote)
  {
    var stored := l.(contracts := l.contracts + [c]);
    var latest := PaymentAt(stored, LatestPayment(stored, c.id, c.opportunityId, selection));
    RecordIsComputedExactly(latest, c.id, c.opportunityId, quote, now);
    var d := NewPayment(latest, c.id, c.opportunityId, quote, now).value;
    AmountIsGross(latest, c.id, c.opportunityId, quote, now, d);
    OtherThanId(d, paymentId, Amount);
  }

  /** The endpoint voids the contract named and, unless restoring its products fails, those it is primary of. */
  lemma EndpointVoidsExactly(s: System, k: nat, ctx: VoidContext, j: nat)
    requires k < |s.ledger.contracts| && j < |s.ledger.contracts|
    ensures var (reply, after) := VoidRoute(s, k, ctx);
            var before := s.ledger.contracts;
            && |after.ledger.contracts| == |before| && after.ledger.payments == s.ledger.payments
            && (reply == Err(VoidedAlready) <==> before[k].contractStatus == Voided)
            && (before[k].contractStatus == Voided ==> after == s)
            && (before[k].contractStatus != Voided ==>
                  after.ledger.contracts[j]
                  == if j == k || (reply.Ok? && before[j].primaryContractId == before[k].id
                                   && before[j].contractType != GridServicesPacket)
                     then before[j].(contractStatus := Voided) else before[j])
  {
  }

  /** No completed contract of the opportunity is left but grid services. */
  ghost predicate NoneFinal(contracts: seq<StoredContract>, opp: string) {
    forall j :: 0 <= j < |contracts| && contracts[j].opportunityId == opp && contracts[j].contractStatus == Completed
      ==> contracts[j].contractType == GridServicesPacket
  }

  /** The endpoint voids a contract of the opportunity. */
  ghost predicate Touches(contracts: seq<StoredContract>, k: nat, succeeds: bool, opp: string)
    requires k < |contracts|
  {
    contracts[k].opportunityId == opp
    || (succeeds && exists j :: 0 <= j < |contracts| && contracts[j].opportunityId == opp
                                && contracts[j].primaryContractId == contracts[k].id
                                && contracts[j].contractType != GridServicesPacket)
  }

  /** The figures of the opportunity are zero, or as they were. */
  ghost predicate FiguresAre(before: System, after: System, opp: string, zeroed: bool) {
    && (opp in after.amounts <==> opp in before.amounts)
    && (opp in before.amounts ==> after.amounts[opp] == if zeroed then 0.0 else before.amounts[opp])
    && (opp in after.projectAmounts <==> opp in before.projectAmounts)
    && (opp in before.projectAmounts ==>
          after.projectAmounts[opp] == if zeroed then 0.0 else before.projectAmounts[opp])
    && (zeroed ==> opp in after.attributes && after.attributes[opp] == Attributes(0.0, 0.0, 0.0))
    && (!zeroed ==> (opp in after.attributes <==> opp in before.attributes)
                    && (opp in before.attributes ==> after.attributes[opp] == before.attributes[opp]))
  }

  /** It zeroes the figures of exactly the opportunities it touches and leaves without a completed contract. */
  lemma EndpointZeroesExactly(s: System, k: nat, ctx: VoidContext, opp: string)
    requires k < |s.ledger.contracts| && s.ledger.contracts[k].contractStatus != Voided
    ensures var (reply, after) := VoidRoute(s, k, ctx);
            FiguresAre(s, after, opp,
                       Touches(s.ledger.contracts, k, reply.Ok?, opp) && NoneFinal(after.ledger.contracts, opp))
  {
    var related := Related(s.ledger.contracts, s.ledger.contracts[k].id);
    NothingVoided(s);
    VoidOneMore(s, {}, k);
    assert {} + {k} == {k};
    VoidAllZeroes(s, {k}, opp);
    VoidAllZeroes(s, {k} + related, opp);
    assert (exists j :: j in {k} + related && j < |s.ledger.contracts| && s.ledger.contracts[j].opportunityId == opp)
      <==> Touches(s.ledger.contracts, k, true, opp);
  }

  lemma VoidAllZeroes(s: System, voided: set<nat>, opp: string)
    ensures var after := VoidAll(s, voided);
            FiguresAre(s, after, opp,
                       (exists j :: j in voided && j < |s.ledger.contracts|
                                    && s.ledger.contracts[j].opportunityId == opp)
                       && NoneFinal(after.ledger.contracts, opp))
  {
    assert NoneFinal(VoidAll(s, voided).ledger.contracts, opp) <==>
      NoneCompleted(WithVoided(s.ledger.contracts, voided), opp);
    assert opp in Emptied(s, voided) <==>
      (exists j :: j in voided && j < |s.ledger.contracts| && s.ledger.contracts[j].opportunityId == opp)
      && NoneCompleted(WithVoided(s.ledger.contracts, voided), opp);
  }

  /** The products change only for a change order voided by a user whose primary contract has a usable design. */
  lemma EndpointProducts(s: System, k: nat, ctx: VoidContext)
    requires k < |s.ledger.contracts| && s.ledger.contracts[k].contractStatus != Voided
    ensures var c, (reply, after) := s.ledger.contracts[k], VoidRoute(s, k, ctx);
            var restores := ctx.isUpdateInstalledProduct && ctx.userId.Some? && c.contractType == ChangeOrder;
            var hasPrimary := exists j :: 0 <= j < |s.ledger.contracts|
                                          && s.ledger.contracts[j].id == c.primaryContractId;
            var hasDesign := c.primaryContractId in ctx.designs;
            && (reply == Err(PrimaryMissing) <==> restores && !hasPrimary)
            && (reply == Err(RowsNotComputed) <==>
                  restores && hasPrimary && hasDesign && !Products.Flattens(ctx.designs[c.primaryContractId]))
            && (!(restores && hasPrimary && hasDesign) ==> after.rows == s.rows)
            && (reply.Ok? && restores && hasDesign ==>
                  after.rows == Products.Without(s.rows, c.opportunityId)
                    + Products.Flatten(c.opportunityId, ctx.userId.value, ctx.designs[c.primaryContractId]))
  {
    var contracts := VoidOne(s, k).ledger.contracts;
    IndexOfContractIs(contracts, s.ledger.contracts[k].primaryContractId);
    assert forall j :: 0 <= j < |contracts| ==> contracts[j].id == s.ledger.contracts[j].id;
  }

  lemma {:induction false} IndexOfContractIs(contracts: seq<StoredContract>, id: string)
    ensures IndexOfContract(contracts, id) >= 0 <==> exists j :: 0 <= j < |contracts| && contracts[j].id == id
  {
    if contracts != [] {
      IndexOfContractIs(Init(contracts), id);
      assert forall j :: 0 <= j < |contracts| - 1 ==> Init(contracts)[j] == contracts[j];
      if IndexOfContract(contracts, id) < 0 {
        assert forall j :: 0 <= j < |contracts| ==> j == |contracts| - 1 || contracts[j] == Init(contracts)[j];
      }
    }
  }
}
