/** Checkout idempotency (apps/orders): read by key, insert in a transaction under a unique key,
    read again on conflict. Any number of submissions run at once; a transaction's rows are in the
    tables, uncommitted, until it commits or is rolled back. */
module Checkout {
  import opened Wrappers

  type Key = string

  datatype OrderRow = OrderRow(key: Option<Key>, request: nat, itemsCount: nat, committed: bool)

  datatype Tables = Tables(orders: map<nat, OrderRow>, items: map<nat, seq<nat>>, redemptions: map<nat, string>)

  predicate HasKey(o: OrderRow, key: Option<Key>) {
    key.Some? && o.key == key
  }

  /** A committed order with the key, if there is one. */
  ghost predicate Found(t: Tables, key: Option<Key>, id: nat) {
    id in t.orders && t.orders[id].committed && HasKey(t.orders[id], key)
  }

  ghost predicate KeyUsed(t: Tables, key: Option<Key>) {
    exists id :: Found(t, key, id)
  }

  /** An open transaction holds the unique index entry: an insert of the same key waits for it. */
  ghost predicate KeyHeld(t: Tables, key: Option<Key>) {
    exists id :: id in t.orders && !t.orders[id].committed && HasKey(t.orders[id], key)
  }

  function RolledBack(t: Tables, id: nat): Tables {
    Tables(t.orders - {id}, t.items - {id}, t.redemptions - {id})
  }

  // ---------- the code ----------

  datatype Gate = Passes | Blocks(reason: string)

  datatype CreationResult = OrderResult(id: nat, created: bool) | Blocked(reason: string) | Raised

  class CheckoutStore {
    var orders: map<nat, OrderRow>
    var items: map<nat, seq<nat>>
    var redemptions: map<nat, string>
    var nextId: nat
    var invoices: seq<nat>

    ghost function Db(): Tables
      reads this
    {
      Tables(orders, items, redemptions)
    }

    ghost predicate Valid()
      reads this
    {
      forall id :: id in orders || id in items || id in redemptions ==> id < nextId
    }

    method FindByKey(key: Option<Key>) returns (found: Option<nat>)
      ensures found.None? <==> !KeyUsed(Db(), key)
      ensures found.Some? <==> key.Some? && exists id :: id in orders && orders[id].committed && orders[id].key == key
      ensures found.Some? ==> Found(Db(), key, found.value)
    {
      if key.None? {
        return None;
      }
      if exists id :: id in orders && orders[id].committed && HasKey(orders[id], key) {
        var id :| id in orders && orders[id].committed && HasKey(orders[id], key);
        assert Found(Db(), key, id);
        return Some(id);
      }
      assert forall id :: !Found(Db(), key, id);
      found := None;
    }

    /** The creation transaction. `conflict` stands for a unique violation other than on the key. */
    method CreateNewOrder(r: nat, key: Option<Key>, products: seq<nat>, gate: Gate, promo: Option<string>,
                          conflict: bool)
      returns (result: Option<nat>, error: Option<CreationResult>)
      requires Valid()
      modifies this`orders, this`items, this`redemptions, this`nextId
      ensures Valid()
      ensures error.Some? <==> products == [] || gate.Blocks?
      ensures error.Some? ==> error.value == (if products == [] then Raised else Blocked(gate.reason)) && result.None?
      ensures result.Some? <==> error.None? && !KeyUsed(old(Db()), key) && !conflict
      ensures result.None? ==> Db() == old(Db())
      ensures result.Some? ==> result.value == old(nextId) && result.value !in old(orders)
      ensures result.Some? ==> orders == old(orders)[result.value := OrderRow(key, r, |products|, true)]
      ensures result.Some? ==> items == old(items)[result.value := products]
      ensures result.Some? ==>
        redemptions == if promo.Some? then old(redemptions)[result.value := promo.value] else old(redemptions)
    {
      var savepoint := (orders, items, redemptions);
      if products == [] {
        return None, Some(Raised);
      }
      if gate.Blocks? {
        return None, Some(Blocked(gate.reason));
      }
      var taken := FindByKey(key);
      if taken.Some? {
        return None, None;
      }
      var id := nextId;
      nextId := nextId + 1;
      orders := orders[id := OrderRow(key, r, |products|, false)];
      items := items[id := products];
      if promo.Some? {
        redemptions := redemptions[id := promo.value];
      }
      if conflict {
        orders, items, redemptions := savepoint.0, savepoint.1, savepoint.2;
        return None, None;
      }
      orders := orders[id := orders[id].(committed := true)];
      result, error := Some(id), None;
    }

    /** Orders that other submissions can commit meanwhile, with ids from the sequence up to `next`. */
    predicate FromOthers(others: map<nat, OrderRow>, next: nat, r: nat)
      reads this
    {
      nextId <= next && forall id :: id in others ==>
        nextId <= id < next && others[id].committed && others[id].request != r
    }

    /** create_order_from_cart; `others` are the orders that other submissions commit between the first
        read and the transaction. */
    method CreateOrderFromCart(r: nat, key: Option<Key>, available: bool, products: seq<nat>, gate: Gate,
                               promo: Option<string>,
                               others: map<nat, OrderRow>, next: nat, conflict: bool)
      returns (result: CreationResult)
      requires Valid() && FromOthers(others, next, r)
      modifies this`orders, this`items, this`redemptions, this`nextId
      ensures Valid()
      // an existing order, found first or after losing the race, is returned and nothing is added for this request
      ensures old(KeyUsed(Db(), key)) ==> result.OrderResult? && !result.created && Db() == old(Db())
      ensures result.OrderResult? && !result.created ==> Found(Db(), key, result.id)
      ensures !old(KeyUsed(Db(), key)) && available && products != [] && gate.Passes? &&
              (exists id :: id in others && HasKey(others[id], key)) ==>
        result.OrderResult? && !result.created && result.id in others && HasKey(others[result.id], key)
      // a created order is the only one with its key and has all its rows
      ensures result.OrderResult? && result.created ==>
        && result.id !in old(orders) && result.id !in others
        && result.id in orders && orders[result.id] == OrderRow(key, r, |products|, true)
        && result.id in items && items[result.id] == products
        && (if promo.Some? then result.id in redemptions && redemptions[result.id] == promo.value
          else result.id !in redemptions)
        && forall id :: Found(Db(), key, id) ==> id == result.id
      // the outcome of a request with a new key is decided by what it finds
      ensures !old(KeyUsed(Db(), key)) ==>
        var won := key.Some? && exists id :: id in others && others[id].key == key;
        var orderable := available && products != [] && gate.Passes?;
        && (result.OrderResult? && result.created <==> orderable && !won && !conflict)
        && (result.OrderResult? && !result.created <==> orderable && won)
        && (result.Blocked? <==> !available || (products != [] && gate.Blocks?))
        && (result.Blocked? ==> result.reason == if available then gate.reason else "unavailable_products")
        && (result.Raised? <==> available && (products == [] || (gate.Passes? && conflict && !won)))
      // whatever happens, the only other new orders are those of the others, and they have no rows of this request
      ensures forall id ::
        (id in orders && id !in old(orders) && !(result.OrderResult? && result.created && id == result.id)) ==>
        id in others && orders[id] == others[id] && id !in items && id !in redemptions
    {
      var existing := FindByKey(key);
      if existing.Some? {
        return OrderResult(existing.value, false);
      }
      if !available {
        return Blocked("unavailable_products");
      }
      orders, nextId := orders + others, next;
      ghost var before := Db();
      OthersFound(old(Db()), others, key);
      var created, error := CreateNewOrder(r, key, products, gate, promo, conflict);
      if error.Some? {
        return error.value;
      }
      if created.Some? {
        assert forall id :: Found(Db(), key, id) && id != created.value ==> Found(before, key, id);
        return OrderResult(created.value, true);
      }
      existing := FindByKey(key);
      if existing.Some? {
        return OrderResult(existing.value, false);
      }
      result := Raised;
    }

    /** The checkout view: a known key is answered from the order, a new order gets its invoice. */
    method Post(r: nat, key: Option<Key>, allowed: bool, available: bool, products: seq<nat>, gate: Gate,
                promo: Option<string>,
                others: map<nat, OrderRow>, next: nat, conflict: bool)
      returns (redirect: Option<nat>)
      requires Valid() && FromOthers(others, next, r)
      modifies this
      ensures Valid()
      ensures invoices == old(invoices) || (redirect.Some? && invoices == old(invoices) + [redirect.value])
      ensures invoices != old(invoices) <==>
        redirect.Some? && redirect.value !in old(orders) && redirect.value in orders &&
          orders[redirect.value].request == r
      ensures old(KeyUsed(Db(), key)) ==> redirect.Some? && Found(Db(), key, redirect.value) && Db() == old(Db())
      // a new key is redirected exactly when the request may create an order and creates or finds one
      ensures !old(KeyUsed(Db(), key)) ==>
        var won := key.Some? && exists id :: id in others && others[id].key == key;
        var orderable := allowed && available && products != [] && gate.Passes?;
        && (redirect.Some? <==> orderable && (won || !conflict))
        && (redirect.Some? && won ==> redirect.value in others && others[redirect.value].key == key)
        && (redirect.Some? && !won ==>
          redirect.value in orders && orders[redirect.value] == OrderRow(key, r, |products|, true) &&
          redirect.value in items && items[redirect.value] == products &&
          invoices == old(invoices) + [redirect.value])
        && (redirect.None? || won ==> invoices == old(invoices))
    {
      var existing := FindByKey(key);
      if existing.Some? {
        return existing;
      }
      if !allowed {
        return None;
      }
      var result := CreateOrderFromCart(r, key, available, products, gate, promo, others, next, conflict);
      if !result.OrderResult? {
        return None;
      }
      if result.created {
        invoices := invoices + [result.id];
      }
      redirect := Some(result.id);
    }
  }

  /** What a query by key can find once others have committed. */
  lemma OthersFound(t: Tables, others: map<nat, OrderRow>, key: Option<Key>)
    requires forall id :: id in others ==> id !in t.orders && others[id].committed
    ensures var u := t.(orders := t.orders + others);
      && (forall id :: Found(u, key, id) <==> Found(t, key, id) || (id in others && HasKey(others[id], key)))
      && (KeyUsed(u, key) <==> KeyUsed(t, key) || exists id :: id in others && HasKey(others[id], key))
  {
    var u := t.(orders := t.orders + others);
    assert forall id :: Found(u, key, id) <==> Found(t, key, id) || (id in others && HasKey(others[id], key));
  }

  // ---------- submissions ----------

  datatype Phase =
    | Arrived
    | Missed
    | Inserted(id: nat)
    | WithItems(id: nat)
    | WithRedemption(id: nat)
    | Conflicted(byKey: bool)
    | Returned(id: nat, created: bool, enqueued: bool)
    | Failed

  datatype Request = Request(key: Option<Key>, products: seq<nat>, promo: Option<string>, phase: Phase)

  datatype System = System(db: Tables, requests: map<nat, Request>, nextId: nat, invoices: seq<nat>)

  datatype Step =
    | Submit(r: nat, key: Option<Key>, products: seq<nat>, promo: Option<string>)
    | Read(r: nat, found: nat)
    | ReadMiss(r: nat)
    | Block(r: nat)
    | InsertOrder(r: nat)
    | InsertItems(r: nat)
    | InsertRedemption(r: nat)
    | Commit(r: nat)
    | IntegrityError(r: nat)
    | OtherError(r: nat)
    | Reread(r: nat, found: nat)
    | RereadMiss(r: nat)
    | EnqueueInvoice(r: nat)

  const INITIAL := System(Tables(map[], map[], map[]), map[], 0, [])

  predicate Open(phase: Phase) {
    phase.Inserted? || phase.WithItems? || phase.WithRedemption?
  }

  function Moved(s: System, r: nat, phase: Phase): System
    requires r in s.requests
  {
    s.(requests := s.requests[r := s.requests[r].(phase := phase)])
  }

  /** `found` is the row that a query returns; a step whose query would not return it is not enabled. */
  ghost function Apply(s: System, step: Step): System {
    if step.Submit? then
      if step.r in s.requests then s
      else s.(requests := s.requests[step.r := Request(step.key, step.products, step.promo, Arrived)])
    else if step.r !in s.requests then s
    else
      var q := s.requests[step.r];
      match step
      case Submit(_, _, _, _) => s
      case Read(r, found) =>
        if (q.phase.Arrived? || q.phase.Missed?) && Found(s.db, q.key, found)
          then Moved(s, r, Returned(found, false, false)) else s
      case ReadMiss(r) => if q.phase.Arrived? && !KeyUsed(s.db, q.key) then Moved(s, r, Missed) else s
      case Block(r) => if q.phase.Missed? then Moved(s, r, Failed) else s
      case InsertOrder(r) =>
        if !q.phase.Missed? || q.products == [] || KeyHeld(s.db, q.key) then s
        else if KeyUsed(s.db, q.key) then Moved(s, r, Conflicted(true))
        else
          var order := OrderRow(q.key, r, |q.products|, false);
          Moved(s, r, Inserted(s.nextId)).(
            db := s.db.(orders := s.db.orders[s.nextId := order]), nextId := s.nextId + 1)
      case InsertItems(r) =>
        if q.phase.Inserted?
        then Moved(s, r, WithItems(q.phase.id)).(db := s.db.(items := s.db.items[q.phase.id := q.products])) else s
      case InsertRedemption(r) =>
        if q.phase.WithItems? && q.promo.Some?
        then Moved(s, r, WithRedemption(q.phase.id)).(
               db := s.db.(redemptions := s.db.redemptions[q.phase.id := q.promo.value]))
        else s
      case Commit(r) =>
        if (q.phase.WithRedemption? || (q.phase.WithItems? && q.promo.None?)) && q.phase.id in s.db.orders then
          var order := s.db.orders[q.phase.id].(committed := true);
          Moved(s, r, Returned(q.phase.id, true, false)).(db := s.db.(orders := s.db.orders[q.phase.id := order]))
        else s
      case IntegrityError(r) =>
        if Open(q.phase) then Moved(s, r, Conflicted(false)).(db := RolledBack(s.db, q.phase.id)) else s
      case OtherError(r) =>
        if Open(q.phase) then Moved(s, r, Failed).(db := RolledBack(s.db, q.phase.id)) else s
      case Reread(r, found) =>
        if q.phase.Conflicted? && Found(s.db, q.key, found) then Moved(s, r, Returned(found, false, false)) else s
      case RereadMiss(r) => if q.phase.Conflicted? && !KeyUsed(s.db, q.key) then Moved(s, r, Failed) else s
      case EnqueueInvoice(r) =>
        if q.phase.Returned? && q.phase.created && !q.phase.enqueued
        then Moved(s, r, Returned(q.phase.id, true, true)).(invoices := s.invoices + [q.phase.id]) else s
  }

  ghost function Exec(run: seq<Step>): System {
    if run == [] then INITIAL else Apply(Exec(run[..|run| - 1]), run[|run| - 1])
  }

  // ---------- invariants ----------

  /** The rows of an order are those of the request that inserted it, as far as it has come. */
  ghost predicate OrderOk(s: System, id: nat, o: OrderRow) {
    && id < s.nextId && o.request in s.requests
    && var q := s.requests[o.request];
    && o.key == q.key && o.itemsCount == |q.products|
    && (if o.committed then q.phase.Returned? && q.phase.created else Open(q.phase))
    && q.phase.id == id
    && (id in s.db.items <==> !q.phase.Inserted?) && (id in s.db.items ==> s.db.items[id] == q.products)
    && (id in s.db.redemptions <==> q.phase.WithRedemption? || (o.committed && q.promo.Some?))
    && (id in s.db.redemptions ==> Some(s.db.redemptions[id]) == q.promo)
  }

  ghost predicate RequestOk(s: System, r: nat, q: Request) {
    && (Open(q.phase) ==>
      q.phase.id in s.db.orders && s.db.orders[q.phase.id].request == r && !s.db.orders[q.phase.id].committed)
    && (q.phase.Returned? ==>
      q.phase.id in s.db.orders && s.db.orders[q.phase.id].committed && s.db.orders[q.phase.id].key == q.key)
    && (q.phase.Returned? ==>
      if q.phase.created then s.db.orders[q.phase.id].request == r else q.key.Some? && !q.phase.enqueued)
    && (q.phase == Conflicted(true) ==> KeyUsed(s.db, q.key))
  }

  ghost predicate OneOrderPerKey(t: Tables) {
    forall i, j :: i in t.orders && j in t.orders && t.orders[i].key.Some? && t.orders[i].key == t.orders[j].key ==>
      i == j
  }

  /** Items and redemptions belong to orders. */
  ghost predicate NoOrphans(t: Tables) {
    t.items.Keys <= t.orders.Keys && t.redemptions.Keys <= t.orders.Keys
  }

  ghost predicate InvoicesOk(s: System) {
    forall id :: multiset(s.invoices)[id] == if Enqueued(s, id) then 1 else 0
  }

  ghost predicate Inv(s: System) {
    && (forall id :: id in s.db.orders ==> OrderOk(s, id, s.db.orders[id]))
    && (forall r :: r in s.requests ==> RequestOk(s, r, s.requests[r]))
    && OneOrderPerKey(s.db)
    && NoOrphans(s.db)
    && InvoicesOk(s)
  }

  /** A committed order never changes or disappears. */
  ghost predicate CommittedKept(before: Tables, after: Tables) {
    forall id :: id in before.orders && before.orders[id].committed ==>
      id in after.orders && after.orders[id] == before.orders[id]
  }

  /** The rows of one order are the same in both tables. */
  ghost predicate SameRows(s: Tables, t: Tables, id: nat) {
    && id in s.orders && id in t.orders && t.orders[id] == s.orders[id]
    && (id in t.items <==> id in s.items) && (id in t.items ==> t.items[id] == s.items[id])
    && (id in t.redemptions <==> id in s.redemptions) &&
      (id in t.redemptions ==> t.redemptions[id] == s.redemptions[id])
  }

  /** A step of one request touches no other request. */
  ghost predicate OtherRequestsKept(s: System, t: System, own: nat) {
    && (forall r :: r in s.requests && r != own ==> r in t.requests && t.requests[r] == s.requests[r])
    && (forall r :: r in t.requests && r != own ==> r in s.requests)
    && (own in s.requests ==> own in t.requests && t.requests[own] == s.requests[own].(phase := t.requests[own].phase))
  }

  lemma RequestsFrame(s: System, step: Step)
    ensures OtherRequestsKept(s, Apply(s, step), step.r)
  {}

  /** Nor the rows of an order of another request. */
  lemma OrderFrame(s: System, step: Step, id: nat)
    requires step.r in s.requests ==> RequestOk(s, step.r, s.requests[step.r])
    requires id in s.db.orders && id < s.nextId && s.db.orders[id].request != step.r
    ensures SameRows(s.db, Apply(s, step).db, id)
  {}

  lemma NewOrderFrame(s: System, step: Step, id: nat)
    requires id in Apply(s, step).db.orders && id !in s.db.orders
    ensures step.InsertOrder? && step.r in s.requests && id == s.nextId
  {}

  lemma NextIdGrows(s: System, step: Step)
    ensures s.nextId <= Apply(s, step).nextId
  {}

  lemma CommittedStays(s: System, step: Step, id: nat)
    requires Inv(s) && id in s.db.orders && s.db.orders[id].committed
    ensures var t := Apply(s, step); id in t.db.orders && t.db.orders[id] == s.db.orders[id]
  {
    assert OrderOk(s, id, s.db.orders[id]);
    assert step.r in s.requests ==> RequestOk(s, step.r, s.requests[step.r]);
    if s.db.orders[id].request == step.r {
      ReturnedKeepsTables(s, step);
    } else {
      OrderFrame(s, step, id);
    }
  }

  lemma ReturnedKeepsTables(s: System, step: Step)
    requires step.r in s.requests && s.requests[step.r].phase.Returned?
    ensures Apply(s, step).db == s.db
  {}

  lemma StepKeepsCommitted(s: System, step: Step)
    requires Inv(s)
    ensures CommittedKept(s.db, Apply(s, step).db)
  {
    var t := Apply(s, step);
    forall id | id in s.db.orders && s.db.orders[id].committed
      ensures id in t.db.orders && t.db.orders[id] == s.db.orders[id] {
      CommittedStays(s, step, id);
    }
  }

  lemma NewOrderOk(s: System, step: Step)
    requires Inv(s) && step.InsertOrder? && step.r in s.requests && Apply(s, step).db != s.db
    ensures var t := Apply(s, step); s.nextId in t.db.orders && OrderOk(t, s.nextId, t.db.orders[s.nextId])
  {
    assert forall id :: id in s.db.orders ==> OrderOk(s, id, s.db.orders[id]);
    assert s.nextId !in s.db.items && s.nextId !in s.db.redemptions;
  }

  lemma OwnOrderOk(s: System, step: Step, id: nat)
    requires Inv(s) && step.r in s.requests && id in s.db.orders && s.db.orders[id].request == step.r
    ensures var t := Apply(s, step); id in t.db.orders ==> OrderOk(t, id, t.db.orders[id])
  {
    var t := Apply(s, step);
    var q := s.requests[step.r];
    assert RequestOk(s, step.r, q) && OrderOk(s, id, s.db.orders[id]);
    assert q.phase.id == id && (Open(q.phase) || q.phase.Returned?);
    match step
    case InsertItems(_) => assert id in t.db.orders ==> OrderOk(t, id, t.db.orders[id]);
    case InsertRedemption(_) => assert id in t.db.orders ==> OrderOk(t, id, t.db.orders[id]);
    case Commit(_) => assert id in t.db.orders ==> OrderOk(t, id, t.db.orders[id]);
    case EnqueueInvoice(_) => assert id in t.db.orders ==> OrderOk(t, id, t.db.orders[id]);
    case IntegrityError(_) =>
    case OtherError(_) =>
    case _ =>
  }

  lemma OtherOrderOk(s: System, step: Step, id: nat)
    requires Inv(s) && id in s.db.orders && s.db.orders[id].request != step.r
    ensures var t := Apply(s, step); id in t.db.orders && OrderOk(t, id, t.db.orders[id])
  {
    assert OrderOk(s, id, s.db.orders[id]);
    assert step.r in s.requests ==> RequestOk(s, step.r, s.requests[step.r]);
    OrderFrame(s, step, id);
    RequestsFrame(s, step);
    NextIdGrows(s, step);
  }

  lemma StepKeepsOrders(s: System, step: Step)
    requires Inv(s)
    ensures var t := Apply(s, step); forall id :: id in t.db.orders ==> OrderOk(t, id, t.db.orders[id])
  {
    var t := Apply(s, step);
    forall id | id in t.db.orders ensures OrderOk(t, id, t.db.orders[id]) {
      if id !in s.db.orders {
        NewOrderFrame(s, step, id);
        NewOrderOk(s, step);
      } else {
        assert OrderOk(s, id, s.db.orders[id]);
        if s.db.orders[id].request == step.r {
          OwnOrderOk(s, step, id);
        } else {
          OtherOrderOk(s, step, id);
        }
      }
    }
  }

  lemma StepKeepsRequests(s: System, step: Step)
    requires Inv(s)
    ensures var t := Apply(s, step); forall r :: r in t.requests ==> RequestOk(t, r, t.requests[r])
  {
    var t := Apply(s, step);
    RequestsFrame(s, step);
    StepKeepsCommitted(s, step);
    forall r | r in t.requests ensures RequestOk(t, r, t.requests[r]) {
      if r == step.r {
        OwnRequestOk(s, step);
      } else {
        OtherRequestOk(s, step, r);
      }
    }
  }

  lemma OtherRequestOk(s: System, step: Step, r: nat)
    requires Inv(s) && r in s.requests && r != step.r && CommittedKept(s.db, Apply(s, step).db)
    ensures var t := Apply(s, step); r in t.requests && RequestOk(t, r, t.requests[r])
  {
    assert RequestOk(s, r, s.requests[r]);
    RequestsFrame(s, step);
    if s.requests[r].phase == Conflicted(true) {
      KeyStaysUsed(s.db, Apply(s, step).db, s.requests[r].key);
    } else if Open(s.requests[r].phase) {
      var id := s.requests[r].phase.id;
      assert OrderOk(s, id, s.db.orders[id]);
      assert step.r in s.requests ==> RequestOk(s, step.r, s.requests[step.r]);
      OrderFrame(s, step, id);
    }
  }

  lemma KeyStaysUsed(before: Tables, after: Tables, key: Option<Key>)
    requires CommittedKept(before, after) && KeyUsed(before, key)
    ensures KeyUsed(after, key)
  {
    var id :| Found(before, key, id);
    assert Found(after, key, id);
  }

  lemma OwnRequestOk(s: System, step: Step)
    requires Inv(s) && step.r in Apply(s, step).requests
    ensures var t := Apply(s, step); RequestOk(t, step.r, t.requests[step.r])
  {
    if step.r in s.requests {
      var q := s.requests[step.r];
      assert RequestOk(s, step.r, q);
      if q.phase.Returned? {
        CommittedStays(s, step, q.phase.id);
        ReturnedRequestOk(s, step);
      } else if Open(q.phase) {
        assert OrderOk(s, q.phase.id, s.db.orders[q.phase.id]);
        OpenRequestOk(s, step);
      } else {
        WaitingRequestOk(s, step);
      }
    }
  }

  lemma ReturnedRequestOk(s: System, step: Step)
    requires step.r in s.requests && s.requests[step.r].phase.Returned? && RequestOk(s, step.r, s.requests[step.r])
    requires var id := s.requests[step.r].phase.id; var t := Apply(s, step);
      id in t.db.orders && t.db.orders[id] == s.db.orders[id]
    ensures var t := Apply(s, step); step.r in t.requests && RequestOk(t, step.r, t.requests[step.r])
  {}

  lemma OpenRequestOk(s: System, step: Step)
    requires step.r in s.requests && Open(s.requests[step.r].phase) && RequestOk(s, step.r, s.requests[step.r])
    requires var id := s.requests[step.r].phase.id; OrderOk(s, id, s.db.orders[id])
    ensures var t := Apply(s, step); step.r in t.requests && RequestOk(t, step.r, t.requests[step.r])
  {}

  lemma WaitingRequestOk(s: System, step: Step)
    requires step.r in s.requests && !Open(s.requests[step.r].phase) && !s.requests[step.r].phase.Returned?
    requires RequestOk(s, step.r, s.requests[step.r])
    ensures var t := Apply(s, step); step.r in t.requests && RequestOk(t, step.r, t.requests[step.r])
  {
    var q := s.requests[step.r];
    var t := Apply(s, step);
    if t.db == s.db {
      assert KeyUsed(t.db, q.key) <==> KeyUsed(s.db, q.key);
    }
  }

  lemma StepKeepsRows(s: System, step: Step)
    requires NoOrphans(s.db) && (step.r in s.requests ==> RequestOk(s, step.r, s.requests[step.r]))
    ensures NoOrphans(Apply(s, step).db)
  {}

  lemma StepKeepsKeys(s: System, step: Step)
    requires Inv(s)
    ensures OneOrderPerKey(Apply(s, step).db)
  {
    if step.InsertOrder? && Apply(s, step).db != s.db {
      var key := s.requests[step.r].key;
      forall i | i in s.db.orders && key.Some? ensures s.db.orders[i].key != key {
        assert s.db.orders[i].committed ==> !Found(s.db, key, i);
      }
    }
  }

  lemma StepKeepsKeysAndRows(s: System, step: Step)
    requires Inv(s)
    ensures OneOrderPerKey(Apply(s, step).db) && NoOrphans(Apply(s, step).db)
  {
    assert step.r in s.requests ==> RequestOk(s, step.r, s.requests[step.r]);
    StepKeepsRows(s, step);
    StepKeepsKeys(s, step);
  }

  ghost predicate Enqueued(s: System, id: nat) {
    exists r :: r in s.requests && s.requests[r].phase == Returned(id, true, true)
  }

  /** The request enqueues the invoice of the order that it has created. */
  ghost predicate Enqueues(s: System, step: Step) {
    && step.EnqueueInvoice? && step.r in s.requests && s.requests[step.r].phase.Returned?
    && s.requests[step.r].phase.created && !s.requests[step.r].phase.enqueued
  }

  lemma StepKeepsInvoices(s: System, step: Step)
    requires Inv(s)
    ensures InvoicesOk(Apply(s, step))
  {
    var t := Apply(s, step);
    RequestsFrame(s, step);
    forall id ensures multiset(t.invoices)[id] == if Enqueued(t, id) then 1 else 0 {
      if Enqueues(s, step) {
        EnqueuedNow(s, step, id);
      } else {
        NotEnqueuedNow(s, step, id);
      }
    }
  }

  lemma NotEnqueuedNow(s: System, step: Step, id: nat)
    requires !Enqueues(s, step)
    ensures Apply(s, step).invoices == s.invoices && Enqueued(Apply(s, step), id) == Enqueued(s, id)
  {
    var t := Apply(s, step);
    var done := Returned(id, true, true);
    RequestsFrame(s, step);
    assert t.invoices == s.invoices;
    assert step.r in t.requests && t.requests[step.r].phase == done <==>
      step.r in s.requests && s.requests[step.r].phase == done;
    assert forall r :: r in t.requests && t.requests[r].phase == done <==>
      r in s.requests && s.requests[r].phase == done;
  }

  /** An order's invoice has not been enqueued while the request that created it still has to. */
  lemma OwnNotEnqueued(s: System, step: Step)
    requires Inv(s) && Enqueues(s, step)
    ensures !Enqueued(s, s.requests[step.r].phase.id)
  {
    var own := s.requests[step.r].phase.id;
    assert RequestOk(s, step.r, s.requests[step.r]);
    forall r | r in s.requests ensures s.requests[r].phase != Returned(own, true, true) {
      assert RequestOk(s, r, s.requests[r]);
    }
  }

  lemma EnqueueRuns(s: System, step: Step)
    requires Enqueues(s, step)
    ensures var own := s.requests[step.r].phase.id;
      Apply(s, step) == Moved(s, step.r, Returned(own, true, true)).(invoices := s.invoices + [own])
  {}

  lemma EnqueuedNow(s: System, step: Step, id: nat)
    requires Inv(s) && Enqueues(s, step)
    ensures var own := s.requests[step.r].phase.id; var t := Apply(s, step);
      t.invoices == s.invoices + [own] && !Enqueued(s, own) && Enqueued(t, id) == (Enqueued(s, id) || id == own)
  {
    OwnNotEnqueued(s, step);
    EnqueueRuns(s, step);
    EnqueuedAfter(s, step.r, s.requests[step.r].phase.id, id);
  }

  lemma EnqueuedAfter(s: System, own: nat, order: nat, id: nat)
    requires own in s.requests && !Enqueued(s, order) && s.requests[own].phase == Returned(order, true, false)
    ensures var t := Moved(s, own, Returned(order, true, true)).(invoices := s.invoices + [order]);
      Enqueued(t, id) == (Enqueued(s, id) || id == order)
  {
    var t := Moved(s, own, Returned(order, true, true)).(invoices := s.invoices + [order]);
    var done := Returned(id, true, true);
    assert t.requests[own].phase == done <==> id == order;
    assert forall r :: r in t.requests <==> r in s.requests;
    assert forall r :: r in s.requests && r != own ==> t.requests[r] == s.requests[r];
  }

  lemma {:induction false} ReachableInv(run: seq<Step>)
    ensures Inv(Exec(run))
  {
    if run != [] {
      var s := Exec(run[..|run| - 1]);
      ReachableInv(run[..|run| - 1]);
      StepKeepsOrders(s, run[|run| - 1]);
      StepKeepsRequests(s, run[|run| - 1]);
      StepKeepsKeysAndRows(s, run[|run| - 1]);
      StepKeepsInvoices(s, run[|run| - 1]);
    }
  }

  // ---------- requests that nobody disturbs ----------

  /** From any state a submission with a new key, whatever others have in flight under other keys,
      creates its order with all its rows and enqueues its invoice. */
  lemma NewKeyCreates(s: System, r: nat, key: Option<Key>, products: seq<nat>, promo: Option<string>)
    requires r !in s.requests && products != [] && !KeyUsed(s.db, key) && !KeyHeld(s.db, key)
    ensures var inserted := Apply(Apply(Apply(s, Submit(r, key, products, promo)), ReadMiss(r)), InsertOrder(r));
      var filled := Apply(Apply(inserted, InsertItems(r)), InsertRedemption(r));
      var id := s.nextId;
      Apply(Apply(filled, Commit(r)), EnqueueInvoice(r)) ==
      System(
        Tables(s.db.orders[id := OrderRow(key, r, |products|, true)], s.db.items[id := products],
               if promo.Some? then s.db.redemptions[id := promo.value] else s.db.redemptions),
        s.requests[r := Request(key, products, promo, Returned(id, true, true))], id + 1, s.invoices + [id])
  {
    var missed := s.(requests := s.requests[r := Request(key, products, promo, Missed)]);
    SubmissionMisses(s, r, key, products, promo);
    OpenRequestCommits(missed, r);
    assert missed.requests[r := Request(key, products, promo, Returned(s.nextId, true, true))] ==
      s.requests[r := Request(key, products, promo, Returned(s.nextId, true, true))];
  }

  lemma SubmissionMisses(s: System, r: nat, key: Option<Key>, products: seq<nat>, promo: Option<string>)
    requires r !in s.requests && !KeyUsed(s.db, key)
    ensures Apply(Apply(s, Submit(r, key, products, promo)), ReadMiss(r)) ==
      s.(requests := s.requests[r := Request(key, products, promo, Missed)])
  {
    var submitted := Apply(s, Submit(r, key, products, promo));
    assert submitted == s.(requests := s.requests[r := Request(key, products, promo, Arrived)]);
  }

  lemma OpenRequestCommits(s: System, r: nat)
    requires r in s.requests && s.requests[r].phase.Missed? && s.requests[r].products != []
    requires !KeyUsed(s.db, s.requests[r].key) && !KeyHeld(s.db, s.requests[r].key)
    ensures var q := s.requests[r]; var id := s.nextId;
      var filled := Apply(Apply(Apply(s, InsertOrder(r)), InsertItems(r)), InsertRedemption(r));
      Apply(Apply(filled, Commit(r)), EnqueueInvoice(r)) ==
      System(
        Tables(s.db.orders[id := OrderRow(q.key, r, |q.products|, true)], s.db.items[id := q.products],
               if q.promo.Some? then s.db.redemptions[id := q.promo.value] else s.db.redemptions),
        s.requests[r := q.(phase := Returned(id, true, true))], id + 1, s.invoices + [id])
  {
    var q := s.requests[r];
    var id := s.nextId;
    var order := OrderRow(q.key, r, |q.products|, false);
    var inserted := Apply(s, InsertOrder(r));
    assert inserted == s.(requests := s.requests[r := q.(phase := Inserted(id))],
      db := s.db.(orders := s.db.orders[id := order]), nextId := id + 1);
    var withItems := Apply(inserted, InsertItems(r));
    assert withItems == inserted.(requests := s.requests[r := q.(phase := WithItems(id))],
      db := inserted.db.(items := s.db.items[id := q.products]));
    RowsCommit(withItems, r, id);
  }

  lemma RowsCommit(s: System, r: nat, id: nat)
    requires r in s.requests && s.requests[r].phase == WithItems(id) && id in s.db.orders
    ensures var q := s.requests[r];
      Apply(Apply(Apply(s, InsertRedemption(r)), Commit(r)), EnqueueInvoice(r)) ==
      s.(db := s.db.(orders := s.db.orders[id := s.db.orders[id].(committed := true)],
           redemptions := if q.promo.Some? then s.db.redemptions[id := q.promo.value] else s.db.redemptions),
         requests := s.requests[r := q.(phase := Returned(id, true, true))], invoices := s.invoices + [id])
  {
    var q := s.requests[r];
    var filled := Apply(s, InsertRedemption(r));
    assert q.promo.None? ==> filled == s;
    var committed := Apply(filled, Commit(r));
    assert committed.requests == s.requests[r := q.(phase := Returned(id, true, false))];
  }

  /** A submission with a known key returns a committed order with it and changes no table. */
  lemma KnownKeyReturns(s: System, r: nat, key: Option<Key>, products: seq<nat>, promo: Option<string>)
    returns (found: nat)
    requires r !in s.requests && KeyUsed(s.db, key)
    ensures found in s.db.orders && s.db.orders[found].committed && s.db.orders[found].key == key
    ensures Apply(Apply(s, Submit(r, key, products, promo)), Read(r, found)) ==
      s.(requests := s.requests[r := Request(key, products, promo, Returned(found, false, false))])
  {
    found :| Found(s.db, key, found);
    var submitted := Apply(s, Submit(r, key, products, promo));
    assert submitted.db == s.db;
  }

  // ---------- main results ----------

  /** For any interleaving of submissions: those that return for one key return one order, and at
      most one of them created it. */
  lemma SubmissionsAgree(run: seq<Step>, a: nat, b: nat)
    requires a in Exec(run).requests && b in Exec(run).requests
    requires var s := Exec(run); s.requests[a].key.Some? && s.requests[a].key == s.requests[b].key
    requires var s := Exec(run); s.requests[a].phase.Returned? && s.requests[b].phase.Returned?
    ensures var s := Exec(run);
      && s.requests[a].phase.id == s.requests[b].phase.id
      && (s.requests[a].phase.created && s.requests[b].phase.created ==> a == b)
  {
    ReachableInv(run);
    var s := Exec(run);
    assert RequestOk(s, a, s.requests[a]) && RequestOk(s, b, s.requests[b]);
  }

  /** Invoice creation is enqueued at most once per order, only for committed orders, and so at most
      once per key. */
  lemma OneInvoicePerKey(run: seq<Step>, i: nat, j: nat)
    requires i < |Exec(run).invoices| && j < |Exec(run).invoices|
    ensures var s := Exec(run); var a := s.invoices[i]; var b := s.invoices[j];
      && a in s.db.orders && b in s.db.orders && s.db.orders[a].committed
      && (a == b || (s.db.orders[a].key.Some? && s.db.orders[a].key == s.db.orders[b].key) ==> i == j)
  {
    ReachableInv(run);
    var s := Exec(run);
    InvoiceOfOrder(s, s.invoices[i]);
    InvoiceOfOrder(s, s.invoices[j]);
    if i != j && s.invoices[i] == s.invoices[j] {
      CountTwo(s.invoices, i, j);
    }
  }

  lemma InvoiceOfOrder(s: System, id: nat)
    requires Inv(s) && id in s.invoices
    ensures id in s.db.orders && s.db.orders[id].committed
  {
    assert multiset(s.invoices)[id] > 0;
    var r :| r in s.requests && s.requests[r].phase == Returned(id, true, true);
    assert RequestOk(s, r, s.requests[r]);
  }

  lemma CountTwo(ids: seq<nat>, i: nat, j: nat)
    requires i < |ids| && j < |ids| && i != j && ids[i] == ids[j]
    ensures multiset(ids)[ids[i]] >= 2
  {
    var lo, hi := if i < j then i else j, if i < j then j else i;
    assert ids == ids[..hi] + [ids[hi]] + ids[hi + 1..];
    assert ids[lo] in ids[..hi];
  }

  /** What a finished request leaves behind: an order with all its items and its redemption if it
      created one, and no row at all otherwise. */
  lemma RollbackLeavesNothing(run: seq<Step>, r: nat)
    requires var s := Exec(run); r in s.requests && !Open(s.requests[r].phase)
    ensures var s := Exec(run); var q := s.requests[r]; var t := s.db;
      && (q.phase.Returned? && q.phase.created ==>
        && q.phase.id in t.orders && t.orders[q.phase.id].request == r && t.orders[q.phase.id].committed
        && q.phase.id in t.items && t.items[q.phase.id] == q.products
        && (if q.promo.Some? then q.phase.id in t.redemptions && t.redemptions[q.phase.id] == q.promo.value
            else q.phase.id !in t.redemptions))
      && (!(q.phase.Returned? && q.phase.created) ==> forall id :: id in t.orders ==> t.orders[id].request != r)
      && NoOrphans(t)
  {
    ReachableInv(run);
    var s := Exec(run);
    assert RequestOk(s, r, s.requests[r]);
    forall id | id in s.db.orders ensures OrderOk(s, id, s.db.orders[id]) {}
  }

  /** A request that lost the race on its key always finds the winner's order when it reads again. */
  lemma LoserFindsWinner(run: seq<Step>, r: nat) returns (found: nat)
    requires var s := Exec(run); r in s.requests && s.requests[r].phase == Conflicted(true)
    ensures var s := Exec(run);
      && Apply(s, Reread(r, found)).requests[r].phase == Returned(found, false, false)
      && Apply(s, RereadMiss(r)) == s
  {
    ReachableInv(run);
    found := WinnerOf(Exec(run), r);
  }

  lemma WinnerOf(s: System, r: nat) returns (found: nat)
    requires Inv(s) && r in s.requests && s.requests[r].phase == Conflicted(true)
    ensures Apply(s, Reread(r, found)).requests[r].phase == Returned(found, false, false) &&
      Apply(s, RereadMiss(r)) == s
  {
    assert RequestOk(s, r, s.requests[r]);
    found :| Found(s.db, s.requests[r].key, found);
  }
}
