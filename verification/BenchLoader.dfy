/**
 The benchmark's data loader (app/benchmark.go): customers, products, then orders with
 their items, in batched INSERT statements, parents before children. Random draws are
 arbitrary choices; which statements the database refuses, and when the run is found
 cancelled, are arbitrary inputs.
 */
module BenchLoader {
  const LOAD_BATCH := 500
  const ITEM_BATCH := 1000
  const MAX_ITEMS_PER_ORDER := 4
  const CUSTOMERS_PER_SF := 10000
  const PRODUCTS_PER_SF := 1000
  const ORDERS_PER_SF := 100000

  datatype Order = Order(id: int, customer: int, itemCount: int)

  datatype Item = Item(id: int, order: int, product: int)

  /** One INSERT statement. */
  datatype Insert =
    | Customers(ids: seq<int>)
    | Products(ids: seq<int>)
    | Orders(orders: seq<Order>)
    | Items(items: seq<Item>)
  {
    function Size(): nat {
      match this
      case Customers(ids) => |ids|
      case Products(ids) => |ids|
      case Orders(orders) => |orders|
      case Items(items) => |items|
    }

    /** No statement is empty, and none is larger than its batch allows. */
    predicate Bounded() {
      0 < Size() <= if Items? then ITEM_BATCH + MAX_ITEMS_PER_ORDER - 1 else LOAD_BATCH
    }
  }

  datatype Tables = Tables(customers: seq<int>, products: seq<int>, orders: seq<Order>, items: seq<Item>) {
    function Rows(): nat {
      |customers| + |products| + |orders| + |items|
    }

    function Plus(st: Insert): Tables {
      match st
      case Customers(ids) => this.(customers := customers + ids)
      case Products(ids) => this.(products := products + ids)
      case Orders(rows) => this.(orders := orders + rows)
      case Items(rows) => this.(items := items + rows)
    }

    /** The foreign keys: an order has its customer, an item its order and its product. */
    ghost predicate KeysHold() {
      && (forall o | o in orders :: o.customer in customers)
      && (forall i | i in items :: i.product in products && exists o :: o in orders && o.id == i.order)
    }
  }

  /** What the database holds after the statements of a log. */
  ghost function Replay(log: seq<Insert>): Tables {
    if log == [] then Tables([], [], [], []) else Replay(log[..|log| - 1]).Plus(log[|log| - 1])
  }

  /** The keys hold after every statement, and every statement is within bounds. */
  ghost predicate Sound(log: seq<Insert>) {
    && (forall k | 0 <= k <= |log| :: Replay(log[..k]).KeysHold())
    && (forall k | 0 <= k < |log| :: log[k].Bounded())
  }

  lemma ReplayOneMore(log: seq<Insert>, st: Insert)
    ensures Replay(log + [st]) == Replay(log).Plus(st)
  {
    assert (log + [st])[..|log|] == log;
  }

  lemma SoundOneMore(log: seq<Insert>, st: Insert)
    requires Sound(log) && st.Bounded() && Replay(log).Plus(st).KeysHold()
    ensures Sound(log + [st])
  {
    var next := log + [st];
    ReplayOneMore(log, st);
    forall k | 0 <= k <= |next|
      ensures Replay(next[..k]).KeysHold()
    {
      if k <= |log| {
        assert next[..k] == log[..k];
      } else {
        assert next[..k] == next;
      }
    }
  }

  /** The ids lo, lo + 1, ... up to but excluding hi. */
  function Ids(lo: int, hi: int): seq<int>
    requires lo <= hi
  {
    seq(hi - lo, i => lo + i)
  }

  function OrderIds(s: seq<Order>): seq<int> {
    seq(|s|, i requires 0 <= i < |s| => s[i].id)
  }

  function ItemIds(s: seq<Item>): seq<int> {
    seq(|s|, i requires 0 <= i < |s| => s[i].id)
  }

  /** Every order of the first n belongs to one of c customers; every item to one of the n orders and p products. */
  ghost predicate Refer(orders: seq<Order>, items: seq<Item>, c: int, n: int, p: int) {
    && (forall k | 0 <= k < |orders| :: 1 <= orders[k].customer <= c)
    && (forall k | 0 <= k < |items| :: 1 <= items[k].order <= n && 1 <= items[k].product <= p)
  }

  /** Numbered rows that refer to each other by number satisfy the keys. */
  lemma NumbersAreKeys(t: Tables, c: nat, p: nat)
    requires t.customers == Ids(1, c + 1) && t.products == Ids(1, p + 1)
    requires OrderIds(t.orders) == Ids(1, |t.orders| + 1)
    requires Refer(t.orders, t.items, c, |t.orders|, p)
    ensures t.KeysHold()
  {
    forall o | o in t.orders
      ensures o.customer in t.customers
    {
      assert t.customers[o.customer - 1] == o.customer;
    }
    forall i | i in t.items
      ensures i.product in t.products && exists o :: o in t.orders && o.id == i.order
    {
      assert t.products[i.product - 1] == i.product;
      assert OrderIds(t.orders)[i.order - 1] == i.order;
      assert t.orders[i.order - 1] in t.orders;
    }
  }

  // ------------------------------------------------------------ item counts

  /** How many items belong to an order. */
  ghost function Count(items: seq<Item>, order: int): nat {
    if items == [] then 0
    else Count(items[..|items| - 1], order) + if items[|items| - 1].order == order then 1 else 0
  }

  /** Every order has from one to four items, as many as it says. */
  ghost predicate Tallied(orders: seq<Order>, items: seq<Item>) {
    forall k | 0 <= k < |orders| ::
      1 <= orders[k].itemCount <= MAX_ITEMS_PER_ORDER && Count(items, orders[k].id) == orders[k].itemCount
  }

  lemma CountOneMore(items: seq<Item>, x: Item, order: int)
    ensures Count(items + [x], order) == Count(items, order) + if x.order == order then 1 else 0
  {
    assert (items + [x])[..|items|] == items;
  }

  lemma {:induction false} CountNone(items: seq<Item>, order: int)
    requires forall k | 0 <= k < |items| :: items[k].order != order
    ensures Count(items, order) == 0
  {
    if items != [] {
      CountNone(items[..|items| - 1], order);
    }
  }

  /** An item of a new order leaves the tallies of the earlier orders alone. */
  lemma TalliedItem(orders: seq<Order>, items: seq<Item>, x: Item)
    requires Tallied(orders, items) && forall k | 0 <= k < |orders| :: orders[k].id != x.order
    ensures Tallied(orders, items + [x])
  {
    forall k | 0 <= k < |orders|
      ensures Count(items + [x], orders[k].id) == orders[k].itemCount
    {
      CountOneMore(items, x, orders[k].id);
    }
  }

  /** The orders and items of a load in progress, inserted or buffered. */
  ghost function AllOrders(t: Tables, obuf: seq<Order>): seq<Order> {
    t.orders + obuf
  }

  ghost function AllItems(t: Tables, ibuf: seq<Item>): seq<Item> {
    t.items + ibuf
  }

  /** A new order starts without items, under an id no order has yet. */
  lemma NewOrder(t: Tables, obuf: seq<Order>, ibuf: seq<Item>, c: nat, p: nat, n: nat, itemID: nat)
    requires Pending(t, obuf, ibuf, c, p, n, itemID) && n == |t.orders| + |obuf|
    ensures Count(AllItems(t, ibuf), n + 1) == 0
    ensures forall k | 0 <= k < |AllOrders(t, obuf)| :: AllOrders(t, obuf)[k].id == k + 1
  {
    CountNone(AllItems(t, ibuf), n + 1);
    forall k | 0 <= k < |AllOrders(t, obuf)|
      ensures AllOrders(t, obuf)[k].id == k + 1
    {
      if k < |t.orders| {
        assert OrderIds(t.orders)[k] == k + 1;
      } else {
        assert OrderIds(obuf)[k - |t.orders|] == k + 1;
      }
    }
  }

  // ------------------------------------------------------------ numbering

  lemma IdsJoin(a: int, b: int, c: int)
    requires a <= b <= c
    ensures Ids(a, b) + Ids(b, c) == Ids(a, c)
  {
  }

  lemma IdsOneMore(a: int, b: int)
    requires a <= b
    ensures Ids(a, b) + [b] == Ids(a, b + 1)
  {
  }

  lemma Remainder(n: nat, q: int, r: int)
    requires n == LOAD_BATCH * q + r && 0 <= r < LOAD_BATCH
    ensures n % LOAD_BATCH == r
  {
  }

  /** Inserting the next ids of a numbered table that nothing refers to yet. */
  lemma NextCustomers(done: nat, id: int)
    requires done <= id
    ensures
      var t := Tables(Ids(1, done + 1), [], [], []).Plus(Customers(Ids(done + 1, id + 1)));
      t == Tables(Ids(1, id + 1), [], [], []) && t.KeysHold()
  {
    IdsJoin(1, done + 1, id + 1);
  }

  lemma NextProducts(c: nat, done: nat, id: int)
    requires done <= id
    ensures
      var t := Tables(Ids(1, c + 1), Ids(1, done + 1), [], []).Plus(Products(Ids(done + 1, id + 1)));
      t == Tables(Ids(1, c + 1), Ids(1, id + 1), [], []) && t.KeysHold()
  {
    IdsJoin(1, done + 1, id + 1);
  }

  /** Rows already inserted and rows still buffered, together numbered from 1 without a gap. */
  ghost predicate Pending(t: Tables, obuf: seq<Order>, ibuf: seq<Item>, c: nat, p: nat, n: nat, itemID: nat) {
    && t.customers == Ids(1, c + 1) && t.products == Ids(1, p + 1)
    && OrderIds(t.orders) == Ids(1, |t.orders| + 1)
    && OrderIds(obuf) == Ids(|t.orders| + 1, |t.orders| + |obuf| + 1)
    && ItemIds(t.items) == Ids(1, |t.items| + 1)
    && itemID == |t.items| + |ibuf|
    && ItemIds(ibuf) == Ids(|t.items| + 1, itemID + 1)
    && Refer(t.orders, t.items, c, |t.orders|, p) && Refer(obuf, ibuf, c, n, p)
  }

  lemma OneMoreItem(t: Tables, obuf: seq<Order>, ibuf: seq<Item>, c: nat, p: nat, n: nat, itemID: nat, product: int)
    requires Pending(t, obuf, ibuf, c, p, n, itemID) && n > 0 && 1 <= product <= p
    ensures Pending(t, obuf, ibuf + [Item(itemID + 1, n, product)], c, p, n, itemID + 1)
  {
    var next := ibuf + [Item(itemID + 1, n, product)];
    assert ItemIds(next) == ItemIds(ibuf) + [itemID + 1];
    assert Ids(|t.items| + 1, itemID + 2) == Ids(|t.items| + 1, itemID + 1) + [itemID + 1];
  }

  lemma OneMoreOrder(
    t: Tables, obuf: seq<Order>, ibuf: seq<Item>, c: nat, p: nat, n: nat, itemID: nat, customer: int, count: int)
    requires Pending(t, obuf, ibuf, c, p, n, itemID) && n == |t.orders| + |obuf| + 1 && 1 <= customer <= c
    ensures Pending(t, obuf + [Order(n, customer, count)], ibuf, c, p, n, itemID)
  {
    var next := obuf + [Order(n, customer, count)];
    assert OrderIds(next) == OrderIds(obuf) + [n];
    assert Ids(|t.orders| + 1, n + 1) == Ids(|t.orders| + 1, n) + [n];
  }

  /** Once every buffered order is in, the items that refer to it may follow. */
  lemma Flushed(t: Tables, obuf: seq<Order>, ibuf: seq<Item>, c: nat, p: nat, n: nat, itemID: nat)
    requires Pending(t, obuf, ibuf, c, p, n, itemID) && n == |t.orders| + |obuf|
    ensures Pending(t.Plus(Orders(obuf)), [], ibuf, c, p, n, itemID)
    ensures t.Plus(Orders(obuf)).KeysHold()
    ensures Pending(t.Plus(Orders(obuf)).Plus(Items(ibuf)), [], [], c, p, n, itemID)
    ensures t.Plus(Orders(obuf)).Plus(Items(ibuf)).KeysHold()
    ensures t.Rows() <= t.Plus(Orders(obuf)).Rows()
    ensures t.Plus(Orders(obuf)).Plus(Items(ibuf)).Rows() == t.Rows() + |obuf| + |ibuf|
  {
    var u := t.Plus(Orders(obuf));
    assert OrderIds(u.orders) == OrderIds(t.orders) + OrderIds(obuf);
    IdsJoin(1, |t.orders| + 1, n + 1);
    var v := u.Plus(Items(ibuf));
    assert ItemIds(v.items) == ItemIds(t.items) + ItemIds(ibuf);
    IdsJoin(1, |t.items| + 1, itemID + 1);
    NumbersAreKeys(u, c, p);
    NumbersAreKeys(v, c, p);
  }

  // ------------------------------------------------------------ whole batches

  /** How many batches n rows make, the last one perhaps not full. */
  function Batches(n: nat): nat {
    (n + LOAD_BATCH - 1) / LOAD_BATCH
  }

  lemma BatchesOf(n: nat, q: nat, r: nat)
    requires n == LOAD_BATCH * q + r && r < LOAD_BATCH
    ensures Batches(n) == if r == 0 then q else q + 1
  {
  }

  /** Orders with their items, sent because one of the two batches was full. */
  predicate FullPair(orders: Insert, items: Insert) {
    orders.Orders? && items.Items? && (orders.Size() == LOAD_BATCH || items.Size() >= ITEM_BATCH)
  }

  /** From statement base on there are only full pairs, and after none of them the run was found cancelled. */
  ghost predicate FullPairs(log: seq<Insert>, base: nat, cancelled: nat -> bool)
    decreases |log|
  {
    || |log| == base
    || (&& |log| >= base + 2
        && FullPair(log[|log| - 2], log[|log| - 1]) && !cancelled(|log|)
        && FullPairs(log[..|log| - 2], base, cancelled))
  }

  /** What a flush sends. */
  function Sent(orders: seq<Order>, items: seq<Item>): seq<Insert> {
    (if orders != [] then [Orders(orders)] else []) + (if items != [] then [Items(items)] else [])
  }

  lemma SentInTurn(log: seq<Insert>, mid: seq<Insert>, last: seq<Insert>, orders: seq<Order>, items: seq<Item>)
    requires mid == if orders != [] then log + [Orders(orders)] else log
    requires last == if items != [] then mid + [Items(items)] else mid
    ensures last == log + Sent(orders, items)
  {
  }

  lemma FullPairsGrow(
    log: seq<Insert>, base: nat, cancelled: nat -> bool, next: seq<Insert>, orders: seq<Order>, items: seq<Item>)
    requires FullPairs(log, base, cancelled) && next == log + Sent(orders, items) && !cancelled(|next|)
    requires orders != [] && items != [] && (|orders| == LOAD_BATCH || |items| >= ITEM_BATCH)
    ensures FullPairs(next, base, cancelled)
  {
    assert next[..|next| - 2] == log;
    FullPairsBase(log, base, cancelled);
  }

  lemma FullPairsBase(log: seq<Insert>, base: nat, cancelled: nat -> bool)
    requires FullPairs(log, base, cancelled)
    ensures |log| >= base
  {
  }

  lemma NothingPending(t: Tables, c: nat, p: nat)
    requires t == Tables(Ids(1, c + 1), Ids(1, p + 1), [], [])
    ensures Pending(t, [], [], c, p, 0, 0) && Tallied(AllOrders(t, []), AllItems(t, []))
  {
  }

  class Loader {
    /** Whether the database refuses the statement that comes after so many others. */
    const refused: nat -> bool
    /** Whether the run is found cancelled after so many statements. */
    const cancelled: nat -> bool

    var obuf: seq<Order>
    var ibuf: seq<Item>
    var itemID: nat
    var log: seq<Insert>
    var rowsLoaded: int

    constructor (refused: nat -> bool, cancelled: nat -> bool)
      ensures log == [] && rowsLoaded == 0
      ensures this.refused == refused && this.cancelled == cancelled
    {
      this.refused, this.cancelled := refused, cancelled;
      log, rowsLoaded := [], 0;
      obuf, ibuf, itemID := [], [], 0;
    }

    /** Why a load ends early. */
    predicate Interrupted()
      reads this`log
    {
      refused(|log|) || cancelled(|log|)
    }

    /** One statement; the caller owes the proof that the keys hold after it. It fails if it is refused. */
    method InsertBatch(st: Insert) returns (ok: bool)
      requires Sound(log) && (st.Size() > 0 ==> st.Bounded() && Replay(log).Plus(st).KeysHold())
      modifies this`log
      ensures Sound(log)
      ensures ok <==> st.Size() == 0 || !refused(old(|log|))
      ensures ok ==> Replay(log) == Replay(old(log)).Plus(st)
      ensures log == if ok && st.Size() > 0 then old(log) + [st] else old(log)
    {
      if st.Size() == 0 {
        return true;
      }
      ok := !refused(|log|);
      if ok {
        ReplayOneMore(log, st);
        SoundOneMore(log, st);
        log := log + [st];
      }
    }

    /** A full batch of customers, and a look whether the run is cancelled. */
    method SendCustomers(buf: seq<int>, ghost done: nat, ghost id: nat) returns (ok: bool)
      requires Sound(log) && Replay(log) == Tables(Ids(1, done + 1), [], [], []) && rowsLoaded == done
      requires done <= id && buf == Ids(done + 1, id + 1) && |buf| == LOAD_BATCH
      modifies this`log, this`rowsLoaded
      ensures Sound(log) && rowsLoaded <= Replay(log).Rows()
      ensures ok <==> !refused(|old(log)|) && !cancelled(|log|) && log != old(log)
      ensures !ok ==> Interrupted()
      ensures ok ==>
        |log| == |old(log)| + 1 && rowsLoaded == id && Replay(log) == Tables(Ids(1, id + 1), [], [], [])
    {
      NextCustomers(done, id);
      ok := InsertBatch(Customers(buf));
      if !ok { return false; }
      rowsLoaded := rowsLoaded + LOAD_BATCH;
      if cancelled(|log|) { return false; }
    }

    method LoadCustomers(n: nat) returns (ok: bool)
      requires log == [] && rowsLoaded == 0
      modifies this`log, this`rowsLoaded
      ensures Sound(log) && rowsLoaded <= Replay(log).Rows()
      ensures !ok ==> Interrupted()
      ensures ok ==> Replay(log) == Tables(Ids(1, n + 1), [], [], []) && |log| == Batches(n)
      ensures ok ==> forall k | 1 <= k <= n / LOAD_BATCH :: !cancelled(k)
      ensures ok ==> rowsLoaded == n - n % LOAD_BATCH
    {
      var buf := [];
      ghost var done, batches := 0, 0;
      for id := 1 to n + 1
        invariant Sound(log) && |buf| < LOAD_BATCH
        invariant 0 <= done == id - 1 - |buf| && done == LOAD_BATCH * batches && rowsLoaded == done
        invariant Replay(log) == Tables(Ids(1, done + 1), [], [], []) && buf == Ids(done + 1, id)
        invariant |log| == batches && forall k | 1 <= k <= batches :: !cancelled(k)
      {
        IdsOneMore(done + 1, id);
        buf := buf + [id];
        if |buf| >= LOAD_BATCH {
          ok := SendCustomers(buf, done, id);
          if !ok { return false; }
          buf := [];
          done, batches := id, batches + 1;
        }
      }
      NextCustomers(done, n);
      Remainder(n, batches, |buf|);
      BatchesOf(n, batches, |buf|);
      ok := InsertBatch(Customers(buf));
    }

    /** A full batch of products. */
    method SendProducts(buf: seq<int>, ghost c: nat, ghost done: nat, ghost id: nat) returns (ok: bool)
      requires Sound(log) && Replay(log) == Tables(Ids(1, c + 1), Ids(1, done + 1), [], [])
      requires rowsLoaded <= c + done <= c + id && buf == Ids(done + 1, id + 1) && |buf| == LOAD_BATCH
      modifies this`log, this`rowsLoaded
      ensures Sound(log) && rowsLoaded <= Replay(log).Rows()
      ensures ok <==> !refused(|old(log)|)
      ensures !ok ==> Interrupted()
      ensures ok ==>
        && |log| == |old(log)| + 1 && rowsLoaded == old(rowsLoaded) + LOAD_BATCH
        && Replay(log) == Tables(Ids(1, c + 1), Ids(1, id + 1), [], [])
    {
      NextProducts(c, done, id);
      ok := InsertBatch(Products(buf));
      if !ok { return false; }
      rowsLoaded := rowsLoaded + LOAD_BATCH;
    }

    method LoadProducts(c: nat, n: nat) returns (ok: bool)
      requires Sound(log) && Replay(log) == Tables(Ids(1, c + 1), [], [], [])
      requires rowsLoaded <= c
      modifies this`log, this`rowsLoaded
      ensures Sound(log) && rowsLoaded <= Replay(log).Rows()
      ensures !ok ==> Interrupted()
      ensures ok ==> Replay(log) == Tables(Ids(1, c + 1), Ids(1, n + 1), [], []) && |log| == |old(log)| + Batches(n)
      ensures ok ==> rowsLoaded == old(rowsLoaded) + n - n % LOAD_BATCH
    {
      var buf := [];
      ghost var done, batches := 0, 0;
      for id := 1 to n + 1
        invariant Sound(log) && |buf| < LOAD_BATCH
        invariant 0 <= done == id - 1 - |buf| && done == LOAD_BATCH * batches && rowsLoaded == old(rowsLoaded) + done
        invariant Replay(log) == Tables(Ids(1, c + 1), Ids(1, done + 1), [], []) && buf == Ids(done + 1, id)
        invariant |log| == |old(log)| + batches
      {
        IdsOneMore(done + 1, id);
        buf := buf + [id];
        if |buf| >= LOAD_BATCH {
          ok := SendProducts(buf, c, done, id);
          if !ok { return false; }
          buf := [];
          done, batches := id, batches + 1;
        }
      }
      NextProducts(c, done, n);
      Remainder(n, batches, |buf|);
      BatchesOf(n, batches, |buf|);
      ok := InsertBatch(Products(buf));
    }

    /** Two statements, parents before children. */
    method SendPair(orders: seq<Order>, items: seq<Item>, ghost c: nat, ghost p: nat, ghost n: nat) returns (ok: bool)
      requires Sound(log) && n == |Replay(log).orders| + |orders|
      requires Pending(Replay(log), orders, items, c, p, n, itemID)
      requires |orders| <= LOAD_BATCH && |items| <= ITEM_BATCH + MAX_ITEMS_PER_ORDER - 1
      modifies this`log
      ensures Sound(log)
      ensures !ok ==> refused(|log|) && old(Replay(log)).Rows() <= Replay(log).Rows()
      ensures ok ==> log == old(log) + Sent(orders, items)
      ensures ok ==> Replay(log) == old(Replay(log)).Plus(Orders(orders)).Plus(Items(items))
    {
      ghost var was := log;
      Flushed(Replay(log), orders, items, c, p, n, itemID);
      ok := InsertBatch(Orders(orders));
      if !ok { return; }
      ghost var mid := log;
      ok := InsertBatch(Items(items));
      if !ok { return; }
      SentInTurn(was, mid, log, orders, items);
    }

    /** The buffered orders, and only then the buffered items. */
    method Flush(ghost c: nat, ghost p: nat, ghost n: nat) returns (ok: bool)
      requires Sound(log) && n == |Replay(log).orders| + |obuf| && Pending(Replay(log), obuf, ibuf, c, p, n, itemID)
      requires |obuf| <= LOAD_BATCH && |ibuf| <= ITEM_BATCH + MAX_ITEMS_PER_ORDER - 1
      requires rowsLoaded <= Replay(log).Rows()
      modifies this`log, this`rowsLoaded, this`obuf, this`ibuf
      ensures Sound(log) && rowsLoaded <= Replay(log).Rows()
      ensures !ok ==> refused(|log|)
      ensures ok ==> log == old(log) + Sent(old(obuf), old(ibuf))
      ensures ok ==> Replay(log).orders == old(AllOrders(Replay(log), obuf))
      ensures ok ==> Replay(log).items == old(AllItems(Replay(log), ibuf))
      ensures ok ==> obuf == [] && ibuf == [] && Pending(Replay(log), [], [], c, p, n, itemID)
      ensures ok ==> |Replay(log).orders| == n
      ensures ok ==> rowsLoaded - Replay(log).Rows() == old(rowsLoaded - Replay(log).Rows())
    {
      Flushed(Replay(log), obuf, ibuf, c, p, n, itemID);
      ok := SendPair(obuf, ibuf, c, p, n);
      if !ok { return; }
      rowsLoaded := rowsLoaded + |obuf| + |ibuf|;
      obuf, ibuf := [], [];
    }

    /** The items of one order, numbered on from the last. */
    method DrawItems(oid: nat, nItems: nat, ghost c: nat, p: nat)
      requires oid > 0 && p > 0 && Pending(Replay(log), obuf, ibuf, c, p, oid, itemID)
      requires forall k | 0 <= k < |AllOrders(Replay(log), obuf)| :: AllOrders(Replay(log), obuf)[k].id != oid
      requires Tallied(AllOrders(Replay(log), obuf), AllItems(Replay(log), ibuf))
      modifies this`ibuf, this`itemID
      ensures Pending(Replay(log), obuf, ibuf, c, p, oid, itemID) && |ibuf| == |old(ibuf)| + nItems
      ensures Tallied(AllOrders(Replay(log), obuf), AllItems(Replay(log), ibuf))
      ensures Count(AllItems(Replay(log), ibuf), oid) == old(Count(AllItems(Replay(log), ibuf), oid)) + nItems
    {
      for k := 0 to nItems
        invariant Pending(Replay(log), obuf, ibuf, c, p, oid, itemID) && |ibuf| == |old(ibuf)| + k
        invariant Tallied(AllOrders(Replay(log), obuf), AllItems(Replay(log), ibuf))
        invariant Count(AllItems(Replay(log), ibuf), oid) == old(Count(AllItems(Replay(log), ibuf), oid)) + k
      {
        var product :| 1 <= product <= p;
        DrawOne(oid, product, c, p);
      }
    }

    method DrawOne(oid: nat, product: int, ghost c: nat, ghost p: nat)
      requires oid > 0 && 1 <= product <= p && Pending(Replay(log), obuf, ibuf, c, p, oid, itemID)
      requires forall k | 0 <= k < |AllOrders(Replay(log), obuf)| :: AllOrders(Replay(log), obuf)[k].id != oid
      requires Tallied(AllOrders(Replay(log), obuf), AllItems(Replay(log), ibuf))
      modifies this`ibuf, this`itemID
      ensures Pending(Replay(log), obuf, ibuf, c, p, oid, itemID) && |ibuf| == |old(ibuf)| + 1
      ensures Tallied(AllOrders(Replay(log), obuf), AllItems(Replay(log), ibuf))
      ensures Count(AllItems(Replay(log), ibuf), oid) == old(Count(AllItems(Replay(log), ibuf), oid)) + 1
    {
      ghost var t, x := Replay(log), Item(itemID + 1, oid, product);
      OneMoreItem(t, obuf, ibuf, c, p, oid, itemID, product);
      TalliedItem(AllOrders(t, obuf), AllItems(t, ibuf), x);
      CountOneMore(AllItems(t, ibuf), x, oid);
      assert AllItems(t, ibuf + [x]) == AllItems(t, ibuf) + [x];
      itemID := itemID + 1;
      ibuf := ibuf + [Item(itemID, oid, product)];
    }

    /** How things stand after n orders: nothing lost, numbered and tallied, and neither buffer full. */
    ghost predicate Going(n: nat, c: nat, p: nat, base: nat, lag: int)
      reads this
    {
      && Sound(log) && |obuf| < LOAD_BATCH && |ibuf| < ITEM_BATCH
      && n == |Replay(log).orders| + |obuf| && Pending(Replay(log), obuf, ibuf, c, p, n, itemID)
      && Tallied(AllOrders(Replay(log), obuf), AllItems(Replay(log), ibuf))
      && FullPairs(log, base, cancelled)
      && rowsLoaded <= Replay(log).Rows() && rowsLoaded - Replay(log).Rows() == lag
    }

    /** One order and its items, flushed when a batch is full. */
    method LoadOrder(oid: nat, c: nat, p: nat, ghost base: nat, ghost lag: int) returns (ok: bool)
      requires c > 0 && p > 0 && oid > 0 && Going(oid - 1, c, p, base, lag)
      modifies this
      ensures Sound(log) && rowsLoaded <= Replay(log).Rows()
      ensures !ok ==> Interrupted()
      ensures ok ==> Going(oid, c, p, base, lag)
    {
      var cust :| 1 <= cust <= c;
      var nItems :| 1 <= nItems <= MAX_ITEMS_PER_ORDER;
      AddOrder(oid, cust, nItems, c, p);
      ok := true;
      if |obuf| >= LOAD_BATCH || |ibuf| >= ITEM_BATCH {
        ghost var before, orders, items := log, obuf, ibuf;
        ok := Flush(c, p, oid);
        assert ok ==>
          AllOrders(Replay(log), []) == Replay(log).orders && AllItems(Replay(log), []) == Replay(log).items;
        if ok && cancelled(|log|) { return false; }
        if ok {
          FullPairsGrow(before, base, cancelled, log, orders, items);
        }
      }
    }

    /** An order and its items join the buffers. */
    method AddOrder(oid: nat, cust: nat, nItems: nat, ghost c: nat, p: nat)
      requires p > 0 && 1 <= cust <= c && 1 <= nItems <= MAX_ITEMS_PER_ORDER
      requires oid == |Replay(log).orders| + |obuf| + 1 && Pending(Replay(log), obuf, ibuf, c, p, oid - 1, itemID)
      requires Tallied(AllOrders(Replay(log), obuf), AllItems(Replay(log), ibuf))
      modifies this`obuf, this`ibuf, this`itemID
      ensures |obuf| == |old(obuf)| + 1 && |ibuf| == |old(ibuf)| + nItems
      ensures Pending(Replay(log), obuf, ibuf, c, p, oid, itemID)
      ensures Tallied(AllOrders(Replay(log), obuf), AllItems(Replay(log), ibuf))
    {
      ghost var t := Replay(log);
      NewOrder(t, obuf, ibuf, c, p, oid - 1, itemID);
      DrawItems(oid, nItems, c, p);
      OneMoreOrder(t, obuf, ibuf, c, p, oid, itemID, cust, nItems);
      ghost var o := Order(oid, cust, nItems);
      assert AllOrders(t, obuf + [o]) == AllOrders(t, obuf) + [o];
      obuf := obuf + [Order(oid, cust, nItems)];
    }

    /** What is left in the buffers at the end. */
    method LastFlush(ghost c: nat, ghost p: nat, ghost n: nat, ghost base: nat, ghost lag: int) returns (ok: bool)
      requires Going(n, c, p, base, lag)
      modifies this`log, this`rowsLoaded, this`obuf, this`ibuf
      ensures Sound(log) && rowsLoaded <= Replay(log).Rows()
      ensures !ok ==> Interrupted()
      ensures ok ==> exists m | base <= m <= |log| <= m + 2 :: FullPairs(log[..m], base, cancelled)
      ensures ok ==> Pending(Replay(log), [], [], c, p, n, itemID) && |Replay(log).orders| == n
      ensures ok ==> Tallied(Replay(log).orders, Replay(log).items)
      ensures ok ==> rowsLoaded - Replay(log).Rows() == lag
    {
      ghost var full := log;
      FullPairsBase(log, base, cancelled);
      ok := Flush(c, p, n);
      assert ok ==> log[..|full|] == full;
    }

    method LoadOrders(c: nat, p: nat, n: nat) returns (ok: bool)
      requires Sound(log) && Replay(log) == Tables(Ids(1, c + 1), Ids(1, p + 1), [], [])
      requires n > 0 ==> c > 0 && p > 0
      requires rowsLoaded <= Replay(log).Rows()
      modifies this
      ensures Sound(log) && rowsLoaded <= Replay(log).Rows()
      ensures !ok ==> Interrupted()
      ensures ok ==> exists m | |old(log)| <= m <= |log| <= m + 2 :: FullPairs(log[..m], |old(log)|, cancelled)
      ensures ok ==> Pending(Replay(log), [], [], c, p, n, itemID) && |Replay(log).orders| == n
      ensures ok ==> Tallied(Replay(log).orders, Replay(log).items)
      ensures ok ==> rowsLoaded - Replay(log).Rows() == old(rowsLoaded - Replay(log).Rows())
    {
      obuf, ibuf, itemID := [], [], 0;
      ghost var base, lag := |log|, rowsLoaded - Replay(log).Rows();
      NothingPending(Replay(log), c, p);
      for oid := 1 to n + 1
        invariant Going(oid - 1, c, p, base, lag)
      {
        ok := LoadOrder(oid, c, p, base, lag);
        if !ok { return; }
      }
      ok := LastFlush(c, p, n, base, lag);
    }

    /**
     The whole load, for any counts. Whether it completes, fails or is cancelled, the
     foreign keys hold after every statement it sent, every statement is within bounds and
     the progress counter is not ahead of the rows; and it ends early only if a statement
     was refused or the run was found cancelled. If it completes, the batches were full but
     for the last of each kind, it was cancelled at none of the points where it looks, every
     table holds its ids from 1 on exactly once and in order, every order has the one to four
     items it says, and the progress counter is short of the rows by exactly the remainders
     of the two batched tables.
     */
    method Load(c: nat, p: nat, n: nat) returns (ok: bool)
      requires log == [] && rowsLoaded == 0
      requires n > 0 ==> c > 0 && p > 0
      modifies this
      ensures Sound(log) && rowsLoaded <= Replay(log).Rows()
      ensures !ok ==> Interrupted()
      ensures ok ==> forall k | 1 <= k <= c / LOAD_BATCH :: !cancelled(k)
      ensures ok ==>
        var base := Batches(c) + Batches(p);
        exists m | base <= m <= |log| <= m + 2 :: FullPairs(log[..m], base, cancelled)
      ensures ok ==>
        var t := Replay(log);
        && t.customers == Ids(1, c + 1) && t.products == Ids(1, p + 1)
        && OrderIds(t.orders) == Ids(1, n + 1) && ItemIds(t.items) == Ids(1, |t.items| + 1)
        && Tallied(t.orders, t.items)
        && rowsLoaded == t.Rows() - c % LOAD_BATCH - p % LOAD_BATCH
    {
      ok := LoadCustomers(c);
      if !ok { return; }
      ok := LoadProducts(c, p);
      if !ok { return; }
      ok := LoadOrders(c, p, n);
    }
  }

  /** At every scale the batches divide the customers and the products, so the counter is exact. */
  lemma ScaleIsExact(sf: nat)
    ensures (CUSTOMERS_PER_SF * sf) % LOAD_BATCH == 0 && (PRODUCTS_PER_SF * sf) % LOAD_BATCH == 0
  {
    MultipleOfBatch(20 * sf);
    MultipleOfBatch(2 * sf);
  }

  lemma MultipleOfBatch(q: nat)
    ensures (500 * q) % LOAD_BATCH == 0
  {
  }

  /** The load as a run starts it: the progress counter ends at exactly the rows in the database. */
  method LoadAtScale(sf: nat, refused: nat -> bool, cancelled: nat -> bool) returns (loader: Loader, ok: bool)
    requires sf > 0
    ensures Sound(loader.log)
    ensures !ok ==> refused(|loader.log|) || cancelled(|loader.log|)
    ensures ok ==>
      var t := Replay(loader.log);
      && t.customers == Ids(1, CUSTOMERS_PER_SF * sf + 1) && t.products == Ids(1, PRODUCTS_PER_SF * sf + 1)
      && OrderIds(t.orders) == Ids(1, ORDERS_PER_SF * sf + 1) && ItemIds(t.items) == Ids(1, |t.items| + 1)
      && Tallied(t.orders, t.items)
      && loader.rowsLoaded == t.Rows()
  {
    loader := new Loader(refused, cancelled);
    ScaleIsExact(sf);
    ok := loader.Load(CUSTOMERS_PER_SF * sf, PRODUCTS_PER_SF * sf, ORDERS_PER_SF * sf);
  }
}
