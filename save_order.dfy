/**
 * `POST /api/v1/orders/save-order`: validate the order, store it with its line items, and, in one
 * all-or-nothing transaction, take each line's stock (and its gifts) out of the products,
 * appending one OUT ledger row per decrement.
 *
 * The per-line and per-gift updates run under `Promise.all` in the source; every one of them only
 * subtracts from a quantity and appends a row, so they are modelled as a fold over a plan of
 * decrements, in line order and, within a line, main product first and then the gift tiers.
 */
module SaveOrder {
  import opened Wrappers
  import opened Store
  import opened OrderSchema
  import opened Zod

  const BySystem: string := "By System"
  const GiftBySystem: string := "Gift by System"

  /** The product an update names: by its id, or by its unique `product_number`. */
  datatype Target = ById(id: int) | ByNumber(number: int)

  /** One `quantity: { decrement }` update together with the OUT ledger row it creates. */
  datatype Decrement = Decrement(target: Target, amount: int, remark: string)

  /** The quantities and the ledger the transaction works on. */
  datatype Stock = Stock(products: map<int, Product>, ledger: seq<Movement>)

  /**
   * A line's own decrement: a bundle line takes `pack × quantity` from the bundle's product (by
   * id); any other line takes `quantity` from the product whose number is the line's
   * `shop_product_id`.
   */
  function MainDecrement(d: Detail, bundles: map<int, Bundle>): (r: Decrement)
    ensures r.remark == BySystem
    ensures d.shopProductId in bundles ==>
      r.target == ById(bundles[d.shopProductId].productId) && r.amount == bundles[d.shopProductId].pack * d.quantity
    ensures d.shopProductId !in bundles ==> r.target == ByNumber(d.shopProductId) && r.amount == d.quantity
  {
    if d.shopProductId in bundles then
      var b := bundles[d.shopProductId];
      Decrement(ById(b.productId), b.pack * d.quantity, BySystem)
    else
      Decrement(ByNumber(d.shopProductId), d.quantity, BySystem)
  }

  /** The gift decrements of a line: one per tier with a positive count, always by `product_number`. */
  function GiftPlan(number: int, gifts: seq<int>): (r: seq<Decrement>)
    ensures |r| == NonZero(gifts)
    ensures forall k :: 0 <= k < |r| ==> r[k].target == ByNumber(number) && r[k].amount > 0 && r[k].remark == GiftBySystem
  {
    if gifts == [] then []
    else
      var last := gifts[|gifts| - 1];
      GiftPlan(number, gifts[..|gifts| - 1])
      + (if last > 0 then [Decrement(ByNumber(number), last, GiftBySystem)] else [])
  }

  /** The number of positive counts. */
  function NonZero(gifts: seq<int>): nat {
    if gifts == [] then 0
    else NonZero(gifts[..|gifts| - 1]) + (if gifts[|gifts| - 1] > 0 then 1 else 0)
  }

  function LinePlan(d: Detail, bundles: map<int, Bundle>): (r: seq<Decrement>)
    ensures |r| == 1 + NonZero(d.gifts) && r[0] == MainDecrement(d, bundles)
  {
    [MainDecrement(d, bundles)] + GiftPlan(d.shopProductId, d.gifts)
  }

  /** The decrements of all the lines, in line order. */
  function Plan(ds: seq<Detail>, bundles: map<int, Bundle>): seq<Decrement> {
    if ds == [] then [] else Plan(ds[..|ds| - 1], bundles) + LinePlan(ds[|ds| - 1], bundles)
  }

  /** The product a target names, if there is one; a `product_number` is looked up in the index. */
  function Resolve(t: Target, products: map<int, Product>, byNumber: map<int, int>): (r: Option<int>)
    ensures r.Some? ==> r.value in products
  {
    match t
    case ById(id) => if id in products then Some(id) else None
    case ByNumber(n) => if n in byNumber && byNumber[n] in products then Some(byNumber[n]) else None
  }

  /** One decrement: `None` for a missing product (Prisma's "record not found"). */
  function Step(x: Decrement, s: Stock, byNumber: map<int, int>, now: int): (r: Option<Stock>)
    ensures r.Some? <==> Resolve(x.target, s.products, byNumber).Some?
    ensures r.Some? ==> r.value.products.Keys == s.products.Keys && |r.value.ledger| == |s.ledger| + 1
  {
    match Resolve(x.target, s.products, byNumber)
    case None => None
    case Some(id) =>
      var p := s.products[id];
      Some(Stock(s.products[id := p.(quantity := p.quantity - x.amount)],
                 s.ledger + [Movement(id, OUT, x.amount, Some(x.remark), None, now)]))
  }

  /** The decrements in order; the first one whose product is missing aborts the lot. */
  function ApplyAll(plan: seq<Decrement>, s: Stock, byNumber: map<int, int>, now: int): (r: Option<Stock>)
  {
    if plan == [] then Some(s)
    else
      match ApplyAll(plan[..|plan| - 1], s, byNumber, now)
      case None => None
      case Some(t) => Step(plan[|plan| - 1], t, byNumber, now)
  }

  /** The total the plan takes from product `id`. */
  function Demand(plan: seq<Decrement>, id: int, products: map<int, Product>, byNumber: map<int, int>): (r: int)
    ensures (forall k :: 0 <= k < |plan| ==> plan[k].amount >= 0) ==> r >= 0
  {
    if plan == [] then 0
    else
      var last := plan[|plan| - 1];
      Demand(plan[..|plan| - 1], id, products, byNumber)
      + (if Resolve(last.target, products, byNumber) == Some(id) then last.amount else 0)
  }

  /** The ledger rows the plan appends: one OUT row per decrement, for the product it names. */
  function Rows(plan: seq<Decrement>, products: map<int, Product>, byNumber: map<int, int>, now: int): (r: seq<Movement>)
    ensures |r| <= |plan|
  {
    if plan == [] then []
    else
      var last := plan[|plan| - 1];
      Rows(plan[..|plan| - 1], products, byNumber, now)
      + match Resolve(last.target, products, byNumber)
        case None => []
        case Some(id) => [Movement(id, OUT, last.amount, Some(last.remark), None, now)]
  }

  /** `after` holds the same products as `before`, with only their quantities changed. */
  predicate SameCatalogue(before: map<int, Product>, after: map<int, Product>) {
    && before.Keys == after.Keys
    && forall id :: id in before ==> after[id] == before[id].(quantity := after[id].quantity)
  }

  lemma ResolveSameKeys(t: Target, p1: map<int, Product>, p2: map<int, Product>, byNumber: map<int, int>)
    requires p1.Keys == p2.Keys
    ensures Resolve(t, p1, byNumber) == Resolve(t, p2, byNumber)
  {
  }

  /**
   * What a successful plan does: no product appears or disappears and only quantities change,
   * each product loses exactly what the plan demands of it (with no lower bound), and the
   * ledger grows by exactly the plan's rows.
   */
  lemma {:induction false} ApplyAllEffect(plan: seq<Decrement>, s: Stock, byNumber: map<int, int>, now: int)
    requires ApplyAll(plan, s, byNumber, now).Some?
    ensures var t := ApplyAll(plan, s, byNumber, now).value;
      && SameCatalogue(s.products, t.products)
      && (forall id :: id in s.products ==>
            t.products[id].quantity == s.products[id].quantity - Demand(plan, id, s.products, byNumber))
      && t.ledger == s.ledger + Rows(plan, s.products, byNumber, now)
  {
    if plan == [] {
      assert s.ledger + [] == s.ledger;
    } else {
      var prefix, last := plan[..|plan| - 1], plan[|plan| - 1];
      ApplyAllEffect(prefix, s, byNumber, now);
      var u := ApplyAll(prefix, s, byNumber, now).value;
      var t := ApplyAll(plan, s, byNumber, now).value;
      ResolveSameKeys(last.target, s.products, u.products, byNumber);
      assert t.ledger == s.ledger + Rows(plan, s.products, byNumber, now);
    }
  }

  /** A plan goes through exactly when every decrement names an existing product. */
  lemma {:induction false} ApplyAllSucceeds(plan: seq<Decrement>, s: Stock, byNumber: map<int, int>, now: int)
    ensures ApplyAll(plan, s, byNumber, now).Some? <==>
      forall k :: 0 <= k < |plan| ==> Resolve(plan[k].target, s.products, byNumber).Some?
  {
    if plan != [] {
      var prefix, last := plan[..|plan| - 1], plan[|plan| - 1];
      ApplyAllSucceeds(prefix, s, byNumber, now);
      if ApplyAll(prefix, s, byNumber, now).Some? {
        ApplyAllEffect(prefix, s, byNumber, now);
        ResolveSameKeys(last.target, s.products, ApplyAll(prefix, s, byNumber, now).value.products, byNumber);
      }
      if forall k :: 0 <= k < |plan| ==> Resolve(plan[k].target, s.products, byNumber).Some? {
        assert forall k :: 0 <= k < |prefix| ==> prefix[k] == plan[k];
      } else {
        var k :| 0 <= k < |plan| && Resolve(plan[k].target, s.products, byNumber).None?;
        if k < |prefix| {
          assert prefix[k] == plan[k];
        }
      }
    }
  }

  lemma LedgerSumSnoc(ledger: seq<Movement>, m: Movement, id: int)
    ensures LedgerSum(ledger + [m], id) == LedgerSum(ledger, id) + (if m.productId == id then Signed(m) else 0)
  {
    assert (ledger + [m])[..|ledger|] == ledger;
  }

  lemma StepKeepsConsistent(x: Decrement, s: Stock, byNumber: map<int, int>, now: int)
    requires Step(x, s, byNumber, now).Some?
    requires Consistent(s.products, s.ledger)
    ensures var t := Step(x, s, byNumber, now).value; Consistent(t.products, t.ledger)
  {
    var id := Resolve(x.target, s.products, byNumber).value;
    var m := Movement(id, OUT, x.amount, Some(x.remark), None, now);
    var p := s.products[id];
    assert Step(x, s, byNumber, now).value == Stock(s.products[id := p.(quantity := p.quantity - x.amount)], s.ledger + [m]);
    DecrementKeepsConsistent(s.products, s.ledger, id, x.amount, m);
  }

  /** Lowering one quantity by `amount` while logging a row worth `-amount` for it keeps the sums. */
  lemma DecrementKeepsConsistent(products: map<int, Product>, ledger: seq<Movement>, id: int, amount: int, m: Movement)
    requires id in products && Consistent(products, ledger)
    requires m.productId == id && Signed(m) == -amount
    ensures Consistent(products[id := products[id].(quantity := products[id].quantity - amount)], ledger + [m])
  {
    var after := products[id := products[id].(quantity := products[id].quantity - amount)];
    forall j | j in after
      ensures after[j].quantity == LedgerSum(ledger + [m], j)
    {
      LedgerSumSnoc(ledger, m, j);
    }
  }

  /**
   * The transaction keeps the ledger invariant: if every quantity was the signed sum of its
   * ledger rows before, it still is after, because each decrement is matched by an OUT row of
   * the same amount for the same product.
   */
  lemma {:induction false} ApplyAllKeepsConsistent(plan: seq<Decrement>, s: Stock, byNumber: map<int, int>, now: int)
    requires ApplyAll(plan, s, byNumber, now).Some?
    requires Consistent(s.products, s.ledger)
    ensures var t := ApplyAll(plan, s, byNumber, now).value; Consistent(t.products, t.ledger)
  {
    if plan != [] {
      var prefix := plan[..|plan| - 1];
      ApplyAllKeepsConsistent(prefix, s, byNumber, now);
      StepKeepsConsistent(plan[|plan| - 1], ApplyAll(prefix, s, byNumber, now).value, byNumber, now);
    }
  }

  /** Every row the transaction appends belongs to a product that exists. */
  lemma {:induction false} ApplyAllKeepsOwned(plan: seq<Decrement>, s: Stock, byNumber: map<int, int>, now: int)
    requires ApplyAll(plan, s, byNumber, now).Some?
    requires LedgerOwned(s.products, s.ledger)
    ensures var t := ApplyAll(plan, s, byNumber, now).value; LedgerOwned(t.products, t.ledger)
  {
    if plan != [] {
      var prefix := plan[..|plan| - 1];
      ApplyAllKeepsOwned(prefix, s, byNumber, now);
      var u := ApplyAll(prefix, s, byNumber, now).value;
      assert Step(plan[|plan| - 1], u, byNumber, now).Some?;
    }
  }

  /** The product index, the ledger ownership and the id counter's bound survive the transaction. */
  lemma ApplyAllKeepsIndex(plan: seq<Decrement>, s: Stock, byNumber: map<int, int>, now: int, nextId: int)
    requires ApplyAll(plan, s, byNumber, now).Some?
    requires IndexValid(s.products, byNumber) && LedgerOwned(s.products, s.ledger)
    requires forall id :: id in s.products ==> id < nextId
    ensures var t := ApplyAll(plan, s, byNumber, now).value;
      && IndexValid(t.products, byNumber) && LedgerOwned(t.products, t.ledger)
      && forall id :: id in t.products ==> id < nextId
  {
    ApplyAllEffect(plan, s, byNumber, now);
    ApplyAllKeepsOwned(plan, s, byNumber, now);
    var t := ApplyAll(plan, s, byNumber, now).value;
    assert forall id :: id in t.products ==> t.products[id].productNumber == s.products[id].productNumber;
  }

  lemma {:induction false} DemandAppend(a: seq<Decrement>, b: seq<Decrement>, id: int, products: map<int, Product>, byNumber: map<int, int>)
    ensures Demand(a + b, id, products, byNumber) == Demand(a, id, products, byNumber) + Demand(b, id, products, byNumber)
  {
    if b == [] {
      assert a + b == a;
    } else {
      var b0 := b[..|b| - 1];
      assert (a + b)[..|a + b| - 1] == a + b0;
      DemandAppend(a, b0, id, products, byNumber);
    }
  }

  lemma {:induction false} RowsAppend(a: seq<Decrement>, b: seq<Decrement>, products: map<int, Product>, byNumber: map<int, int>, now: int)
    ensures Rows(a + b, products, byNumber, now) == Rows(a, products, byNumber, now) + Rows(b, products, byNumber, now)
  {
    if b == [] {
      assert a + b == a;
    } else {
      var b0 := b[..|b| - 1];
      assert (a + b)[..|a + b| - 1] == a + b0;
      RowsAppend(a, b0, products, byNumber, now);
    }
  }

  lemma {:induction false} PlanAppend(a: seq<Detail>, b: seq<Detail>, bundles: map<int, Bundle>)
    ensures Plan(a + b, bundles) == Plan(a, bundles) + Plan(b, bundles)
  {
    if b == [] {
      assert a + b == a;
    } else {
      var b0 := b[..|b| - 1];
      assert (a + b)[..|a + b| - 1] == a + b0;
      assert (a + b)[|a + b| - 1] == b[|b| - 1];
      PlanAppend(a, b0, bundles);
      var line := LinePlan(b[|b| - 1], bundles);
      assert Plan(a + b, bundles) == Plan(a + b0, bundles) + line;
      assert Plan(b, bundles) == Plan(b0, bundles) + line;
      assert (Plan(a, bundles) + Plan(b0, bundles)) + line == Plan(a, bundles) + (Plan(b0, bundles) + line);
    }
  }

  /** The number of gift tiers with a positive count, over all lines. */
  function GiftCount(ds: seq<Detail>): nat {
    if ds == [] then 0 else GiftCount(ds[..|ds| - 1]) + NonZero(ds[|ds| - 1].gifts)
  }

  /** One decrement (and one ledger row) per line item, plus one per positive gift count. */
  lemma {:induction false} PlanLength(ds: seq<Detail>, bundles: map<int, Bundle>)
    ensures |Plan(ds, bundles)| == |ds| + GiftCount(ds)
  {
    if ds != [] {
      PlanLength(ds[..|ds| - 1], bundles);
    }
  }

  lemma SwapResolves(pa: seq<Decrement>, pb: seq<Decrement>, s: Stock, byNumber: map<int, int>, now: int)
    requires ApplyAll(pa + pb, s, byNumber, now).Some?
    ensures ApplyAll(pb + pa, s, byNumber, now).Some?
  {
    ApplyAllSucceeds(pa + pb, s, byNumber, now);
    ApplyAllSucceeds(pb + pa, s, byNumber, now);
    forall k | 0 <= k < |pb + pa|
      ensures Resolve((pb + pa)[k].target, s.products, byNumber).Some?
    {
      if k < |pb| {
        assert (pb + pa)[k] == (pa + pb)[|pa| + k];
      } else {
        assert (pb + pa)[k] == (pa + pb)[k - |pb|];
      }
    }
  }

  /** Running two blocks of decrements in either order gives the same stock and the same rows. */
  lemma SwapDecrements(pa: seq<Decrement>, pb: seq<Decrement>, s: Stock, byNumber: map<int, int>, now: int)
    requires ApplyAll(pa + pb, s, byNumber, now).Some?
    ensures ApplyAll(pb + pa, s, byNumber, now).Some?
    ensures ApplyAll(pa + pb, s, byNumber, now).value.products == ApplyAll(pb + pa, s, byNumber, now).value.products
    ensures multiset(ApplyAll(pa + pb, s, byNumber, now).value.ledger) == multiset(ApplyAll(pb + pa, s, byNumber, now).value.ledger)
  {
    SwapResolves(pa, pb, s, byNumber, now);
    ApplyAllEffect(pa + pb, s, byNumber, now);
    ApplyAllEffect(pb + pa, s, byNumber, now);
    var t1 := ApplyAll(pa + pb, s, byNumber, now).value;
    var t2 := ApplyAll(pb + pa, s, byNumber, now).value;
    forall id | id in s.products
      ensures t1.products[id] == t2.products[id]
    {
      DemandAppend(pa, pb, id, s.products, byNumber);
      DemandAppend(pb, pa, id, s.products, byNumber);
    }
    RowsAppend(pa, pb, s.products, byNumber, now);
    RowsAppend(pb, pa, s.products, byNumber, now);
  }

  /**
   * When `p` and `q` hold the same elements, the last element of `p` sits somewhere in `q`, and
   * what remains of both once it is taken out again holds the same elements.
   */
  lemma LastInPermutation<T>(p: seq<T>, q: seq<T>) returns (i: nat)
    requires multiset(p) == multiset(q)
    requires p != []
    ensures i < |q| && q[i] == p[|p| - 1]
    ensures p == p[..|p| - 1] + [p[|p| - 1]]
    ensures q == q[..i] + [q[i]] + q[i + 1..]
    ensures multiset(p[..|p| - 1]) == multiset(q[..i] + q[i + 1..])
  {
    var x := p[|p| - 1];
    assert p == p[..|p| - 1] + [x];
    assert x in multiset(q);
    i :| 0 <= i < |q| && q[i] == x;
    assert q == q[..i] + [q[i]] + q[i + 1..];
    assert multiset(q[..i] + q[i + 1..]) == multiset(q) - multiset{x};
    assert multiset(p[..|p| - 1]) == multiset(p) - multiset{x};
  }

  /** What a plan takes from a product depends only on which decrements it holds, not their order. */
  lemma {:induction false} DemandPermutation(p: seq<Decrement>, q: seq<Decrement>, id: int,
                                             products: map<int, Product>, byNumber: map<int, int>)
    requires multiset(p) == multiset(q)
    ensures Demand(p, id, products, byNumber) == Demand(q, id, products, byNumber)
    decreases |p|
  {
    if p == [] {
      assert |q| == |multiset(q)| == 0;
    } else {
      var i := LastInPermutation(p, q);
      var p0, x, q1, q2 := p[..|p| - 1], p[|p| - 1], q[..i], q[i + 1..];
      DemandPermutation(p0, q1 + q2, id, products, byNumber);
      DemandAppend(p0, [x], id, products, byNumber);
      DemandAppend(q1, q2, id, products, byNumber);
      DemandAppend(q1 + [x], q2, id, products, byNumber);
      DemandAppend(q1, [x], id, products, byNumber);
    }
  }

  /** Taking a decrement out of the middle of a plan takes its rows out of the ledger multiset. */
  lemma RowsMiddle(q1: seq<Decrement>, x: Decrement, q2: seq<Decrement>,
                   products: map<int, Product>, byNumber: map<int, int>, now: int)
    ensures multiset(Rows(q1 + [x] + q2, products, byNumber, now))
         == multiset(Rows(q1 + q2, products, byNumber, now)) + multiset(Rows([x], products, byNumber, now))
  {
    RowsAppend(q1 + [x], q2, products, byNumber, now);
    RowsAppend(q1, [x], products, byNumber, now);
    RowsAppend(q1, q2, products, byNumber, now);
  }

  /** The rows a plan appends, as a multiset, depend only on which decrements it holds. */
  lemma {:induction false} RowsPermutation(p: seq<Decrement>, q: seq<Decrement>,
                                           products: map<int, Product>, byNumber: map<int, int>, now: int)
    requires multiset(p) == multiset(q)
    ensures multiset(Rows(p, products, byNumber, now)) == multiset(Rows(q, products, byNumber, now))
    decreases |p|
  {
    if p == [] {
      assert |q| == |multiset(q)| == 0;
    } else {
      var i := LastInPermutation(p, q);
      var p0, x, q1, q2 := p[..|p| - 1], p[|p| - 1], q[..i], q[i + 1..];
      RowsPermutation(p0, q1 + q2, products, byNumber, now);
      RowsAppend(p0, [x], products, byNumber, now);
      RowsMiddle(q1, x, q2, products, byNumber, now);
    }
  }

  /** A reordered plan goes through exactly when the original does. */
  lemma PermutationResolves(p: seq<Decrement>, q: seq<Decrement>, s: Stock, byNumber: map<int, int>, now: int)
    requires multiset(p) == multiset(q)
    requires ApplyAll(p, s, byNumber, now).Some?
    ensures ApplyAll(q, s, byNumber, now).Some?
  {
    ApplyAllSucceeds(p, s, byNumber, now);
    ApplyAllSucceeds(q, s, byNumber, now);
    forall k | 0 <= k < |q|
      ensures Resolve(q[k].target, s.products, byNumber).Some?
    {
      assert q[k] in multiset(p);
      var j :| 0 <= j < |p| && p[j] == q[k];
    }
  }

  /**
   * `Promise.all` may run the decrements in any order, interleaving the lines and their gift
   * tiers. Every such order is a reordering of the plan, and every reordering goes through
   * exactly when the plan does and then leaves the same quantities and the same ledger rows.
   */
  lemma PlanOrderIrrelevant(p: seq<Decrement>, q: seq<Decrement>, s: Stock, byNumber: map<int, int>, now: int)
    requires multiset(p) == multiset(q)
    ensures ApplyAll(p, s, byNumber, now).Some? <==> ApplyAll(q, s, byNumber, now).Some?
    ensures ApplyAll(p, s, byNumber, now).Some? ==>
      && ApplyAll(p, s, byNumber, now).value.products == ApplyAll(q, s, byNumber, now).value.products
      && multiset(ApplyAll(p, s, byNumber, now).value.ledger) == multiset(ApplyAll(q, s, byNumber, now).value.ledger)
  {
    if ApplyAll(p, s, byNumber, now).Some? {
      PermutationResolves(p, q, s, byNumber, now);
    }
    if ApplyAll(q, s, byNumber, now).Some? {
      PermutationResolves(q, p, s, byNumber, now);
    }
    if ApplyAll(p, s, byNumber, now).Some? {
      ApplyAllEffect(p, s, byNumber, now);
      ApplyAllEffect(q, s, byNumber, now);
      var t1 := ApplyAll(p, s, byNumber, now).value;
      var t2 := ApplyAll(q, s, byNumber, now).value;
      forall id | id in s.products
        ensures t1.products[id] == t2.products[id]
      {
        DemandPermutation(p, q, id, s.products, byNumber);
      }
      RowsPermutation(p, q, s.products, byNumber, now);
    }
  }

  /** Taking a line out of the middle of the order takes its decrements out of the plan multiset. */
  lemma PlanMiddle(b1: seq<Detail>, d: Detail, b2: seq<Detail>, bundles: map<int, Bundle>)
    ensures multiset(Plan(b1 + [d] + b2, bundles)) == multiset(Plan(b1 + b2, bundles)) + multiset(Plan([d], bundles))
  {
    PlanAppend(b1 + [d], b2, bundles);
    PlanAppend(b1, [d], bundles);
    PlanAppend(b1, b2, bundles);
  }

  /** Reordering the lines reorders the plan. */
  lemma {:induction false} PlanPermutation(a: seq<Detail>, b: seq<Detail>, bundles: map<int, Bundle>)
    requires multiset(a) == multiset(b)
    ensures multiset(Plan(a, bundles)) == multiset(Plan(b, bundles))
    decreases |a|
  {
    if a == [] {
      assert |b| == |multiset(b)| == 0;
    } else {
      var i := LastInPermutation(a, b);
      var a0, d, b1, b2 := a[..|a| - 1], a[|a| - 1], b[..i], b[i + 1..];
      PlanPermutation(a0, b1 + b2, bundles);
      PlanAppend(a0, [d], bundles);
      PlanMiddle(b1, d, b2, bundles);
    }
  }

  /**
   * The order in which the lines are processed does not change whether the order goes through,
   * the final quantities, or the rows the ledger holds.
   */
  lemma LineOrderIrrelevant(a: seq<Detail>, b: seq<Detail>, s: Stock, bundles: map<int, Bundle>, byNumber: map<int, int>, now: int)
    requires multiset(a) == multiset(b)
    ensures ApplyAll(Plan(a, bundles), s, byNumber, now).Some? <==> ApplyAll(Plan(b, bundles), s, byNumber, now).Some?
    ensures ApplyAll(Plan(a, bundles), s, byNumber, now).Some? ==>
      && ApplyAll(Plan(a, bundles), s, byNumber, now).value.products
         == ApplyAll(Plan(b, bundles), s, byNumber, now).value.products
      && multiset(ApplyAll(Plan(a, bundles), s, byNumber, now).value.ledger)
         == multiset(ApplyAll(Plan(b, bundles), s, byNumber, now).value.ledger)
  {
    PlanPermutation(a, b, bundles);
    PlanOrderIrrelevant(Plan(a, bundles), Plan(b, bundles), s, byNumber, now);
  }

  /** When every decrement names a product, there is one ledger row per decrement. */
  lemma {:induction false} RowsLength(plan: seq<Decrement>, products: map<int, Product>, byNumber: map<int, int>, now: int)
    requires forall k :: 0 <= k < |plan| ==> Resolve(plan[k].target, products, byNumber).Some?
    ensures |Rows(plan, products, byNumber, now)| == |plan|
  {
    if plan != [] {
      var prefix := plan[..|plan| - 1];
      assert forall k :: 0 <= k < |prefix| ==> prefix[k] == plan[k];
      RowsLength(prefix, products, byNumber, now);
      assert Resolve(plan[|plan| - 1].target, products, byNumber).Some?;
    }
  }

  // ----- Loop bookkeeping for the handler: how the plan splits at a line and at a gift tier -----

  lemma ApplyAllSnoc(plan: seq<Decrement>, x: Decrement, s: Stock, byNumber: map<int, int>, now: int)
    ensures ApplyAll(plan + [x], s, byNumber, now) ==
      if ApplyAll(plan, s, byNumber, now).None? then None else Step(x, ApplyAll(plan, s, byNumber, now).value, byNumber, now)
  {
    assert (plan + [x])[..|plan + [x]| - 1] == plan;
  }

  /** Once a decrement fails, everything after it is never applied: the whole transaction fails. */
  lemma {:induction false} ApplyAllPrefixFails(p: seq<Decrement>, q: seq<Decrement>, s: Stock, byNumber: map<int, int>, now: int)
    requires ApplyAll(p, s, byNumber, now).None?
    ensures ApplyAll(p + q, s, byNumber, now).None?
  {
    if q == [] {
      assert p + q == p;
    } else {
      var q0 := q[..|q| - 1];
      assert (p + q)[..|p + q| - 1] == p + q0;
      ApplyAllPrefixFails(p, q0, s, byNumber, now);
    }
  }

  lemma {:induction false} GiftPlanAppend(number: int, a: seq<int>, b: seq<int>)
    ensures GiftPlan(number, a + b) == GiftPlan(number, a) + GiftPlan(number, b)
  {
    if b == [] {
      assert a + b == a;
    } else {
      var b0 := b[..|b| - 1];
      assert (a + b)[..|a + b| - 1] == a + b0;
      GiftPlanAppend(number, a, b0);
    }
  }

  function GiftDecrement(number: int, count: int): Decrement {
    Decrement(ByNumber(number), count, GiftBySystem)
  }

  lemma GiftPlanSnoc(number: int, gifts: seq<int>, j: nat)
    requires j < |gifts|
    ensures GiftPlan(number, gifts[..j + 1]) ==
      GiftPlan(number, gifts[..j]) + (if gifts[j] > 0 then [GiftDecrement(number, gifts[j])] else [])
  {
    assert gifts[..j + 1][..j] == gifts[..j];
  }

  lemma PlanSnoc(ds: seq<Detail>, i: nat, bundles: map<int, Bundle>)
    requires i < |ds|
    ensures Plan(ds[..i + 1], bundles) == Plan(ds[..i], bundles) + LinePlan(ds[i], bundles)
  {
    assert ds[..i + 1][..i] == ds[..i];
  }

  // ----- The stored order -----

  /** `orderDetails.map(...)`: one stored line per validated line, `total_price = price × quantity`. */
  function FormatDetails(ds: seq<Detail>, now: int): (r: seq<OrderLine>)
    ensures |r| == |ds|
    ensures forall k :: 0 <= k < |ds| ==>
      && r[k].productId == ds[k].shopProductId && r[k].quantity == ds[k].quantity
      && r[k].price == ds[k].price && r[k].totalPrice == ds[k].price * ds[k].quantity
      && r[k].createdAt == now
  {
    if ds == [] then []
    else
      var d := ds[|ds| - 1];
      FormatDetails(ds[..|ds| - 1], now) + [OrderLine(d.shopProductId, d.quantity, d.price, d.price * d.quantity, now)]
  }

  /** The order row `order.create` stores; a missing shipping amount is stored as 0. */
  function OrderOf(input: OrderInput, now: int): (o: Order)
    ensures o.id == input.id && o.orderCode == input.orderCode && o.orderAmount == input.orderAmount
    ensures o.paymentStatus == input.paymentStatus && o.shippingPhone == input.shippingPhone
    ensures input.shippingAmount.None? ==> o.shippingAmount == 0
    ensures input.shippingAmount.Some? ==> o.shippingAmount == input.shippingAmount.value
    ensures o.lines == FormatDetails(input.details, now) && o.createdAt == now
  {
    Order(input.id, input.orderCode, input.orderAmount, input.paymentStatus, input.shippingPhone,
          input.shippingAmount.GetOr(0), FormatDetails(input.details, now), now)
  }

  // ----- The transaction and the handler -----

  /** Prisma's error codes for a unique-key clash and for an update whose record is missing. */
  const UniqueViolation: string := "P2002"
  const RecordNotFound: string := "P2025"
  const FailedToCreate: string := "Failed to create order"

  datatype TxResult = Committed(order: Order, stock: Stock) | Aborted(code: string)

  /**
   * `prisma.$transaction`: create the order (its id must be new), then apply every decrement;
   * any failure rolls everything back.
   */
  function Transaction(input: OrderInput, s: Stock, orders: map<string, Order>, bundles: map<int, Bundle>,
                       byNumber: map<int, int>, now: int): (r: TxResult)
    ensures input.id in orders ==> r == Aborted(UniqueViolation)
    ensures input.id !in orders && ApplyAll(Plan(input.details, bundles), s, byNumber, now).None? ==>
      r == Aborted(RecordNotFound)
    ensures r.Committed? <==>
      input.id !in orders && forall k :: 0 <= k < |Plan(input.details, bundles)| ==>
        Resolve(Plan(input.details, bundles)[k].target, s.products, byNumber).Some?
    ensures r.Committed? ==>
      r.order == OrderOf(input, now) && Some(r.stock) == ApplyAll(Plan(input.details, bundles), s, byNumber, now)
  {
    var plan := Plan(input.details, bundles);
    var applied := ApplyAll(plan, s, byNumber, now);
    ApplyAllSucceeds(plan, s, byNumber, now);
    if input.id in orders then Aborted(UniqueViolation)
    else if applied.None? then
      assert exists k :: 0 <= k < |plan| && Resolve(plan[k].target, s.products, byNumber).None?;
      assert exists k ::
        && 0 <= k < |Plan(input.details, bundles)|
        && Resolve(Plan(input.details, bundles)[k].target, s.products, byNumber).None?;
      Aborted(RecordNotFound)
    else Committed(OrderOf(input, now), applied.value)
  }

  /** What the handler answers: 201 with the order, 400 with the first issue, or an error. */
  datatype Response =
    | Created(order: Order)
    | BadRequest(message: string)
    | DatabaseError(code: string)      // a known Prisma error, mapped by `handlePrismaError`
    | ServerError(message: string)     // 500

  /** What a request leaves behind: the answer and the tables it may change. */
  datatype Outcome = Outcome(
    resp: Response,
    products: map<int, Product>,
    ledger: seq<Movement>,
    orders: map<string, Order>,
    errorLog: seq<ErrorLogEntry>)

  /**
   * The whole request. `body` is the parsed JSON (or the parser's error message) and `bodyText`
   * its `JSON.stringify`; in the catch path the source stringifies the already-read request
   * stream, which gives "{}".
   */
  function Handle(body: Result<RawOrder, string>, bodyText: string, url: string, now: int, s: Stock,
                  orders: map<string, Order>, errorLog: seq<ErrorLogEntry>,
                  bundles: map<int, Bundle>, byNumber: map<int, int>): (r: Outcome)
    ensures r.resp.BadRequest? <==> body.Success? && !SchemaHolds(body.value)
    ensures r.resp.Created? <==>
      body.Success? && SchemaHolds(body.value) &&
      Transaction(Validate(body.value).value, s, orders, bundles, byNumber, now).Committed?
    ensures r.resp.Created? ==>
      && r.resp.order.id !in orders && r.orders == orders[r.resp.order.id := r.resp.order]
      && r.errorLog == errorLog
    ensures !r.resp.Created? ==>
      && r.products == s.products && r.ledger == s.ledger && r.orders == orders
      && |r.errorLog| == |errorLog| + 1 && r.errorLog[..|errorLog|] == errorLog
      && r.errorLog[|errorLog|].endpoint == url && r.errorLog[|errorLog|].timestamp == now
    ensures r.resp.BadRequest? ==>
      r.errorLog[|errorLog|] == ErrorLogEntry(now, url, bodyText, r.resp.message, false)
      && r.resp.message == IssueText(Validate(body.value).error)
    ensures r.resp.DatabaseError? || r.resp.ServerError? ==>
      r.errorLog[|errorLog|].requestBody == "{}" && r.errorLog[|errorLog|].hasStackTrace
  {
    var Log := (body: string, message: string, stack: bool) =>
      errorLog + [ErrorLogEntry(now, url, body, message, stack)];
    match body
    case Failure(parseError) =>
      Outcome(ServerError(FailedToCreate), s.products, s.ledger, orders, Log("{}", parseError, true))
    case Success(b) =>
      match Validate(b)
      case Failure(e) =>
        Outcome(BadRequest(IssueText(e)), s.products, s.ledger, orders, Log(bodyText, IssueText(e), false))
      case Success(input) =>
        TxOutcome(Transaction(input, s, orders, bundles, byNumber, now), s, orders, errorLog, url, now)
  }

  /** What the transaction's result leaves behind: the new order, or the error and its log entry. */
  function TxOutcome(tx: TxResult, s: Stock, orders: map<string, Order>, errorLog: seq<ErrorLogEntry>,
                     url: string, now: int): (r: Outcome)
    ensures r.resp.Created? <==> tx.Committed?
    ensures tx.Aborted? ==> r.products == s.products && r.ledger == s.ledger && r.orders == orders
    ensures tx.Committed? ==> r.orders == orders[tx.order.id := tx.order] && r.errorLog == errorLog
  {
    match tx
    case Aborted(code) =>
      Outcome(DatabaseError(code), s.products, s.ledger, orders, errorLog + [ErrorLogEntry(now, url, "{}", code, true)])
    case Committed(o, t) => Outcome(Created(o), t.products, t.ledger, orders[o.id := o], errorLog)
  }

  /** Running two plans one after the other is running their concatenation. */
  lemma {:induction false} ApplyAllAppend(p: seq<Decrement>, q: seq<Decrement>, s: Stock, byNumber: map<int, int>, now: int)
    ensures ApplyAll(p + q, s, byNumber, now) ==
      if ApplyAll(p, s, byNumber, now).None? then None else ApplyAll(q, ApplyAll(p, s, byNumber, now).value, byNumber, now)
  {
    if q == [] {
      assert p + q == p;
    } else {
      var q0 := q[..|q| - 1];
      assert (p + q)[..|p + q| - 1] == p + q0;
      ApplyAllAppend(p, q0, s, byNumber, now);
    }
  }

  /** One more gift tier of a line, on top of a prefix that went through. */
  lemma GiftStep(x: Decrement, number: int, gifts: seq<int>, j: nat, s: Stock, cur: Stock, byNumber: map<int, int>, now: int)
    requires j < |gifts|
    requires ApplyAll([x] + GiftPlan(number, gifts[..j]), s, byNumber, now) == Some(cur)
    ensures gifts[j] <= 0 ==> ApplyAll([x] + GiftPlan(number, gifts[..j + 1]), s, byNumber, now) == Some(cur)
    ensures gifts[j] > 0 ==>
      ApplyAll([x] + GiftPlan(number, gifts[..j + 1]), s, byNumber, now) == Step(GiftDecrement(number, gifts[j]), cur, byNumber, now)
  {
    var before := [x] + GiftPlan(number, gifts[..j]);
    GiftPlanSnoc(number, gifts, j);
    if gifts[j] > 0 {
      var g := GiftDecrement(number, gifts[j]);
      ApplyAllSnoc(before, g, s, byNumber, now);
      assert before + [g] == [x] + GiftPlan(number, gifts[..j + 1]);
    } else {
      assert before == [x] + GiftPlan(number, gifts[..j + 1]);
    }
  }

  /** A gift update that fails sinks its whole line. */
  lemma GiftFails(x: Decrement, number: int, gifts: seq<int>, j: nat, s: Stock, byNumber: map<int, int>, now: int)
    requires j < |gifts|
    requires ApplyAll([x] + GiftPlan(number, gifts[..j + 1]), s, byNumber, now).None?
    ensures ApplyAll([x] + GiftPlan(number, gifts), s, byNumber, now).None?
  {
    var a, b := gifts[..j + 1], gifts[j + 1..];
    assert a + b == gifts;
    GiftPlanAppend(number, a, b);
    ConsPrefixFails(x, GiftPlan(number, a), GiftPlan(number, b), s, byNumber, now);
  }

  lemma ConsPrefixFails(x: Decrement, p: seq<Decrement>, q: seq<Decrement>, s: Stock, byNumber: map<int, int>, now: int)
    requires ApplyAll([x] + p, s, byNumber, now).None?
    ensures ApplyAll([x] + (p + q), s, byNumber, now).None?
  {
    assert [x] + (p + q) == ([x] + p) + q;
    ApplyAllPrefixFails([x] + p, q, s, byNumber, now);
  }

  /** A line's own update, as the first step of its plan. */
  lemma MainStep(d: Detail, bundles: map<int, Bundle>, s: Stock, byNumber: map<int, int>, now: int)
    ensures var x := MainDecrement(d, bundles);
      && ApplyAll([x] + GiftPlan(d.shopProductId, d.gifts[..0]), s, byNumber, now) == Step(x, s, byNumber, now)
      && (Step(x, s, byNumber, now).None? ==> ApplyAll(LinePlan(d, bundles), s, byNumber, now).None?)
  {
    var x := MainDecrement(d, bundles);
    ApplyAllSnoc([], x, s, byNumber, now);
    assert [] + [x] == [x];
    assert d.gifts[..0] == [];
    assert [x] + GiftPlan(d.shopProductId, d.gifts[..0]) == [x];
    if Step(x, s, byNumber, now).None? {
      ApplyAllPrefixFails([x], GiftPlan(d.shopProductId, d.gifts), s, byNumber, now);
    }
  }

  /** One update: `None` when the product it names does not exist. */
  method Take(x: Decrement, s: Stock, byNumber: map<int, int>, now: int) returns (r: Option<Stock>)
    ensures r == Step(x, s, byNumber, now)
    ensures r.Some? ==> |r.value.ledger| == |s.ledger| + 1 && r.value.ledger[..|s.ledger|] == s.ledger
  {
    var found := Resolve(x.target, s.products, byNumber);
    if found.None? {
      return None;
    }
    var id := found.value;
    var p := s.products[id];
    var ledger := s.ledger + [Movement(id, OUT, x.amount, Some(x.remark), None, now)];
    return Some(Stock(s.products[id := p.(quantity := p.quantity - x.amount)], ledger));
  }

  /** One line item: its own update, then one update per gift tier with a positive count. */
  method TakeLine(s: Stock, d: Detail, bundles: map<int, Bundle>, byNumber: map<int, int>, now: int)
    returns (r: Option<Stock>)
    ensures r == ApplyAll(LinePlan(d, bundles), s, byNumber, now)
  {
    var x := MainDecrement(d, bundles);
    MainStep(d, bundles, s, byNumber, now);
    var first := Take(x, s, byNumber, now);
    if first.None? {
      return None;
    }
    var cur := first.value;
    var j := 0;
    while j < |d.gifts|
      invariant 0 <= j <= |d.gifts|
      invariant ApplyAll([x] + GiftPlan(d.shopProductId, d.gifts[..j]), s, byNumber, now) == Some(cur)
    {
      var count := d.gifts[j];
      GiftStep(x, d.shopProductId, d.gifts, j, s, cur, byNumber, now);
      if count > 0 {
        var next := Take(GiftDecrement(d.shopProductId, count), cur, byNumber, now);
        if next.None? {
          GiftFails(x, d.shopProductId, d.gifts, j, s, byNumber, now);
          return None;
        }
        cur := next.value;
      }
      j := j + 1;
    }
    assert d.gifts[..|d.gifts|] == d.gifts;
    return Some(cur);
  }

  /** One more line item, on top of the lines before it. */
  lemma LineStep(ds: seq<Detail>, i: nat, bundles: map<int, Bundle>, s: Stock, cur: Stock, byNumber: map<int, int>, now: int)
    requires i < |ds|
    requires ApplyAll(Plan(ds[..i], bundles), s, byNumber, now) == Some(cur)
    ensures ApplyAll(Plan(ds[..i + 1], bundles), s, byNumber, now) == ApplyAll(LinePlan(ds[i], bundles), cur, byNumber, now)
    ensures ApplyAll(LinePlan(ds[i], bundles), cur, byNumber, now).None? ==> ApplyAll(Plan(ds, bundles), s, byNumber, now).None?
  {
    PlanSnoc(ds, i, bundles);
    ApplyAllAppend(Plan(ds[..i], bundles), LinePlan(ds[i], bundles), s, byNumber, now);
    if ApplyAll(LinePlan(ds[i], bundles), cur, byNumber, now).None? {
      LineFails(ds, i, bundles, s, byNumber, now);
    }
  }

  /** A line that fails sinks the whole order. */
  lemma LineFails(ds: seq<Detail>, i: nat, bundles: map<int, Bundle>, s: Stock, byNumber: map<int, int>, now: int)
    requires i < |ds|
    requires ApplyAll(Plan(ds[..i + 1], bundles), s, byNumber, now).None?
    ensures ApplyAll(Plan(ds, bundles), s, byNumber, now).None?
  {
    var a, b := ds[..i + 1], ds[i + 1..];
    assert a + b == ds;
    PlanAppend(a, b, bundles);
    ApplyAllPrefixFails(Plan(a, bundles), Plan(b, bundles), s, byNumber, now);
  }

  /** All the line items in order, stopping at the first update whose product is missing. */
  method TakeAll(s: Stock, ds: seq<Detail>, bundles: map<int, Bundle>, byNumber: map<int, int>, now: int)
    returns (r: Option<Stock>)
    ensures r == ApplyAll(Plan(ds, bundles), s, byNumber, now)
  {
    var cur := s;
    var i := 0;
    assert ds[..0] == [];
    while i < |ds|
      invariant 0 <= i <= |ds|
      invariant ApplyAll(Plan(ds[..i], bundles), s, byNumber, now) == Some(cur)
    {
      LineStep(ds, i, bundles, s, cur, byNumber, now);
      var next := TakeLine(cur, ds[i], bundles, byNumber, now);
      if next.None? {
        return None;
      }
      cur := next.value;
      i := i + 1;
    }
    assert ds[..|ds|] == ds;
    return Some(cur);
  }

  /**
   * `POST /api/v1/orders/save-order`. The database ends up exactly as `Handle` says, and the
   * product index, the bundle table and the id counter are untouched.
   */
  method Save(db: Database, body: Result<RawOrder, string>, bodyText: string, url: string, now: int)
    returns (resp: Response)
    requires db.Valid()
    modifies db
    ensures db.Valid()
    ensures db.byNumber == old(db.byNumber) && db.bundles == old(db.bundles) && db.nextProductId == old(db.nextProductId)
    ensures Outcome(resp, db.products, db.ledger, db.orders, db.errorLog)
         == Handle(body, bodyText, url, now, Stock(old(db.products), old(db.ledger)), old(db.orders),
                   old(db.errorLog), old(db.bundles), old(db.byNumber))
  {
    if body.Failure? {
      db.errorLog := db.errorLog + [ErrorLogEntry(now, url, "{}", body.error, true)];
      return ServerError(FailedToCreate);
    }
    var v := Validate(body.value);
    if v.Failure? {
      var text := IssueText(v.error);
      db.errorLog := db.errorLog + [ErrorLogEntry(now, url, bodyText, text, false)];
      return BadRequest(text);
    }
    resp := Commit(db, v.value, url, now);
  }

  /** The transaction of `Save`, for an order that passed validation. */
  method Commit(db: Database, input: OrderInput, url: string, now: int) returns (resp: Response)
    requires db.Valid()
    modifies db
    ensures db.Valid()
    ensures db.byNumber == old(db.byNumber) && db.bundles == old(db.bundles) && db.nextProductId == old(db.nextProductId)
    ensures Outcome(resp, db.products, db.ledger, db.orders, db.errorLog)
         == TxOutcome(Transaction(input, Stock(old(db.products), old(db.ledger)), old(db.orders), old(db.bundles),
                                  old(db.byNumber), now),
                      Stock(old(db.products), old(db.ledger)), old(db.orders), old(db.errorLog), url, now)
  {
    var s0 := Stock(db.products, db.ledger);
    if input.id in db.orders {
      db.errorLog := db.errorLog + [ErrorLogEntry(now, url, "{}", UniqueViolation, true)];
      return DatabaseError(UniqueViolation);
    }
    var t := TakeAll(s0, input.details, db.bundles, db.byNumber, now);
    if t.None? {
      db.errorLog := db.errorLog + [ErrorLogEntry(now, url, "{}", RecordNotFound, true)];
      return DatabaseError(RecordNotFound);
    }
    ApplyAllKeepsIndex(Plan(input.details, db.bundles), s0, db.byNumber, now, db.nextProductId);
    var order := OrderOf(input, now);
    db.products, db.ledger := t.value.products, t.value.ledger;
    db.orders := db.orders[order.id := order];
    return Created(order);
  }

  /** A committed order keeps every product's quantity equal to the signed sum of its ledger rows. */
  lemma CommitKeepsConsistent(body: Result<RawOrder, string>, bodyText: string, url: string, now: int, s: Stock,
                              orders: map<string, Order>, errorLog: seq<ErrorLogEntry>,
                              bundles: map<int, Bundle>, byNumber: map<int, int>)
    requires Consistent(s.products, s.ledger)
    ensures var r := Handle(body, bodyText, url, now, s, orders, errorLog, bundles, byNumber);
      Consistent(r.products, r.ledger)
  {
    var r := Handle(body, bodyText, url, now, s, orders, errorLog, bundles, byNumber);
    if r.resp.Created? {
      ApplyAllKeepsConsistent(Plan(Validate(body.value).value.details, bundles), s, byNumber, now);
    }
  }

  /**
   * A committed order appends exactly one OUT row per line item and one per positive gift count,
   * and each product loses what the plan demands of it.
   */
  lemma CommitEffect(body: Result<RawOrder, string>, bodyText: string, url: string, now: int, s: Stock,
                     orders: map<string, Order>, errorLog: seq<ErrorLogEntry>,
                     bundles: map<int, Bundle>, byNumber: map<int, int>)
    requires Handle(body, bodyText, url, now, s, orders, errorLog, bundles, byNumber).resp.Created?
    ensures var r := Handle(body, bodyText, url, now, s, orders, errorLog, bundles, byNumber);
      var ds := Validate(body.value).value.details;
      && |r.ledger| == |s.ledger| + |ds| + GiftCount(ds)
      && r.ledger[..|s.ledger|] == s.ledger
      && (forall k :: |s.ledger| <= k < |r.ledger| ==> r.ledger[k].movementType == OUT && r.ledger[k].createdAt == now)
      && SameCatalogue(s.products, r.products)
      && forall id :: id in s.products ==>
           r.products[id].quantity == s.products[id].quantity - Demand(Plan(ds, bundles), id, s.products, byNumber)
  {
    var ds := Validate(body.value).value.details;
    var plan := Plan(ds, bundles);
    ApplyAllEffect(plan, s, byNumber, now);
    ApplyAllSucceeds(plan, s, byNumber, now);
    RowsLength(plan, s.products, byNumber, now);
    PlanLength(ds, bundles);
    RowsAreOut(plan, s.products, byNumber, now);
    var rows := Rows(plan, s.products, byNumber, now);
    assert (s.ledger + rows)[..|s.ledger|] == s.ledger;
    assert forall k :: |s.ledger| <= k < |s.ledger + rows| ==> (s.ledger + rows)[k] == rows[k - |s.ledger|];
  }

  lemma {:induction false} RowsAreOut(plan: seq<Decrement>, products: map<int, Product>, byNumber: map<int, int>, now: int)
    ensures forall k :: 0 <= k < |Rows(plan, products, byNumber, now)| ==>
      Rows(plan, products, byNumber, now)[k].movementType == OUT && Rows(plan, products, byNumber, now)[k].createdAt == now
  {
    if plan != [] {
      var prefix := plan[..|plan| - 1];
      RowsAreOut(prefix, products, byNumber, now);
      var rows, r0 := Rows(plan, products, byNumber, now), Rows(prefix, products, byNumber, now);
      forall k | 0 <= k < |rows|
        ensures rows[k].movementType == OUT && rows[k].createdAt == now
      {
        var last := plan[|plan| - 1];
        if k == |r0| && Resolve(last.target, products, byNumber).Some? {
          var id := Resolve(last.target, products, byNumber).value;
          assert rows == r0 + [Movement(id, OUT, last.amount, Some(last.remark), None, now)];
        } else {
          assert rows[k] == r0[k];
        }
      }
    }
  }

  /**
   * A worked case: 3 units of product number 100 (stock 50) with 2 gift packs of the first tier
   * leave 45 in stock and two OUT rows, the line's own and the gift's.
   */
  lemma ExampleLineWithGift()
    ensures var p := Product(100, "Water 600ml", None, 0, Some(1), 50, 10, Some(0), 0);
      var s := Stock(map[7 := p], []);
      var d := Detail("shop-1", 100, 3, 5000, None, 1, [2, 0, 0, 0, 0]);
      ApplyAll(LinePlan(d, map[]), s, map[100 := 7], 1) ==
        Some(Stock(map[7 := p.(quantity := 45)],
                   [Movement(7, OUT, 3, Some(BySystem), None, 1), Movement(7, OUT, 2, Some(GiftBySystem), None, 1)]))
  {
    var p := Product(100, "Water 600ml", None, 0, Some(1), 50, 10, Some(0), 0);
    var s := Stock(map[7 := p], []);
    var d := Detail("shop-1", 100, 3, 5000, None, 1, [2, 0, 0, 0, 0]);
    var x := MainDecrement(d, map[]);
    var gd := Decrement(ByNumber(100), 2, GiftBySystem);
    assert [2][..0] == [];
    assert GiftPlan(100, [2]) == [gd];
    assert [2, 0][..1] == [2];
    assert GiftPlan(100, [2, 0]) == [gd];
    assert [2, 0, 0][..2] == [2, 0];
    assert GiftPlan(100, [2, 0, 0]) == [gd];
    assert [2, 0, 0, 0][..3] == [2, 0, 0];
    assert GiftPlan(100, [2, 0, 0, 0]) == [gd];
    assert [2, 0, 0, 0, 0][..4] == [2, 0, 0, 0];
    assert GiftPlan(100, [2, 0, 0, 0, 0]) == [gd];
    assert LinePlan(d, map[]) == [x, gd];
    assert [x, gd][..1] == [x] && [x][..0] == [];
    var t1 := Stock(map[7 := p.(quantity := 47)], [Movement(7, OUT, 3, Some(BySystem), None, 1)]);
    assert x == Decrement(ByNumber(100), 3, BySystem);
    assert map[7 := p][7 := p.(quantity := 47)] == map[7 := p.(quantity := 47)];
    assert [] + [Movement(7, OUT, 3, Some(BySystem), None, 1)] == t1.ledger;
    assert Step(x, s, map[100 := 7], 1) == Some(t1);
    assert ApplyAll([], s, map[100 := 7], 1) == Some(s);
    assert [x][..|[x]| - 1] == [];
    assert ApplyAll([x], s, map[100 := 7], 1) == Some(t1);
    assert t1.products[7 := p.(quantity := 45)] == map[7 := p.(quantity := 45)];
    assert t1.ledger + [Movement(7, OUT, 2, Some(GiftBySystem), None, 1)] ==
      [Movement(7, OUT, 3, Some(BySystem), None, 1), Movement(7, OUT, 2, Some(GiftBySystem), None, 1)];
    assert Step(gd, t1, map[100 := 7], 1) == Some(Stock(map[7 := p.(quantity := 45)],
      [Movement(7, OUT, 3, Some(BySystem), None, 1), Movement(7, OUT, 2, Some(GiftBySystem), None, 1)]));
  }

  /** A bundle line takes `pack × quantity` from the bundle's product: 2 six-packs take 12. */
  lemma ExampleBundle()
    ensures var d := Detail("shop-1", 900, 2, 30000, None, 6, [0, 0, 0, 0, 0]);
      MainDecrement(d, map[900 := Bundle(7, 6)]) == Decrement(ById(7), 12, BySystem)
  {
  }
}
