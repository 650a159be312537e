/**
 The part of a Stripe account the seed scripts touch, and the API calls they make on it.

 A call is a step from one account state to the next. Every call may fail, either before it took
 effect or after (the caller sees the same exception), as the fault list of the world says; calls
 past the end of that list work. The trace records the account after every call, failed ones too.
 */
module StripeRemote {

  datatype Plan = FREE | HOBBY | LITE | BASIC | SCALE | LIFETIME

  datatype Currency = GBP | EUR

  /** Whole minor units, or a decimal string kept to four places (so in ten-thousandths of a cent). */
  datatype Amount = UnitAmount(cents: nat) | UnitAmountDecimal(tenThousandths: nat)

  /** The metadata written on products. */
  datatype Tag = PlanTag(plan: Plan, env: string) | AddonTag(code: string, env: string)

  /** A price's metadata['type']. Prices made elsewhere carry OtherKind. */
  datatype Kind = Monthly | MarketingUsage | TransactionalUsage | DomainMonthly | MemberMonthly | OtherKind

  datatype Usage = Licensed | Metered(meter: nat)

  datatype Meter = Meter(id: nat, event: string, active: bool)

  datatype Details = Details(name: string, description: string, tag: Tag)

  datatype Product = Product(id: nat, active: bool, details: Details)

  datatype Terms = Terms(kind: Kind, amount: Amount, options: map<Currency, Amount>, usage: Usage)

  datatype Price = Price(id: nat, active: bool, product: nat, version: string, terms: Terms)

  /** Meters are listed newest first; products and prices are in creation order. */
  datatype Remote = Remote(meters: seq<Meter>, products: seq<Product>, prices: seq<Price>, nextId: nat)

  datatype Fault = Works | FailsBefore | FailsAfter

  datatype World = World(remote: Remote, faults: seq<Fault>, trace: seq<Remote>)

  /** The outcome of one or more calls: a value, or the exception that cut them short. */
  datatype Step<+T> = Done(world: World, value: T) | Threw(world: World) {
    predicate IsFailure() {
      Threw?
    }

    function PropagateFailure<U>(): Step<U>
      requires Threw?
    {
      Threw(world)
    }

    function Extract(): (World, T)
      requires Done?
    {
      (world, value)
    }
  }

  const SEARCH_LIMIT: nat := 100

  function Limited<T>(s: seq<T>): seq<T> {
    if |s| <= SEARCH_LIMIT then s else s[..SEARCH_LIMIT]
  }

  /******* What the searches look for *******/

  /** The active products with a name, in order. */
  function Matches(products: seq<Product>, name: string): seq<Product> {
    if products == [] then []
    else
      var p := products[|products| - 1];
      Matches(products[..|products| - 1], name) + (if p.active && p.details.name == name then [p] else [])
  }

  /** The active prices of one product with a type and a pricing version, in order. */
  function PricesOf(prices: seq<Price>, product: nat, kind: Kind, version: string): seq<Price> {
    if prices == [] then []
    else
      var p := prices[|prices| - 1];
      PricesOf(prices[..|prices| - 1], product, kind, version) +
      (if p.active && p.product == product && p.terms.kind == kind && p.version == version then [p] else [])
  }

  /** The first active meter for an event. */
  function FindMeter(meters: seq<Meter>, event: string): seq<Meter> {
    if meters == [] then []
    else if meters[0].event == event && meters[0].active then [meters[0]]
    else FindMeter(meters[1..], event)
  }

  function Archived(products: seq<Product>, id: nat): seq<Product> {
    seq(|products|, i requires 0 <= i < |products| =>
      if products[i].id == id then products[i].(active := false) else products[i])
  }

  function Updated(products: seq<Product>, id: nat, details: Details): seq<Product> {
    seq(|products|, i requires 0 <= i < |products| =>
      if products[i].id == id then products[i].(details := details) else products[i])
  }

  /******* API calls *******/

  function Call<T>(w: World, after: Remote, value: T): Step<T> {
    var fault := if w.faults == [] then Works else w.faults[0];
    var remote := if fault.FailsBefore? then w.remote else after;
    var world := World(remote, if w.faults == [] then [] else w.faults[1..], w.trace + [remote]);
    if fault.Works? then Done(world, value) else Threw(world)
  }

  function ListMeters(w: World): Step<seq<Meter>> {
    Call(w, w.remote, Limited(w.remote.meters))
  }

  function CreateMeter(w: World, event: string): Step<Meter> {
    var m := Meter(w.remote.nextId, event, true);
    Call(w, w.remote.(meters := [m] + w.remote.meters, nextId := w.remote.nextId + 1), m)
  }

  function SearchProducts(w: World, name: string): Step<seq<Product>> {
    Call(w, w.remote, Limited(Matches(w.remote.products, name)))
  }

  function UpdateProduct(w: World, id: nat, details: Details): Step<()> {
    Call(w, w.remote.(products := Updated(w.remote.products, id, details)), ())
  }

  function ArchiveProduct(w: World, id: nat): Step<()> {
    Call(w, w.remote.(products := Archived(w.remote.products, id)), ())
  }

  function CreateProduct(w: World, details: Details): Step<Product> {
    var p := Product(w.remote.nextId, true, details);
    Call(w, w.remote.(products := w.remote.products + [p], nextId := w.remote.nextId + 1), p)
  }

  function SearchPrices(w: World, product: nat, kind: Kind, version: string): Step<seq<Price>> {
    var all := PricesOf(w.remote.prices, product, kind, version);
    Call(w, w.remote, if all == [] then [] else all[..1])
  }

  function CreatePrice(w: World, product: nat, version: string, terms: Terms): Step<Price> {
    var p := Price(w.remote.nextId, true, product, version, terms);
    Call(w, w.remote.(prices := w.remote.prices + [p], nextId := w.remote.nextId + 1), p)
  }

  /******* Invariants of the account *******/

  /** Ids come from one counter, and no two products share one. */
  ghost predicate WellFormed(r: Remote) {
    && (forall i :: 0 <= i < |r.products| ==> r.products[i].id < r.nextId)
    && (forall i :: 0 <= i < |r.prices| ==> r.prices[i].id < r.nextId && r.prices[i].product < r.nextId)
    && (forall i, j :: 0 <= i < j < |r.products| ==> r.products[i].id != r.products[j].id)
  }

  /** At most one active product for each of the given names. */
  ghost predicate UniqueProducts(r: Remote, names: set<string>) {
    forall name :: name in names ==> |Matches(r.products, name)| <= 1
  }

  /** At most one active price per product, type and pricing version. */
  ghost predicate UniquePrices(r: Remote) {
    forall product, kind, version :: kind != OtherKind ==> |PricesOf(r.prices, product, kind, version)| <= 1
  }

  ghost predicate Inv(r: Remote, names: set<string>) {
    WellFormed(r) && UniqueProducts(r, names) && UniquePrices(r)
  }

  /** Nothing a later state may lose: prices are only ever added, products keep their place and id. */
  ghost predicate Extends(before: Remote, after: Remote) {
    && before.prices <= after.prices
    && before.nextId <= after.nextId
    && |before.products| <= |after.products|
    && (forall i :: 0 <= i < |before.products| ==> after.products[i].id == before.products[i].id)
    && (forall i :: |before.prices| <= i < |after.prices| ==> before.nextId <= after.prices[i].id)
    && (forall i :: |before.products| <= i < |after.products| ==> before.nextId <= after.products[i].id)
  }

  /** From one recorded state to any later one, and to the last, prices are only added. */
  ghost predicate PricesGrow(trace: seq<Remote>, from: nat, last: Remote) {
    && (forall j, k :: from <= j <= k < |trace| ==> trace[j].prices <= trace[k].prices)
    && (forall k :: from <= k < |trace| ==> trace[k].prices <= last.prices)
  }

  /** One moment is recorded for every fault used up, while there are any, and the last is the account as it is. */
  ghost predicate Recorded(w0: World, w1: World) {
    && w0.trace <= w1.trace
    && (var calls := |w1.trace| - |w0.trace|;
        && w1.faults == (if calls <= |w0.faults| then w0.faults[calls..] else [])
        && w1.remote == if calls == 0 then w0.remote else w1.trace[|w1.trace| - 1])
  }

  lemma RecordedOn(w0: World, w1: World, w2: World)
    requires Recorded(w0, w1) && Recorded(w1, w2)
    ensures Recorded(w0, w2)
  {
  }

  /**
   Every account state from w0 to w1, both included, keeps the invariant and extends w0's, and each keeps
   the prices of those before it.
   */
  ghost predicate Trail(w0: World, w1: World, names: set<string>) {
    && Recorded(w0, w1)
    && Inv(w1.remote, names) && Extends(w0.remote, w1.remote)
    && (forall k :: |w0.trace| <= k < |w1.trace| ==> Inv(w1.trace[k], names) && Extends(w0.remote, w1.trace[k]))
    && PricesGrow(w1.trace, |w0.trace|, w1.remote)
  }

  lemma PricesGrowOn(w0: World, w1: World, w2: World)
    requires w0.trace <= w1.trace <= w2.trace && w1.remote.prices <= w2.remote.prices
    requires PricesGrow(w1.trace, |w0.trace|, w1.remote) && PricesGrow(w2.trace, |w1.trace|, w2.remote)
    requires forall k :: |w1.trace| <= k < |w2.trace| ==> w1.remote.prices <= w2.trace[k].prices
    ensures PricesGrow(w2.trace, |w0.trace|, w2.remote)
  {
    forall j, k | |w0.trace| <= j <= k < |w2.trace|
      ensures w2.trace[j].prices <= w2.trace[k].prices
    {
      if j < |w1.trace| {
        assert w2.trace[j] == w1.trace[j];
        if k < |w1.trace| {
          assert w2.trace[k] == w1.trace[k];
        }
      }
    }
    forall k | |w0.trace| <= k < |w2.trace|
      ensures w2.trace[k].prices <= w2.remote.prices
    {
      if k < |w1.trace| {
        assert w2.trace[k] == w1.trace[k];
      }
    }
  }

  lemma TrailTransitive(w0: World, w1: World, w2: World, names: set<string>)
    requires Trail(w0, w1, names) && Trail(w1, w2, names)
    ensures Trail(w0, w2, names)
  {
    forall k | |w0.trace| <= k < |w2.trace|
      ensures Inv(w2.trace[k], names) && Extends(w0.remote, w2.trace[k])
    {
      if k < |w1.trace| {
        assert w2.trace[k] == w1.trace[k];
      } else {
        ExtendsTransitive(w0.remote, w1.remote, w2.trace[k]);
      }
    }
    ExtendsTransitive(w0.remote, w1.remote, w2.remote);
    PricesGrowOn(w0, w1, w2);
    RecordedOn(w0, w1, w2);
  }

  lemma ExtendsTransitive(a: Remote, b: Remote, c: Remote)
    requires Extends(a, b) && Extends(b, c)
    ensures Extends(a, c)
  {
    forall i | |a.prices| <= i < |c.prices|
      ensures a.nextId <= c.prices[i].id
    {
      if i < |b.prices| {
        assert c.prices[i] == b.prices[i];
      }
    }
    assert a.prices <= c.prices;
  }

  /******* How the calls move the searches *******/

  lemma {:induction false} MatchesMembers(products: seq<Product>, name: string)
    ensures forall k :: 0 <= k < |Matches(products, name)| ==>
              var p := Matches(products, name)[k]; p in products && p.active && p.details.name == name
    ensures forall p :: p in products && p.active && p.details.name == name ==> p in Matches(products, name)
  {
    if products != [] {
      var front, last := products[..|products| - 1], products[|products| - 1];
      MatchesMembers(front, name);
      assert products == front + [last];
    }
  }

  lemma MatchesAppend(products: seq<Product>, p: Product, name: string)
    ensures Matches(products + [p], name) ==
            Matches(products, name) + if p.active && p.details.name == name then [p] else []
  {
    assert (products + [p])[..|products|] == products;
  }

  /** Matches without the product of one id. */
  function Without(products: seq<Product>, id: nat): seq<Product> {
    if products == [] then []
    else
      Without(products[..|products| - 1], id) +
      (if products[|products| - 1].id == id then [] else [products[|products| - 1]])
  }

  lemma WithoutAppend(products: seq<Product>, p: Product, id: nat)
    ensures Without(products + [p], id) == Without(products, id) + if p.id == id then [] else [p]
  {
    assert (products + [p])[..|products|] == products;
  }

  lemma {:induction false} WithoutMembers(products: seq<Product>, id: nat)
    ensures |Without(products, id)| <= |products|
    ensures forall p :: p in Without(products, id) ==> p in products && p.id != id
    decreases products
  {
    if products != [] {
      var front, last := products[..|products| - 1], products[|products| - 1];
      WithoutMembers(front, id);
      WithoutAppend(front, last, id);
      assert products == front + [last];
    }
  }

  lemma {:induction false} WithoutNone(products: seq<Product>, id: nat)
    requires forall p :: p in products ==> p.id != id
    ensures Without(products, id) == products
    decreases products
  {
    if products != [] {
      var front, last := products[..|products| - 1], products[|products| - 1];
      assert products == front + [last];
      WithoutNone(front, id);
      WithoutAppend(front, last, id);
    }
  }

  lemma WithoutIsShorter(products: seq<Product>, id: nat)
    ensures |Without(products, id)| <= |products|
    ensures forall p :: p in Without(products, id) ==> p in products && p.id != id
    ensures (forall p :: p in products ==> p.id != id) ==> Without(products, id) == products
  {
    WithoutMembers(products, id);
    if forall p :: p in products ==> p.id != id {
      WithoutNone(products, id);
    }
  }

  lemma {:induction false} MatchesArchived(products: seq<Product>, id: nat, name: string)
    ensures Matches(Archived(products, id), name) == Without(Matches(products, name), id)
  {
    if products != [] {
      var front, last := products[..|products| - 1], products[|products| - 1];
      MatchesArchived(front, id, name);
      var after := Archived(products, id);
      assert after[..|after| - 1] == Archived(front, id);
      var m := Matches(front, name);
      if last.active && last.details.name == name {
        WithoutAppend(m, last, id);
        assert Matches(products, name) == m + [last];
      } else {
        assert Matches(products, name) == m + [] == m;
      }
    }
  }

  /** Rewriting the details of a product that keeps its name changes no search result's ids. */
  lemma {:induction false} MatchesUpdated(products: seq<Product>, id: nat, details: Details, name: string)
    requires forall i :: 0 <= i < |products| && products[i].id == id ==> products[i].details.name == details.name
    ensures Matches(Updated(products, id, details), name) == Updated(Matches(products, name), id, details)
  {
    if products != [] {
      var front, last := products[..|products| - 1], products[|products| - 1];
      MatchesUpdated(front, id, details, name);
      var after := Updated(products, id, details);
      assert after[..|after| - 1] == Updated(front, id, details);
    }
  }

  lemma {:induction false} PricesOfMembers(prices: seq<Price>, product: nat, kind: Kind, version: string)
    ensures forall p :: p in PricesOf(prices, product, kind, version) ==>
              p in prices && p.active && p.product == product && p.terms.kind == kind && p.version == version
  {
    if prices != [] {
      PricesOfMembers(prices[..|prices| - 1], product, kind, version);
    }
  }

  lemma PricesOfAppend(prices: seq<Price>, p: Price, product: nat, kind: Kind, version: string)
    ensures PricesOf(prices + [p], product, kind, version) ==
            PricesOf(prices, product, kind, version) +
            if p.active && p.product == product && p.terms.kind == kind && p.version == version then [p] else []
  {
    assert (prices + [p])[..|prices|] == prices;
  }

  /** A call whose effect is safe leaves a safe trail whether or not it fails. */
  lemma CallTrail<T>(w: World, after: Remote, value: T, names: set<string>)
    requires Inv(w.remote, names) && Inv(after, names) && Extends(w.remote, after)
    ensures Trail(w, Call(w, after, value).world, names)
  {
    CallIsRecorded(w, after, value);
  }

  lemma CallIsRecorded<T>(w: World, after: Remote, value: T)
    ensures Recorded(w, Call(w, after, value).world)
  {
  }

  lemma SearchTrail<T>(w: World, value: T, names: set<string>)
    requires Inv(w.remote, names)
    ensures var s := Call(w, w.remote, value); s.world.remote == w.remote && Trail(w, s.world, names)
  {
    CallTrail(w, w.remote, value, names);
  }

  /** Meters are no part of the invariant. */
  lemma MetersKeepInv(r: Remote, after: Remote, names: set<string>)
    requires Inv(r, names) && after.products == r.products && after.prices == r.prices && r.nextId <= after.nextId
    ensures Inv(after, names) && Extends(r, after)
  {
  }

  lemma CreateMeterTrail(w: World, event: string, names: set<string>)
    requires Inv(w.remote, names)
    ensures Trail(w, CreateMeter(w, event).world, names)
  {
    var m := Meter(w.remote.nextId, event, true);
    var after := w.remote.(meters := [m] + w.remote.meters, nextId := w.remote.nextId + 1);
    assert CreateMeter(w, event) == Call(w, after, m);
    MetersKeepInv(w.remote, after, names);
    CallTrail(w, after, m, names);
  }

  lemma ArchiveProductTrail(w: World, id: nat, names: set<string>)
    requires Inv(w.remote, names)
    ensures Trail(w, ArchiveProduct(w, id).world, names)
  {
    var after := w.remote.(products := Archived(w.remote.products, id));
    forall name | name in names
      ensures |Matches(after.products, name)| <= 1
    {
      MatchesArchived(w.remote.products, id, name);
      WithoutIsShorter(Matches(w.remote.products, name), id);
    }
    CallTrail(w, after, (), names);
  }

  lemma UpdateProductTrail(w: World, p: Product, details: Details, names: set<string>)
    requires Inv(w.remote, names) && p in w.remote.products && p.details.name == details.name
    ensures Trail(w, UpdateProduct(w, p.id, details).world, names)
  {
    var after := w.remote.(products := Updated(w.remote.products, p.id, details));
    forall name | name in names
      ensures |Matches(after.products, name)| <= 1
    {
      MatchesUpdated(w.remote.products, p.id, details, name);
    }
    CallTrail(w, after, (), names);
  }

  lemma UniqueProductsAppend(r: Remote, after: Remote, p: Product, names: set<string>)
    requires UniqueProducts(r, names) && after.products == r.products + [p]
    requires p.details.name in names ==> Matches(r.products, p.details.name) == []
    ensures UniqueProducts(after, names)
  {
    forall name | name in names
      ensures |Matches(after.products, name)| <= 1
    {
      MatchesAppend(r.products, p, name);
    }
  }

  lemma ProductAppendExtends(r: Remote, after: Remote, p: Product)
    requires after == r.(products := r.products + [p], nextId := r.nextId + 1)
    requires WellFormed(r) && p.id == r.nextId
    ensures WellFormed(after) && Extends(r, after)
  {
  }

  lemma CreateProductTrail(w: World, details: Details, names: set<string>)
    requires Inv(w.remote, names)
    requires details.name in names ==> Matches(w.remote.products, details.name) == []
    ensures Trail(w, CreateProduct(w, details).world, names)
  {
    var p := Product(w.remote.nextId, true, details);
    var after := w.remote.(products := w.remote.products + [p], nextId := w.remote.nextId + 1);
    UniqueProductsAppend(w.remote, after, p, names);
    ProductAppendExtends(w.remote, after, p);
    assert CreateProduct(w, details) == Call(w, after, p);
    CallTrail(w, after, p, names);
  }

  lemma UniquePricesAppend(r: Remote, after: Remote, p: Price)
    requires UniquePrices(r) && after.prices == r.prices + [p]
    requires PricesOf(r.prices, p.product, p.terms.kind, p.version) == []
    ensures UniquePrices(after)
  {
    forall product, kind, version | kind != OtherKind
      ensures |PricesOf(after.prices, product, kind, version)| <= 1
    {
      PricesOfAppend(r.prices, p, product, kind, version);
    }
  }

  lemma PriceAppendExtends(r: Remote, after: Remote, p: Price)
    requires after == r.(prices := r.prices + [p], nextId := r.nextId + 1)
    requires WellFormed(r) && p.id == r.nextId && p.product < r.nextId
    ensures WellFormed(after) && Extends(r, after)
  {
  }

  lemma CreatePriceTrail(w: World, product: nat, version: string, terms: Terms, names: set<string>)
    requires Inv(w.remote, names) && product < w.remote.nextId
    requires PricesOf(w.remote.prices, product, terms.kind, version) == []
    ensures Trail(w, CreatePrice(w, product, version, terms).world, names)
  {
    var p := Price(w.remote.nextId, true, product, version, terms);
    var after := w.remote.(prices := w.remote.prices + [p], nextId := w.remote.nextId + 1);
    UniquePricesAppend(w.remote, after, p);
    PriceAppendExtends(w.remote, after, p);
    assert CreatePrice(w, product, version, terms) == Call(w, after, p);
    CallTrail(w, after, p, names);
  }
}
