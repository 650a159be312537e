/**
 Convergence: whatever earlier runs left behind, one run in which every call works settles every
 plan on sale, and a further update-mode run changes nothing and reports the same ids.
 */
module StripeConvergence {
  import opened Options
  import opened StripeRemote
  import opened StripeSync
  import opened StripeSafety

  /** Exactly one active product with these details, and on it exactly one current price per type. */
  ghost predicate SettledOffer(r: Remote, details: Details, kinds: set<Kind>, version: string) {
    var found := Matches(r.products, details.name);
    && |found| == 1
    && found[0].details == details
    && (forall kind :: kind in kinds ==> |PricesOf(r.prices, found[0].id, kind, version)| == 1)
  }

  /** The ids a settled offer is known by. */
  function OfferOf(r: Remote, details: Details, kinds: set<Kind>, version: string): Offer
    requires SettledOffer(r, details, kinds, version)
  {
    var id := Matches(r.products, details.name)[0].id;
    Offer(id, map kind | kind in kinds :: PricesOf(r.prices, id, kind, version)[0].id)
  }

  ghost predicate Settled(r: Remote, row: PlanRow, cfg: Config) {
    SettledOffer(r, DetailsFor(row, cfg), NeededKinds(row), cfg.version)
  }

  function MappingOf(r: Remote, row: PlanRow, cfg: Config): Mapping
    requires Settled(r, row, cfg)
  {
    var offer := OfferOf(r, DetailsFor(row, cfg), NeededKinds(row), cfg.version);
    Mapping(row.plan, offer.product, offer.prices)
  }

  /******* Prices *******/

  function AtLeastOne(n: nat): nat {
    if n == 0 then 1 else n
  }

  /** One price search that found nothing now finds one; one that found something is as it was, up to what follows. */
  ghost predicate PriceEnsured(before: Remote, after: Remote, product: nat, kind: Kind, version: string, id: nat) {
    var b, a := PricesOf(before.prices, product, kind, version), PricesOf(after.prices, product, kind, version);
    b <= a && |a| == AtLeastOne(|b|) && a[0].id == id
  }

  /** No other search for prices has changed. */
  ghost predicate OnlyPrices(before: Remote, after: Remote, product: nat, kinds: set<Kind>, version: string) {
    forall id, kind, v {:trigger PricesOf(after.prices, id, kind, v)} ::
      id != product || kind !in kinds || v != version ==>
        PricesOf(after.prices, id, kind, v) == PricesOf(before.prices, id, kind, v)
  }

  /** A new active price shows up in its own search, at the end, and in no other. */
  lemma PriceAdded(before: Remote, after: Remote, p: Price)
    requires after.prices == before.prices + [p] && p.active
    ensures PricesOf(after.prices, p.product, p.terms.kind, p.version) ==
            PricesOf(before.prices, p.product, p.terms.kind, p.version) + [p]
    ensures OnlyPrices(before, after, p.product, {p.terms.kind}, p.version)
  {
    PricesOfAppend(before.prices, p, p.product, p.terms.kind, p.version);
    forall id, kind, v | id != p.product || kind != p.terms.kind || v != p.version
      ensures PricesOf(after.prices, id, kind, v) == PricesOf(before.prices, id, kind, v)
    {
      PricesOfAppend(before.prices, p, id, kind, v);
    }
  }

  /** So it is the first of its search when there was none. */
  lemma FirstPriceAdded(before: Remote, after: Remote, p: Price)
    requires after.prices == before.prices + [p] && p.active
    requires PricesOf(before.prices, p.product, p.terms.kind, p.version) == []
    ensures PriceEnsured(before, after, p.product, p.terms.kind, p.version, p.id)
    ensures OnlyPrices(before, after, p.product, {p.terms.kind}, p.version)
  {
    PriceAdded(before, after, p);
  }

  lemma CreatedPriceFits(w: World, product: nat, version: string, terms: Terms)
    requires w.faults == [] && WellFormed(w.remote) && product < w.remote.nextId
    ensures var after := CreatePrice(w, product, version, terms).world;
            && after.faults == [] && WellFormed(after.remote) && product < after.remote.nextId
            && after.remote.prices == w.remote.prices + [Price(w.remote.nextId, true, product, version, terms)]
  {
  }

  lemma PriceCreated(w: World, product: nat, version: string, terms: Terms)
    requires w.faults == [] && WellFormed(w.remote) && product < w.remote.nextId
    requires PricesOf(w.remote.prices, product, terms.kind, version) == []
    ensures var after := CreatePrice(w, product, version, terms).world;
            && after.faults == [] && WellFormed(after.remote) && product < after.remote.nextId
            && PriceEnsured(w.remote, after.remote, product, terms.kind, version, w.remote.nextId)
            && OnlyPrices(w.remote, after.remote, product, {terms.kind}, version)
  {
    CreatedPriceFits(w, product, version, terms);
    FirstPriceAdded(w.remote, CreatePrice(w, product, version, terms).world.remote,
                    Price(w.remote.nextId, true, product, version, terms));
  }

  lemma EnsurePriceCounts(w: World, product: nat, version: string, terms: Terms)
    requires w.faults == [] && WellFormed(w.remote) && product < w.remote.nextId
    ensures var s := EnsurePrice(w, product, version, terms);
            && s.Done? && s.world.faults == [] && WellFormed(s.world.remote) && product < s.world.remote.nextId
            && s.world.remote.products == w.remote.products && s.world.remote.meters == w.remote.meters
            && PriceEnsured(w.remote, s.world.remote, product, terms.kind, version, s.value)
            && OnlyPrices(w.remote, s.world.remote, product, {terms.kind}, version)
  {
    var before := PricesOf(w.remote.prices, product, terms.kind, version);
    var w1 := SearchPrices(w, product, terms.kind, version).world;
    assert w1.remote == w.remote && w1.faults == [];
    if before == [] {
      PriceCreated(w1, product, version, terms);
      assert EnsurePrice(w, product, version, terms) ==
             Done(CreatePrice(w1, product, version, terms).world, w.remote.nextId);
    } else {
      assert EnsurePrice(w, product, version, terms) == Done(w1, before[0].id);
    }
  }

  /** With every call working, each type has its prices or now one, and the first of them is reported. */
  lemma {:induction false} EnsurePricesCounts(w: World, product: nat, version: string, terms: seq<Terms>)
    requires w.faults == [] && WellFormed(w.remote) && product < w.remote.nextId
    ensures var s := EnsurePrices(w, product, version, terms);
            && s.Done? && s.world.faults == [] && WellFormed(s.world.remote)
            && s.world.remote.products == w.remote.products && s.world.remote.meters == w.remote.meters
            && s.value.Keys == KindsOf(terms)
            && OnlyPrices(w.remote, s.world.remote, product, KindsOf(terms), version)
            && forall kind :: kind in s.value ==>
                 PriceEnsured(w.remote, s.world.remote, product, kind, version, s.value[kind])
    decreases terms
  {
    if terms != [] {
      var first := EnsurePrice(w, product, version, terms[0]);
      EnsurePriceCounts(w, product, version, terms[0]);
      EnsurePricesCounts(first.world, product, version, terms[1..]);
      var rest := EnsurePrices(first.world, product, version, terms[1..]);
      KindsStep(terms);
      PricesEnsuredMore(w.remote, first.world.remote, rest.world.remote, product, version, terms[0].kind, first.value,
                        KindsOf(terms[1..]), rest.value, rest.value[terms[0].kind := first.value]);
    }
  }

  /** One type's price ensured, then those of some types. */
  lemma PricesEnsuredMore(
      before: Remote, middle: Remote, after: Remote, product: nat, version: string, kind: Kind, id: nat,
      kinds: set<Kind>, ids: map<Kind, nat>, all: map<Kind, nat>)
    requires all == ids[kind := id]
    requires PriceEnsured(before, middle, product, kind, version, id)
    requires OnlyPrices(before, middle, product, {kind}, version)
    requires OnlyPrices(middle, after, product, kinds, version) && ids.Keys == kinds
    requires forall k :: k in ids ==> PriceEnsured(middle, after, product, k, version, ids[k])
    ensures OnlyPrices(before, after, product, {kind} + kinds, version)
    ensures forall k :: k in all ==> PriceEnsured(before, after, product, k, version, all[k])
  {
    forall k | k in all
      ensures PriceEnsured(before, after, product, k, version, all[k])
    {
      if k == kind {
        assert k !in kinds ==>
            PricesOf(after.prices, product, k, version) == PricesOf(middle.prices, product, k, version);
      } else {
        assert PricesOf(middle.prices, product, k, version) == PricesOf(before.prices, product, k, version);
      }
    }
    forall p, k, v | p != product || k !in {kind} + kinds || v != version
      ensures PricesOf(after.prices, p, k, v) == PricesOf(before.prices, p, k, v)
    {
      assert PricesOf(after.prices, p, k, v) == PricesOf(middle.prices, p, k, v);
    }
  }

  lemma {:induction false} NoPricesYet(prices: seq<Price>, product: nat, kind: Kind, version: string)
    requires forall i :: 0 <= i < |prices| ==> prices[i].product < product
    ensures PricesOf(prices, product, kind, version) == []
    decreases prices
  {
    if prices != [] {
      NoPricesYet(prices[..|prices| - 1], product, kind, version);
    }
  }

  lemma {:induction false} EnsurePricesFixed(w: World, product: nat, version: string, terms: seq<Terms>)
    requires w.faults == []
    requires forall t :: t in terms ==> |PricesOf(w.remote.prices, product, t.kind, version)| == 1
    ensures var s := EnsurePrices(w, product, version, terms);
            && s.Done? && s.world.faults == [] && s.world.remote == w.remote
            && s.value == map kind | kind in (set t | t in terms :: t.kind) ::
                 PricesOf(w.remote.prices, product, kind, version)[0].id
    decreases terms
  {
    if terms != [] {
      var first := EnsurePrice(w, product, version, terms[0]);
      assert first.Done? && first.world.faults == [] && first.world.remote == w.remote &&
             first.value == PricesOf(w.remote.prices, product, terms[0].kind, version)[0].id by {
        assert terms[0] in terms;
      }
      EnsurePricesFixed(first.world, product, version, terms[1..]);
      var rest := EnsurePrices(first.world, product, version, terms[1..]);
      assert EnsurePrices(w, product, version, terms) == Done(rest.world, rest.value[terms[0].kind := first.value]);
      KindsStep(terms);
    }
  }

  lemma KindsStep(terms: seq<Terms>)
    requires terms != []
    ensures (set t | t in terms :: t.kind) == {terms[0].kind} + (set t | t in terms[1..] :: t.kind)
  {
    assert terms == [terms[0]] + terms[1..];
  }

  lemma TermsKinds(row: PlanRow, meters: MeterIds)
    ensures KindsOf(TermsFor(row, meters)) == NeededKinds(row)
    ensures OtherKind !in NeededKinds(row)
    ensures forall t :: t in TermsFor(row, meters) ==> t.kind in NeededKinds(row)
  {
    var kinds := set t | t in TermsFor(row, meters) :: t.kind;
    var base := if row.plan == FREE then [] else [MonthlyTerms(row)];
    if IsMetered(row) {
      var usage := [MarketingTerms(row, row.rates.value, meters), TransactionalTerms(row, row.rates.value, meters)];
      assert TermsFor(row, meters) == base + usage;
      assert usage[0] in base + usage && usage[1] in base + usage;
      assert row.plan != FREE;
      assert (base + usage)[0] == MonthlyTerms(row);
      assert kinds == {Monthly, MarketingUsage, TransactionalUsage};
    } else {
      assert TermsFor(row, meters) == base;
      if row.plan != FREE {
        assert MonthlyTerms(row) in base;
        assert kinds == {Monthly};
      } else {
        assert kinds == {};
      }
    }
  }

  /******* Products *******/

  /** Archiving products of one name touches the search for no other name, no price and no meter. */
  lemma {:induction false} ArchiveAllFrame(w: World, doomed: seq<Product>, name: string)
    requires w.faults == [] && WellFormed(w.remote)
    requires forall p :: p in doomed ==>
               exists i :: 0 <= i < |w.remote.products| && w.remote.products[i].id == p.id &&
                           w.remote.products[i].details.name == name
    ensures var s := ArchiveAll(w, doomed);
            && s.Done? && s.world.faults == [] && WellFormed(s.world.remote)
            && s.world.remote.prices == w.remote.prices && s.world.remote.meters == w.remote.meters
            && s.world.remote.nextId == w.remote.nextId
            && forall n :: n != name ==> Matches(s.world.remote.products, n) == Matches(w.remote.products, n)
    decreases doomed
  {
    if doomed != [] {
      var id := doomed[0].id;
      var first := ArchiveProduct(w, id);
      forall n | n != name
        ensures Matches(first.world.remote.products, n) == Matches(w.remote.products, n)
      {
        MatchesArchived(w.remote.products, id, n);
        NoOtherMatch(w.remote, id, name, n);
        WithoutIsShorter(Matches(w.remote.products, n), id);
      }
      forall p | p in doomed[1..]
        ensures exists i :: 0 <= i < |first.world.remote.products| && first.world.remote.products[i].id == p.id &&
                            first.world.remote.products[i].details.name == name
      {
        var i :| 0 <= i < |w.remote.products| && w.remote.products[i].id == p.id &&
                 w.remote.products[i].details.name == name;
        assert first.world.remote.products[i].id == p.id;
      }
      ArchiveAllFrame(first.world, doomed[1..], name);
    }
  }

  /** The id of a product with one name does not show up in the search for another. */
  lemma NoOtherMatch(r: Remote, id: nat, name: string, other: string)
    requires WellFormed(r) && name != other
    requires exists i :: 0 <= i < |r.products| && r.products[i].id == id && r.products[i].details.name == name
    ensures forall p :: p in Matches(r.products, other) ==> p.id != id
  {
    MatchesMembers(r.products, other);
    var i :| 0 <= i < |r.products| && r.products[i].id == id && r.products[i].details.name == name;
    forall p | p in Matches(r.products, other)
      ensures p.id != id
    {
      var j :| 0 <= j < |r.products| && r.products[j] == p;
      assert i != j;
    }
  }

  lemma UpdateSettles(w: World, p: Product, details: Details)
    requires w.faults == [] && WellFormed(w.remote) && p in Matches(w.remote.products, details.name)
    ensures var after := UpdateProduct(w, p.id, details).world.remote;
            && Matches(after.products, details.name) == Updated(Matches(w.remote.products, details.name), p.id, details)
            && forall n :: n != details.name ==> Matches(after.products, n) == Matches(w.remote.products, n)
  {
    MatchesMembers(w.remote.products, details.name);
    var i :| 0 <= i < |w.remote.products| && w.remote.products[i] == p;
    assert forall j :: 0 <= j < |w.remote.products| && w.remote.products[j].id == p.id ==> j == i;
    MatchesUpdated(w.remote.products, p.id, details, details.name);
    forall n | n != details.name
      ensures Matches(Updated(w.remote.products, p.id, details), n) == Matches(w.remote.products, n)
    {
      MatchesUpdated(w.remote.products, p.id, details, n);
      NoOtherMatch(w.remote, p.id, details.name, n);
    }
  }

  /**
   With every call working, a product name goes from n active products to max(1, n) in update mode
   and to 1 + max(0, n - 100) in forced mode; no other name is touched.
   */
  lemma EnsureProductCount(w: World, details: Details, forced: bool)
    requires w.faults == [] && WellFormed(w.remote)
    ensures var s := EnsureProduct(w, details, forced);
            var before := Matches(w.remote.products, details.name);
            var after := Matches(s.world.remote.products, details.name);
            && s.Done? && s.world.faults == []
            && |after| == (if forced then 1 + (if |before| <= 100 then 0 else |before| - 100)
                           else if before == [] then 1 else |before|)
            && (exists k :: 0 <= k < |after| && after[k].id == s.value && after[k].details == details)
            && s.value == (if forced || before == [] then w.remote.nextId else before[0].id)
            && s.value < s.world.remote.nextId && WellFormed(s.world.remote)
            && s.world.remote.prices == w.remote.prices && s.world.remote.meters == w.remote.meters
            && (forall n :: n != details.name ==> Matches(s.world.remote.products, n) == Matches(w.remote.products, n))
  {
    var before := Matches(w.remote.products, details.name);
    if before != [] && !forced {
      ProductReused(w, details);
    } else {
      ProductCreated(w, details, if forced then |Limited(before)| else 0, forced);
    }
    EnsureProductId(w, details, forced);
  }

  /** Nothing but the products changes, and of those only the ones with this name. */
  ghost predicate OnlyProduct(before: Remote, after: Remote, name: string) {
    && after.prices == before.prices && after.meters == before.meters
    && (forall n :: n != name ==> Matches(after.products, n) == Matches(before.products, n))
  }

  lemma ProductReused(w: World, details: Details)
    requires w.faults == [] && WellFormed(w.remote) && Matches(w.remote.products, details.name) != []
    ensures var s := EnsureProduct(w, details, false);
            var before := Matches(w.remote.products, details.name);
            var after := Matches(s.world.remote.products, details.name);
            && s.Done? && s.world.faults == [] && OnlyProduct(w.remote, s.world.remote, details.name)
            && |after| == |before| && after[0].id == s.value && after[0].details == details
            && s.value == before[0].id && WellFormed(s.world.remote)
  {
    var w1 := SearchProducts(w, details.name).world;
    var found := Limited(Matches(w.remote.products, details.name));
    assert w1.remote == w.remote && w1.faults == [];
    UpdateSettles(w1, found[0], details);
    assert EnsureProduct(w, details, false) == Done(UpdateProduct(w1, found[0].id, details).world, found[0].id);
  }

  /** Archiving the first n found, then creating one: the others and the new one are left. */
  lemma ProductCreated(w: World, details: Details, n: nat, forced: bool)
    requires w.faults == [] && WellFormed(w.remote)
    requires forced || Matches(w.remote.products, details.name) == []
    requires n == if forced then |Limited(Matches(w.remote.products, details.name))| else 0
    ensures var s := EnsureProduct(w, details, forced);
            var before := Matches(w.remote.products, details.name);
            var after := Matches(s.world.remote.products, details.name);
            && s.Done? && s.world.faults == [] && OnlyProduct(w.remote, s.world.remote, details.name)
            && |after| == |before| - n + 1 && after[|after| - 1].id == s.value && after[|after| - 1].details == details
            && s.value == w.remote.nextId && WellFormed(s.world.remote)
  {
    var name := details.name;
    var before := Matches(w.remote.products, name);
    var w1 := SearchProducts(w, name).world;
    assert w1.remote == w.remote && w1.faults == [];
    var w2 := ArchivesThenCreates(w, w1, details, before[..n], forced);
    ArchiveAllMatches(w1, name, n);
    assert Matches(w2.remote.products, name) == before[n..];
    CreatedLast(w2, details);
    CreatedFits(w2, details);
  }

  lemma CreatedFits(w: World, details: Details)
    requires WellFormed(w.remote)
    ensures WellFormed(CreateProduct(w, details).world.remote)
  {
  }

  lemma CreatedLast(w: World, details: Details)
    requires w.faults == []
    ensures var after, p := CreateProduct(w, details).world, Product(w.remote.nextId, true, details);
            && after.faults == [] && OnlyProduct(w.remote, after.remote, details.name)
            && Matches(after.remote.products, details.name) == Matches(w.remote.products, details.name) + [p]
  {
    var p := Product(w.remote.nextId, true, details);
    forall m
      ensures Matches(w.remote.products + [p], m) ==
              Matches(w.remote.products, m) + if m == details.name then [p] else []
    {
      MatchesAppend(w.remote.products, p, m);
    }
  }

  /** When every call works, the product is created in the world the archiving left. */
  lemma ArchivesThenCreates(w: World, w1: World, details: Details, doomed: seq<Product>, forced: bool)
    returns (w2: World)
    requires w.faults == [] && WellFormed(w.remote)
    requires forced || Matches(w.remote.products, details.name) == []
    requires doomed == if forced then Limited(Matches(w.remote.products, details.name)) else []
    requires w1 == SearchProducts(w, details.name).world
    ensures w2 == ArchiveAll(w1, doomed).world && ArchiveAll(w1, doomed).Done? && w2.faults == []
    ensures EnsureProduct(w, details, forced) == Done(CreateProduct(w2, details).world, w2.remote.nextId)
    ensures OnlyProduct(w.remote, w2.remote, details.name)
    ensures w2.remote.nextId == w.remote.nextId && WellFormed(w2.remote)
  {
    var name := details.name;
    MatchesMembers(w.remote.products, name);
    assert forall p :: p in doomed ==> p in Matches(w.remote.products, name);
    ArchiveAllFrame(w1, doomed, name);
    w2 := ArchiveAll(w1, doomed).world;
  }

  lemma EnsureProductFixed(w: World, details: Details)
    requires w.faults == [] && WellFormed(w.remote)
    requires |Matches(w.remote.products, details.name)| == 1 &&
             Matches(w.remote.products, details.name)[0].details == details
    ensures var s := EnsureProduct(w, details, false);
            && s.Done? && s.world.faults == [] && s.world.remote == w.remote
            && s.value == Matches(w.remote.products, details.name)[0].id
  {
    var p := Matches(w.remote.products, details.name)[0];
    MatchesMembers(w.remote.products, details.name);
    var i :| 0 <= i < |w.remote.products| && w.remote.products[i] == p;
    assert Updated(w.remote.products, p.id, details) == w.remote.products by {
      forall j | 0 <= j < |w.remote.products|
        ensures Updated(w.remote.products, p.id, details)[j] == w.remote.products[j]
      {
        assert j != i ==> w.remote.products[j].id != p.id;
      }
    }
  }

  /******* One product with its prices *******/

  function KindsOf(terms: seq<Terms>): set<Kind> {
    set t | t in terms :: t.kind
  }

  /**
   What an offer must be like before: few enough products of the name for one search to find, when they are
   archived; otherwise one at most, with at most one current price per type.
   */
  ghost predicate Settleable(r: Remote, details: Details, kinds: set<Kind>, version: string, forced: bool) {
    var found := Matches(r.products, details.name);
    if forced then |found| <= 100
    else
      && |found| <= 1
      && (found != [] ==> forall kind :: kind in kinds ==> |PricesOf(r.prices, found[0].id, kind, version)| <= 1)
  }

  /** With every call working, an offer ends up settled exactly when it could be, and is reported as it then is. */
  lemma EnsureOfferSettlesWhen(w: World, details: Details, version: string, terms: seq<Terms>, forced: bool)
    requires w.faults == [] && WellFormed(w.remote)
    ensures var s, kinds := EnsureOffer(w, details, version, terms, forced), KindsOf(terms);
            && s.Done? && s.world.faults == [] && s.world.remote.meters == w.remote.meters && WellFormed(s.world.remote)
            && (SettledOffer(s.world.remote, details, kinds, version) <==>
                  Settleable(w.remote, details, kinds, version, forced))
            && (SettledOffer(s.world.remote, details, kinds, version) ==>
                  s.value == OfferOf(s.world.remote, details, kinds, version))
  {
    EnsureProductCount(w, details, forced);
    var product := EnsureProduct(w, details, forced);
    EnsurePricesCounts(product.world, product.value, version, terms);
    var prices := EnsurePrices(product.world, product.value, version, terms);
    assert EnsureOffer(w, details, version, terms, forced) == Done(prices.world, Offer(product.value, prices.value));
    PricesBefore(w, details, version, KindsOf(terms), forced);
    OfferSettledWhen(product.world.remote, prices.world.remote, details, version, KindsOf(terms), product.value,
                     prices.value);
  }

  /** The product's prices before: none on a new one. */
  lemma PricesBefore(w: World, details: Details, version: string, kinds: set<Kind>, forced: bool)
    requires w.faults == [] && WellFormed(w.remote)
    ensures var product := EnsureProduct(w, details, forced);
            && product.Done? && product.world.remote.prices == w.remote.prices
            && (Settleable(w.remote, details, kinds, version, forced) <==>
                  && |Matches(product.world.remote.products, details.name)| == 1
                  && forall kind :: kind in kinds ==>
                       |PricesOf(product.world.remote.prices, product.value, kind, version)| <= 1)
  {
    EnsureProductCount(w, details, forced);
    var found := Matches(w.remote.products, details.name);
    if forced || found == [] {
      forall kind | kind in kinds
        ensures PricesOf(w.remote.prices, w.remote.nextId, kind, version) == []
      {
        NoPricesYet(w.remote.prices, w.remote.nextId, kind, version);
      }
    }
  }

  lemma OfferSettledWhen(
      before: Remote, after: Remote, details: Details, version: string, kinds: set<Kind>, product: nat,
      prices: map<Kind, nat>)
    requires after.products == before.products && prices.Keys == kinds
    requires exists p :: p in Matches(before.products, details.name) && p.id == product && p.details == details
    requires forall kind :: kind in prices ==> PriceEnsured(before, after, product, kind, version, prices[kind])
    ensures SettledOffer(after, details, kinds, version) <==>
              && |Matches(before.products, details.name)| == 1
              && forall kind :: kind in kinds ==> |PricesOf(before.prices, product, kind, version)| <= 1
    ensures SettledOffer(after, details, kinds, version) ==>
              OfferOf(after, details, kinds, version) == Offer(product, prices)
  {
    var found := Matches(before.products, details.name);
    if |found| == 1 {
      assert found[0].id == product && found[0].details == details;
      forall kind | kind in kinds
        ensures |PricesOf(after.prices, product, kind, version)| == 1 <==>
                |PricesOf(before.prices, product, kind, version)| <= 1
        ensures PricesOf(after.prices, product, kind, version) != []
        ensures PricesOf(after.prices, product, kind, version)[0].id == prices[kind]
      {
        assert PriceEnsured(before, after, product, kind, version, prices[kind]);
      }
    }
  }

  /** A name's active products and their current prices are the same. */
  ghost predicate SameOffers(before: Remote, after: Remote, name: string) {
    && Matches(after.products, name) == Matches(before.products, name)
    && forall p, kind, version {:trigger PricesOf(after.prices, p.id, kind, version)} ::
         p in Matches(before.products, name) ==>
           PricesOf(after.prices, p.id, kind, version) == PricesOf(before.prices, p.id, kind, version)
  }

  lemma SameOffersOn(a: Remote, b: Remote, c: Remote, name: string)
    requires SameOffers(a, b, name) && SameOffers(b, c, name)
    ensures SameOffers(a, c, name)
  {
    forall p, kind, version | p in Matches(a.products, name)
      ensures PricesOf(c.prices, p.id, kind, version) == PricesOf(a.prices, p.id, kind, version)
    {
      assert PricesOf(c.prices, p.id, kind, version) == PricesOf(b.prices, p.id, kind, version);
    }
  }

  lemma SameOffersMean(before: Remote, after: Remote, details: Details, kinds: set<Kind>, version: string, forced: bool)
    requires SameOffers(before, after, details.name)
    ensures SettledOffer(after, details, kinds, version) <==> SettledOffer(before, details, kinds, version)
    ensures Settleable(after, details, kinds, version, forced) <==> Settleable(before, details, kinds, version, forced)
    ensures SettledOffer(before, details, kinds, version) ==>
              OfferOf(after, details, kinds, version) == OfferOf(before, details, kinds, version)
  {
    var found := Matches(before.products, details.name);
    if found != [] {
      assert found[0] in found;
      forall kind
        ensures PricesOf(after.prices, found[0].id, kind, version) ==
                PricesOf(before.prices, found[0].id, kind, version)
      {
      }
    }
  }

  /** Ensuring an offer of one name leaves those of any other as they are. */
  lemma EnsureOfferFrame(
      w: World, details: Details, version: string, terms: seq<Terms>, forced: bool, other: string)
    requires w.faults == [] && WellFormed(w.remote) && other != details.name
    ensures SameOffers(w.remote, EnsureOffer(w, details, version, terms, forced).world.remote, other)
  {
    EnsureProductCount(w, details, forced);
    var product := EnsureProduct(w, details, forced);
    EnsurePricesCounts(product.world, product.value, version, terms);
    OtherProducts(w.remote, details, forced, product.value, other);
    var r := EnsurePrices(product.world, product.value, version, terms).world.remote;
    forall p, kind, v | p in Matches(w.remote.products, other)
      ensures PricesOf(r.prices, p.id, kind, v) == PricesOf(w.remote.prices, p.id, kind, v)
    {
      assert p.id != product.value;
    }
  }

  /** No product of another name has the id of the one ensured. */
  lemma OtherProducts(r: Remote, details: Details, forced: bool, product: nat, other: string)
    requires WellFormed(r) && other != details.name
    requires var found := Matches(r.products, details.name);
             product == if forced || found == [] then r.nextId else found[0].id
    ensures forall p :: p in Matches(r.products, other) ==> p.id != product
  {
    var found := Matches(r.products, details.name);
    MatchesMembers(r.products, other);
    if !forced && found != [] {
      MatchesMembers(r.products, details.name);
      var i :| 0 <= i < |r.products| && r.products[i] == found[0];
      NoOtherMatch(r, product, details.name, other);
    }
  }

  lemma EnsureOfferFixed(w: World, details: Details, version: string, terms: seq<Terms>)
    requires w.faults == [] && WellFormed(w.remote) && SettledOffer(w.remote, details, KindsOf(terms), version)
    ensures var s := EnsureOffer(w, details, version, terms, false);
            && s.Done? && s.world.faults == [] && s.world.remote == w.remote
            && s.value == OfferOf(w.remote, details, KindsOf(terms), version)
  {
    EnsureProductFixed(w, details);
    var product := EnsureProduct(w, details, false);
    assert forall t :: t in terms ==> t.kind in KindsOf(terms);
    EnsurePricesFixed(product.world, product.value, version, terms);
  }

  /******* The whole table *******/

  ghost predicate AllSettled(r: Remote, rows: seq<PlanRow>, cfg: Config) {
    forall row :: row in rows && !row.legacy ==> Settled(r, row, cfg)
  }

  function Mappings(r: Remote, rows: seq<PlanRow>, cfg: Config): seq<Mapping>
    requires AllSettled(r, rows, cfg)
  {
    if rows == [] then []
    else
      assert forall row :: row in rows[1..] ==> row in rows;
      if rows[0].legacy then Mappings(r, rows[1..], cfg)
      else [MappingOf(r, rows[0], cfg)] + Mappings(r, rows[1..], cfg)
  }

  ghost predicate NamesDiffer(rows: seq<PlanRow>, cfg: Config) {
    forall i, j :: 0 <= i < j < |rows| ==> DetailsFor(rows[i], cfg).name != DetailsFor(rows[j], cfg).name
  }

  /** The names in the table are among the given ones, and differ from each other. */
  ghost predicate TableFits(rows: seq<PlanRow>, cfg: Config, names: set<string>) {
    (forall row :: row in rows ==> DetailsFor(row, cfg).name in names) && NamesDiffer(rows, cfg)
  }

  ghost predicate RowSettleable(r: Remote, row: PlanRow, cfg: Config, forced: bool) {
    Settleable(r, DetailsFor(row, cfg), NeededKinds(row), cfg.version, forced)
  }

  ghost predicate AllSettleable(r: Remote, rows: seq<PlanRow>, cfg: Config, forced: bool) {
    forall row :: row in rows && !row.legacy ==> RowSettleable(r, row, cfg, forced)
  }

  lemma NamesDifferRest(rows: seq<PlanRow>, cfg: Config)
    requires rows != [] && NamesDiffer(rows, cfg)
    ensures NamesDiffer(rows[1..], cfg)
    ensures forall row :: row in rows[1..] ==> DetailsFor(row, cfg).name != DetailsFor(rows[0], cfg).name
    ensures forall row :: row in rows <==> row == rows[0] || row in rows[1..]
  {
    var rest := rows[1..];
    forall i, j | 0 <= i < j < |rest|
      ensures DetailsFor(rest[i], cfg).name != DetailsFor(rest[j], cfg).name
    {
      assert rest[i] == rows[i + 1] && rest[j] == rows[j + 1];
    }
    forall row | row in rest
      ensures DetailsFor(row, cfg).name != DetailsFor(rows[0], cfg).name
    {
      var j :| 0 <= j < |rest| && rest[j] == row;
      assert rows[j + 1] == row;
    }
    assert rows == [rows[0]] + rest;
  }

  lemma SyncPlanSettlesWhen(w: World, row: PlanRow, cfg: Config, meters: MeterIds, forced: bool)
    requires w.faults == [] && WellFormed(w.remote)
    ensures var s := SyncPlan(w, row, cfg, meters, forced);
            && s.Done? && s.world.faults == [] && s.world.remote.meters == w.remote.meters && WellFormed(s.world.remote)
            && (Settled(s.world.remote, row, cfg) <==> RowSettleable(w.remote, row, cfg, forced))
            && (Settled(s.world.remote, row, cfg) ==> s.value == MappingOf(s.world.remote, row, cfg))
  {
    TermsKinds(row, meters);
    EnsureOfferSettlesWhen(w, DetailsFor(row, cfg), cfg.version, TermsFor(row, meters), forced);
  }

  lemma SyncPlanFrame(w: World, row: PlanRow, cfg: Config, meters: MeterIds, forced: bool, other: string)
    requires w.faults == [] && WellFormed(w.remote) && other != DetailsFor(row, cfg).name
    ensures SameOffers(w.remote, SyncPlan(w, row, cfg, meters, forced).world.remote, other)
  {
    EnsureOfferFrame(w, DetailsFor(row, cfg), cfg.version, TermsFor(row, meters), forced, other);
    EnsureOfferSettlesWhen(w, DetailsFor(row, cfg), cfg.version, TermsFor(row, meters), forced);
  }

  lemma {:induction false} SyncRowsFrame(
      w: World, rows: seq<PlanRow>, cfg: Config, meters: MeterIds, forced: bool, other: string)
    requires w.faults == [] && WellFormed(w.remote)
    requires forall row :: row in rows ==> DetailsFor(row, cfg).name != other
    ensures SameOffers(w.remote, SyncRows(w, rows, cfg, meters, forced).world.remote, other)
    decreases rows
  {
    if rows != [] {
      assert forall row :: row in rows[1..] ==> row in rows;
      if rows[0].legacy {
        SyncRowsFrame(w, rows[1..], cfg, meters, forced, other);
      } else {
        var step := SyncPlan(w, rows[0], cfg, meters, forced);
        SyncPlanSettlesWhen(w, rows[0], cfg, meters, forced);
        SyncPlanFrame(w, rows[0], cfg, meters, forced, other);
        SyncRowsFrame(step.world, rows[1..], cfg, meters, forced, other);
        SameOffersOn(w.remote, step.world.remote,
                     SyncRows(step.world, rows[1..], cfg, meters, forced).world.remote, other);
      }
    }
  }

  lemma AllSettledMore(r: Remote, rows: seq<PlanRow>, cfg: Config)
    requires rows != [] && !rows[0].legacy && Settled(r, rows[0], cfg) && AllSettled(r, rows[1..], cfg)
    ensures AllSettled(r, rows, cfg)
    ensures Mappings(r, rows, cfg) == [MappingOf(r, rows[0], cfg)] + Mappings(r, rows[1..], cfg)
  {
    assert forall row :: row in rows ==> row == rows[0] || row in rows[1..];
  }

  /** The rest of the table is as settleable after one plan's turn as it was before. */
  lemma RestStaysSettleable(
      w: World, row: PlanRow, rest: seq<PlanRow>, cfg: Config, meters: MeterIds, forced: bool)
    requires w.faults == [] && WellFormed(w.remote)
    requires forall other :: other in rest ==> DetailsFor(other, cfg).name != DetailsFor(row, cfg).name
    ensures AllSettleable(SyncPlan(w, row, cfg, meters, forced).world.remote, rest, cfg, forced) <==>
              AllSettleable(w.remote, rest, cfg, forced)
  {
    var r := SyncPlan(w, row, cfg, meters, forced).world.remote;
    forall other | other in rest
      ensures RowSettleable(r, other, cfg, forced) <==> RowSettleable(w.remote, other, cfg, forced)
    {
      SyncPlanFrame(w, row, cfg, meters, forced, DetailsFor(other, cfg).name);
      SameOffersMean(w.remote, r, DetailsFor(other, cfg), NeededKinds(other), cfg.version, forced);
    }
  }

  /** With every call working, every plan on sale ends up settled exactly when each could be at the start. */
  lemma {:induction false} SyncRowsSettlesWhen(
      w: World, rows: seq<PlanRow>, cfg: Config, meters: MeterIds, forced: bool)
    requires w.faults == [] && WellFormed(w.remote) && NamesDiffer(rows, cfg)
    ensures var s := SyncRows(w, rows, cfg, meters, forced);
            && s.errors == [] && s.world.faults == [] && s.world.remote.meters == w.remote.meters
            && WellFormed(s.world.remote)
            && (AllSettled(s.world.remote, rows, cfg) <==> AllSettleable(w.remote, rows, cfg, forced))
            && (AllSettled(s.world.remote, rows, cfg) ==> s.products == Mappings(s.world.remote, rows, cfg))
    decreases rows
  {
    if rows != [] {
      NamesDifferRest(rows, cfg);
      if rows[0].legacy {
        SyncRowsSettlesWhen(w, rows[1..], cfg, meters, forced);
      } else {
        SyncPlanSettlesWhen(w, rows[0], cfg, meters, forced);
        RestStaysSettleable(w, rows[0], rows[1..], cfg, meters, forced);
        var step := SyncPlan(w, rows[0], cfg, meters, forced);
        SyncRowsSettlesWhen(step.world, rows[1..], cfg, meters, forced);
        SyncRowsFrame(step.world, rows[1..], cfg, meters, forced, DetailsFor(rows[0], cfg).name);
        var end := SyncRows(step.world, rows[1..], cfg, meters, forced).world.remote;
        SameOffersMean(step.world.remote, end, DetailsFor(rows[0], cfg), NeededKinds(rows[0]), cfg.version, forced);
        FirstAndRest(w.remote, end, rows, cfg, forced);
        if Settled(end, rows[0], cfg) && AllSettled(end, rows[1..], cfg) {
          AllSettledMore(end, rows, cfg);
        }
      }
    }
  }

  lemma FirstAndRest(before: Remote, after: Remote, rows: seq<PlanRow>, cfg: Config, forced: bool)
    requires rows != [] && !rows[0].legacy
    ensures AllSettled(after, rows, cfg) <==> Settled(after, rows[0], cfg) && AllSettled(after, rows[1..], cfg)
    ensures AllSettleable(before, rows, cfg, forced) <==>
              RowSettleable(before, rows[0], cfg, forced) && AllSettleable(before, rows[1..], cfg, forced)
  {
    assert forall row :: row in rows <==> row == rows[0] || row in rows[1..] by {
      assert rows == [rows[0]] + rows[1..];
    }
  }

  lemma {:induction false} SyncRowsFixed(w: World, rows: seq<PlanRow>, cfg: Config, meters: MeterIds)
    requires w.faults == [] && WellFormed(w.remote) && AllSettled(w.remote, rows, cfg)
    ensures var s := SyncRows(w, rows, cfg, meters, false);
            s.errors == [] && s.world.remote == w.remote && s.products == Mappings(w.remote, rows, cfg)
    decreases rows
  {
    if rows != [] {
      assert forall row :: row in rows[1..] ==> row in rows;
      if rows[0].legacy {
        SyncRowsFixed(w, rows[1..], cfg, meters);
      } else {
        TermsKinds(rows[0], meters);
        EnsureOfferFixed(w, DetailsFor(rows[0], cfg), cfg.version, TermsFor(rows[0], meters));
        SyncRowsFixed(SyncPlan(w, rows[0], cfg, meters, false).world, rows[1..], cfg, meters);
      }
    }
  }

  /******* Meters *******/

  lemma EnsureMeterSettles(w: World, event: string)
    requires w.faults == []
    ensures var s := EnsureMeter(w, event);
            && s.Done? && s.world.faults == []
            && s.world.remote.products == w.remote.products && s.world.remote.prices == w.remote.prices
            && |w.remote.meters| <= |s.world.remote.meters|
            && w.remote.nextId <= s.world.remote.nextId
            && (|s.world.remote.meters| <= 100 ==>
                  FindMeter(s.world.remote.meters, event) != [] &&
                      FindMeter(s.world.remote.meters, event)[0].id == s.value)
            && (forall e :: e != event ==> FindMeter(s.world.remote.meters, e) == FindMeter(w.remote.meters, e))
  {
    var m := Meter(w.remote.nextId, event, true);
    assert ([m] + w.remote.meters)[1..] == w.remote.meters;
  }

  lemma EnsureMetersSettles(w: World)
    requires w.faults == []
    ensures var s := EnsureMeters(w);
            && s.Done? && s.world.faults == []
            && s.world.remote.products == w.remote.products && s.world.remote.prices == w.remote.prices
            && w.remote.nextId <= s.world.remote.nextId
            && (|s.world.remote.meters| <= 100 ==>
                  MetersAre(s.world.remote.meters, s.value))
  {
    EnsureMeterSettles(w, MARKETING_EVENT);
    var w1 := EnsureMeter(w, MARKETING_EVENT).world;
    EnsureMeterSettles(w1, TRANSACTIONAL_EVENT);
    var w2 := EnsureMeter(w1, TRANSACTIONAL_EVENT).world;
    EnsureMeterSettles(w2, MEMBER_EVENT);
    EventsDiffer();
  }

  lemma EventsDiffer()
    ensures MARKETING_EVENT != TRANSACTIONAL_EVENT && MARKETING_EVENT != MEMBER_EVENT &&
            TRANSACTIONAL_EVENT != MEMBER_EVENT
  {
    assert MARKETING_EVENT[9] == 'm' && TRANSACTIONAL_EVENT[9] == 't' && MEMBER_EVENT[9] == 'e';
  }

  ghost predicate MetersAre(meters: seq<Meter>, ids: MeterIds) {
    && FindMeter(meters, MARKETING_EVENT) != [] && FindMeter(meters, MARKETING_EVENT)[0].id == ids.marketing
    && FindMeter(meters, TRANSACTIONAL_EVENT) != [] && FindMeter(meters, TRANSACTIONAL_EVENT)[0].id == ids.transactional
    && FindMeter(meters, MEMBER_EVENT) != [] && FindMeter(meters, MEMBER_EVENT)[0].id == ids.extraMember
  }

  lemma EnsureMetersFixed(w: World, ids: MeterIds)
    requires w.faults == [] && |w.remote.meters| <= 100 && MetersAre(w.remote.meters, ids)
    ensures var s := EnsureMeters(w);
            s.Done? && s.world.faults == [] && s.world.remote == w.remote && s.value == ids
  {
    var w1 := EnsureMeter(w, MARKETING_EVENT).world;
    assert w1.remote == w.remote && w1.faults == [];
    var w2 := EnsureMeter(w1, TRANSACTIONAL_EVENT).world;
    assert w2.remote == w.remote && w2.faults == [];
  }

  /******* Main results *******/

  /**
   A run in which every call works, from any account: it succeeds, and every plan on sale ends up settled and
   reported with its ids exactly when each was settleable. When forced that is to have no more than one search
   page of active products under its name, whatever prices there are.
   */
  lemma SyncSettlesWhen(w: World, rows: seq<PlanRow>, cfg: Config, forced: bool)
    requires w.faults == [] && WellFormed(w.remote) && NamesDiffer(rows, cfg)
    ensures var s := Sync(w, rows, cfg, forced);
            && s.result.success && s.result.errors == [] && s.world.faults == [] && WellFormed(s.world.remote)
            && (AllSettled(s.world.remote, rows, cfg) <==> AllSettleable(w.remote, rows, cfg, forced))
            && (AllSettled(s.world.remote, rows, cfg) ==> s.result.products == Mappings(s.world.remote, rows, cfg))
            && s.result.meters.Some?
            && (|s.world.remote.meters| <= 100 ==> MetersAre(s.world.remote.meters, s.result.meters.value))
  {
    EnsureMetersSettles(w);
    var metered := EnsureMeters(w);
    SyncRowsSettlesWhen(metered.world, rows, cfg, metered.value, forced);
    assert AllSettleable(metered.world.remote, rows, cfg, forced) <==> AllSettleable(w.remote, rows, cfg, forced);
  }

  /** Offers of names that are not in the table stay as they are. */
  lemma SyncFrame(w: World, rows: seq<PlanRow>, cfg: Config, forced: bool, other: string)
    requires w.faults == [] && WellFormed(w.remote)
    requires forall row :: row in rows ==> DetailsFor(row, cfg).name != other
    ensures SameOffers(w.remote, Sync(w, rows, cfg, forced).world.remote, other)
  {
    EnsureMetersSettles(w);
    var metered := EnsureMeters(w);
    SyncRowsFrame(metered.world, rows, cfg, metered.value, forced, other);
  }

  /** An account that keeps the invariant is always settleable, in either mode. */
  lemma InvIsSettleable(r: Remote, rows: seq<PlanRow>, cfg: Config, forced: bool, names: set<string>)
    requires Inv(r, names) && TableFits(rows, cfg, names)
    ensures AllSettleable(r, rows, cfg, forced)
  {
    forall row | row in rows && !row.legacy
      ensures RowSettleable(r, row, cfg, forced)
    {
      TermsKinds(row, MeterIds(0, 0, 0));
      assert DetailsFor(row, cfg).name in names;
    }
  }

  lemma SyncFixed(w: World, rows: seq<PlanRow>, cfg: Config, ids: MeterIds)
    requires w.faults == [] && WellFormed(w.remote) && AllSettled(w.remote, rows, cfg)
    requires |w.remote.meters| <= 100 && MetersAre(w.remote.meters, ids)
    ensures Sync(w, rows, cfg, false).world.remote == w.remote
    ensures Sync(w, rows, cfg, false).result == SyncResult(true, Mappings(w.remote, rows, cfg), Some(ids), [])
  {
    EnsureMetersFixed(w, ids);
    SyncRowsFixed(EnsureMeters(w).world, rows, cfg, ids);
  }

  /** From any account that can be settled, one run settles it, and an update-mode run after it is idle. */
  lemma SettlesForGood(w: World, rows: seq<PlanRow>, cfg: Config, forced: bool)
    requires w.faults == [] && WellFormed(w.remote) && NamesDiffer(rows, cfg)
    requires AllSettleable(w.remote, rows, cfg, forced)
    ensures var first := Sync(w, rows, cfg, forced);
            && first.result.success
            && AllSettled(first.world.remote, rows, cfg)
            && first.result.products == Mappings(first.world.remote, rows, cfg)
            && (|first.world.remote.meters| <= 100 ==>
                  var second := Sync(World(first.world.remote, [], []), rows, cfg, false);
                  second.world.remote == first.world.remote && second.result == first.result)
  {
    SyncSettlesWhen(w, rows, cfg, forced);
    var first := Sync(w, rows, cfg, forced);
    if |first.world.remote.meters| <= 100 {
      SyncFixed(World(first.world.remote, [], []), rows, cfg, first.result.meters.value);
    }
  }

  /**
   After any sequence of runs, each with its own table, labels, mode and failures, one run in which
   every call works ends with every plan on sale settled; while all meters fit on the listed page, an
   update-mode run after it leaves the account as it is and returns the same result.
   */
  lemma Converges(
      start: Remote, runs: seq<Run>, rows: seq<PlanRow>, cfg: Config, forced: bool, names: set<string>)
    requires Inv(start, names) && TableFits(rows, cfg, names)
    ensures var first := Sync(World(RunAll(start, runs), [], []), rows, cfg, forced);
            && first.result.success
            && AllSettled(first.world.remote, rows, cfg)
            && first.result.products == Mappings(first.world.remote, rows, cfg)
            && (|first.world.remote.meters| <= 100 ==>
                  var second := Sync(World(first.world.remote, [], []), rows, cfg, false);
                  second.world.remote == first.world.remote && second.result == first.result)
  {
    RunAllKeepsInv(start, runs, names);
    var w := World(RunAll(start, runs), [], []);
    InvIsSettleable(w.remote, rows, cfg, forced, names);
    SettlesForGood(w, rows, cfg, forced);
  }
}
