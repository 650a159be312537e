/**
 Safety of every run: whatever fails, each intermediate account state keeps products and prices
 unique, and no existing price is changed, deactivated or lost.
 */
module StripeSafety {
  import opened StripeRemote
  import opened StripeSync

  lemma TrailReflexive(w: World, names: set<string>)
    requires Inv(w.remote, names)
    ensures Trail(w, w, names)
  {
  }

  lemma EnsureMeterTrail(w: World, event: string, names: set<string>)
    requires Inv(w.remote, names)
    ensures Trail(w, EnsureMeter(w, event).world, names)
  {
    var listed := ListMeters(w);
    SearchTrail(w, Limited(w.remote.meters), names);
    if listed.Done? && FindMeter(listed.value, event) == [] {
      CreateMeterTrail(listed.world, event, names);
      TrailTransitive(w, listed.world, CreateMeter(listed.world, event).world, names);
    }
  }

  lemma EnsureMetersTrail(w: World, names: set<string>)
    requires Inv(w.remote, names)
    ensures Trail(w, EnsureMeters(w).world, names)
  {
    EnsureMeterTrail(w, MARKETING_EVENT, names);
    var m1 := EnsureMeter(w, MARKETING_EVENT);
    if m1.Done? {
      EnsureMeterTrail(m1.world, TRANSACTIONAL_EVENT, names);
      var m2 := EnsureMeter(m1.world, TRANSACTIONAL_EVENT);
      TrailTransitive(w, m1.world, m2.world, names);
      if m2.Done? {
        EnsureMeterTrail(m2.world, MEMBER_EVENT, names);
        TrailTransitive(w, m2.world, EnsureMeter(m2.world, MEMBER_EVENT).world, names);
      }
    }
  }

  lemma {:induction false} ArchiveAllTrail(w: World, products: seq<Product>, names: set<string>)
    requires Inv(w.remote, names)
    ensures Trail(w, ArchiveAll(w, products).world, names)
    decreases products
  {
    if products == [] {
      TrailReflexive(w, names);
    } else {
      ArchiveProductTrail(w, products[0].id, names);
      var first := ArchiveProduct(w, products[0].id);
      if first.Done? {
        ArchiveAllTrail(first.world, products[1..], names);
        TrailTransitive(w, first.world, ArchiveAll(w, products).world, names);
      }
    }
  }

  ghost predicate DistinctIds(products: seq<Product>) {
    forall i, j :: 0 <= i < j < |products| ==> products[i].id != products[j].id
  }

  lemma DistinctAppend(products: seq<Product>, last: Product)
    requires DistinctIds(products) && forall p :: p in products ==> p.id != last.id
    ensures DistinctIds(products + [last])
  {
  }

  lemma LastDiffers(products: seq<Product>, p: Product)
    requires products != [] && DistinctIds(products) && p in products[..|products| - 1]
    ensures p.id != products[|products| - 1].id
  {
    var front := products[..|products| - 1];
    var i :| 0 <= i < |front| && front[i] == p;
    assert products[i] == p;
  }

  /** Distinct ids among the matches, so archiving the first one leaves exactly the others. */
  lemma {:induction false} MatchesDistinct(products: seq<Product>, name: string)
    requires DistinctIds(products)
    ensures DistinctIds(Matches(products, name))
  {
    if products != [] {
      var front, last := products[..|products| - 1], products[|products| - 1];
      MatchesDistinct(front, name);
      MatchesMembers(front, name);
      var found := Matches(front, name);
      forall p | p in found
        ensures p.id != last.id
      {
        LastDiffers(products, p);
      }
      DistinctAppend(found, last);
      assert Matches(products, name) == found + (if last.active && last.details.name == name then [last] else []);
      assert found + [] == found;
    }
  }

  lemma {:induction false} WithoutFirst(m: seq<Product>)
    requires m != [] && forall i, j :: 0 <= i < j < |m| ==> m[i].id != m[j].id
    ensures Without(m, m[0].id) == m[1..]
  {
    if |m| > 1 {
      var front, last := m[..|m| - 1], m[|m| - 1];
      WithoutFirst(front);
      assert m == front + [last];
      assert m[1..] == front[1..] + [last];
    }
  }

  /** Archiving the first k matches, when every call works, leaves the matches after them. */
  lemma FirstArchived(w: World, name: string)
    requires WellFormed(w.remote) && Matches(w.remote.products, name) != []
    requires ArchiveProduct(w, Matches(w.remote.products, name)[0].id).Done?
    ensures var m := Matches(w.remote.products, name);
            var r := ArchiveProduct(w, m[0].id).world.remote;
            WellFormed(r) && Matches(r.products, name) == m[1..]
  {
    var m := Matches(w.remote.products, name);
    MatchesArchived(w.remote.products, m[0].id, name);
    MatchesDistinct(w.remote.products, name);
    WithoutFirst(m);
  }

  /** Archiving the first k found leaves the others active. */
  lemma {:induction false} ArchiveAllMatches(w: World, name: string, k: nat)
    requires WellFormed(w.remote) && k <= |Matches(w.remote.products, name)|
    ensures var m := Matches(w.remote.products, name);
            var s := ArchiveAll(w, m[..k]);
            s.Done? ==> Matches(s.world.remote.products, name) == m[k..]
    decreases k
  {
    var m := Matches(w.remote.products, name);
    if k > 0 {
      var first := ArchiveProduct(w, m[0].id);
      if first.Done? {
        FirstArchived(w, name);
        ArchiveAllMatches(first.world, name, k - 1);
        assert m[..k][1..] == m[1..][..k - 1] && m[1..][k - 1..] == m[k..];
        assert ArchiveAll(w, m[..k]) == ArchiveAll(first.world, m[1..][..k - 1]);
      }
    }
  }

  /** Once the products of the name are searched: the first is updated, or those found archived and one created. */
  lemma ProductUpdatedTrail(w: World, found: Product, details: Details, names: set<string>)
    requires Inv(w.remote, names) && found in Matches(w.remote.products, details.name)
    ensures Trail(w, UpdateProduct(w, found.id, details).world, names)
  {
    MatchesMembers(w.remote.products, details.name);
    UpdateProductTrail(w, found, details, names);
  }

  lemma ProductMadeTrail(w: World, details: Details, doomed: seq<Product>, names: set<string>)
    requires Inv(w.remote, names) && doomed <= Matches(w.remote.products, details.name)
    requires details.name in names ==> |doomed| == |Matches(w.remote.products, details.name)|
    ensures var archive := ArchiveAll(w, doomed);
            && Trail(w, archive.world, names)
            && (archive.Done? ==> Trail(w, CreateProduct(archive.world, details).world, names))
  {
    ArchiveAllTrail(w, doomed, names);
    var archive := ArchiveAll(w, doomed);
    if archive.Done? {
      ArchiveAllMatches(w, details.name, |doomed|);
      assert doomed == Matches(w.remote.products, details.name)[..|doomed|];
      CreateProductTrail(archive.world, details, names);
      TrailTransitive(w, archive.world, CreateProduct(archive.world, details).world, names);
    }
  }

  lemma EnsureProductTrail(w: World, details: Details, forced: bool, names: set<string>)
    requires Inv(w.remote, names)
    ensures Trail(w, EnsureProduct(w, details, forced).world, names)
  {
    var search := SearchProducts(w, details.name);
    SearchTrail(w, Limited(Matches(w.remote.products, details.name)), names);
    if search.Done? {
      var w1, found := search.world, search.value;
      if found != [] && !forced {
        ProductUpdatedTrail(w1, found[0], details, names);
        TrailTransitive(w, w1, UpdateProduct(w1, found[0].id, details).world, names);
      } else {
        var doomed := if forced then found else [];
        ProductMadeTrail(w1, details, doomed, names);
        var archive := ArchiveAll(w1, doomed);
        TrailTransitive(w, w1, if archive.Done? then CreateProduct(archive.world, details).world else archive.world,
                        names);
      }
    }
  }

  /** A product that was ensured has the name it was ensured for and an id the account has handed out. */
  lemma EnsureProductId(w: World, details: Details, forced: bool)
    requires WellFormed(w.remote)
    requires EnsureProduct(w, details, forced).Done?
    ensures var s := EnsureProduct(w, details, forced); s.value < s.world.remote.nextId
  {
    MatchesMembers(w.remote.products, details.name);
  }

  lemma EnsurePriceTrail(w: World, product: nat, version: string, terms: Terms, names: set<string>)
    requires Inv(w.remote, names) && product < w.remote.nextId
    ensures Trail(w, EnsurePrice(w, product, version, terms).world, names)
  {
    var search := SearchPrices(w, product, terms.kind, version);
    var all := PricesOf(w.remote.prices, product, terms.kind, version);
    SearchTrail(w, if all == [] then [] else all[..1], names);
    if search.Done? && search.value == [] {
      CreatePriceTrail(search.world, product, version, terms, names);
      TrailTransitive(w, search.world, CreatePrice(search.world, product, version, terms).world, names);
    }
  }

  lemma {:induction false} EnsurePricesTrail(w: World, product: nat, version: string, terms: seq<Terms>,
          names: set<string>)
    requires Inv(w.remote, names) && product < w.remote.nextId
    ensures Trail(w, EnsurePrices(w, product, version, terms).world, names)
    decreases terms
  {
    if terms == [] {
      TrailReflexive(w, names);
    } else {
      EnsurePriceTrail(w, product, version, terms[0], names);
      var first := EnsurePrice(w, product, version, terms[0]);
      if first.Done? {
        EnsurePricesTrail(first.world, product, version, terms[1..], names);
        TrailTransitive(w, first.world, EnsurePrices(first.world, product, version, terms[1..]).world, names);
      }
    }
  }

  lemma EnsureOfferTrail(w: World, details: Details, version: string, terms: seq<Terms>, forced: bool,
          names: set<string>)
    requires Inv(w.remote, names)
    ensures Trail(w, EnsureOffer(w, details, version, terms, forced).world, names)
  {
    EnsureProductTrail(w, details, forced, names);
    var product := EnsureProduct(w, details, forced);
    if product.Done? {
      EnsureProductId(w, details, forced);
      EnsurePricesTrail(product.world, product.value, version, terms, names);
      TrailTransitive(w, product.world, EnsurePrices(product.world, product.value, version, terms).world, names);
    }
  }

  lemma SyncPlanTrail(w: World, row: PlanRow, cfg: Config, meters: MeterIds, forced: bool, names: set<string>)
    requires Inv(w.remote, names)
    ensures Trail(w, SyncPlan(w, row, cfg, meters, forced).world, names)
  {
    EnsureOfferTrail(w, DetailsFor(row, cfg), cfg.version, TermsFor(row, meters), forced, names);
  }

  lemma {:induction false} SyncRowsTrail(
      w: World, rows: seq<PlanRow>, cfg: Config, meters: MeterIds, forced: bool, names: set<string>)
    requires Inv(w.remote, names)
    ensures Trail(w, SyncRows(w, rows, cfg, meters, forced).world, names)
    decreases rows
  {
    if rows == [] {
      TrailReflexive(w, names);
    } else if rows[0].legacy {
      SyncRowsTrail(w, rows[1..], cfg, meters, forced, names);
    } else {
      SyncPlanTrail(w, rows[0], cfg, meters, forced, names);
      var w1 := SyncPlan(w, rows[0], cfg, meters, forced).world;
      SyncRowsTrail(w1, rows[1..], cfg, meters, forced, names);
      TrailTransitive(w, w1, SyncRows(w1, rows[1..], cfg, meters, forced).world, names);
    }
  }

  /**
   Every account state a run passes through, with any failures in either mode, has at most one active
   product per name and at most one active price per product, type and version, and holds every price
   of each earlier state unchanged; one state is recorded for every call made.
   */
  lemma SyncTrail(w: World, rows: seq<PlanRow>, cfg: Config, forced: bool, names: set<string>)
    requires Inv(w.remote, names)
    ensures Trail(w, Sync(w, rows, cfg, forced).world, names)
  {
    EnsureMetersTrail(w, names);
    var metered := EnsureMeters(w);
    if metered.Done? {
      SyncRowsTrail(metered.world, rows, cfg, metered.value, forced, names);
      TrailTransitive(w, metered.world, SyncRows(metered.world, rows, cfg, metered.value, forced).world, names);
    }
  }

  lemma {:induction false} RunAllKeepsInv(r: Remote, runs: seq<Run>, names: set<string>)
    requires Inv(r, names)
    ensures Inv(RunAll(r, runs), names) && r.prices <= RunAll(r, runs).prices
    decreases runs
  {
    if runs != [] {
      var run := runs[0];
      var w := World(r, run.faults, []);
      SyncTrail(w, run.rows, run.cfg, run.forced, names);
      RunAllKeepsInv(Sync(w, run.rows, run.cfg, run.forced).world.remote, runs[1..], names);
    }
  }

  /******* Accounting *******/

  function Sold(rows: seq<PlanRow>): seq<Plan> {
    if rows == [] then []
    else (if rows[0].legacy then [] else [rows[0].plan]) + Sold(rows[1..])
  }

  function ProductPlans(mappings: seq<Mapping>): seq<Plan> {
    if mappings == [] then [] else [mappings[0].plan] + ProductPlans(mappings[1..])
  }

  function FailedPlans(errors: seq<SyncError>): seq<Plan> {
    if errors == [] then []
    else (if errors[0].Fatal? then [] else [errors[0].plan]) + FailedPlans(errors[1..])
  }

  ghost predicate Accounts(s: RowsOutcome, sold: seq<Plan>) {
    && multiset(ProductPlans(s.products)) + multiset(FailedPlans(s.errors)) == multiset(sold)
    && |s.products| + |s.errors| == |sold|
    && Fatal !in s.errors
  }

  lemma AccountsStep(plan: Plan, step: Step<Mapping>, rest: RowsOutcome, s: RowsOutcome, sold: seq<Plan>)
    requires Accounts(rest, sold)
    requires step.Done? ==> step.value.plan == plan && s == rest.(products := [step.value] + rest.products)
    requires step.Threw? ==> s == rest.(errors := [PlanFailed(plan)] + rest.errors)
    ensures Accounts(s, [plan] + sold)
  {
    if step.Done? {
      assert s.products[1..] == rest.products;
      assert ProductPlans(s.products) == [plan] + ProductPlans(rest.products);
    } else {
      assert s.errors[1..] == rest.errors;
      assert FailedPlans(s.errors) == [plan] + FailedPlans(rest.errors);
    }
  }

  /** Once past the meters, each plan on sale is reported exactly once, as a product or as an error. */
  lemma {:induction false} SyncRowsAccounts(w: World, rows: seq<PlanRow>, cfg: Config, meters: MeterIds, forced: bool)
    ensures Accounts(SyncRows(w, rows, cfg, meters, forced), Sold(rows))
    decreases rows
  {
    if rows != [] {
      if rows[0].legacy {
        SyncRowsAccounts(w, rows[1..], cfg, meters, forced);
        assert Sold(rows) == [] + Sold(rows[1..]) == Sold(rows[1..]);
      } else {
        var step := SyncPlan(w, rows[0], cfg, meters, forced);
        SyncRowsAccounts(step.world, rows[1..], cfg, meters, forced);
        AccountsStep(rows[0].plan, step, SyncRows(step.world, rows[1..], cfg, meters, forced),
                     SyncRows(w, rows, cfg, meters, forced), Sold(rows[1..]));
      }
    }
  }

  lemma SoldPlans(describe: Plan -> string)
    ensures Sold(PlanTable(describe)) == [FREE, HOBBY, BASIC, SCALE]
  {
    var rows := PlanTable(describe);
    assert Sold(rows[4..]) == [SCALE] by {
      assert rows[4..][1..] == rows[5..] && rows[5..][1..] == [];
      assert Sold(rows[5..]) == [];
    }
    assert Sold(rows[2..]) == [BASIC, SCALE] by {
      assert rows[2..][1..] == rows[3..] && rows[3..][1..] == rows[4..];
    }
    assert rows[1..][1..] == rows[2..];
  }

  lemma SyncAccounts(w: World, describe: Plan -> string, cfg: Config, forced: bool)
    ensures var result := Sync(w, PlanTable(describe), cfg, forced).result;
            if EnsureMeters(w).Done?
            then |result.products| + |result.errors| == 4 &&
                 multiset(ProductPlans(result.products)) + multiset(FailedPlans(result.errors)) ==
                 multiset{FREE, HOBBY, BASIC, SCALE}
            else result.products == [] && result.errors == [Fatal] && !result.success
  {
    var metered := EnsureMeters(w);
    SoldPlans(describe);
    if metered.Done? {
      SyncRowsAccounts(metered.world, PlanTable(describe), cfg, metered.value, forced);
    }
  }
}
