/**
 What the prices a run reports really are: prices of the very product reported with them, made
 under the current pricing version, and carrying the plan table's money.
 */
module StripePricing {
  import opened StripeRemote
  import opened StripeSync
  import opened StripeConvergence

  /** Amount and local amounts, apart from the meter they are billed on. */
  datatype Money = Money(amount: Amount, options: map<Currency, Amount>)

  function MoneyOf(terms: Terms): Money {
    Money(terms.amount, terms.options)
  }

  /** What the plan table charges for one price type. */
  function TableMoney(row: PlanRow, kind: Kind): Money
    requires kind in NeededKinds(row)
  {
    match kind
    case MarketingUsage =>
      Money(UnitAmountDecimal(row.rates.value.marketing),
            map c | c in row.localRates :: UnitAmountDecimal(row.localRates[c].marketing))
    case TransactionalUsage =>
      Money(UnitAmountDecimal(row.rates.value.transactional),
            map c | c in row.localRates :: UnitAmountDecimal(row.localRates[c].transactional))
    case _ => Money(UnitAmount(row.monthly), map c | c in row.localMonthly :: UnitAmount(row.localMonthly[c]))
  }

  /** Every price with this version tag on a product named after a plan was made from the plan table. */
  ghost predicate TableMade(r: Remote, rows: seq<PlanRow>, cfg: Config) {
    forall p, q, row :: p in r.prices && q in r.products && row in rows &&
      p.version == cfg.version && p.product == q.id && q.details.name == DetailsFor(row, cfg).name &&
      p.terms.kind in NeededKinds(row)
      ==> MoneyOf(p.terms) == TableMoney(row, p.terms.kind)
  }

  ghost predicate HasProduct(r: Remote, id: nat, name: string) {
    exists i :: 0 <= i < |r.products| && r.products[i].id == id && r.products[i].details.name == name
  }

  ghost predicate HasPrice(r: Remote, id: nat, product: nat, kind: Kind, version: string) {
    exists i :: 0 <= i < |r.prices| && r.prices[i].id == id && r.prices[i].active && r.prices[i].product == product &&
                r.prices[i].terms.kind == kind && r.prices[i].version == version
  }

  /** Ids of current prices of one product, each of a type the plan needs. */
  ghost predicate AreItsPrices(r: Remote, prices: map<Kind, nat>, product: nat, row: PlanRow, version: string) {
    forall kind :: kind in prices ==> kind in NeededKinds(row) && HasPrice(r, prices[kind], product, kind, version)
  }

  /** What the steps of a run keep, whether or not they fail. */
  ghost predicate Keeps(before: Remote, after: Remote, rows: seq<PlanRow>, cfg: Config) {
    && WellFormed(after) && Extends(before, after)
    && (forall i :: 0 <= i < |before.products| ==>
          after.products[i].details.name == before.products[i].details.name)
    && (TableMade(before, rows, cfg) ==> TableMade(after, rows, cfg))
  }

  lemma KeepsTransitive(a: Remote, b: Remote, c: Remote, rows: seq<PlanRow>, cfg: Config)
    requires Keeps(a, b, rows, cfg) && Keeps(b, c, rows, cfg)
    ensures Keeps(a, c, rows, cfg)
  {
    ExtendsTransitive(a, b, c);
  }

  lemma HasProductStays(before: Remote, after: Remote, rows: seq<PlanRow>, cfg: Config, id: nat, name: string)
    requires Keeps(before, after, rows, cfg) && HasProduct(before, id, name)
    ensures HasProduct(after, id, name)
  {
    var i :| 0 <= i < |before.products| && before.products[i].id == id && before.products[i].details.name == name;
    assert after.products[i].id == id;
  }

  lemma HasPriceStays(before: Remote, after: Remote, id: nat, product: nat, kind: Kind, version: string)
    requires Extends(before, after) && HasPrice(before, id, product, kind, version)
    ensures HasPrice(after, id, product, kind, version)
  {
    var i :| 0 <= i < |before.prices| && before.prices[i].id == id && before.prices[i].active &&
             before.prices[i].product == product &&
             before.prices[i].terms.kind == kind && before.prices[i].version == version;
    assert after.prices[i] == before.prices[i];
  }

  /** Rewriting products without changing their names or ids keeps the money of their prices. */
  lemma SameNamesKeep(before: Remote, after: Remote, rows: seq<PlanRow>, cfg: Config)
    requires WellFormed(before)
    requires after.prices == before.prices && after.nextId == before.nextId && |after.products| == |before.products|
    requires forall i :: 0 <= i < |before.products| ==>
               after.products[i].id == before.products[i].id &&
               after.products[i].details.name == before.products[i].details.name
    ensures Keeps(before, after, rows, cfg)
  {
    if TableMade(before, rows, cfg) {
      forall p, q, row | p in after.prices && q in after.products && row in rows &&
        p.version == cfg.version && p.product == q.id && q.details.name == DetailsFor(row, cfg).name &&
        p.terms.kind in NeededKinds(row)
        ensures MoneyOf(p.terms) == TableMoney(row, p.terms.kind)
      {
        var i :| 0 <= i < |after.products| && after.products[i] == q;
        assert before.products[i] in before.products;
      }
    }
  }

  lemma ArchiveKeeps(w: World, id: nat, rows: seq<PlanRow>, cfg: Config)
    requires WellFormed(w.remote)
    ensures Keeps(w.remote, ArchiveProduct(w, id).world.remote, rows, cfg)
  {
    SameNamesKeep(w.remote, w.remote, rows, cfg);
    SameNamesKeep(w.remote, w.remote.(products := Archived(w.remote.products, id)), rows, cfg);
  }

  lemma UpdateKeeps(w: World, p: Product, details: Details, rows: seq<PlanRow>, cfg: Config)
    requires WellFormed(w.remote) && p in w.remote.products && p.details.name == details.name
    ensures Keeps(w.remote, UpdateProduct(w, p.id, details).world.remote, rows, cfg)
  {
    SameNamesKeep(w.remote, w.remote, rows, cfg);
    SameNamesKeep(w.remote, w.remote.(products := Updated(w.remote.products, p.id, details)), rows, cfg);
  }

  lemma CreateProductKeeps(w: World, details: Details, rows: seq<PlanRow>, cfg: Config)
    requires WellFormed(w.remote)
    ensures Keeps(w.remote, CreateProduct(w, details).world.remote, rows, cfg)
  {
    SameNamesKeep(w.remote, w.remote, rows, cfg);
    var p := Product(w.remote.nextId, true, details);
    var after := w.remote.(products := w.remote.products + [p], nextId := w.remote.nextId + 1);
    assert forall price :: price in after.prices ==> price.product != p.id;
    assert forall q :: q in after.products ==> q == p || q in w.remote.products;
    assert Keeps(w.remote, after, rows, cfg);
  }

  lemma CreatePriceKeeps(
      w: World, product: nat, terms: Terms, row: PlanRow, rows: seq<PlanRow>, cfg: Config)
    requires WellFormed(w.remote) && NamesDiffer(rows, cfg) && row in rows
    requires HasProduct(w.remote, product, DetailsFor(row, cfg).name)
    requires terms.kind in NeededKinds(row) && MoneyOf(terms) == TableMoney(row, terms.kind)
    ensures Keeps(w.remote, CreatePrice(w, product, cfg.version, terms).world.remote, rows, cfg)
  {
    SameNamesKeep(w.remote, w.remote, rows, cfg);
    var price := Price(w.remote.nextId, true, product, cfg.version, terms);
    var after := w.remote.(prices := w.remote.prices + [price], nextId := w.remote.nextId + 1);
    if TableMade(w.remote, rows, cfg) {
      forall p, q, r | p in after.prices && q in after.products && r in rows &&
        p.version == cfg.version && p.product == q.id && q.details.name == DetailsFor(r, cfg).name &&
        p.terms.kind in NeededKinds(r)
        ensures MoneyOf(p.terms) == TableMoney(r, p.terms.kind)
      {
        if p !in w.remote.prices {
          assert r == row by {
            OneName(w.remote, q, product, DetailsFor(row, cfg).name);
          }
        }
      }
    }
    PriceAppendExtends(w.remote, after, price);
    assert Keeps(w.remote, after, rows, cfg);
    assert CreatePrice(w, product, cfg.version, terms) == Call(w, after, price);
  }

  lemma OneName(r: Remote, q: Product, id: nat, name: string)
    requires WellFormed(r) && q in r.products && q.id == id && HasProduct(r, id, name)
    ensures q.details.name == name
  {
    var i :| 0 <= i < |r.products| && r.products[i].id == id && r.products[i].details.name == name;
    var j :| 0 <= j < |r.products| && r.products[j] == q;
    assert !(i < j) && !(j < i);
  }

  lemma {:induction false} ArchiveAllKeeps(w: World, doomed: seq<Product>, rows: seq<PlanRow>, cfg: Config)
    requires WellFormed(w.remote)
    ensures Keeps(w.remote, ArchiveAll(w, doomed).world.remote, rows, cfg)
    decreases doomed
  {
    if doomed == [] {
      SameNamesKeep(w.remote, w.remote, rows, cfg);
    } else {
      ArchiveKeeps(w, doomed[0].id, rows, cfg);
      var first := ArchiveProduct(w, doomed[0].id);
      if first.Done? {
        ArchiveAllKeeps(first.world, doomed[1..], rows, cfg);
        KeepsTransitive(w.remote, first.world.remote, ArchiveAll(first.world, doomed[1..]).world.remote, rows, cfg);
      }
    }
  }

  lemma EnsureProductKeeps(w: World, details: Details, forced: bool, rows: seq<PlanRow>, cfg: Config)
    requires WellFormed(w.remote)
    ensures var s := EnsureProduct(w, details, forced);
            && Keeps(w.remote, s.world.remote, rows, cfg)
            && (s.Done? ==> HasProduct(s.world.remote, s.value, details.name))
  {
    var search := SearchProducts(w, details.name);
    SameNamesKeep(w.remote, w.remote, rows, cfg);
    MatchesMembers(w.remote.products, details.name);
    if search.Done? {
      var w1, found := search.world, search.value;
      if found != [] && !forced {
        UpdateKeeps(w1, found[0], details, rows, cfg);
        HasFound(w1.remote, found[0], details.name);
        HasProductStays(w1.remote, UpdateProduct(w1, found[0].id, details).world.remote, rows, cfg, found[0].id,
                        details.name);
      } else {
        var archive := ArchiveAll(w1, if forced then found else []);
        ArchiveAllKeeps(w1, if forced then found else [], rows, cfg);
        if archive.Done? {
          CreateProductKeeps(archive.world, details, rows, cfg);
          var create := CreateProduct(archive.world, details);
          KeepsTransitive(w1.remote, archive.world.remote, create.world.remote, rows, cfg);
          if create.Done? {
            assert create.world.remote.products[|archive.world.remote.products|].id == create.value.id;
          }
        }
      }
    }
  }

  lemma HasFound(r: Remote, p: Product, name: string)
    requires p in r.products && p.details.name == name
    ensures HasProduct(r, p.id, name)
  {
    var i :| 0 <= i < |r.products| && r.products[i] == p;
  }

  lemma EnsurePriceKeeps(
      w: World, product: nat, terms: Terms, row: PlanRow, rows: seq<PlanRow>, cfg: Config)
    requires WellFormed(w.remote) && NamesDiffer(rows, cfg) && row in rows
    requires HasProduct(w.remote, product, DetailsFor(row, cfg).name)
    requires terms.kind in NeededKinds(row) && MoneyOf(terms) == TableMoney(row, terms.kind)
    ensures var s := EnsurePrice(w, product, cfg.version, terms);
            && Keeps(w.remote, s.world.remote, rows, cfg)
            && (s.Done? ==> HasPrice(s.world.remote, s.value, product, terms.kind, cfg.version))
  {
    var search := SearchPrices(w, product, terms.kind, cfg.version);
    SameNamesKeep(w.remote, w.remote, rows, cfg);
    PricesOfMembers(w.remote.prices, product, terms.kind, cfg.version);
    if search.Done? {
      if search.value != [] {
        var i :| 0 <= i < |w.remote.prices| && w.remote.prices[i] == search.value[0];
      } else {
        CreatePriceKeeps(search.world, product, terms, row, rows, cfg);
        var create := CreatePrice(search.world, product, cfg.version, terms);
        if create.Done? {
          assert create.world.remote.prices[|w.remote.prices|] == create.value;
        }
      }
    }
  }

  lemma AddItsPrice(
      before: Remote, after: Remote, prices: map<Kind, nat>, id: nat, kind: Kind, product: nat, row: PlanRow,
      version: string)
    requires Extends(before, after) && HasPrice(before, id, product, kind, version) && kind in NeededKinds(row)
    requires AreItsPrices(after, prices, product, row, version)
    ensures AreItsPrices(after, prices[kind := id], product, row, version)
  {
    HasPriceStays(before, after, id, product, kind, version);
  }

  lemma {:induction false} EnsurePricesKeeps(
      w: World, product: nat, terms: seq<Terms>, row: PlanRow, rows: seq<PlanRow>, cfg: Config)
    requires WellFormed(w.remote) && NamesDiffer(rows, cfg) && row in rows
    requires HasProduct(w.remote, product, DetailsFor(row, cfg).name)
    requires forall t :: t in terms ==> t.kind in NeededKinds(row) && MoneyOf(t) == TableMoney(row, t.kind)
    ensures var s := EnsurePrices(w, product, cfg.version, terms);
            && Keeps(w.remote, s.world.remote, rows, cfg)
            && (s.Done? ==> AreItsPrices(s.world.remote, s.value, product, row, cfg.version))
    decreases terms
  {
    if terms == [] {
      SameNamesKeep(w.remote, w.remote, rows, cfg);
    } else {
      EnsurePriceKeeps(w, product, terms[0], row, rows, cfg);
      var first := EnsurePrice(w, product, cfg.version, terms[0]);
      if first.Done? {
        HasProductStays(w.remote, first.world.remote, rows, cfg, product, DetailsFor(row, cfg).name);
        EnsurePricesKeeps(first.world, product, terms[1..], row, rows, cfg);
        var rest := EnsurePrices(first.world, product, cfg.version, terms[1..]);
        KeepsTransitive(w.remote, first.world.remote, rest.world.remote, rows, cfg);
        if rest.Done? {
          AddItsPrice(first.world.remote, rest.world.remote, rest.value, first.value, terms[0].kind, product, row,
                      cfg.version);
        }
      }
    }
  }

  lemma TermsMoney(row: PlanRow, meters: MeterIds)
    ensures forall t :: t in TermsFor(row, meters) ==>
              t.kind in NeededKinds(row) && MoneyOf(t) == TableMoney(row, t.kind)
  {
    TermsKinds(row, meters);
  }

  /** What a run reports for a plan: a product with the plan's name, and current prices of that product. */
  ghost predicate Reported(r: Remote, mapping: Mapping, rows: seq<PlanRow>, cfg: Config) {
    exists i :: 0 <= i < |rows| && ReportedFor(r, mapping, rows[i], cfg)
  }

  ghost predicate ReportedFor(r: Remote, mapping: Mapping, row: PlanRow, cfg: Config) {
    && !row.legacy && row.plan == mapping.plan
    && HasProduct(r, mapping.product, DetailsFor(row, cfg).name)
    && AreItsPrices(r, mapping.prices, mapping.product, row, cfg.version)
  }

  lemma AreItsPricesStay(
      before: Remote, after: Remote, prices: map<Kind, nat>, product: nat, row: PlanRow, version: string)
    requires Extends(before, after) && AreItsPrices(before, prices, product, row, version)
    ensures AreItsPrices(after, prices, product, row, version)
  {
    forall kind | kind in prices
      ensures HasPrice(after, prices[kind], product, kind, version)
    {
      HasPriceStays(before, after, prices[kind], product, kind, version);
    }
  }

  lemma ReportedStays(before: Remote, after: Remote, mapping: Mapping, rows: seq<PlanRow>, cfg: Config)
    requires Keeps(before, after, rows, cfg) && Reported(before, mapping, rows, cfg)
    ensures Reported(after, mapping, rows, cfg)
  {
    var i :| 0 <= i < |rows| && ReportedFor(before, mapping, rows[i], cfg);
    HasProductStays(before, after, rows, cfg, mapping.product, DetailsFor(rows[i], cfg).name);
    AreItsPricesStay(before, after, mapping.prices, mapping.product, rows[i], cfg.version);
    assert ReportedFor(after, mapping, rows[i], cfg);
  }

  ghost predicate AllReported(r: Remote, mappings: seq<Mapping>, rows: seq<PlanRow>, cfg: Config) {
    forall m :: m in mappings ==> Reported(r, m, rows, cfg)
  }

  lemma ReportOneMore(
      before: Remote, after: Remote, mapping: Mapping, rest: seq<Mapping>, rows: seq<PlanRow>, cfg: Config)
    requires Keeps(before, after, rows, cfg) && Reported(before, mapping, rows, cfg)
    requires AllReported(after, rest, rows, cfg)
    ensures AllReported(after, [mapping] + rest, rows, cfg)
  {
    ReportedStays(before, after, mapping, rows, cfg);
  }

  lemma SyncPlanReports(
      w: World, k: nat, cfg: Config, meters: MeterIds, forced: bool, rows: seq<PlanRow>)
    requires WellFormed(w.remote) && NamesDiffer(rows, cfg) && k < |rows| && !rows[k].legacy
    ensures var s := SyncPlan(w, rows[k], cfg, meters, forced);
            && Keeps(w.remote, s.world.remote, rows, cfg)
            && (s.Done? ==> Reported(s.world.remote, s.value, rows, cfg))
  {
    var row := rows[k];
    EnsureProductKeeps(w, DetailsFor(row, cfg), forced, rows, cfg);
    var product := EnsureProduct(w, DetailsFor(row, cfg), forced);
    if product.Done? {
      TermsMoney(row, meters);
      EnsurePricesKeeps(product.world, product.value, TermsFor(row, meters), row, rows, cfg);
      var prices := EnsurePrices(product.world, product.value, cfg.version, TermsFor(row, meters));
      KeepsTransitive(w.remote, product.world.remote, prices.world.remote, rows, cfg);
      HasProductStays(product.world.remote, prices.world.remote, rows, cfg, product.value, DetailsFor(row, cfg).name);
      if prices.Done? {
        assert ReportedFor(prices.world.remote, Mapping(row.plan, product.value, prices.value), rows[k], cfg);
      }
    }
  }

  lemma {:induction false} SyncRowsReports(
      w: World, k: nat, cfg: Config, meters: MeterIds, forced: bool, rows: seq<PlanRow>)
    requires WellFormed(w.remote) && NamesDiffer(rows, cfg) && k <= |rows|
    ensures var s := SyncRows(w, rows[k..], cfg, meters, forced);
            && Keeps(w.remote, s.world.remote, rows, cfg)
            && AllReported(s.world.remote, s.products, rows, cfg)
    decreases |rows| - k
  {
    if k == |rows| {
      SameNamesKeep(w.remote, w.remote, rows, cfg);
    } else {
      assert rows[k..][1..] == rows[k + 1..];
      if rows[k].legacy {
        SyncRowsReports(w, k + 1, cfg, meters, forced, rows);
      } else {
        SyncPlanReports(w, k, cfg, meters, forced, rows);
        var step := SyncPlan(w, rows[k], cfg, meters, forced);
        SyncRowsReports(step.world, k + 1, cfg, meters, forced, rows);
        var rest := SyncRows(step.world, rows[k + 1..], cfg, meters, forced);
        KeepsTransitive(w.remote, step.world.remote, rest.world.remote, rows, cfg);
        if step.Done? {
          ReportOneMore(step.world.remote, rest.world.remote, step.value, rest.products, rows, cfg);
        }
      }
    }
  }

  lemma MetersKeep(w: World, rows: seq<PlanRow>, cfg: Config)
    requires WellFormed(w.remote)
    ensures Keeps(w.remote, EnsureMeters(w).world.remote, rows, cfg)
  {
    OneMeterKeeps(w, MARKETING_EVENT, rows, cfg);
    var m1 := EnsureMeter(w, MARKETING_EVENT);
    if m1.Done? {
      OneMeterKeeps(m1.world, TRANSACTIONAL_EVENT, rows, cfg);
      var m2 := EnsureMeter(m1.world, TRANSACTIONAL_EVENT);
      KeepsTransitive(w.remote, m1.world.remote, m2.world.remote, rows, cfg);
      if m2.Done? {
        OneMeterKeeps(m2.world, MEMBER_EVENT, rows, cfg);
        KeepsTransitive(w.remote, m2.world.remote, EnsureMeter(m2.world, MEMBER_EVENT).world.remote, rows, cfg);
      }
    }
  }

  lemma OneMeterKeeps(w: World, event: string, rows: seq<PlanRow>, cfg: Config)
    requires WellFormed(w.remote)
    ensures Keeps(w.remote, EnsureMeter(w, event).world.remote, rows, cfg)
  {
    var r := EnsureMeter(w, event).world.remote;
    assert r.products == w.remote.products && r.prices == w.remote.prices && w.remote.nextId <= r.nextId;
  }

  lemma SyncReports(w: World, rows: seq<PlanRow>, cfg: Config, forced: bool)
    requires WellFormed(w.remote) && NamesDiffer(rows, cfg)
    ensures var s := Sync(w, rows, cfg, forced);
            && Keeps(w.remote, s.world.remote, rows, cfg)
            && AllReported(s.world.remote, s.result.products, rows, cfg)
  {
    MetersKeep(w, rows, cfg);
    var metered := EnsureMeters(w);
    if metered.Done? {
      assert rows[0..] == rows;
      SyncRowsReports(metered.world, 0, cfg, metered.value, forced, rows);
      KeepsTransitive(w.remote, metered.world.remote,
                      SyncRows(metered.world, rows, cfg, metered.value, forced).world.remote, rows, cfg);
    }
  }

  /** Under a version tag no price carries yet, every reported price was made by this very run. */
  lemma BumpedVersionMakesFreshPrices(
      w: World, rows: seq<PlanRow>, cfg: Config, forced: bool, mapping: Mapping, kind: Kind)
    requires WellFormed(w.remote) && NamesDiffer(rows, cfg)
    requires forall p :: p in w.remote.prices ==> p.version != cfg.version
    requires mapping in Sync(w, rows, cfg, forced).result.products && kind in mapping.prices
    ensures w.remote.nextId <= mapping.prices[kind]
    ensures forall p :: p in w.remote.prices ==> p.id != mapping.prices[kind]
  {
    SyncReports(w, rows, cfg, forced);
    var r := Sync(w, rows, cfg, forced).world.remote;
    var id := mapping.prices[kind];
    assert HasPrice(r, id, mapping.product, kind, cfg.version);
    var i :| 0 <= i < |r.prices| && r.prices[i].id == id && r.prices[i].version == cfg.version;
  }

  lemma ReportedCharges(r: Remote, rows: seq<PlanRow>, cfg: Config, mapping: Mapping, kind: Kind)
    requires TableMade(r, rows, cfg) && Reported(r, mapping, rows, cfg) && kind in mapping.prices
    ensures Charges(r, rows, mapping, kind)
  {
    var k :| 0 <= k < |rows| && ReportedFor(r, mapping, rows[k], cfg);
    var j :| 0 <= j < |r.products| && r.products[j].id == mapping.product &&
             r.products[j].details.name == DetailsFor(rows[k], cfg).name;
    assert HasPrice(r, mapping.prices[kind], mapping.product, kind, cfg.version);
    var i :| 0 <= i < |r.prices| && r.prices[i].id == mapping.prices[kind] && r.prices[i].active &&
             r.prices[i].product == mapping.product &&
             r.prices[i].terms.kind == kind && r.prices[i].version == cfg.version;
    assert r.prices[i] in r.prices && r.products[j] in r.products && rows[k] in rows;
    assert MoneyOf(r.prices[i].terms) == TableMoney(rows[k], kind);
  }

  /** A reported price exists, is active, belongs to the reported product and charges the table's money for the plan. */
  ghost predicate Charges(r: Remote, rows: seq<PlanRow>, mapping: Mapping, kind: Kind)
    requires kind in mapping.prices
  {
    exists i, k :: 0 <= i < |r.prices| && 0 <= k < |rows| &&
      r.prices[i].id == mapping.prices[kind] && r.prices[i].active && r.prices[i].product == mapping.product &&
      rows[k].plan == mapping.plan && kind in NeededKinds(rows[k]) &&
      MoneyOf(r.prices[i].terms) == TableMoney(rows[k], kind)
  }

  /** Where the tagged prices were made from the plan table, every reported price charges what the table says. */
  lemma ReportedPricesChargeTheTable(
      w: World, rows: seq<PlanRow>, cfg: Config, forced: bool, mapping: Mapping, kind: Kind)
    requires WellFormed(w.remote) && NamesDiffer(rows, cfg) && TableMade(w.remote, rows, cfg)
    requires mapping in Sync(w, rows, cfg, forced).result.products && kind in mapping.prices
    ensures Charges(Sync(w, rows, cfg, forced).world.remote, rows, mapping, kind)
  {
    SyncReports(w, rows, cfg, forced);
    ReportedCharges(Sync(w, rows, cfg, forced).world.remote, rows, cfg, mapping, kind);
  }
}
