/**
 What a seed puts on sale: the settings keys lead to products of the plans' names, and these to prices that
 charge what the plan is sold at.
 */
module StripeCatalogue {
  import opened Options
  import opened StripeRemote
  import opened StripeSync
  import opened StripeSafety
  import opened StripeConvergence
  import opened StripeMeters
  import opened StripeSeed

  /******* What a price charges *******/

  /** Settled, and the one current price of each type has these terms. */
  ghost predicate OfferCharges(r: Remote, details: Details, version: string, terms: seq<Terms>) {
    && SettledOffer(r, details, KindsOf(terms), version)
    && forall t :: t in terms ==> FirstCharges(r, Matches(r.products, details.name)[0].id, version, t)
  }

  /** The first current price of the terms' type has these terms. */
  predicate FirstCharges(r: Remote, product: nat, version: string, t: Terms) {
    var found := PricesOf(r.prices, product, t.kind, version);
    found != [] && found[0].terms == t
  }

  predicate KindsDiffer(terms: seq<Terms>) {
    forall i, j :: 0 <= i < j < |terms| ==> terms[i].kind != terms[j].kind
  }

  lemma CreatedCharges(w: World, product: nat, version: string, t: Terms)
    requires w.faults == [] && PricesOf(w.remote.prices, product, t.kind, version) == []
    ensures FirstCharges(EnsurePrice(w, product, version, t).world.remote, product, version, t)
  {
    var w1 := SearchPrices(w, product, t.kind, version).world;
    assert w1.remote == w.remote && w1.faults == [];
    PricesOfAppend(w.remote.prices, Price(w.remote.nextId, true, product, version, t), product, t.kind, version);
  }

  /** Ensuring the first price leaves the other types without one. */
  lemma OthersStayWithout(w: World, product: nat, version: string, terms: seq<Terms>)
    requires w.faults == [] && WellFormed(w.remote) && product < w.remote.nextId && terms != [] && KindsDiffer(terms)
    requires forall t :: t in terms ==> PricesOf(w.remote.prices, product, t.kind, version) == []
    ensures KindsDiffer(terms[1..]) && terms[0].kind !in KindsOf(terms[1..])
    ensures forall t :: t in terms[1..] ==>
              PricesOf(EnsurePrice(w, product, version, terms[0]).world.remote.prices, product, t.kind, version) == []
  {
    EnsurePriceCounts(w, product, version, terms[0]);
    var rest := terms[1..];
    forall t | t in rest
      ensures t in terms && t.kind != terms[0].kind
    {
      var i :| 0 <= i < |rest| && rest[i] == t;
      assert terms[i + 1] == t;
    }
  }

  /** On a product without prices, every price ensured has the terms it was asked for with. */
  lemma {:induction false} PricesCharge(w: World, product: nat, version: string, terms: seq<Terms>)
    requires w.faults == [] && WellFormed(w.remote) && product < w.remote.nextId && KindsDiffer(terms)
    requires forall t :: t in terms ==> PricesOf(w.remote.prices, product, t.kind, version) == []
    ensures forall t :: t in terms ==>
              FirstCharges(EnsurePrices(w, product, version, terms).world.remote, product, version, t)
    decreases terms
  {
    if terms != [] {
      var t0, rest := terms[0], terms[1..];
      assert terms == [t0] + rest && t0 in terms;
      EnsurePriceCounts(w, product, version, t0);
      CreatedCharges(w, product, version, t0);
      OthersStayWithout(w, product, version, terms);
      var w1 := EnsurePrice(w, product, version, t0).world;
      PricesCharge(w1, product, version, rest);
      EnsurePricesCounts(w1, product, version, rest);
      var r := EnsurePrices(w1, product, version, rest).world.remote;
      assert PricesOf(r.prices, product, t0.kind, version) == PricesOf(w1.remote.prices, product, t0.kind, version);
    }
  }

  /** A forced upsert creates its product, so nothing charges on it but what was asked for. */
  lemma OfferIsCharged(w: World, details: Details, version: string, terms: seq<Terms>)
    requires w.faults == [] && WellFormed(w.remote) && FitsOnePage(w.remote, details.name) && KindsDiffer(terms)
    ensures OfferCharges(EnsureOffer(w, details, version, terms, true).world.remote, details, version, terms)
  {
    EnsureOfferSettlesWhen(w, details, version, terms, true);
    EnsureProductCount(w, details, true);
    var product := EnsureProduct(w, details, true);
    forall t | t in terms
      ensures PricesOf(product.world.remote.prices, product.value, t.kind, version) == []
    {
      NoPricesYet(w.remote.prices, product.value, t.kind, version);
    }
    PricesCharge(product.world, product.value, version, terms);
  }

  lemma SameOffersCharge(before: Remote, after: Remote, details: Details, version: string, terms: seq<Terms>)
    requires SameOffers(before, after, details.name) && OfferCharges(before, details, version, terms)
    ensures OfferCharges(after, details, version, terms)
  {
    SameOffersMean(before, after, details, KindsOf(terms), version, true);
    var p := Matches(before.products, details.name)[0];
    assert p in Matches(before.products, details.name);
    forall t | t in terms
      ensures FirstCharges(after, p.id, version, t)
    {
      assert FirstCharges(before, p.id, version, t);
      assert PricesOf(after.prices, p.id, t.kind, version) == PricesOf(before.prices, p.id, t.kind, version);
    }
  }

  /******* The whole table *******/

  ghost predicate RowCharges(r: Remote, row: PlanRow, cfg: Config, meters: MeterIds) {
    OfferCharges(r, DetailsFor(row, cfg), cfg.version, TermsFor(row, meters))
  }

  lemma {:induction false} RowsAreCharged(w: World, rows: seq<PlanRow>, cfg: Config, meters: MeterIds)
    requires w.faults == [] && WellFormed(w.remote) && NamesDiffer(rows, cfg)
    requires AllSettleable(w.remote, rows, cfg, true)
    ensures forall row :: row in rows && !row.legacy ==>
              RowCharges(SyncRows(w, rows, cfg, meters, true).world.remote, row, cfg, meters)
    decreases rows
  {
    if rows != [] {
      var row := rows[0];
      NamesDifferRest(rows, cfg);
      if row.legacy {
        RowsAreCharged(w, rows[1..], cfg, meters);
      } else {
        assert RowSettleable(w.remote, row, cfg, true);
        OfferIsCharged(w, DetailsFor(row, cfg), cfg.version, TermsFor(row, meters));
        SyncPlanSettlesWhen(w, row, cfg, meters, true);
        RestStaysSettleable(w, row, rows[1..], cfg, meters, true);
        var step := SyncPlan(w, row, cfg, meters, true);
        RowsAreCharged(step.world, rows[1..], cfg, meters);
        SyncRowsFrame(step.world, rows[1..], cfg, meters, true, DetailsFor(row, cfg).name);
        var end := SyncRows(step.world, rows[1..], cfg, meters, true).world.remote;
        SameOffersCharge(step.world.remote, end, DetailsFor(row, cfg), cfg.version, TermsFor(row, meters));
      }
    }
  }

  lemma TableKindsDiffer(row: PlanRow, meters: MeterIds)
    ensures KindsDiffer(TermsFor(row, meters)) && KindsOf(TermsFor(row, meters)) == NeededKinds(row)
  {
    TermsKinds(row, meters);
  }

  /** With every call working, a seed leaves every plan on sale and both add-ons charging what was asked for. */
  lemma SeedIsCharged(w: World, describe: Plan -> string, describeAddon: Addon -> string, cfg: Config)
    requires w.faults == [] && WellFormed(w.remote) && SeedFits(w.remote, describe, cfg)
    ensures var s := Sync(w, PlanTable(describe), cfg, true);
            s.result.success && s.result.meters.Some? &&
            var d := UpsertAddon(s.world, AdditionalDomain, describeAddon, cfg, true);
            d.Done? &&
            var m := UpsertAddon(d.world, ExtraMember, describeAddon, cfg, true);
            m.Done? &&
            var r := m.world.remote;
            && (forall row :: row in PlanTable(describe) && !row.legacy ==>
                  RowCharges(r, row, cfg, s.result.meters.value))
            && AddonCharges(r, AdditionalDomain, describeAddon, cfg) && AddonCharges(r, ExtraMember, describeAddon, cfg)
            && r.meters == s.world.remote.meters
  {
    var rows := PlanTable(describe);
    PlanTableFits(cfg, describe);
    FitsMean(w.remote, rows, cfg);
    SyncIsCharged(w, rows, cfg);
    var s := Sync(w, rows, cfg, true);
    SyncKeepsAddons(w, describe, cfg, AdditionalDomain);
    SyncKeepsAddons(w, describe, cfg, ExtraMember);
    AddonsAreCharged(s.world, describe, describeAddon, cfg, s.result.meters.value);
  }

  lemma SyncIsCharged(w: World, rows: seq<PlanRow>, cfg: Config)
    requires w.faults == [] && WellFormed(w.remote) && NamesDiffer(rows, cfg)
    requires AllSettleable(w.remote, rows, cfg, true)
    ensures var s := Sync(w, rows, cfg, true);
            && s.result.success && s.result.meters.Some? && s.world.faults == [] && WellFormed(s.world.remote)
            && forall row :: row in rows && !row.legacy ==>
                 RowCharges(s.world.remote, row, cfg, s.result.meters.value)
  {
    SyncSettlesWhen(w, rows, cfg, true);
    EnsureMetersSettles(w);
    var metered := EnsureMeters(w);
    assert AllSettleable(metered.world.remote, rows, cfg, true);
    RowsAreCharged(metered.world, rows, cfg, metered.value);
  }

  ghost predicate AddonCharges(r: Remote, addon: Addon, describe: Addon -> string, cfg: Config) {
    OfferCharges(r, AddonDetails(addon, describe, cfg), cfg.version, [AddonTerms(addon)])
  }

  lemma AddonIsCharged(w: World, addon: Addon, describe: Plan -> string, describeAddon: Addon -> string, cfg: Config,
          meters: MeterIds)
    requires w.faults == [] && WellFormed(w.remote) && AddonFits(w.remote, addon, cfg)
    ensures var s := UpsertAddon(w, addon, describeAddon, cfg, true);
            && s.Done? && s.world.faults == [] && WellFormed(s.world.remote)
            && s.world.remote.meters == w.remote.meters && AddonCharges(s.world.remote, addon, describeAddon, cfg)
            && forall row :: row in PlanTable(describe) && RowCharges(w.remote, row, cfg, meters) ==>
                 RowCharges(s.world.remote, row, cfg, meters)
  {
    OfferIsCharged(w, AddonDetails(addon, describeAddon, cfg), cfg.version, [AddonTerms(addon)]);
    UpsertAddonSettlesWhen(w, addon, describeAddon, cfg);
    var r := UpsertAddon(w, addon, describeAddon, cfg, true).world.remote;
    forall row | row in PlanTable(describe) && RowCharges(w.remote, row, cfg, meters)
      ensures RowCharges(r, row, cfg, meters)
    {
      AddonNamesDiffer(row, addon, describe, describeAddon, cfg);
      UpsertAddonFrame(w, addon, describeAddon, cfg, DetailsFor(row, cfg).name);
      SameOffersCharge(w.remote, r, DetailsFor(row, cfg), cfg.version, TermsFor(row, meters));
    }
  }

  lemma AddonsAreCharged(
      w: World, describe: Plan -> string, describeAddon: Addon -> string, cfg: Config, meters: MeterIds)
    requires w.faults == [] && WellFormed(w.remote)
    requires AddonFits(w.remote, AdditionalDomain, cfg) && AddonFits(w.remote, ExtraMember, cfg)
    requires forall row :: row in PlanTable(describe) && !row.legacy ==> RowCharges(w.remote, row, cfg, meters)
    ensures var d := UpsertAddon(w, AdditionalDomain, describeAddon, cfg, true);
            d.Done? &&
            var m := UpsertAddon(d.world, ExtraMember, describeAddon, cfg, true);
            m.Done? &&
            var r := m.world.remote;
            && r.meters == w.remote.meters
            && (forall row :: row in PlanTable(describe) && !row.legacy ==> RowCharges(r, row, cfg, meters))
            && AddonCharges(r, AdditionalDomain, describeAddon, cfg) && AddonCharges(r, ExtraMember, describeAddon, cfg)
  {
    AddonIsCharged(w, AdditionalDomain, describe, describeAddon, cfg, meters);
    AddonNamesDiffer(PlanTable(describe)[0], AdditionalDomain, describe, describeAddon, cfg);
    var domain := AddonDetails(AdditionalDomain, describeAddon, cfg);
    var member := AddonDetails(ExtraMember, describeAddon, cfg);
    UpsertAddonFrame(w, AdditionalDomain, describeAddon, cfg, member.name);
    var w1 := UpsertAddon(w, AdditionalDomain, describeAddon, cfg, true).world;
    AddonIsCharged(w1, ExtraMember, describe, describeAddon, cfg, meters);
    UpsertAddonFrame(w1, ExtraMember, describeAddon, cfg, domain.name);
    SameOffersCharge(w1.remote, UpsertAddon(w1, ExtraMember, describeAddon, cfg, true).world.remote, domain,
                     cfg.version, [AddonTerms(AdditionalDomain)]);
  }

  /******* What the settings lead to *******/

  /** The one active product of that name. */
  ghost predicate IsOnlyProduct(r: Remote, p: Product, name: string) {
    && p in r.products && p.active && p.details.name == name
    && forall q :: q in r.products && q.active && q.details.name == name ==> q == p
  }

  /** The one current price of its type on the product, and these are its terms. */
  ghost predicate IsOnlyPrice(r: Remote, p: Price, product: nat, version: string, terms: Terms) {
    && p in r.prices && p.active && p.product == product && p.version == version && p.terms == terms
    && forall q :: q in r.prices && q.active && q.product == product && q.version == version ==>
         q.terms.kind == terms.kind ==> q == p
  }

  ghost predicate LeadsToProduct(settings: Settings, r: Remote, key: string, p: Product, name: string, tag: Tag) {
    && key in settings && settings[key] == ProductId(p.id)
    && IsOnlyProduct(r, p, name) && p.details.tag == tag
  }

  ghost predicate LeadsToPrice(
      settings: Settings, r: Remote, key: string, product: nat, version: string, terms: Terms)
  {
    key in settings && exists p: Price :: settings[key] == PriceId(p.id) && IsOnlyPrice(r, p, product, version, terms)
  }

  /** The setting holds the id of an active meter for the event. */
  ghost predicate LeadsToMeter(settings: Settings, r: Remote, key: string, id: nat, event: string) {
    key in settings && settings[key] == MeterId(id) && HasMeter(r, id, event)
  }

  ghost predicate LeadsToMeters(settings: Settings, r: Remote, meters: MeterIds) {
    && LeadsToMeter(settings, r, "stripe.meter.marketing", meters.marketing, "bytesend_marketing_emails")
    && LeadsToMeter(settings, r, "stripe.meter.transactional", meters.transactional, "bytesend_transactional_emails")
    && LeadsToMeter(settings, r, "stripe.meter.extra_member", meters.extraMember, "bytesend_extra_team_members")
  }

  /** US, pound and euro amounts. */
  datatype Triple = Triple(usd: nat, gbp: nat, eur: nat)

  /** A flat price a month, in minor units. */
  function Flat(kind: Kind, t: Triple): Terms {
    Terms(kind, UnitAmount(t.usd), map[GBP := UnitAmount(t.gbp), EUR := UnitAmount(t.eur)], Licensed)
  }

  /** A price per email on a meter, in ten-thousandths of a minor unit. */
  function PerEmail(kind: Kind, t: Triple, meter: nat): Terms {
    Terms(kind, UnitAmountDecimal(t.usd), map[GBP := UnitAmountDecimal(t.gbp), EUR := UnitAmountDecimal(t.eur)],
          Metered(meter))
  }

  /** A metered plan, its name and what it is sold at. */
  datatype Listing = Listing(plan: Plan, key: string, name: string, monthly: Triple, marketing: Triple,
                             transactional: Triple)

  ghost predicate SellsPlan(settings: Settings, r: Remote, cfg: Config, l: Listing, meters: MeterIds) {
    exists p: Product :: SellsPlanAs(settings, r, cfg, l, meters, p)
  }

  ghost predicate SellsPlanAs(settings: Settings, r: Remote, cfg: Config, l: Listing, meters: MeterIds, p: Product) {
    && LeadsToProduct(settings, r, "stripe.product." + l.key, p, l.name + " (" + cfg.env + ")",
                      PlanTag(l.plan, cfg.env))
    && LeadsToPrice(settings, r, "stripe.price." + l.key + ".monthly", p.id, cfg.version, Flat(Monthly, l.monthly))
    && LeadsToPrice(settings, r, "stripe.price." + l.key + ".marketing_usage", p.id, cfg.version,
                    PerEmail(MarketingUsage, l.marketing, meters.marketing))
    && LeadsToPrice(settings, r, "stripe.price." + l.key + ".transactional_usage", p.id, cfg.version,
                    PerEmail(TransactionalUsage, l.transactional, meters.transactional))
  }

  ghost predicate SellsAddon(
      settings: Settings, r: Remote, cfg: Config, productKey: string, priceKey: string, name: string, code: string,
      kind: Kind, cents: nat)
  {
    exists p: Product ::
      && LeadsToProduct(settings, r, productKey, p, name + " (" + cfg.env + ")", AddonTag(code, cfg.env))
      && LeadsToPrice(settings, r, priceKey, p.id, cfg.version, Flat(kind, Triple(cents, cents, cents)))
  }

  /** From the settings' searches to the account itself. */
  lemma LeadsToFound(settings: Settings, r: Remote, key: string, details: Details)
    requires |Matches(r.products, details.name)| == 1 && Matches(r.products, details.name)[0].details == details
    requires key in settings && settings[key] == ProductId(Matches(r.products, details.name)[0].id)
    ensures LeadsToProduct(settings, r, key, Matches(r.products, details.name)[0], details.name, details.tag)
  {
    MatchesMembers(r.products, details.name);
  }

  lemma {:induction false} PricesOfHolds(prices: seq<Price>, p: Price)
    requires p in prices && p.active
    ensures p in PricesOf(prices, p.product, p.terms.kind, p.version)
    decreases prices
  {
    var front, last := prices[..|prices| - 1], prices[|prices| - 1];
    if p != last {
      assert p in front;
      PricesOfHolds(front, p);
    }
  }

  lemma LeadsToCharged(settings: Settings, r: Remote, key: string, product: nat, version: string, terms: Terms)
    requires |PricesOf(r.prices, product, terms.kind, version)| == 1 && FirstCharges(r, product, version, terms)
    requires key in settings && settings[key] == PriceId(PricesOf(r.prices, product, terms.kind, version)[0].id)
    ensures LeadsToPrice(settings, r, key, product, version, terms)
  {
    var found := PricesOf(r.prices, product, terms.kind, version);
    var p := found[0];
    PricesOfMembers(r.prices, product, terms.kind, version);
    assert p in found;
    forall q | q in r.prices && q.active && q.product == product && q.version == version &&
               q.terms.kind == terms.kind
      ensures q == p
    {
      PricesOfHolds(r.prices, q);
    }
    assert IsOnlyPrice(r, p, product, version, terms);
  }

  /** A plan that is matched and charges its terms is sold by the settings at these terms. */
  lemma PlanLeads(settings: Settings, r: Remote, row: PlanRow, cfg: Config, meters: MeterIds) returns (p: Product)
    requires PlanMatches(settings, r, row, cfg) && RowCharges(r, row, cfg, meters)
    ensures LeadsToProduct(settings, r, KeyText(ProductSlot(row.plan)), p, DetailsFor(row, cfg).name,
                           PlanTag(row.plan, cfg.env))
    ensures forall t :: t in TermsFor(row, meters) ==>
              LeadsToPrice(settings, r, KeyText(PriceSlot(row.plan, t.kind)), p.id, cfg.version, t)
  {
    var details := DetailsFor(row, cfg);
    p := Matches(r.products, details.name)[0];
    TableKindsDiffer(row, meters);
    LeadsToFound(settings, r, KeyText(ProductSlot(row.plan)), details);
    forall t | t in TermsFor(row, meters)
      ensures LeadsToPrice(settings, r, KeyText(PriceSlot(row.plan, t.kind)), p.id, cfg.version, t)
    {
      assert t.kind in NeededKinds(row);
      assert Read(settings, PriceSlot(row.plan, t.kind)) == Some(PriceId(MappingOf(r, row, cfg).prices[t.kind]));
      LeadsToCharged(settings, r, KeyText(PriceSlot(row.plan, t.kind)), p.id, cfg.version, t);
    }
  }

  lemma AddonLeads(settings: Settings, r: Remote, addon: Addon, describe: Addon -> string, cfg: Config)
    returns (p: Product)
    requires AddonMatches(settings, r, addon, describe, cfg) && AddonCharges(r, addon, describe, cfg)
    ensures LeadsToProduct(settings, r, KeyText(AddonProductSlot(addon)), p, ProductName(AddonName(addon), cfg.env),
                           AddonTag(AddonCode(addon), cfg.env))
    ensures LeadsToPrice(settings, r, KeyText(AddonPriceSlot(addon)), p.id, cfg.version, AddonTerms(addon))
  {
    var details, t := AddonDetails(addon, describe, cfg), AddonTerms(addon);
    p := Matches(r.products, details.name)[0];
    LeadsToFound(settings, r, KeyText(AddonProductSlot(addon)), details);
    assert t in [t];
    LeadsToCharged(settings, r, KeyText(AddonPriceSlot(addon)), p.id, cfg.version, t);
  }

  /** The row is what the listing says. */
  predicate IsListed(row: PlanRow, l: Listing) {
    && row.plan == l.plan != FREE && IsMetered(row) && PlanKey(l.plan) == l.key && row.name == l.name
    && row.monthly == l.monthly.usd && row.localMonthly == map[GBP := l.monthly.gbp, EUR := l.monthly.eur]
    && row.rates == Some(Rates(l.marketing.usd, l.transactional.usd))
    && row.localRates == map[GBP := Rates(l.marketing.gbp, l.transactional.gbp),
                             EUR := Rates(l.marketing.eur, l.transactional.eur)]
  }

  lemma ListedTerms(row: PlanRow, l: Listing, meters: MeterIds)
    requires IsListed(row, l)
    ensures TermsFor(row, meters) ==
            [Flat(Monthly, l.monthly), PerEmail(MarketingUsage, l.marketing, meters.marketing),
             PerEmail(TransactionalUsage, l.transactional, meters.transactional)]
  {
    assert MonthlyTerms(row).options == Flat(Monthly, l.monthly).options;
    assert MarketingTerms(row, row.rates.value, meters).options == PerEmail(MarketingUsage, l.marketing, 0).options;
    assert TransactionalTerms(row, row.rates.value, meters).options ==
           PerEmail(TransactionalUsage, l.transactional, 0).options;
  }

  lemma ListedIsSold(settings: Settings, r: Remote, row: PlanRow, cfg: Config, meters: MeterIds, l: Listing)
    requires PlanMatches(settings, r, row, cfg) && RowCharges(r, row, cfg, meters) && IsListed(row, l)
    ensures SellsPlan(settings, r, cfg, l, meters)
  {
    var p := PlanLeads(settings, r, row, cfg, meters);
    ListedTerms(row, l, meters);
    var terms := TermsFor(row, meters);
    assert terms[0] in terms && terms[1] in terms && terms[2] in terms;
    assert SellsPlanAs(settings, r, cfg, l, meters, p);
  }

  const STARTER := Listing(HOBBY, "hobby", "ByteSend Starter", Triple(500, 400, 500),
                           Triple(700, 550, 650), Triple(400, 300, 370))
  const PRO := Listing(BASIC, "basic", "ByteSend Pro", Triple(2000, 1600, 1900),
                       Triple(600, 480, 550), Triple(350, 280, 320))
  const LARGE := Listing(SCALE, "scale", "ByteSend Scale", Triple(9000, 7200, 8500),
                         Triple(500, 400, 460), Triple(300, 240, 280))

  /** The price list: what each plan and add-on is called, and what it costs. */
  ghost predicate SellsTheList(settings: Settings, r: Remote, cfg: Config, meters: MeterIds) {
    && LeadsToMeters(settings, r, meters) && SellsFree(settings, r, cfg)
    && SellsPlan(settings, r, cfg, STARTER, meters) && SellsPlan(settings, r, cfg, PRO, meters)
    && SellsPlan(settings, r, cfg, LARGE, meters)
    && SellsAddon(settings, r, cfg, "stripe.product.addon.domain", "stripe.price.addon.domain_monthly",
                  "ByteSend Additional Domain", "ADDITIONAL_DOMAIN", DomainMonthly, 100)
    && SellsAddon(settings, r, cfg, "stripe.product.addon.member", "stripe.price.addon.member_monthly",
                  "ByteSend Extra Team Member", "EXTRA_MEMBER", MemberMonthly, 200)
  }

  ghost predicate SellsFree(settings: Settings, r: Remote, cfg: Config) {
    exists p: Product ::
      LeadsToProduct(settings, r, "stripe.product." + "free", p, "ByteSend Free" + " (" + cfg.env + ")",
                     PlanTag(FREE, cfg.env))
  }

  lemma FreeIsSold(settings: Settings, r: Remote, row: PlanRow, cfg: Config, meters: MeterIds)
    requires PlanMatches(settings, r, row, cfg) && RowCharges(r, row, cfg, meters)
    requires row.plan == FREE && row.name == "ByteSend Free"
    ensures SellsFree(settings, r, cfg)
  {
    var p := PlanLeads(settings, r, row, cfg, meters);
  }

  lemma StarterIsListed(describe: Plan -> string)
    ensures IsListed(PlanTable(describe)[1], STARTER) && !PlanTable(describe)[1].legacy
  {
  }

  lemma ProIsListed(describe: Plan -> string)
    ensures IsListed(PlanTable(describe)[3], PRO) && !PlanTable(describe)[3].legacy
  {
  }

  lemma LargeIsListed(describe: Plan -> string)
    ensures IsListed(PlanTable(describe)[4], LARGE) && !PlanTable(describe)[4].legacy
  {
  }

  lemma PlansAreSold(settings: Settings, r: Remote, describe: Plan -> string, cfg: Config, meters: MeterIds)
    requires forall row :: row in PlanTable(describe) && !row.legacy ==>
               PlanMatches(settings, r, row, cfg) && RowCharges(r, row, cfg, meters)
    ensures SellsFree(settings, r, cfg)
    ensures SellsPlan(settings, r, cfg, STARTER, meters) && SellsPlan(settings, r, cfg, PRO, meters)
    ensures SellsPlan(settings, r, cfg, LARGE, meters)
  {
    FreeIsSold(settings, r, PlanTable(describe)[0], cfg, meters);
    StarterIsListed(describe);
    ListedIsSold(settings, r, PlanTable(describe)[1], cfg, meters, STARTER);
    ProIsListed(describe);
    ListedIsSold(settings, r, PlanTable(describe)[3], cfg, meters, PRO);
    LargeIsListed(describe);
    ListedIsSold(settings, r, PlanTable(describe)[4], cfg, meters, LARGE);
  }

  lemma AddonsAreSold(settings: Settings, r: Remote, describe: Addon -> string, cfg: Config)
    requires AddonMatches(settings, r, AdditionalDomain, describe, cfg)
    requires AddonMatches(settings, r, ExtraMember, describe, cfg)
    requires AddonCharges(r, AdditionalDomain, describe, cfg) && AddonCharges(r, ExtraMember, describe, cfg)
    ensures SellsAddon(settings, r, cfg, "stripe.product.addon.domain", "stripe.price.addon.domain_monthly",
                       "ByteSend Additional Domain", "ADDITIONAL_DOMAIN", DomainMonthly, 100)
    ensures SellsAddon(settings, r, cfg, "stripe.product.addon.member", "stripe.price.addon.member_monthly",
                       "ByteSend Extra Team Member", "EXTRA_MEMBER", MemberMonthly, 200)
  {
    var domain := AddonLeads(settings, r, AdditionalDomain, describe, cfg);
    var member := AddonLeads(settings, r, ExtraMember, describe, cfg);
  }

  /** The meters reported by the sync are what the settings hold, whatever the add-ons and the webhook write. */
  lemma MetersAreKept(
      settings: Settings, result: SyncResult, domain: Offer, member: Offer, webhook: Option<Webhook>, r: Remote)
    requires result.meters.Some? && DomainMonthly in domain.prices && MemberMonthly in member.prices
    requires ReportsMeters(r, result.meters.value)
    ensures LeadsToMeters(FinalSettings(settings, result, domain, member, webhook), r, result.meters.value)
  {
    OwnSlotRead(settings, result, domain, member, webhook, MeterSlot(MarketingMeter));
    OwnSlotRead(settings, result, domain, member, webhook, MeterSlot(TransactionalMeter));
    OwnSlotRead(settings, result, domain, member, webhook, MeterSlot(MemberMeter));
  }

  /** The key holds what it held before, if anything. */
  predicate SameAt(before: Settings, after: Settings, key: string) {
    (key in after <==> key in before) && (key in before ==> after[key] == before[key])
  }

  /** A new endpoint's two settings are written, and without one they stay. */
  predicate HooksAre(before: Settings, after: Settings, webhook: Option<Webhook>) {
    match webhook
    case Some(hook) =>
      && "stripe.webhook.endpoint_id" in after && after["stripe.webhook.endpoint_id"] == EndpointId(hook.endpoint)
      && "stripe.webhook.secret" in after && after["stripe.webhook.secret"] == Secret(hook.secret)
    case None =>
      SameAt(before, after, "stripe.webhook.endpoint_id") && SameAt(before, after, "stripe.webhook.secret")
  }

  lemma {:induction false} MappingsWriteNoHook(mappings: seq<Mapping>, slot: Slot)
    requires slot == EndpointSlot || slot == SecretSlot
    ensures LastWrite(MappingsWrites(mappings), slot).None?
    decreases mappings
  {
    if mappings != [] {
      var front, last := mappings[..|mappings| - 1], mappings[|mappings| - 1];
      MappingsWriteNoHook(front, slot);
      LastMappingWrite(last, slot);
      LastWriteConcat(MappingsWrites(front), MappingWrites(last), slot);
    }
  }

  lemma ConfigHasNoHook(result: SyncResult, domain: Offer, member: Offer, slot: Slot)
    requires slot == EndpointSlot || slot == SecretSlot
    requires DomainMonthly in domain.prices && MemberMonthly in member.prices
    ensures LastWrite(DbWrites(result, Some(domain.product), AddonPriceId(domain, DomainMonthly), Some(member.product),
                               AddonPriceId(member, MemberMonthly)), slot).None?
  {
    var w0 := MappingsWrites(result.products);
    var w1 := AddonWrites(AdditionalDomain, Some(domain.product), Some(domain.prices[DomainMonthly]));
    var w2 := AddonWrites(ExtraMember, Some(member.product), Some(member.prices[MemberMonthly]));
    MappingsWriteNoHook(result.products, slot);
    LastAddonWrite(AdditionalDomain, domain.product, domain.prices[DomainMonthly], slot);
    LastAddonWrite(ExtraMember, member.product, member.prices[MemberMonthly], slot);
    LastMeterWrite(result.meters, slot);
    LastWriteConcat(w0, w1, slot);
    LastWriteConcat(w0 + w1, w2, slot);
    LastWriteConcat(w0 + w1 + w2, MeterWrites(result.meters), slot);
  }

  lemma HooksAreWritten(
      settings: Settings, result: SyncResult, domain: Offer, member: Offer, webhook: Option<Webhook>)
    requires DomainMonthly in domain.prices && MemberMonthly in member.prices
    ensures HooksAre(settings, FinalSettings(settings, result, domain, member, webhook), webhook)
  {
    SettingsRead(settings, result, domain, member, webhook, EndpointSlot);
    SettingsRead(settings, result, domain, member, webhook, SecretSlot);
    ConfigHasNoHook(result, domain, member, EndpointSlot);
    ConfigHasNoHook(result, domain, member, SecretSlot);
    if webhook.Some? {
      var writes := WebhookWrites(webhook);
      LastPairWrite(writes[0], writes[1], EndpointSlot);
      LastPairWrite(writes[0], writes[1], SecretSlot);
    }
  }

  /** Settings that match the account, where everything charges what was asked for, hold the whole list. */
  lemma AllIsSold(
      settings: Settings, r: Remote, describe: Plan -> string, describeAddon: Addon -> string, cfg: Config,
      meters: MeterIds)
    requires AllMatch(settings, r, describe, describeAddon, cfg)
    requires forall row :: row in PlanTable(describe) && !row.legacy ==> RowCharges(r, row, cfg, meters)
    requires AddonCharges(r, AdditionalDomain, describeAddon, cfg) && AddonCharges(r, ExtraMember, describeAddon, cfg)
    requires LeadsToMeters(settings, r, meters)
    ensures SellsTheList(settings, r, cfg, meters)
  {
    PlansAreSold(settings, r, describe, cfg, meters);
    AddonsAreSold(settings, r, describeAddon, cfg);
  }

  /******* What a seed leaves of each name *******/

  /** Active products of a name after a forced upsert, by how many there were: the search shows a hundred. */
  function Left(n: nat): nat {
    if n <= 100 then 1 else n - 99
  }

  ghost predicate Leaves(before: Remote, after: Remote, name: string) {
    |Matches(after.products, name)| == Left(|Matches(before.products, name)|)
  }

  lemma OfferLeaves(w: World, details: Details, version: string, terms: seq<Terms>)
    requires w.faults == [] && WellFormed(w.remote)
    ensures Leaves(w.remote, EnsureOffer(w, details, version, terms, true).world.remote, details.name)
  {
    EnsureProductCount(w, details, true);
    var product := EnsureProduct(w, details, true);
    EnsurePricesCounts(product.world, product.value, version, terms);
  }

  lemma {:induction false} RowsLeave(w: World, rows: seq<PlanRow>, cfg: Config, meters: MeterIds, row: PlanRow)
    requires w.faults == [] && WellFormed(w.remote) && NamesDiffer(rows, cfg) && row in rows && !row.legacy
    ensures Leaves(w.remote, SyncRows(w, rows, cfg, meters, true).world.remote, DetailsFor(row, cfg).name)
    decreases rows
  {
    NamesDifferRest(rows, cfg);
    var name := DetailsFor(row, cfg).name;
    if rows[0].legacy {
      RowsLeave(w, rows[1..], cfg, meters, row);
    } else {
      SyncPlanSettlesWhen(w, rows[0], cfg, meters, true);
      var step := SyncPlan(w, rows[0], cfg, meters, true);
      if row == rows[0] {
        OfferLeaves(w, DetailsFor(row, cfg), cfg.version, TermsFor(row, meters));
        SyncRowsFrame(step.world, rows[1..], cfg, meters, true, name);
      } else {
        SyncPlanFrame(w, rows[0], cfg, meters, true, name);
        RowsLeave(step.world, rows[1..], cfg, meters, row);
      }
    }
  }

  lemma AddonLeaves(w: World, addon: Addon, describe: Addon -> string, cfg: Config)
    requires w.faults == [] && WellFormed(w.remote)
    ensures var s := UpsertAddon(w, addon, describe, cfg, true);
            && s.Done? && s.world.faults == [] && WellFormed(s.world.remote)
            && Leaves(w.remote, s.world.remote, ProductName(AddonName(addon), cfg.env))
            && forall other :: other != ProductName(AddonName(addon), cfg.env) ==>
                 Matches(s.world.remote.products, other) == Matches(w.remote.products, other)
  {
    UpsertAddonSettlesWhen(w, addon, describe, cfg);
    OfferLeaves(w, AddonDetails(addon, describe, cfg), cfg.version, [AddonTerms(addon)]);
    var r := UpsertAddon(w, addon, describe, cfg, true).world.remote;
    forall other | other != ProductName(AddonName(addon), cfg.env)
      ensures Matches(r.products, other) == Matches(w.remote.products, other)
    {
      UpsertAddonFrame(w, addon, describe, cfg, other);
    }
  }

  /** The names a seed sells under. */
  ghost predicate IsSold(name: string, describe: Plan -> string, cfg: Config) {
    || (exists row :: row in PlanTable(describe) && !row.legacy && DetailsFor(row, cfg).name == name)
    || name == ProductName(AddonName(AdditionalDomain), cfg.env)
    || name == ProductName(AddonName(ExtraMember), cfg.env)
  }

  lemma SyncLeaves(w: World, describe: Plan -> string, cfg: Config, row: PlanRow)
    requires w.faults == [] && WellFormed(w.remote) && row in PlanTable(describe) && !row.legacy
    ensures Leaves(w.remote, Sync(w, PlanTable(describe), cfg, true).world.remote, DetailsFor(row, cfg).name)
  {
    PlanTableFits(cfg, describe);
    EnsureMetersSettles(w);
    var metered := EnsureMeters(w);
    RowsLeave(metered.world, PlanTable(describe), cfg, metered.value, row);
  }

  lemma SyncLeavesAddons(w: World, describe: Plan -> string, cfg: Config, addon: Addon)
    requires w.faults == [] && WellFormed(w.remote)
    ensures var name := ProductName(AddonName(addon), cfg.env);
            Matches(Sync(w, PlanTable(describe), cfg, true).world.remote.products, name) ==
            Matches(w.remote.products, name)
  {
    var name := ProductName(AddonName(addon), cfg.env);
    forall row | row in PlanTable(describe)
      ensures DetailsFor(row, cfg).name != name
    {
      AddonNamesDiffer(row, addon, describe, _ => "", cfg);
    }
    SyncFrame(w, PlanTable(describe), cfg, true, name);
  }

  /** A whole seed leaves of each name it sells under what its one upsert leaves. */
  lemma SeedLeaves(
      w: World, settings: Settings, describe: Plan -> string, describeAddon: Addon -> string, cfg: Config,
      webhook: Option<Webhook>, name: string)
    requires w.faults == [] && WellFormed(w.remote) && IsSold(name, describe, cfg)
    ensures var r := Seed(w, settings, PlanTable(describe), describeAddon, cfg, webhook).world.remote;
            WellFormed(r) && Leaves(w.remote, r, name)
  {
    SeedSyncSettles(w, describe, cfg);
    var s := Sync(w, PlanTable(describe), cfg, true);
    AddonLeaves(s.world, AdditionalDomain, describeAddon, cfg);
    var d := UpsertAddon(s.world, AdditionalDomain, describeAddon, cfg, true);
    AddonLeaves(d.world, ExtraMember, describeAddon, cfg);
    SyncLeavesAddons(w, describe, cfg, AdditionalDomain);
    SyncLeavesAddons(w, describe, cfg, ExtraMember);
    AddonNamesDiffer(PlanTable(describe)[0], AdditionalDomain, describe, describeAddon, cfg);
    if row :| row in PlanTable(describe) && !row.legacy && DetailsFor(row, cfg).name == name {
      SyncLeaves(w, describe, cfg, row);
      AddonNamesDiffer(row, AdditionalDomain, describe, describeAddon, cfg);
      AddonNamesDiffer(row, ExtraMember, describe, describeAddon, cfg);
    }
  }

  lemma OnlyIsOne(r: Remote, p: Product, name: string)
    requires WellFormed(r) && IsOnlyProduct(r, p, name)
    ensures |Matches(r.products, name)| == 1
  {
    MatchesMembers(r.products, name);
    MatchesDistinct(r.products, name);
    var found := Matches(r.products, name);
    assert p in found;
    assert forall i :: 0 <= i < |found| ==> found[i] == p;
    assert |found| > 1 ==> found[0].id == found[1].id;
  }

  lemma FreeIsOne(settings: Settings, r: Remote, cfg: Config)
    requires WellFormed(r) && SellsFree(settings, r, cfg)
    ensures |Matches(r.products, ProductName("ByteSend Free", cfg.env))| == 1
  {
    var p: Product :| LeadsToProduct(settings, r, "stripe.product." + "free", p, "ByteSend Free" + " (" + cfg.env + ")",
                                     PlanTag(FREE, cfg.env));
    OnlyIsOne(r, p, ProductName("ByteSend Free", cfg.env));
  }

  lemma PlanIsOne(settings: Settings, r: Remote, cfg: Config, l: Listing, meters: MeterIds)
    requires WellFormed(r) && SellsPlan(settings, r, cfg, l, meters)
    ensures |Matches(r.products, ProductName(l.name, cfg.env))| == 1
  {
    var p: Product :| SellsPlanAs(settings, r, cfg, l, meters, p);
    OnlyIsOne(r, p, ProductName(l.name, cfg.env));
  }

  lemma AddonIsOne(
      settings: Settings, r: Remote, cfg: Config, productKey: string, priceKey: string, name: string, code: string,
      kind: Kind, cents: nat)
    requires WellFormed(r) && SellsAddon(settings, r, cfg, productKey, priceKey, name, code, kind, cents)
    ensures |Matches(r.products, ProductName(name, cfg.env))| == 1
  {
    var p: Product :| LeadsToProduct(settings, r, productKey, p, name + " (" + cfg.env + ")", AddonTag(code, cfg.env));
    OnlyIsOne(r, p, ProductName(name, cfg.env));
  }

  /** The plans on sale are those on the list. */
  lemma SoldRow(describe: Plan -> string, row: PlanRow)
    requires row in PlanTable(describe) && !row.legacy
    ensures match row.plan
            case FREE => row.name == "ByteSend Free"
            case HOBBY => row.name == STARTER.name
            case BASIC => row.name == PRO.name
            case SCALE => row.name == LARGE.name
            case _ => false
  {
  }

  lemma RowIsOne(settings: Settings, r: Remote, describe: Plan -> string, cfg: Config, meters: MeterIds, row: PlanRow)
    requires WellFormed(r) && SellsTheList(settings, r, cfg, meters) && row in PlanTable(describe) && !row.legacy
    ensures |Matches(r.products, DetailsFor(row, cfg).name)| == 1
  {
    SoldRow(describe, row);
    if row.plan == FREE {
      FreeIsOne(settings, r, cfg);
    } else {
      PlanIsOne(settings, r, cfg, if row.plan == HOBBY then STARTER else if row.plan == BASIC then PRO else LARGE,
                meters);
    }
  }

  lemma AddonsAreOne(settings: Settings, r: Remote, cfg: Config, meters: MeterIds)
    requires WellFormed(r) && SellsTheList(settings, r, cfg, meters)
    ensures |Matches(r.products, ProductName(AddonName(AdditionalDomain), cfg.env))| == 1
    ensures |Matches(r.products, ProductName(AddonName(ExtraMember), cfg.env))| == 1
  {
    AddonIsOne(settings, r, cfg, "stripe.product.addon.domain", "stripe.price.addon.domain_monthly",
               "ByteSend Additional Domain", "ADDITIONAL_DOMAIN", DomainMonthly, 100);
    AddonIsOne(settings, r, cfg, "stripe.product.addon.member", "stripe.price.addon.member_monthly",
               "ByteSend Extra Team Member", "EXTRA_MEMBER", MemberMonthly, 200);
  }

  /** The names sold under are the names on the list. */
  lemma ListedNames(
      settings: Settings, r: Remote, describe: Plan -> string, cfg: Config, meters: MeterIds, name: string)
    requires WellFormed(r) && SellsTheList(settings, r, cfg, meters) && IsSold(name, describe, cfg)
    ensures |Matches(r.products, name)| == 1
  {
    if row :| row in PlanTable(describe) && !row.legacy && DetailsFor(row, cfg).name == name {
      RowIsOne(settings, r, describe, cfg, meters, row);
    } else {
      AddonsAreOne(settings, r, cfg, meters);
    }
  }

  lemma FitsByName(r: Remote, describe: Plan -> string, cfg: Config)
    requires forall name :: IsSold(name, describe, cfg) ==> |Matches(r.products, name)| <= 100
    ensures SeedFits(r, describe, cfg)
  {
    forall row | row in PlanTable(describe) && !row.legacy
      ensures FitsOnePage(r, DetailsFor(row, cfg).name)
    {
      assert IsSold(DetailsFor(row, cfg).name, describe, cfg);
    }
    assert IsSold(ProductName(AddonName(AdditionalDomain), cfg.env), describe, cfg);
    assert IsSold(ProductName(AddonName(ExtraMember), cfg.env), describe, cfg);
  }

  /******* Main results *******/

  /** A seed in which every call works sells the whole list when every name fits one search page. */
  lemma FittingSeedSells(
      w: World, settings: Settings, describe: Plan -> string, describeAddon: Addon -> string, cfg: Config,
      webhook: Option<Webhook>)
    requires w.faults == [] && WellFormed(w.remote) && SeedFits(w.remote, describe, cfg)
    ensures var out := Seed(w, settings, PlanTable(describe), describeAddon, cfg, webhook);
            exists meters :: SellsTheList(out.settings, out.world.remote, cfg, meters)
  {
    SeedReadsBack(w, settings, describe, describeAddon, cfg, webhook);
    SeedIsCharged(w, describe, describeAddon, cfg);
    NewPricesAreBilledRight(w, PlanTable(describe), cfg, true);
    SeedSyncSettles(w, describe, cfg);
    var s := Sync(w, PlanTable(describe), cfg, true);
    AddonsSettle(s.world, describe, describeAddon, cfg);
    var d := UpsertAddon(s.world, AdditionalDomain, describeAddon, cfg, true);
    var m := UpsertAddon(d.world, ExtraMember, describeAddon, cfg, true);
    var out := Seed(w, settings, PlanTable(describe), describeAddon, cfg, webhook);
    MetersAreKept(settings, s.result, d.value, m.value, webhook, m.world.remote);
    AllIsSold(out.settings, out.world.remote, describe, describeAddon, cfg, s.result.meters.value);
  }

  /**
   A seed in which every call works: the settings lead to the whole price list exactly when no name on it had
   more active products than one search shows. Every key holds the id of the one active product, current price
   or active meter it stands for, the product has its plan's name and tag, and the price charges what the list
   says, in every currency, on the meter of its kind.
   */
  lemma SeedSellsTheList(
      w: World, settings: Settings, describe: Plan -> string, describeAddon: Addon -> string, cfg: Config,
      webhook: Option<Webhook>)
    requires w.faults == [] && WellFormed(w.remote)
    ensures var out := Seed(w, settings, PlanTable(describe), describeAddon, cfg, webhook);
            && out.seeded
            && ((exists meters :: SellsTheList(out.settings, out.world.remote, cfg, meters)) <==>
                  SeedFits(w.remote, describe, cfg))
  {
    SeedReadsBack(w, settings, describe, describeAddon, cfg, webhook);
    var out := Seed(w, settings, PlanTable(describe), describeAddon, cfg, webhook);
    if SeedFits(w.remote, describe, cfg) {
      FittingSeedSells(w, settings, describe, describeAddon, cfg, webhook);
    }
    if meters :| SellsTheList(out.settings, out.world.remote, cfg, meters) {
      forall name | IsSold(name, describe, cfg)
        ensures |Matches(w.remote.products, name)| <= 100
      {
        SeedLeaves(w, settings, describe, describeAddon, cfg, webhook, name);
        ListedNames(out.settings, out.world.remote, describe, cfg, meters, name);
      }
      FitsByName(w.remote, describe, cfg);
    }
  }

  /******* A seed in which calls fail *******/

  lemma AddonPrices(w: World, addon: Addon, describe: Addon -> string, cfg: Config, meters: MeterIds)
    ensures var s := UpsertAddon(w, addon, describe, cfg, true);
            s.world.remote.meters == w.remote.meters && (s.Done? ==> s.value.prices.Keys == {AddonKind(addon)})
  {
    var details, terms := AddonDetails(addon, describe, cfg), [AddonTerms(addon)];
    assert forall t :: t in terms ==> TermsOn(t, meters);
    OfferAddsBilled(w, details, cfg.version, terms, true, meters);
    var product := EnsureProduct(w, details, true);
    if product.Done? {
      OnePrice(product.world, product.value, cfg.version, terms[0]);
    }
  }

  lemma OnePrice(w: World, product: nat, version: string, terms: Terms)
    ensures var s := EnsurePrices(w, product, version, [terms]); s.Done? ==> s.value.Keys == {terms.kind}
  {
    var first := EnsurePrice(w, product, version, terms);
    if first.Done? {
      assert [terms][1..] == [];
      assert EnsurePrices(first.world, product, version, []) == Done(first.world, map[]);
    }
  }

  /**
   Whatever fails, a seed writes all of its settings or none: they stay as they are, or they lead to the active
   meters of the three events, and hold the products and prices of both add-ons and the webhook's two values.
   */
  lemma SeedIsAllOrNothing(
      w: World, settings: Settings, describe: Plan -> string, describeAddon: Addon -> string, cfg: Config,
      webhook: Option<Webhook>)
    ensures var out := Seed(w, settings, PlanTable(describe), describeAddon, cfg, webhook);
            if !out.seeded then out.settings == settings
            else
              && (exists meters :: LeadsToMeters(out.settings, out.world.remote, meters))
              && HoldsAddons(out.settings) && HooksAre(settings, out.settings, webhook)
  {
    var s := Sync(w, PlanTable(describe), cfg, true);
    NewPricesAreBilledRight(w, PlanTable(describe), cfg, true);
    if s.result.success {
      var meters := s.result.meters.value;
      AddonPrices(s.world, AdditionalDomain, describeAddon, cfg, meters);
      var d := UpsertAddon(s.world, AdditionalDomain, describeAddon, cfg, true);
      if d.Done? {
        AddonPrices(d.world, ExtraMember, describeAddon, cfg, meters);
        var m := UpsertAddon(d.world, ExtraMember, describeAddon, cfg, true);
        if m.Done? {
          MetersAreKept(settings, s.result, d.value, m.value, webhook, m.world.remote);
          HooksAreWritten(settings, s.result, d.value, m.value, webhook);
          AddonsAreHeld(settings, s.result, d.value, m.value, webhook);
        }
      }
    }
  }

  predicate HoldsAddons(settings: Settings) {
    && "stripe.product.addon.domain" in settings && settings["stripe.product.addon.domain"].ProductId?
    && "stripe.product.addon.member" in settings && settings["stripe.product.addon.member"].ProductId?
    && "stripe.price.addon.domain_monthly" in settings && settings["stripe.price.addon.domain_monthly"].PriceId?
    && "stripe.price.addon.member_monthly" in settings && settings["stripe.price.addon.member_monthly"].PriceId?
  }

  lemma AddonsAreHeld(
      settings: Settings, result: SyncResult, domain: Offer, member: Offer, webhook: Option<Webhook>)
    requires DomainMonthly in domain.prices && MemberMonthly in member.prices
    ensures HoldsAddons(FinalSettings(settings, result, domain, member, webhook))
  {
    OwnSlotRead(settings, result, domain, member, webhook, AddonProductSlot(AdditionalDomain));
    OwnSlotRead(settings, result, domain, member, webhook, AddonProductSlot(ExtraMember));
    OwnSlotRead(settings, result, domain, member, webhook, AddonPriceSlot(AdditionalDomain));
    OwnSlotRead(settings, result, domain, member, webhook, AddonPriceSlot(ExtraMember));
  }
}
