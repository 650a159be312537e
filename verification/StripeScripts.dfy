/**
 The sync and the seed script as the source writes them: calls on a client one after the other,
 exceptions cutting a plan short, and lists, records and maps filled in step by step. Each method is
 proved to do what the functions of StripeSync and StripeSeed say.
 */
module StripeScripts {
  import opened Options
  import opened StripeRemote
  import opened StripeSync
  import opened StripeConvergence
  import opened StripeSeed

  /** What a call returns to the script: a value or an exception. */
  datatype Attempt<+T> = Returned(value: T) | Raised {
    predicate IsFailure() {
      Raised?
    }

    function PropagateFailure<U>(): Attempt<U>
      requires Raised?
    {
      Raised
    }

    function Extract(): T
      requires Returned?
    {
      value
    }
  }

  function Joined<T>(world: World, attempt: Attempt<T>): Step<T> {
    match attempt
    case Returned(value) => Done(world, value)
    case Raised => Threw(world)
  }

  function Split<T>(step: Step<T>): Attempt<T> {
    match step
    case Done(_, value) => Returned(value)
    case Threw(_) => Raised
  }

  class StripeClient {
    var world: World

    constructor (world: World)
      ensures this.world == world
    {
      this.world := world;
    }

    method ListMeters() returns (r: Attempt<seq<Meter>>)
      modifies this
      ensures Joined(world, r) == StripeRemote.ListMeters(old(world))
    {
      var step := StripeRemote.ListMeters(world);
      world, r := step.world, Split(step);
    }

    method CreateMeter(event: string) returns (r: Attempt<Meter>)
      modifies this
      ensures Joined(world, r) == StripeRemote.CreateMeter(old(world), event)
    {
      var step := StripeRemote.CreateMeter(world, event);
      world, r := step.world, Split(step);
    }

    method SearchProducts(name: string) returns (r: Attempt<seq<Product>>)
      modifies this
      ensures Joined(world, r) == StripeRemote.SearchProducts(old(world), name)
    {
      var step := StripeRemote.SearchProducts(world, name);
      world, r := step.world, Split(step);
    }

    method UpdateProduct(id: nat, details: Details) returns (r: Attempt<()>)
      modifies this
      ensures Joined(world, r) == StripeRemote.UpdateProduct(old(world), id, details)
    {
      var step := StripeRemote.UpdateProduct(world, id, details);
      world, r := step.world, Split(step);
    }

    method ArchiveProduct(id: nat) returns (r: Attempt<()>)
      modifies this
      ensures Joined(world, r) == StripeRemote.ArchiveProduct(old(world), id)
    {
      var step := StripeRemote.ArchiveProduct(world, id);
      world, r := step.world, Split(step);
    }

    method CreateProduct(details: Details) returns (r: Attempt<Product>)
      modifies this
      ensures Joined(world, r) == StripeRemote.CreateProduct(old(world), details)
    {
      var step := StripeRemote.CreateProduct(world, details);
      world, r := step.world, Split(step);
    }

    method SearchPrices(product: nat, kind: Kind, version: string) returns (r: Attempt<seq<Price>>)
      modifies this
      ensures Joined(world, r) == StripeRemote.SearchPrices(old(world), product, kind, version)
    {
      var step := StripeRemote.SearchPrices(world, product, kind, version);
      world, r := step.world, Split(step);
    }

    method CreatePrice(product: nat, version: string, terms: Terms) returns (r: Attempt<Price>)
      modifies this
      ensures Joined(world, r) == StripeRemote.CreatePrice(old(world), product, version, terms)
    {
      var step := StripeRemote.CreatePrice(world, product, version, terms);
      world, r := step.world, Split(step);
    }
  }

  method EnsureMeter(stripe: StripeClient, event: string) returns (r: Attempt<nat>)
    modifies stripe
    ensures Joined(stripe.world, r) == StripeSync.EnsureMeter(old(stripe.world), event)
  {
    var meters :- stripe.ListMeters();
    var existing := FindMeter(meters, event);
    if existing != [] {
      return Returned(existing[0].id);
    }
    var meter :- stripe.CreateMeter(event);
    r := Returned(meter.id);
  }

  method CreateOrUpdatePrice(stripe: StripeClient, product: nat, version: string, terms: Terms)
    returns (r: Attempt<nat>)
    modifies stripe
    ensures Joined(stripe.world, r) == EnsurePrice(old(stripe.world), product, version, terms)
  {
    var existing :- stripe.SearchPrices(product, terms.kind, version);
    if |existing| > 0 {
      return Returned(existing[0].id);
    }
    var price :- stripe.CreatePrice(product, version, terms);
    r := Returned(price.id);
  }

  method ArchiveEach(stripe: StripeClient, products: seq<Product>) returns (r: Attempt<()>)
    modifies stripe
    ensures Joined(stripe.world, r) == ArchiveAll(old(stripe.world), products)
  {
    for i := 0 to |products|
      invariant ArchiveAll(stripe.world, products[i..]) == ArchiveAll(old(stripe.world), products)
    {
      assert products[i..][1..] == products[i + 1..];
      var _ :- stripe.ArchiveProduct(products[i].id);
    }
    r := Returned(());
  }

  method FindOrCreateProduct(stripe: StripeClient, details: Details, forced: bool) returns (r: Attempt<nat>)
    modifies stripe
    ensures Joined(stripe.world, r) == EnsureProduct(old(stripe.world), details, forced)
  {
    var existing :- stripe.SearchProducts(details.name);
    if |existing| > 0 && !forced {
      var _ :- stripe.UpdateProduct(existing[0].id, details);
      return Returned(existing[0].id);
    }
    if forced {
      var _ :- ArchiveEach(stripe, existing);
    }
    var product :- stripe.CreateProduct(details);
    r := Returned(product.id);
  }

  lemma {:induction false} EnsurePricesKeys(w: World, product: nat, version: string, terms: seq<Terms>)
    ensures var s := EnsurePrices(w, product, version, terms);
            s.Done? ==> s.value.Keys == KindsOf(terms)
    decreases terms
  {
    if terms != [] {
      var first := EnsurePrice(w, product, version, terms[0]);
      EnsurePricesKeys(first.world, product, version, terms[1..]);
      assert KindsOf(terms) == {terms[0].kind} + KindsOf(terms[1..]);
    }
  }

  /** Ensuring one list of prices after another. */
  lemma {:induction false} EnsurePricesConcat(w: World, product: nat, version: string, a: seq<Terms>, b: seq<Terms>)
    ensures var s := EnsurePrices(w, product, version, a);
            EnsurePrices(w, product, version, a + b) ==
            if s.Threw? then s else PutAll(EnsurePrices(s.world, product, version, b), s.value)
    decreases a
  {
    if a == [] {
      assert a + b == b;
      var more := EnsurePrices(w, product, version, b);
      assert more.Done? ==> more.value + map[] == more.value;
    } else {
      var first := EnsurePrice(w, product, version, a[0]);
      assert (a + b)[1..] == a[1..] + b;
      EnsurePricesConcat(first.world, product, version, a[1..], b);
      var rest := EnsurePrices(first.world, product, version, a[1..]);
      if first.Done? && rest.Done? {
        var more := EnsurePrices(rest.world, product, version, b);
        assert more.Done? ==>
          (more.value + rest.value)[a[0].kind := first.value] == more.value + rest.value[a[0].kind := first.value];
      }
    }
  }

  lemma EnsurePricesOne(w: World, product: nat, version: string, terms: Terms)
    ensures var s := EnsurePrice(w, product, version, terms);
            EnsurePrices(w, product, version, [terms]) ==
            if s.Threw? then Threw(s.world) else Done(s.world, map[terms.kind := s.value])
  {
    assert [terms][1..] == [];
  }

  lemma KindsApart(row: PlanRow, meters: MeterIds)
    ensures KindsOf(BaseTerms(row)) !! KindsOf(UsageTerms(row, meters))
    ensures TermsFor(row, meters) == BaseTerms(row) + UsageTerms(row, meters)
  {
    assert forall t :: t in BaseTerms(row) ==> t.kind == Monthly;
    assert forall t :: t in UsageTerms(row, meters) ==> t.kind != Monthly;
  }

  lemma DisjointMerge(a: map<Kind, nat>, b: map<Kind, nat>)
    requires a.Keys !! b.Keys
    ensures a + b == b + a
  {
  }

  /** Ensuring two lists with no type in common, with the recorded ids merged in the order they came. */
  lemma EnsureBoth(w: World, product: nat, version: string, a: seq<Terms>, b: seq<Terms>)
    requires KindsOf(a) !! KindsOf(b)
    ensures EnsurePrices(w, product, version, a + b) ==
            match EnsurePrices(w, product, version, a)
            case Threw(w1) => Threw(w1)
            case Done(w1, base) =>
              match EnsurePrices(w1, product, version, b)
              case Threw(w2) => Threw(w2)
              case Done(w2, usage) => Done(w2, base + usage)
  {
    EnsurePricesConcat(w, product, version, a, b);
    EnsurePricesKeys(w, product, version, a);
    var base := EnsurePrices(w, product, version, a);
    if base.Done? {
      EnsurePricesKeys(base.world, product, version, b);
      var usage := EnsurePrices(base.world, product, version, b);
      if usage.Done? {
        DisjointMerge(base.value, usage.value);
      }
    }
  }

  /** A step's prices, under ones already recorded. */
  ghost function PutAll(step: Step<map<Kind, nat>>, recorded: map<Kind, nat>): Step<map<Kind, nat>> {
    match step
    case Done(w, prices) => Done(w, prices + recorded)
    case Threw(w) => Threw(w)
  }

  function BaseTerms(row: PlanRow): seq<Terms> {
    if row.plan == FREE then [] else [MonthlyTerms(row)]
  }

  function UsageTerms(row: PlanRow, meters: MeterIds): seq<Terms> {
    if IsMetered(row)
    then [MarketingTerms(row, row.rates.value, meters), TransactionalTerms(row, row.rates.value, meters)]
    else []
  }

  method BasePrices(stripe: StripeClient, product: nat, row: PlanRow, version: string)
    returns (r: Attempt<map<Kind, nat>>)
    modifies stripe
    ensures Joined(stripe.world, r) == EnsurePrices(old(stripe.world), product, version, BaseTerms(row))
  {
    var priceIds: map<Kind, nat> := map[];
    if row.plan != FREE {
      EnsurePricesOne(stripe.world, product, version, MonthlyTerms(row));
      var monthly :- CreateOrUpdatePrice(stripe, product, version, MonthlyTerms(row));
      priceIds := priceIds[Monthly := monthly];
    }
    r := Returned(priceIds);
  }

  method UsagePrices(stripe: StripeClient, product: nat, row: PlanRow, version: string, meters: MeterIds)
    returns (r: Attempt<map<Kind, nat>>)
    modifies stripe
    ensures Joined(stripe.world, r) == EnsurePrices(old(stripe.world), product, version, UsageTerms(row, meters))
  {
    var priceIds: map<Kind, nat> := map[];
    if row.rates.Some? && row.plan in METERED_PLANS {
      var first := MarketingTerms(row, row.rates.value, meters);
      var second := TransactionalTerms(row, row.rates.value, meters);
      assert UsageTerms(row, meters) == [first] + [second];
      EnsurePricesConcat(stripe.world, product, version, [first], [second]);
      EnsurePricesOne(stripe.world, product, version, first);
      var marketing :- CreateOrUpdatePrice(stripe, product, version, first);
      EnsurePricesOne(stripe.world, product, version, second);
      priceIds := priceIds[MarketingUsage := marketing];
      var transactional :- CreateOrUpdatePrice(stripe, product, version, second);
      priceIds := priceIds[TransactionalUsage := transactional];
      assert priceIds == map[TransactionalUsage := transactional] + map[MarketingUsage := marketing];
    }
    r := Returned(priceIds);
  }

  /** The body of the loop over the plan table, inside its try. */
  method SyncOnePlan(stripe: StripeClient, row: PlanRow, cfg: Config, meters: MeterIds, forced: bool)
    returns (r: Attempt<Mapping>)
    modifies stripe
    ensures Joined(stripe.world, r) == SyncPlan(old(stripe.world), row, cfg, meters, forced)
  {
    var product :- FindOrCreateProduct(stripe, DetailsFor(row, cfg), forced);
    KindsApart(row, meters);
    EnsureBoth(stripe.world, product, cfg.version, BaseTerms(row), UsageTerms(row, meters));
    var base :- BasePrices(stripe, product, row, cfg.version);
    var usage :- UsagePrices(stripe, product, row, cfg.version, meters);
    r := Returned(Mapping(row.plan, product, base + usage));
  }

  /** Outcomes already recorded, in front of those still to come. */
  ghost function After(products: seq<Mapping>, errors: seq<SyncError>, rest: RowsOutcome): RowsOutcome {
    RowsOutcome(rest.world, products + rest.products, errors + rest.errors)
  }

  lemma AfterRecord(products: seq<Mapping>, errors: seq<SyncError>, step: Step<Mapping>, plan: Plan, rest: RowsOutcome)
    ensures After(products, errors, Record(step, plan, rest)) ==
            if step.Done? then After(products + [step.value], errors, rest)
            else After(products, errors + [PlanFailed(plan)], rest)
  {
    if step.Done? {
      assert products + ([step.value] + rest.products) == products + [step.value] + rest.products;
    } else {
      assert errors + ([PlanFailed(plan)] + rest.errors) == errors + [PlanFailed(plan)] + rest.errors;
    }
  }

  method SyncEach(stripe: StripeClient, rows: seq<PlanRow>, cfg: Config, meters: MeterIds, forced: bool)
    returns (products: seq<Mapping>, errors: seq<SyncError>)
    modifies stripe
    ensures RowsOutcome(stripe.world, products, errors) == SyncRows(old(stripe.world), rows, cfg, meters, forced)
  {
    products, errors := [], [];
    for i := 0 to |rows|
      invariant SyncRows(old(stripe.world), rows, cfg, meters, forced) ==
                After(products, errors, SyncRows(stripe.world, rows[i..], cfg, meters, forced))
    {
      assert rows[i..][1..] == rows[i + 1..];
      if !rows[i].legacy {
        ghost var step := SyncPlan(stripe.world, rows[i], cfg, meters, forced);
        AfterRecord(products, errors, step, rows[i].plan, SyncRows(step.world, rows[i + 1..], cfg, meters, forced));
        var mapping := SyncOnePlan(stripe, rows[i], cfg, meters, forced);
        match mapping
        case Returned(m) => products := products + [m];
        case Raised => errors := errors + [PlanFailed(rows[i].plan)];
      }
    }
  }

  method SyncPlansToStripe(stripe: StripeClient, rows: seq<PlanRow>, cfg: Config, forced: bool)
    returns (result: SyncResult)
    modifies stripe
    ensures SyncOutcome(stripe.world, result) == Sync(old(stripe.world), rows, cfg, forced)
  {
    var attempt := EnsureAllMeters(stripe);
    if attempt.Raised? {
      return SyncResult(false, [], None, [Fatal]);
    }
    var meters := attempt.value;
    var products, errors := SyncEach(stripe, rows, cfg, meters, forced);
    result := SyncResult(errors == [], products, Some(meters), errors);
  }

  method EnsureAllMeters(stripe: StripeClient) returns (r: Attempt<MeterIds>)
    modifies stripe
    ensures Joined(stripe.world, r) == EnsureMeters(old(stripe.world))
  {
    var marketing :- EnsureMeter(stripe, MARKETING_EVENT);
    var transactional :- EnsureMeter(stripe, TRANSACTIONAL_EVENT);
    var extraMember :- EnsureMeter(stripe, MEMBER_EVENT);
    r := Returned(MeterIds(marketing, transactional, extraMember));
  }

  /** Archives first when forced, and only then decides between updating and creating. */
  method AddonProduct(stripe: StripeClient, details: Details, forced: bool) returns (r: Attempt<nat>)
    modifies stripe
    ensures Joined(stripe.world, r) == EnsureProduct(old(stripe.world), details, forced)
  {
    var existing :- stripe.SearchProducts(details.name);
    if forced {
      var _ :- ArchiveEach(stripe, existing);
    }
    if !forced && |existing| > 0 {
      var _ :- stripe.UpdateProduct(existing[0].id, details);
      return Returned(existing[0].id);
    }
    var created :- stripe.CreateProduct(details);
    r := Returned(created.id);
  }

  method UpsertAddonProductAndPrice(
      stripe: StripeClient, addon: Addon, describe: Addon -> string, cfg: Config, forced: bool)
    returns (r: Attempt<Offer>)
    modifies stripe
    ensures Joined(stripe.world, r) == UpsertAddon(old(stripe.world), addon, describe, cfg, forced)
    ensures r.Returned? ==> AddonKind(addon) in r.value.prices
  {
    var product :- AddonProduct(stripe, AddonDetails(addon, describe, cfg), forced);
    EnsurePricesOne(stripe.world, product, cfg.version, AddonTerms(addon));
    var price :- CreateOrUpdatePrice(stripe, product, cfg.version, AddonTerms(addon));
    r := Returned(Offer(product, map[AddonKind(addon) := price]));
  }

  /** One plan's writes into the record being built. */
  method WritePlan(out: Settings, mapping: Mapping) returns (r: Settings)
    ensures r == WriteAll(out, MappingWrites(mapping))
  {
    ghost var w0 := [(ProductSlot(mapping.plan), ProductId(mapping.product))];
    r := out[KeyText(ProductSlot(mapping.plan)) := ProductId(mapping.product)];
    assert w0[..0] == [] && r == WriteAll(out, w0);
    r := WritePriceKey(out, w0, r, mapping, Monthly);
    r := WritePriceKey(out, w0 + PriceWrite(mapping, Monthly), r, mapping, MarketingUsage);
    r := WritePriceKey(out, w0 + PriceWrite(mapping, Monthly) + PriceWrite(mapping, MarketingUsage), r,
                       mapping, TransactionalUsage);
  }

  method WritePriceKey(
      ghost out: Settings, ghost writes: seq<Write>, now: Settings, mapping: Mapping, kind: Kind) returns (r: Settings)
    requires now == WriteAll(out, writes)
    ensures r == WriteAll(out, writes + PriceWrite(mapping, kind))
  {
    r := now;
    if kind in mapping.prices && HasPriceKey(mapping.plan, kind) {
      r := r[KeyText(PriceSlot(mapping.plan, kind)) := PriceId(mapping.prices[kind])];
      assert (writes + PriceWrite(mapping, kind))[..|writes|] == writes;
    } else {
      assert writes + [] == writes;
    }
  }

  lemma {:induction false} WriteAllConcat(out: Settings, a: seq<Write>, b: seq<Write>)
    ensures WriteAll(out, a + b) == WriteAll(WriteAll(out, a), b)
    decreases b
  {
    if b == [] {
      assert a + b == a;
    } else {
      assert (a + b)[..|a + b| - 1] == a + b[..|b| - 1];
      WriteAllConcat(out, a, b[..|b| - 1]);
    }
  }

  method GenerateDbConfig(
      result: SyncResult, domainProduct: Option<nat>, domainPrice: Option<nat>,
      memberProduct: Option<nat>, memberPrice: Option<nat>) returns (out: Settings)
    ensures out == DbConfig(result, domainProduct, domainPrice, memberProduct, memberPrice)
  {
    out := map[];
    for i := 0 to |result.products|
      invariant out == WriteAll(map[], MappingsWrites(result.products[..i]))
    {
      assert result.products[..i + 1][..i] == result.products[..i];
      WriteAllConcat(map[], MappingsWrites(result.products[..i]), MappingWrites(result.products[i]));
      out := WritePlan(out, result.products[i]);
    }
    assert result.products[..|result.products|] == result.products;
    var domain := AddonWrites(AdditionalDomain, domainProduct, domainPrice);
    var member := AddonWrites(ExtraMember, memberProduct, memberPrice);
    WriteAllConcat(map[], MappingsWrites(result.products), domain);
    WriteAllConcat(map[], MappingsWrites(result.products) + domain, member);
    WriteAllConcat(map[], MappingsWrites(result.products) + domain + member, MeterWrites(result.meters));
    out := WriteEach(out, domain);
    out := WriteEach(out, member);
    out := WriteEach(out, MeterWrites(result.meters));
  }

  method WriteEach(settings: Settings, writes: seq<Write>) returns (out: Settings)
    ensures out == WriteAll(settings, writes)
  {
    out := settings;
    for i := 0 to |writes|
      invariant out == WriteAll(settings, writes[..i])
    {
      assert writes[..i + 1][..i] == writes[..i];
      out := out[KeyText(writes[i].0) := writes[i].1];
    }
    assert writes[..|writes|] == writes;
  }

  /** The settings table, one row per key. */
  class AppSettings {
    var rows: Settings

    constructor (rows: Settings)
      ensures this.rows == rows
    {
      this.rows := rows;
    }

    method Upsert(key: string, value: Value)
      modifies this
      ensures rows == old(rows)[key := value]
    {
      rows := rows[key := value];
    }

    /** Upserts every key of a config, in some order. */
    method UpsertAll(config: Settings)
      modifies this
      ensures rows == old(rows) + config
    {
      var left := config.Keys;
      while left != {}
        invariant left <= config.Keys
        invariant rows == old(rows) + (map key | key in config.Keys - left :: config[key])
        decreases |left|
      {
        var key :| key in left;
        Upsert(key, config[key]);
        left := left - {key};
      }
      assert (map key | key in config.Keys - left :: config[key]) == config;
    }
  }

  lemma WriteTwo(out: Settings, a: Write, b: Write)
    ensures WriteAll(out, [a, b]) == out[KeyText(a.0) := a.1][KeyText(b.0) := b.1]
  {
    assert [a, b][..1] == [a] && [a][..0] == [];
    assert WriteAll(out, [a]) == out[KeyText(a.0) := a.1];
  }

  method SaveSettings(
      db: AppSettings, result: SyncResult, domain: Offer, member: Offer, webhook: Option<Webhook>)
    requires DomainMonthly in domain.prices && MemberMonthly in member.prices
    modifies db
    ensures db.rows == FinalSettings(old(db.rows), result, domain, member, webhook)
  {
    var config := GenerateDbConfig(result, Some(domain.product), Some(domain.prices[DomainMonthly]),
                                   Some(member.product), Some(member.prices[MemberMonthly]));
    db.UpsertAll(config);
    if webhook.Some? {
      db.Upsert(KeyText(EndpointSlot), EndpointId(webhook.value.endpoint));
      db.Upsert(KeyText(SecretSlot), Secret(webhook.value.secret));
      WriteTwo(old(db.rows) + config, WebhookWrites(webhook)[0], WebhookWrites(webhook)[1]);
    }
  }

  /** The script from the forced sync to the last upsert; nothing is written unless every step before succeeded. */
  method SeedDatabase(
      stripe: StripeClient, db: AppSettings, rows: seq<PlanRow>, describe: Addon -> string, cfg: Config,
      webhook: Option<Webhook>) returns (seeded: bool)
    modifies stripe, db
    ensures SeedOutcome(stripe.world, db.rows, seeded) ==
            Seed(old(stripe.world), old(db.rows), rows, describe, cfg, webhook)
  {
    var result := SyncPlansToStripe(stripe, rows, cfg, true);
    if !result.success {
      return false;
    }
    var domain := UpsertAddonProductAndPrice(stripe, AdditionalDomain, describe, cfg, true);
    if domain.Raised? {
      return false;
    }
    var member := UpsertAddonProductAndPrice(stripe, ExtraMember, describe, cfg, true);
    if member.Raised? {
      return false;
    }
    SaveSettings(db, result, domain.value, member.value, webhook);
    seeded := true;
  }
}
