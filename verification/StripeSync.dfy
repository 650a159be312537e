/**
 What one sync of the plan table does to the account, as a function of the world it starts in,
 and the plan table itself.
 */
module StripeSync {
  import opened Options
  import opened StripeRemote

  /** Overage rates in ten-thousandths of a minor unit per email. */
  datatype Rates = Rates(marketing: nat, transactional: nat)

  datatype PlanRow = PlanRow(
    plan: Plan, name: string, description: string, legacy: bool,
    monthly: nat, localMonthly: map<Currency, nat>,
    rates: Option<Rates>, localRates: map<Currency, Rates>)

  datatype Config = Config(env: string, version: string)

  datatype MeterIds = MeterIds(marketing: nat, transactional: nat, extraMember: nat)

  datatype Mapping = Mapping(plan: Plan, product: nat, prices: map<Kind, nat>)

  datatype SyncError = Fatal | PlanFailed(plan: Plan)

  datatype SyncResult =
    SyncResult(success: bool, products: seq<Mapping>, meters: Option<MeterIds>, errors: seq<SyncError>)

  const MARKETING_EVENT := "bytesend_marketing_emails"
  const TRANSACTIONAL_EVENT := "bytesend_transactional_emails"
  const MEMBER_EVENT := "bytesend_extra_team_members"

  const METERED_PLANS: set<Plan> := {HOBBY, BASIC, SCALE}

  /** The plan table, in its own order; the product descriptions are marketing copy and stay a parameter. */
  function PlanTable(describe: Plan -> string): seq<PlanRow> {
    [
      PlanRow(FREE, "ByteSend Free", describe(FREE), false, 0, map[], None, map[]),
      PlanRow(HOBBY, "ByteSend Starter", describe(HOBBY), false, 500, map[GBP := 400, EUR := 500],
              Some(Rates(700, 400)), map[GBP := Rates(550, 300), EUR := Rates(650, 370)]),
      PlanRow(LITE, "ByteSend Lite", describe(LITE), true, 1000, map[], Some(Rates(800, 350)), map[]),
      PlanRow(BASIC, "ByteSend Pro", describe(BASIC), false, 2000, map[GBP := 1600, EUR := 1900],
              Some(Rates(600, 350)), map[GBP := Rates(480, 280), EUR := Rates(550, 320)]),
      PlanRow(SCALE, "ByteSend Scale", describe(SCALE), false, 9000, map[GBP := 7200, EUR := 8500],
              Some(Rates(500, 300)), map[GBP := Rates(400, 240), EUR := Rates(460, 280)]),
      PlanRow(LIFETIME, "ByteSend Lifetime", describe(LIFETIME), true, 0, map[], None, map[])
    ]
  }

  function ProductName(name: string, env: string): string {
    name + " (" + env + ")"
  }

  function DetailsFor(row: PlanRow, cfg: Config): Details {
    Details(ProductName(row.name, cfg.env), row.description, PlanTag(row.plan, cfg.env))
  }

  function MonthlyTerms(row: PlanRow): Terms {
    Terms(Monthly, UnitAmount(row.monthly), map c | c in row.localMonthly :: UnitAmount(row.localMonthly[c]), Licensed)
  }

  function MarketingTerms(row: PlanRow, rates: Rates, meters: MeterIds): Terms {
    Terms(MarketingUsage, UnitAmountDecimal(rates.marketing),
          map c | c in row.localRates :: UnitAmountDecimal(row.localRates[c].marketing), Metered(meters.marketing))
  }

  function TransactionalTerms(row: PlanRow, rates: Rates, meters: MeterIds): Terms {
    Terms(TransactionalUsage, UnitAmountDecimal(rates.transactional),
          map c | c in row.localRates :: UnitAmountDecimal(row.localRates[c].transactional),
          Metered(meters.transactional))
  }

  predicate IsMetered(row: PlanRow) {
    row.rates.Some? && row.plan in METERED_PLANS
  }

  /** The prices a plan needs, in the order they are ensured. */
  function TermsFor(row: PlanRow, meters: MeterIds): seq<Terms> {
    (if row.plan == FREE then [] else [MonthlyTerms(row)]) +
    (if IsMetered(row)
     then [MarketingTerms(row, row.rates.value, meters), TransactionalTerms(row, row.rates.value, meters)]
     else [])
  }

  /** The price types a plan needs. */
  function NeededKinds(row: PlanRow): set<Kind> {
    (if row.plan == FREE then {} else {Monthly}) +
    (if IsMetered(row) then {MarketingUsage, TransactionalUsage} else {})
  }

  /******* The sync *******/

  function EnsureMeter(w: World, event: string): Step<nat> {
    var (w1, listed) :- ListMeters(w);
    var found := FindMeter(listed, event);
    if found != [] then Done(w1, found[0].id)
    else
      var (w2, meter) :- CreateMeter(w1, event);
      Done(w2, meter.id)
  }

  function EnsureMeters(w: World): Step<MeterIds> {
    var (w1, marketing) :- EnsureMeter(w, MARKETING_EVENT);
    var (w2, transactional) :- EnsureMeter(w1, TRANSACTIONAL_EVENT);
    var (w3, extraMember) :- EnsureMeter(w2, MEMBER_EVENT);
    Done(w3, MeterIds(marketing, transactional, extraMember))
  }

  function ArchiveAll(w: World, products: seq<Product>): Step<()>
    decreases products
  {
    if products == [] then Done(w, ())
    else
      var (w1, _) :- ArchiveProduct(w, products[0].id);
      ArchiveAll(w1, products[1..])
  }

  /** Reuses the first active product of that name, or archives what the search found (when forced) and creates one. */
  function EnsureProduct(w: World, details: Details, forced: bool): Step<nat> {
    var (w1, found) :- SearchProducts(w, details.name);
    if found != [] && !forced then
      var (w2, _) :- UpdateProduct(w1, found[0].id, details);
      Done(w2, found[0].id)
    else
      var (w2, _) :- ArchiveAll(w1, if forced then found else []);
      var (w3, product) :- CreateProduct(w2, details);
      Done(w3, product.id)
  }

  function EnsurePrice(w: World, product: nat, version: string, terms: Terms): Step<nat> {
    var (w1, found) :- SearchPrices(w, product, terms.kind, version);
    if found != [] then Done(w1, found[0].id)
    else
      var (w2, price) :- CreatePrice(w1, product, version, terms);
      Done(w2, price.id)
  }

  function EnsurePrices(w: World, product: nat, version: string, terms: seq<Terms>): Step<map<Kind, nat>>
    decreases terms
  {
    if terms == [] then Done(w, map[])
    else
      var (w1, id) :- EnsurePrice(w, product, version, terms[0]);
      var (w2, rest) :- EnsurePrices(w1, product, version, terms[1..]);
      Done(w2, rest[terms[0].kind := id])
  }

  /** A product and its prices, as the scripts know them. */
  datatype Offer = Offer(product: nat, prices: map<Kind, nat>)

  function EnsureOffer(w: World, details: Details, version: string, terms: seq<Terms>, forced: bool): Step<Offer> {
    var (w1, product) :- EnsureProduct(w, details, forced);
    var (w2, prices) :- EnsurePrices(w1, product, version, terms);
    Done(w2, Offer(product, prices))
  }

  function SyncPlan(w: World, row: PlanRow, cfg: Config, meters: MeterIds, forced: bool): Step<Mapping> {
    var (w1, offer) :- EnsureOffer(w, DetailsFor(row, cfg), cfg.version, TermsFor(row, meters), forced);
    Done(w1, Mapping(row.plan, offer.product, offer.prices))
  }

  datatype RowsOutcome = RowsOutcome(world: World, products: seq<Mapping>, errors: seq<SyncError>)

  /** A plan's outcome put in front of the outcomes of the plans after it. */
  function Record(step: Step<Mapping>, plan: Plan, rest: RowsOutcome): RowsOutcome {
    match step
    case Done(_, mapping) => rest.(products := [mapping] + rest.products)
    case Threw(_) => rest.(errors := [PlanFailed(plan)] + rest.errors)
  }

  function SyncRows(w: World, rows: seq<PlanRow>, cfg: Config, meters: MeterIds, forced: bool): RowsOutcome
    decreases rows
  {
    if rows == [] then RowsOutcome(w, [], [])
    else if rows[0].legacy then SyncRows(w, rows[1..], cfg, meters, forced)
    else
      var step := SyncPlan(w, rows[0], cfg, meters, forced);
      Record(step, rows[0].plan, SyncRows(step.world, rows[1..], cfg, meters, forced))
  }

  datatype SyncOutcome = SyncOutcome(world: World, result: SyncResult)

  function Sync(w: World, rows: seq<PlanRow>, cfg: Config, forced: bool): SyncOutcome {
    match EnsureMeters(w)
    case Threw(w1) => SyncOutcome(w1, SyncResult(false, [], None, [Fatal]))
    case Done(w1, meters) =>
      var all := SyncRows(w1, rows, cfg, meters, forced);
      SyncOutcome(all.world, SyncResult(all.errors == [], all.products, Some(meters), all.errors))
  }

  /** One earlier run: its own table, labels, mode and failures. */
  datatype Run = Run(rows: seq<PlanRow>, cfg: Config, forced: bool, faults: seq<Fault>)

  function RunAll(r: Remote, runs: seq<Run>): Remote
    decreases runs
  {
    if runs == [] then r
    else
      var run := runs[0];
      RunAll(Sync(World(r, run.faults, []), run.rows, run.cfg, run.forced).world.remote, runs[1..])
  }
}
