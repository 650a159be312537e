/**
 The seed script: a forced sync, the two add-ons, and the settings rows that make the ids findable
 at run time.
 */
module StripeSeed {
  import opened Options
  import opened StripeRemote
  import opened StripeSync
  import opened StripeConvergence

  /******* Names *******/

  datatype Addon = AdditionalDomain | ExtraMember

  function AddonName(addon: Addon): string {
    match addon
    case AdditionalDomain => "ByteSend Additional Domain"
    case ExtraMember => "ByteSend Extra Team Member"
  }

  function AddonCode(addon: Addon): string {
    match addon
    case AdditionalDomain => "ADDITIONAL_DOMAIN"
    case ExtraMember => "EXTRA_MEMBER"
  }

  function AddonKind(addon: Addon): Kind {
    match addon
    case AdditionalDomain => DomainMonthly
    case ExtraMember => MemberMonthly
  }

  function AddonMonthly(addon: Addon): nat {
    match addon
    case AdditionalDomain => 100
    case ExtraMember => 200
  }

  function AddonDetails(addon: Addon, describe: Addon -> string, cfg: Config): Details {
    Details(ProductName(AddonName(addon), cfg.env), describe(addon), AddonTag(AddonCode(addon), cfg.env))
  }

  /** Add-ons cost the same number in every currency. */
  function AddonTerms(addon: Addon): Terms {
    var price := UnitAmount(AddonMonthly(addon));
    Terms(AddonKind(addon), price, map[GBP := price, EUR := price], Licensed)
  }

  function UpsertAddon(w: World, addon: Addon, describe: Addon -> string, cfg: Config, forced: bool): Step<Offer> {
    EnsureOffer(w, AddonDetails(addon, describe, cfg), cfg.version, [AddonTerms(addon)], forced)
  }

  lemma ProductNameInjective(a: string, b: string, env: string)
    requires ProductName(a, env) == ProductName(b, env)
    ensures a == b
  {
    assert |ProductName(a, env)| == |a| + |" ("| + |env| + |")"|;
    assert |a| == |b|;
    assert ProductName(a, env)[..|a|] == a && ProductName(b, env)[..|b|] == b;
  }

  /** Letters that tell the product names apart: the one after "ByteSend " and, where that is shared, a later one. */
  lemma PlanNamesDiffer(describe: Plan -> string)
    ensures var rows := PlanTable(describe);
            forall i, j :: 0 <= i < j < |rows| ==> rows[i].name != rows[j].name
    ensures var rows := PlanTable(describe);
            forall i :: 0 <= i < |rows| ==> |rows[i].name| < |AddonName(AdditionalDomain)| == |AddonName(ExtraMember)|
  {
    var rows := PlanTable(describe);
    assert rows[0].name[9] == 'F' && rows[1].name[9] == 'S' && rows[2].name[9] == 'L' && rows[3].name[9] == 'P';
    assert rows[4].name[9] == 'S' && rows[5].name[9] == 'L';
    assert rows[1].name[10] == 't' && rows[4].name[10] == 'c';
    assert |rows[2].name| == 13 && |rows[5].name| == 17;
  }

  lemma PlanTableFits(cfg: Config, describe: Plan -> string)
    ensures NamesDiffer(PlanTable(describe), cfg)
  {
    PlanNamesDiffer(describe);
    var rows := PlanTable(describe);
    forall i, j | 0 <= i < j < |rows|
      ensures DetailsFor(rows[i], cfg).name != DetailsFor(rows[j], cfg).name
    {
      if DetailsFor(rows[i], cfg).name == DetailsFor(rows[j], cfg).name {
        ProductNameInjective(rows[i].name, rows[j].name, cfg.env);
      }
    }
  }

  lemma AddonNamesDiffer(row: PlanRow, addon: Addon, describe: Plan -> string, describeAddon: Addon -> string,
          cfg: Config)
    requires row in PlanTable(describe)
    ensures DetailsFor(row, cfg).name != AddonDetails(addon, describeAddon, cfg).name
    ensures AddonDetails(AdditionalDomain, describeAddon, cfg).name !=
              AddonDetails(ExtraMember, describeAddon, cfg).name
  {
    PlanNamesDiffer(describe);
    if DetailsFor(row, cfg).name == AddonDetails(addon, describeAddon, cfg).name {
      ProductNameInjective(row.name, AddonName(addon), cfg.env);
    }
    var domain, member := AddonName(AdditionalDomain), AddonName(ExtraMember);
    assert domain[9] == 'A' && member[9] == 'E';
    if AddonDetails(AdditionalDomain, describeAddon, cfg).name == AddonDetails(ExtraMember, describeAddon, cfg).name {
      ProductNameInjective(domain, member, cfg.env);
    }
  }

  /******* The settings keys *******/

  datatype MeterKind = MarketingMeter | TransactionalMeter | MemberMeter

  /** The places of the settings table the seed writes. */
  datatype Slot =
    | ProductSlot(plan: Plan)
    | PriceSlot(plan: Plan, kind: Kind)
    | AddonProductSlot(addon: Addon)
    | AddonPriceSlot(addon: Addon)
    | MeterSlot(meter: MeterKind)
    | EndpointSlot
    | SecretSlot

  /** The plans and price types the key table has price keys for (LIFETIME's one-time price is never synced). */
  predicate HasPriceKey(plan: Plan, kind: Kind) {
    plan in {HOBBY, LITE, BASIC, SCALE} && kind in {Monthly, MarketingUsage, TransactionalUsage}
  }

  predicate InTable(slot: Slot) {
    slot.PriceSlot? ==> HasPriceKey(slot.plan, slot.kind)
  }

  function PlanKey(plan: Plan): string {
    match plan
    case FREE => "free"
    case HOBBY => "hobby"
    case LITE => "lite"
    case BASIC => "basic"
    case SCALE => "scale"
    case LIFETIME => "lifetime"
  }

  function PriceSuffix(kind: Kind): string {
    match kind
    case MarketingUsage => ".marketing_usage"
    case TransactionalUsage => ".transactional_usage"
    case _ => ".monthly"
  }

  function KeyText(slot: Slot): string {
    match slot
    case ProductSlot(plan) => "stripe.product." + PlanKey(plan)
    case PriceSlot(plan, kind) => "stripe.price." + PlanKey(plan) + PriceSuffix(kind)
    case AddonProductSlot(AdditionalDomain) => "stripe.product.addon.domain"
    case AddonProductSlot(ExtraMember) => "stripe.product.addon.member"
    case AddonPriceSlot(AdditionalDomain) => "stripe.price.addon.domain_monthly"
    case AddonPriceSlot(ExtraMember) => "stripe.price.addon.member_monthly"
    case MeterSlot(MarketingMeter) => "stripe.meter.marketing"
    case MeterSlot(TransactionalMeter) => "stripe.meter.transactional"
    case MeterSlot(MemberMeter) => "stripe.meter.extra_member"
    case EndpointSlot => "stripe.webhook.endpoint_id"
    case SecretSlot => "stripe.webhook.secret"
  }

  /** The plan a key names from a position on, told by its first and third letters; None for an add-on key. */
  function ReadPlan(text: string, at: nat): Option<Plan> {
    if |text| < at + 3 then None
    else if text[at] == 'f' then Some(FREE)
    else if text[at] == 'h' then Some(HOBBY)
    else if text[at] == 'b' then Some(BASIC)
    else if text[at] == 's' then Some(SCALE)
    else if text[at] == 'l' then Some(if text[at + 2] == 't' then LITE else LIFETIME)
    else None
  }

  function ReadKind(text: string, at: nat): Kind {
    if |text| < at + 3 then OtherKind
    else if text[at + 1] == 't' then TransactionalUsage
    else if text[at + 2] == 'a' then MarketingUsage
    else Monthly
  }

  /** Reads a slot back from its key. */
  function SlotOf(text: string): Option<Slot> {
    if |text| < 15 then None
    else if text[7] == 'w' then Some(if text[15..] != [] && text[15] == 'e' then EndpointSlot else SecretSlot)
    else if text[7] == 'm' then
      Some(MeterSlot(if text[13] == 'm' then MarketingMeter
                     else if text[13] == 't' then TransactionalMeter
                     else MemberMeter))
    else if text[9] == 'o' then
      match ReadPlan(text, 15)
      case Some(plan) => Some(ProductSlot(plan))
      case None =>
        Some(AddonProductSlot(if |text| > 21 && text[21] == 'd' then AdditionalDomain else ExtraMember))
    else
      match ReadPlan(text, 13)
      case Some(plan) => Some(PriceSlot(plan, ReadKind(text, 13 + |PlanKey(plan)|)))
      case None =>
        Some(AddonPriceSlot(if |text| > 19 && text[19] == 'd' then AdditionalDomain else ExtraMember))
  }

  lemma SlotOfProductKey(plan: Plan)
    ensures SlotOf(KeyText(ProductSlot(plan))) == Some(ProductSlot(plan))
  {
    var text := KeyText(ProductSlot(plan));
    assert text[7] == 'p' && text[9] == 'o';
    assert text[15] == PlanKey(plan)[0] && text[17] == PlanKey(plan)[2];
  }

  lemma SlotOfPriceKey(plan: Plan, kind: Kind)
    requires HasPriceKey(plan, kind)
    ensures SlotOf(KeyText(PriceSlot(plan, kind))) == Some(PriceSlot(plan, kind))
  {
    var head, name, tail := "stripe.price.", PlanKey(plan), PriceSuffix(kind);
    var text := KeyText(PriceSlot(plan, kind));
    assert text == head + (name + tail);
    assert text[7] == 'p' && text[9] == 'i';
    assert text[13] == name[0] && text[15] == name[2];
    assert text[13 + |name| + 1] == tail[1] && text[13 + |name| + 2] == tail[2];
  }

  /** The key table is injective: a key can be read back to the one slot it belongs to. */
  lemma SlotOfKey(slot: Slot)
    requires InTable(slot)
    ensures SlotOf(KeyText(slot)) == Some(slot)
  {
    match slot
    case ProductSlot(plan) => SlotOfProductKey(plan);
    case PriceSlot(plan, kind) => SlotOfPriceKey(plan, kind);
    case AddonProductSlot(_) => SlotOfAddonKey(slot);
    case AddonPriceSlot(_) => SlotOfAddonKey(slot);
    case MeterSlot(_) => SlotOfMeterKey(slot);
    case _ => SlotOfEndpointKey(slot);
  }

  lemma SlotOfAddonKey(slot: Slot)
    requires slot.AddonProductSlot? || slot.AddonPriceSlot?
    ensures SlotOf(KeyText(slot)) == Some(slot)
  {
    var text := KeyText(slot);
    assert text[7] == 'p';
    match slot
    case AddonProductSlot(AdditionalDomain) => assert text[9] == 'o' && text[15] == 'a' && text[21] == 'd';
    case AddonProductSlot(ExtraMember) => assert text[9] == 'o' && text[15] == 'a' && text[21] == 'm';
    case AddonPriceSlot(AdditionalDomain) => assert text[9] == 'i' && text[13] == 'a' && text[19] == 'd';
    case AddonPriceSlot(ExtraMember) => assert text[9] == 'i' && text[13] == 'a' && text[19] == 'm';
  }

  lemma SlotOfMeterKey(slot: Slot)
    requires slot.MeterSlot?
    ensures SlotOf(KeyText(slot)) == Some(slot)
  {
    var text := KeyText(slot);
    assert text[7] == 'm';
    match slot
    case MeterSlot(MarketingMeter) => assert text[13] == 'm';
    case MeterSlot(TransactionalMeter) => assert text[13] == 't';
    case MeterSlot(MemberMeter) => assert text[13] == 'e';
  }

  lemma SlotOfEndpointKey(slot: Slot)
    requires slot.EndpointSlot? || slot.SecretSlot?
    ensures SlotOf(KeyText(slot)) == Some(slot)
  {
    var text := KeyText(slot);
    assert text[7] == 'w' && |text| > 15;
    assert text[15] == if slot.EndpointSlot? then 'e' else 's';
  }

  lemma KeysInjective(a: Slot, b: Slot)
    requires InTable(a) && InTable(b) && KeyText(a) == KeyText(b)
    ensures a == b
  {
    SlotOfKey(a);
    SlotOfKey(b);
  }

  /******* The settings a sync turns into *******/

  datatype Value =
    | ProductId(id: nat)
    | PriceId(id: nat)
    | MeterId(id: nat)
    | EndpointId(text: string)
    | Secret(text: string)

  type Settings = map<string, Value>

  type Write = (Slot, Value)

  /** The assignments out[key] = value, in order. */
  function WriteAll(out: Settings, writes: seq<Write>): Settings {
    if writes == [] then out
    else
      var last := writes[|writes| - 1];
      WriteAll(out, writes[..|writes| - 1])[KeyText(last.0) := last.1]
  }

  function PriceWrite(mapping: Mapping, kind: Kind): seq<Write> {
    if kind in mapping.prices && HasPriceKey(mapping.plan, kind)
    then [(PriceSlot(mapping.plan, kind), PriceId(mapping.prices[kind]))]
    else []
  }

  function MappingWrites(mapping: Mapping): seq<Write> {
    [(ProductSlot(mapping.plan), ProductId(mapping.product))] +
    PriceWrite(mapping, Monthly) + PriceWrite(mapping, MarketingUsage) + PriceWrite(mapping, TransactionalUsage)
  }

  function MappingsWrites(mappings: seq<Mapping>): seq<Write> {
    if mappings == [] then []
    else MappingsWrites(mappings[..|mappings| - 1]) + MappingWrites(mappings[|mappings| - 1])
  }

  function AddonWrites(addon: Addon, product: Option<nat>, price: Option<nat>): seq<Write> {
    (if product.Some? then [(AddonProductSlot(addon), ProductId(product.value))] else []) +
    (if price.Some? then [(AddonPriceSlot(addon), PriceId(price.value))] else [])
  }

  function MeterWrites(meters: Option<MeterIds>): seq<Write> {
    match meters
    case None => []
    case Some(ids) =>
      [(MeterSlot(MarketingMeter), MeterId(ids.marketing)),
       (MeterSlot(TransactionalMeter), MeterId(ids.transactional)),
       (MeterSlot(MemberMeter), MeterId(ids.extraMember))]
  }

  function DbWrites(
      result: SyncResult, domainProduct: Option<nat>, domainPrice: Option<nat>,
      memberProduct: Option<nat>, memberPrice: Option<nat>): seq<Write>
  {
    MappingsWrites(result.products) +
    AddonWrites(AdditionalDomain, domainProduct, domainPrice) +
    AddonWrites(ExtraMember, memberProduct, memberPrice) +
    MeterWrites(result.meters)
  }

  function DbConfig(
      result: SyncResult, domainProduct: Option<nat>, domainPrice: Option<nat>,
      memberProduct: Option<nat>, memberPrice: Option<nat>): Settings
  {
    WriteAll(map[], DbWrites(result, domainProduct, domainPrice, memberProduct, memberPrice))
  }

  /** Reads a slot of the settings. */
  function Read(settings: Settings, slot: Slot): Option<Value> {
    if KeyText(slot) in settings then Some(settings[KeyText(slot)]) else None
  }

  /** The value the last write to a slot carries. */
  function LastWrite(writes: seq<Write>, slot: Slot): Option<Value> {
    if writes == [] then None
    else
      var last := writes[|writes| - 1];
      if last.0 == slot then Some(last.1) else LastWrite(writes[..|writes| - 1], slot)
  }

  ghost predicate AllInTable(writes: seq<Write>) {
    forall w :: w in writes ==> InTable(w.0)
  }

  /** Because keys are injective, reading a slot back gives its own last write, whatever else was written. */
  lemma {:induction false} WriteAllReads(out: Settings, writes: seq<Write>, slot: Slot)
    requires InTable(slot) && AllInTable(writes)
    ensures Read(WriteAll(out, writes), slot) ==
            if LastWrite(writes, slot).Some? then LastWrite(writes, slot) else Read(out, slot)
    decreases writes
  {
    if writes != [] {
      var front, last := writes[..|writes| - 1], writes[|writes| - 1];
      WriteAllReads(out, front, slot);
      assert InTable(last.0);
      if KeyText(last.0) == KeyText(slot) {
        KeysInjective(last.0, slot);
      }
    }
  }

  lemma {:induction false} LastWriteConcat(a: seq<Write>, b: seq<Write>, slot: Slot)
    ensures LastWrite(a + b, slot) == if LastWrite(b, slot).Some? then LastWrite(b, slot) else LastWrite(a, slot)
    decreases b
  {
    if b == [] {
      assert a + b == a;
    } else {
      assert (a + b)[..|a + b| - 1] == a + b[..|b| - 1];
      LastWriteConcat(a, b[..|b| - 1], slot);
    }
  }

  lemma LastMappingWrite(mapping: Mapping, slot: Slot)
    requires InTable(slot)
    ensures LastWrite(MappingWrites(mapping), slot) ==
            if slot == ProductSlot(mapping.plan) then Some(ProductId(mapping.product))
            else if slot.PriceSlot? && slot.plan == mapping.plan && slot.kind in mapping.prices
            then Some(PriceId(mapping.prices[slot.kind]))
            else None
    ensures AllInTable(MappingWrites(mapping))
  {
    var w0 := [(ProductSlot(mapping.plan), ProductId(mapping.product))];
    var w1, w2 := PriceWrite(mapping, Monthly), PriceWrite(mapping, MarketingUsage);
    var w3 := PriceWrite(mapping, TransactionalUsage);
    LastWriteConcat(w0, w1, slot);
    LastWriteConcat(w0 + w1, w2, slot);
    LastWriteConcat(w0 + w1 + w2, w3, slot);
  }

  ghost predicate OnePerPlan(mappings: seq<Mapping>) {
    forall a, b :: a in mappings && b in mappings && a.plan == b.plan ==> a == b
  }

  /** With one mapping per plan, each plan's slots end up with that plan's ids. */
  lemma {:induction false} LastMappingsWrite(mappings: seq<Mapping>, mapping: Mapping, slot: Slot)
    requires InTable(slot) && (slot.ProductSlot? || slot.PriceSlot?) && slot.plan == mapping.plan
    requires mapping in mappings && OnePerPlan(mappings)
    ensures LastWrite(MappingsWrites(mappings), slot) == LastWrite(MappingWrites(mapping), slot)
    decreases mappings
  {
    var front, last := mappings[..|mappings| - 1], mappings[|mappings| - 1];
    LastWriteConcat(MappingsWrites(front), MappingWrites(last), slot);
    LastMappingWrite(last, slot);
    LastMappingWrite(mapping, slot);
    if last.plan == mapping.plan {
      assert last == mapping;
      if LastWrite(MappingWrites(mapping), slot) == None {
        NoWriteLeft(front, mapping, slot);
      }
    } else {
      assert mapping in front;
      LastMappingsWrite(front, mapping, slot);
    }
  }

  lemma {:induction false} NoWriteLeft(mappings: seq<Mapping>, mapping: Mapping, slot: Slot)
    requires InTable(slot) && (slot.ProductSlot? || slot.PriceSlot?) && slot.plan == mapping.plan
    requires LastWrite(MappingWrites(mapping), slot) == None
    requires forall m :: m in mappings && m.plan == mapping.plan ==> m == mapping
    ensures LastWrite(MappingsWrites(mappings), slot) == None
    decreases mappings
  {
    if mappings != [] {
      var front, last := mappings[..|mappings| - 1], mappings[|mappings| - 1];
      NoWriteLeft(front, mapping, slot);
      LastWriteConcat(MappingsWrites(front), MappingWrites(last), slot);
      LastMappingWrite(last, slot);
      LastMappingWrite(mapping, slot);
    }
  }

  /******* The whole script *******/

  datatype Webhook = Webhook(endpoint: string, secret: string)

  datatype SeedOutcome = SeedOutcome(world: World, settings: Settings, seeded: bool)

  /**
   The script stops without writing anything when the sync reports an error or an add-on call throws.
   Otherwise it upserts every key; registering a webhook endpoint for the first time adds two more.
   */
  function Seed(
      w: World, settings: Settings, rows: seq<PlanRow>, describeAddon: Addon -> string, cfg: Config,
      webhook: Option<Webhook>): SeedOutcome
  {
    var sync := Sync(w, rows, cfg, true);
    if !sync.result.success then SeedOutcome(sync.world, settings, false)
    else
      match UpsertAddon(sync.world, AdditionalDomain, describeAddon, cfg, true)
      case Threw(w1) => SeedOutcome(w1, settings, false)
      case Done(w1, domain) =>
        match UpsertAddon(w1, ExtraMember, describeAddon, cfg, true)
        case Threw(w2) => SeedOutcome(w2, settings, false)
        case Done(w2, member) =>
          SeedOutcome(w2, FinalSettings(settings, sync.result, domain, member, webhook), true)
  }

  /** Every key of the config is upserted, then the webhook's two. */
  function FinalSettings(
      settings: Settings, result: SyncResult, domain: Offer, member: Offer, webhook: Option<Webhook>): Settings
  {
    var config := DbConfig(result, Some(domain.product), AddonPriceId(domain, DomainMonthly),
                           Some(member.product), AddonPriceId(member, MemberMonthly));
    WriteAll(settings + config, WebhookWrites(webhook))
  }

  function AddonPriceId(offer: Offer, kind: Kind): Option<nat> {
    if kind in offer.prices then Some(offer.prices[kind]) else None
  }

  function WebhookWrites(webhook: Option<Webhook>): seq<Write> {
    match webhook
    case None => []
    case Some(hook) => [(EndpointSlot, EndpointId(hook.endpoint)), (SecretSlot, Secret(hook.secret))]
  }

  ghost predicate MapsRow(r: Remote, m: Mapping, row: PlanRow, cfg: Config) {
    !row.legacy && Settled(r, row, cfg) && m == MappingOf(r, row, cfg)
  }

  lemma {:induction false} MappingsHold(r: Remote, rows: seq<PlanRow>, cfg: Config, row: PlanRow)
    requires AllSettled(r, rows, cfg) && row in rows && !row.legacy
    ensures MappingOf(r, row, cfg) in Mappings(r, rows, cfg)
    decreases rows
  {
    assert forall other :: other in rows[1..] ==> other in rows;
    if row != rows[0] {
      assert row in rows[1..];
      MappingsHold(r, rows[1..], cfg, row);
    }
  }

  lemma {:induction false} MappingsOnly(r: Remote, rows: seq<PlanRow>, cfg: Config, m: Mapping) returns (i: nat)
    requires AllSettled(r, rows, cfg) && m in Mappings(r, rows, cfg)
    ensures i < |rows| && MapsRow(r, m, rows[i], cfg)
    decreases rows
  {
    assert forall row :: row in rows[1..] ==> row in rows;
    if !rows[0].legacy && m == MappingOf(r, rows[0], cfg) {
      i := 0;
    } else {
      assert m in Mappings(r, rows[1..], cfg);
      i := MappingsOnly(r, rows[1..], cfg, m);
      i := i + 1;
    }
  }

  /** Rows of different plans have one mapping per plan. */
  lemma MappingsOnePerPlan(r: Remote, rows: seq<PlanRow>, cfg: Config)
    requires AllSettled(r, rows, cfg) && forall i, j :: 0 <= i < j < |rows| ==> rows[i].plan != rows[j].plan
    ensures OnePerPlan(Mappings(r, rows, cfg))
  {
    forall a, b | a in Mappings(r, rows, cfg) && b in Mappings(r, rows, cfg) && a.plan == b.plan
      ensures a == b
    {
      var i := MappingsOnly(r, rows, cfg, a);
      var j := MappingsOnly(r, rows, cfg, b);
      assert rows[i].plan == rows[j].plan;
      assert i == j;
    }
  }

  lemma PlansDiffer(describe: Plan -> string)
    ensures var rows := PlanTable(describe); forall i, j :: 0 <= i < j < |rows| ==> rows[i].plan != rows[j].plan
  {
  }

  lemma SoldPlansHaveKeys(describe: Plan -> string, row: PlanRow, kind: Kind)
    requires row in PlanTable(describe) && !row.legacy && kind in NeededKinds(row)
    ensures HasPriceKey(row.plan, kind)
  {
  }

  lemma TableMappings(r: Remote, describe: Plan -> string, cfg: Config)
    requires AllSettled(r, PlanTable(describe), cfg)
    ensures OnePerPlan(Mappings(r, PlanTable(describe), cfg))
  {
    PlansDiffer(describe);
    MappingsOnePerPlan(r, PlanTable(describe), cfg);
  }

  ghost predicate AddonSettled(r: Remote, addon: Addon, describe: Addon -> string, cfg: Config) {
    SettledOffer(r, AddonDetails(addon, describe, cfg), {AddonKind(addon)}, cfg.version)
  }

  function AddonOffer(r: Remote, addon: Addon, describe: Addon -> string, cfg: Config): Offer
    requires AddonSettled(r, addon, describe, cfg)
  {
    OfferOf(r, AddonDetails(addon, describe, cfg), {AddonKind(addon)}, cfg.version)
  }

  /** No more active products of the name than one search shows. */
  predicate FitsOnePage(r: Remote, name: string) {
    |Matches(r.products, name)| <= 100
  }

  predicate AddonFits(r: Remote, addon: Addon, cfg: Config) {
    FitsOnePage(r, ProductName(AddonName(addon), cfg.env))
  }

  /** What a forced add-on upsert settles. */
  lemma UpsertAddonSettlesWhen(w: World, addon: Addon, describe: Addon -> string, cfg: Config)
    requires w.faults == [] && WellFormed(w.remote)
    ensures var s := UpsertAddon(w, addon, describe, cfg, true);
            && s.Done? && s.world.faults == [] && WellFormed(s.world.remote)
            && s.world.remote.meters == w.remote.meters
            && (AddonSettled(s.world.remote, addon, describe, cfg) <==> AddonFits(w.remote, addon, cfg))
            && (AddonSettled(s.world.remote, addon, describe, cfg) ==>
                  s.value == AddonOffer(s.world.remote, addon, describe, cfg))
            && s.value.prices.Keys == {AddonKind(addon)}
  {
    var details, terms := AddonDetails(addon, describe, cfg), [AddonTerms(addon)];
    assert KindsOf(terms) == {AddonKind(addon)} by {
      assert terms[0] in terms;
    }
    EnsureOfferSettlesWhen(w, details, cfg.version, terms, true);
    OfferKinds(w, details, cfg.version, terms);
  }

  lemma OfferKinds(w: World, details: Details, version: string, terms: seq<Terms>)
    requires w.faults == [] && WellFormed(w.remote)
    ensures EnsureOffer(w, details, version, terms, true).Done?
    ensures EnsureOffer(w, details, version, terms, true).value.prices.Keys == KindsOf(terms)
  {
    EnsureProductCount(w, details, true);
    var product := EnsureProduct(w, details, true);
    EnsurePricesCounts(product.world, product.value, version, terms);
  }

  /** What it leaves alone. */
  lemma UpsertAddonFrame(w: World, addon: Addon, describe: Addon -> string, cfg: Config, other: string)
    requires w.faults == [] && WellFormed(w.remote) && other != AddonDetails(addon, describe, cfg).name
    ensures SameOffers(w.remote, UpsertAddon(w, addon, describe, cfg, true).world.remote, other)
  {
    EnsureOfferFrame(w, AddonDetails(addon, describe, cfg), cfg.version, [AddonTerms(addon)], true, other);
  }

  /** The table is as settled in one account as in the other, with the same ids. */
  ghost predicate SameTable(before: Remote, after: Remote, rows: seq<PlanRow>, cfg: Config) {
    forall row :: row in rows && !row.legacy ==>
      && (Settled(after, row, cfg) <==> Settled(before, row, cfg))
      && (Settled(before, row, cfg) ==> MappingOf(after, row, cfg) == MappingOf(before, row, cfg))
  }

  lemma UpsertAddonKeepsTable(
      w: World, addon: Addon, describe: Plan -> string, describeAddon: Addon -> string, cfg: Config)
    requires w.faults == [] && WellFormed(w.remote)
    ensures SameTable(w.remote, UpsertAddon(w, addon, describeAddon, cfg, true).world.remote, PlanTable(describe), cfg)
  {
    var r := UpsertAddon(w, addon, describeAddon, cfg, true).world.remote;
    forall row | row in PlanTable(describe) && !row.legacy
      ensures Settled(r, row, cfg) <==> Settled(w.remote, row, cfg)
      ensures Settled(w.remote, row, cfg) ==> MappingOf(r, row, cfg) == MappingOf(w.remote, row, cfg)
    {
      AddonNamesDiffer(row, addon, describe, describeAddon, cfg);
      UpsertAddonFrame(w, addon, describeAddon, cfg, DetailsFor(row, cfg).name);
      SameOffersMean(w.remote, r, DetailsFor(row, cfg), NeededKinds(row), cfg.version, true);
    }
  }

  /**
   Both add-on upserts, in any account: each add-on ends up settled, and reported with its ids, exactly when its
   products fit one page before, and every plan stays as it is.
   */
  lemma AddonsSettle(
      w: World, describe: Plan -> string, describeAddon: Addon -> string, cfg: Config)
    requires w.faults == [] && WellFormed(w.remote)
    ensures var d := UpsertAddon(w, AdditionalDomain, describeAddon, cfg, true);
            d.Done? &&
            var m := UpsertAddon(d.world, ExtraMember, describeAddon, cfg, true);
            m.Done? &&
            var r := m.world.remote;
            && r.meters == w.remote.meters && SameTable(w.remote, r, PlanTable(describe), cfg)
            && (AddonSettled(r, AdditionalDomain, describeAddon, cfg) <==> AddonFits(w.remote, AdditionalDomain, cfg))
            && (AddonSettled(r, ExtraMember, describeAddon, cfg) <==> AddonFits(w.remote, ExtraMember, cfg))
            && (AddonSettled(r, AdditionalDomain, describeAddon, cfg) ==>
                  d.value == AddonOffer(r, AdditionalDomain, describeAddon, cfg))
            && (AddonSettled(r, ExtraMember, describeAddon, cfg) ==>
                  m.value == AddonOffer(r, ExtraMember, describeAddon, cfg))
            && d.value.prices.Keys == {DomainMonthly} && m.value.prices.Keys == {MemberMonthly}
  {
    UpsertAddonSettlesWhen(w, AdditionalDomain, describeAddon, cfg);
    UpsertAddonKeepsTable(w, AdditionalDomain, describe, describeAddon, cfg);
    var w1 := UpsertAddon(w, AdditionalDomain, describeAddon, cfg, true).world;
    UpsertAddonSettlesWhen(w1, ExtraMember, describeAddon, cfg);
    UpsertAddonKeepsTable(w1, ExtraMember, describe, describeAddon, cfg);
    AddonNamesDiffer(PlanTable(describe)[0], AdditionalDomain, describe, describeAddon, cfg);
    var domain := AddonDetails(AdditionalDomain, describeAddon, cfg);
    var member := AddonDetails(ExtraMember, describeAddon, cfg);
    UpsertAddonFrame(w, AdditionalDomain, describeAddon, cfg, member.name);
    UpsertAddonFrame(w1, ExtraMember, describeAddon, cfg, domain.name);
    var r := UpsertAddon(w1, ExtraMember, describeAddon, cfg, true).world.remote;
    SameOffersMean(w1.remote, r, domain, {DomainMonthly}, cfg.version, true);
  }

  /** The settings hold a plan's only active product and that product's only current price per type. */
  ghost predicate PlanMatches(settings: Settings, r: Remote, row: PlanRow, cfg: Config) {
    Settled(r, row, cfg) &&
    var mapping := MappingOf(r, row, cfg);
    && Read(settings, ProductSlot(row.plan)) == Some(ProductId(mapping.product))
    && (forall kind :: kind in NeededKinds(row) ==>
          Read(settings, PriceSlot(row.plan, kind)) == Some(PriceId(mapping.prices[kind])))
  }

  ghost predicate AddonMatches(settings: Settings, r: Remote, addon: Addon, describe: Addon -> string, cfg: Config) {
    AddonSettled(r, addon, describe, cfg) &&
    var offer := AddonOffer(r, addon, describe, cfg);
    && Read(settings, AddonProductSlot(addon)) == Some(ProductId(offer.product))
    && Read(settings, AddonPriceSlot(addon)) == Some(PriceId(offer.prices[AddonKind(addon)]))
  }

  /** What the settings hold in one slot after the script's writes. */
  function FinalWrite(
      result: SyncResult, domain: Offer, member: Offer, webhook: Option<Webhook>, slot: Slot): Option<Value>
  {
    var writes := DbWrites(result, Some(domain.product), AddonPriceId(domain, DomainMonthly),
                           Some(member.product), AddonPriceId(member, MemberMonthly));
    if LastWrite(WebhookWrites(webhook), slot).Some? then LastWrite(WebhookWrites(webhook), slot)
    else LastWrite(writes, slot)
  }

  lemma {:induction false} MappingsWritesInTable(mappings: seq<Mapping>)
    ensures AllInTable(MappingsWrites(mappings))
  {
    if mappings != [] {
      MappingsWritesInTable(mappings[..|mappings| - 1]);
      LastMappingWrite(mappings[|mappings| - 1], EndpointSlot);
    }
  }

  /** Merging a batch of writes over stored settings, then writing more. */
  lemma ReadBatches(settings: Settings, writes: seq<Write>, later: seq<Write>, slot: Slot)
    requires InTable(slot) && AllInTable(writes) && AllInTable(later)
    ensures Read(WriteAll(settings + WriteAll(map[], writes), later), slot) ==
            if LastWrite(later, slot).Some? then LastWrite(later, slot)
            else if LastWrite(writes, slot).Some? then LastWrite(writes, slot)
            else Read(settings, slot)
  {
    var config := WriteAll(map[], writes);
    WriteAllReads(map[], writes, slot);
    WriteAllReads(settings + config, later, slot);
  }

  /** Reading any slot after the script gives the script's last write to it, else what was stored before. */
  lemma SettingsRead(
      settings: Settings, result: SyncResult, domain: Offer, member: Offer, webhook: Option<Webhook>, slot: Slot)
    requires InTable(slot)
    ensures Read(FinalSettings(settings, result, domain, member, webhook), slot) ==
            if FinalWrite(result, domain, member, webhook, slot).Some?
            then FinalWrite(result, domain, member, webhook, slot)
            else Read(settings, slot)
  {
    var writes := DbWrites(result, Some(domain.product), AddonPriceId(domain, DomainMonthly),
                           Some(member.product), AddonPriceId(member, MemberMonthly));
    MappingsWritesInTable(result.products);
    ReadBatches(settings, writes, WebhookWrites(webhook), slot);
  }

  lemma LastPairWrite(a: Write, b: Write, slot: Slot)
    ensures LastWrite([a], slot) == if a.0 == slot then Some(a.1) else None
    ensures LastWrite([a, b], slot) == if b.0 == slot then Some(b.1) else LastWrite([a], slot)
  {
    assert [a, b][..1] == [a];
    assert [a][..0] == [];
  }

  lemma LastAddonWrite(addon: Addon, product: nat, price: nat, slot: Slot)
    ensures LastWrite(AddonWrites(addon, Some(product), Some(price)), slot) ==
            if slot == AddonProductSlot(addon) then Some(ProductId(product))
            else if slot == AddonPriceSlot(addon) then Some(PriceId(price))
            else None
  {
    var a, b := (AddonProductSlot(addon), ProductId(product)), (AddonPriceSlot(addon), PriceId(price));
    assert AddonWrites(addon, Some(product), Some(price)) == [a, b];
    LastPairWrite(a, b, slot);
  }

  lemma LastMeterWrite(meters: Option<MeterIds>, slot: Slot)
    ensures LastWrite(MeterWrites(meters), slot) ==
            if slot.MeterSlot? && meters.Some? then Some(MeterId(MeterOf(meters.value, slot.meter))) else None
  {
    if meters.Some? {
      var all := MeterWrites(meters);
      assert all[..2] == [all[0], all[1]];
      LastPairWrite(all[0], all[1], slot);
    }
  }

  lemma LastWebhookWrite(webhook: Option<Webhook>, slot: Slot)
    requires slot != EndpointSlot && slot != SecretSlot
    ensures LastWrite(WebhookWrites(webhook), slot) == None
  {
    if webhook.Some? {
      LastPairWrite(WebhookWrites(webhook)[0], WebhookWrites(webhook)[1], slot);
    }
  }

  function MeterOf(ids: MeterIds, meter: MeterKind): nat {
    match meter
    case MarketingMeter => ids.marketing
    case TransactionalMeter => ids.transactional
    case MemberMeter => ids.extraMember
  }

  /** What the script itself writes to a slot: no later write clobbers an earlier one. */
  function OwnWrite(result: SyncResult, domain: Offer, member: Offer, slot: Slot): Option<Value>
    requires DomainMonthly in domain.prices && MemberMonthly in member.prices
  {
    match slot
    case AddonProductSlot(AdditionalDomain) => Some(ProductId(domain.product))
    case AddonProductSlot(ExtraMember) => Some(ProductId(member.product))
    case AddonPriceSlot(AdditionalDomain) => Some(PriceId(domain.prices[DomainMonthly]))
    case AddonPriceSlot(ExtraMember) => Some(PriceId(member.prices[MemberMonthly]))
    case MeterSlot(meter) =>
      if result.meters.Some? then Some(MeterId(MeterOf(result.meters.value, meter)))
      else LastWrite(MappingsWrites(result.products), slot)
    case _ => LastWrite(MappingsWrites(result.products), slot)
  }

  lemma FinalWrites(
      result: SyncResult, domain: Offer, member: Offer, webhook: Option<Webhook>, slot: Slot)
    requires InTable(slot) && DomainMonthly in domain.prices && MemberMonthly in member.prices
    requires slot != EndpointSlot && slot != SecretSlot
    ensures FinalWrite(result, domain, member, webhook, slot) == OwnWrite(result, domain, member, slot)
  {
    LastWebhookWrite(webhook, slot);
    var w0 := MappingsWrites(result.products);
    var w1 := AddonWrites(AdditionalDomain, Some(domain.product), Some(domain.prices[DomainMonthly]));
    var w2 := AddonWrites(ExtraMember, Some(member.product), Some(member.prices[MemberMonthly]));
    var w3 := MeterWrites(result.meters);
    LastAddonWrite(AdditionalDomain, domain.product, domain.prices[DomainMonthly], slot);
    LastAddonWrite(ExtraMember, member.product, member.prices[MemberMonthly], slot);
    LastMeterWrite(result.meters, slot);
    LastWriteConcat(w0, w1, slot);
    LastWriteConcat(w0 + w1, w2, slot);
    LastWriteConcat(w0 + w1 + w2, w3, slot);
  }

  /** A slot one plan's mapping writes holds that mapping's value in the end. */
  lemma PlanSlotRead(
      settings: Settings, result: SyncResult, domain: Offer, member: Offer, webhook: Option<Webhook>,
      mapping: Mapping, slot: Slot)
    requires InTable(slot) && (slot.ProductSlot? || slot.PriceSlot?) && slot.plan == mapping.plan
    requires DomainMonthly in domain.prices && MemberMonthly in member.prices
    requires OnePerPlan(result.products) && mapping in result.products
    requires LastWrite(MappingWrites(mapping), slot).Some?
    ensures Read(FinalSettings(settings, result, domain, member, webhook), slot) ==
              LastWrite(MappingWrites(mapping), slot)
  {
    SettingsRead(settings, result, domain, member, webhook, slot);
    FinalWrites(result, domain, member, webhook, slot);
    LastMappingsWrite(result.products, mapping, slot);
  }

  lemma PlanSlotsRead(
      settings: Settings, result: SyncResult, domain: Offer, member: Offer, webhook: Option<Webhook>, mapping: Mapping)
    requires DomainMonthly in domain.prices && MemberMonthly in member.prices
    requires OnePerPlan(result.products) && mapping in result.products
    ensures var after := FinalSettings(settings, result, domain, member, webhook);
            && Read(after, ProductSlot(mapping.plan)) == Some(ProductId(mapping.product))
            && forall kind :: kind in mapping.prices && HasPriceKey(mapping.plan, kind) ==>
                 Read(after, PriceSlot(mapping.plan, kind)) == Some(PriceId(mapping.prices[kind]))
  {
    LastMappingWrite(mapping, ProductSlot(mapping.plan));
    PlanSlotRead(settings, result, domain, member, webhook, mapping, ProductSlot(mapping.plan));
    forall kind | kind in mapping.prices && HasPriceKey(mapping.plan, kind)
      ensures Read(FinalSettings(settings, result, domain, member, webhook), PriceSlot(mapping.plan, kind)) ==
              Some(PriceId(mapping.prices[kind]))
    {
      LastMappingWrite(mapping, PriceSlot(mapping.plan, kind));
      PlanSlotRead(settings, result, domain, member, webhook, mapping, PriceSlot(mapping.plan, kind));
    }
  }

  lemma OwnSlotRead(
      settings: Settings, result: SyncResult, domain: Offer, member: Offer, webhook: Option<Webhook>, slot: Slot)
    requires DomainMonthly in domain.prices && MemberMonthly in member.prices
    requires slot.AddonProductSlot? || slot.AddonPriceSlot? || (slot.MeterSlot? && result.meters.Some?)
    ensures Read(FinalSettings(settings, result, domain, member, webhook), slot) ==
              OwnWrite(result, domain, member, slot)
  {
    SettingsRead(settings, result, domain, member, webhook, slot);
    FinalWrites(result, domain, member, webhook, slot);
  }

  lemma PlanIsMatched(
      settings: Settings, result: SyncResult, domain: Offer, member: Offer, webhook: Option<Webhook>,
      r: Remote, describe: Plan -> string, row: PlanRow, cfg: Config)
    requires DomainMonthly in domain.prices && MemberMonthly in member.prices
    requires row in PlanTable(describe) && !row.legacy && Settled(r, row, cfg)
    requires OnePerPlan(result.products) && MappingOf(r, row, cfg) in result.products
    ensures PlanMatches(FinalSettings(settings, result, domain, member, webhook), r, row, cfg)
  {
    PlanSlotsRead(settings, result, domain, member, webhook, MappingOf(r, row, cfg));
    forall kind | kind in NeededKinds(row)
      ensures HasPriceKey(row.plan, kind)
    {
      SoldPlansHaveKeys(describe, row, kind);
    }
  }

  lemma AddonIsMatched(
      settings: Settings, result: SyncResult, webhook: Option<Webhook>,
      r: Remote, addon: Addon, describe: Addon -> string, cfg: Config)
    requires AddonSettled(r, AdditionalDomain, describe, cfg) && AddonSettled(r, ExtraMember, describe, cfg)
    ensures AddonMatches(
              FinalSettings(settings, result, AddonOffer(r, AdditionalDomain, describe, cfg),
                            AddonOffer(r, ExtraMember, describe, cfg), webhook), r, addon, describe, cfg)
  {
    var domain, member := AddonOffer(r, AdditionalDomain, describe, cfg), AddonOffer(r, ExtraMember, describe, cfg);
    OwnSlotRead(settings, result, domain, member, webhook, AddonProductSlot(addon));
    OwnSlotRead(settings, result, domain, member, webhook, AddonPriceSlot(addon));
  }

  /** Every plan on sale and both add-ons have no more active products of their name than one search shows. */
  ghost predicate SeedFits(r: Remote, describe: Plan -> string, cfg: Config) {
    && (forall row :: row in PlanTable(describe) && !row.legacy ==> FitsOnePage(r, DetailsFor(row, cfg).name))
    && AddonFits(r, AdditionalDomain, cfg) && AddonFits(r, ExtraMember, cfg)
  }

  /** What the forced sync at the head of the script leaves behind. */
  lemma SeedSyncSettles(w: World, describe: Plan -> string, cfg: Config)
    requires w.faults == [] && WellFormed(w.remote)
    ensures var s, rows := Sync(w, PlanTable(describe), cfg, true), PlanTable(describe);
            && s.result.success && s.world.faults == [] && WellFormed(s.world.remote)
            && (AllSettled(s.world.remote, rows, cfg) <==> AllSettleable(w.remote, rows, cfg, true))
            && (AllSettled(s.world.remote, rows, cfg) ==>
                  && OnePerPlan(s.result.products)
                  && forall row :: row in rows && !row.legacy ==>
                       MappingOf(s.world.remote, row, cfg) in s.result.products)
  {
    var rows := PlanTable(describe);
    PlanTableFits(cfg, describe);
    SyncSettlesWhen(w, rows, cfg, true);
    var r := Sync(w, rows, cfg, true).world.remote;
    if AllSettled(r, rows, cfg) {
      TableMappings(r, describe, cfg);
      forall row | row in rows && !row.legacy
        ensures MappingOf(r, row, cfg) in Mappings(r, rows, cfg)
      {
        MappingsHold(r, rows, cfg, row);
      }
    }
  }

  lemma SyncKeepsAddons(w: World, describe: Plan -> string, cfg: Config, addon: Addon)
    requires w.faults == [] && WellFormed(w.remote)
    ensures AddonFits(Sync(w, PlanTable(describe), cfg, true).world.remote, addon, cfg) <==>
              AddonFits(w.remote, addon, cfg)
  {
    var name := ProductName(AddonName(addon), cfg.env);
    forall row | row in PlanTable(describe)
      ensures DetailsFor(row, cfg).name != name
    {
      AddonNamesDiffer(row, addon, describe, _ => "", cfg);
    }
    SyncFrame(w, PlanTable(describe), cfg, true, name);
  }

  /** The settings lead to every plan on sale and both add-ons. */
  ghost predicate AllMatch(
      settings: Settings, r: Remote, describe: Plan -> string, describeAddon: Addon -> string, cfg: Config)
  {
    && (forall row :: row in PlanTable(describe) && !row.legacy ==> PlanMatches(settings, r, row, cfg))
    && AddonMatches(settings, r, AdditionalDomain, describeAddon, cfg)
    && AddonMatches(settings, r, ExtraMember, describeAddon, cfg)
  }

  lemma MatchesAll(
      settings: Settings, result: SyncResult, domain: Offer, member: Offer, webhook: Option<Webhook>,
      r: Remote, describe: Plan -> string, describeAddon: Addon -> string, cfg: Config)
    requires AllSettled(r, PlanTable(describe), cfg) && OnePerPlan(result.products)
    requires forall row :: row in PlanTable(describe) && !row.legacy ==> MappingOf(r, row, cfg) in result.products
    requires AddonSettled(r, AdditionalDomain, describeAddon, cfg) && AddonSettled(r, ExtraMember, describeAddon, cfg)
    requires domain == AddonOffer(r, AdditionalDomain, describeAddon, cfg)
    requires member == AddonOffer(r, ExtraMember, describeAddon, cfg)
    ensures AllMatch(FinalSettings(settings, result, domain, member, webhook), r, describe, describeAddon, cfg)
  {
    forall row | row in PlanTable(describe) && !row.legacy
      ensures PlanMatches(FinalSettings(settings, result, domain, member, webhook), r, row, cfg)
    {
      PlanIsMatched(settings, result, domain, member, webhook, r, describe, row, cfg);
    }
    AddonIsMatched(settings, result, webhook, r, AdditionalDomain, describeAddon, cfg);
    AddonIsMatched(settings, result, webhook, r, ExtraMember, describeAddon, cfg);
  }

  /**
   A seed in which every call works, from any account, with any number of products and prices: reading the
   settings back gives, for every plan on sale and both add-ons, its only active product and that product's only
   current price per type, exactly when none of these names had more active products than one search shows.
   */
  lemma SeedReadsBack(
      w: World, settings: Settings, describe: Plan -> string, describeAddon: Addon -> string, cfg: Config,
      webhook: Option<Webhook>)
    requires w.faults == [] && WellFormed(w.remote)
    ensures var out := Seed(w, settings, PlanTable(describe), describeAddon, cfg, webhook);
            && out.seeded
            && (AllMatch(out.settings, out.world.remote, describe, describeAddon, cfg) <==>
                  SeedFits(w.remote, describe, cfg))
  {
    SeedSyncSettles(w, describe, cfg);
    SyncKeepsAddons(w, describe, cfg, AdditionalDomain);
    SyncKeepsAddons(w, describe, cfg, ExtraMember);
    var s := Sync(w, PlanTable(describe), cfg, true);
    AddonsSettle(s.world, describe, describeAddon, cfg);
    var d := UpsertAddon(s.world, AdditionalDomain, describeAddon, cfg, true);
    var m := UpsertAddon(d.world, ExtraMember, describeAddon, cfg, true);
    var r := m.world.remote;
    TableFitsWhen(w.remote, s.world.remote, r, describe, cfg);
    if SeedFits(w.remote, describe, cfg) {
      MatchesAll(settings, s.result, d.value, m.value, webhook, r, describe, describeAddon, cfg);
    } else if AllMatch(FinalSettings(settings, s.result, d.value, m.value, webhook), r, describe, describeAddon, cfg) {
      AllMatchSettles(FinalSettings(settings, s.result, d.value, m.value, webhook), r, describe, describeAddon, cfg);
    }
  }

  lemma AllMatchSettles(
      settings: Settings, r: Remote, describe: Plan -> string, describeAddon: Addon -> string, cfg: Config)
    requires AllMatch(settings, r, describe, describeAddon, cfg)
    ensures AllSettled(r, PlanTable(describe), cfg)
    ensures AddonSettled(r, AdditionalDomain, describeAddon, cfg) && AddonSettled(r, ExtraMember, describeAddon, cfg)
  {
  }

  lemma TableFitsWhen(before: Remote, synced: Remote, after: Remote, describe: Plan -> string, cfg: Config)
    requires AllSettled(synced, PlanTable(describe), cfg) <==> AllSettleable(before, PlanTable(describe), cfg, true)
    requires SameTable(synced, after, PlanTable(describe), cfg)
    ensures AllSettled(after, PlanTable(describe), cfg) <==> AllSettled(synced, PlanTable(describe), cfg)
    ensures AllSettled(after, PlanTable(describe), cfg) <==>
              forall row :: row in PlanTable(describe) && !row.legacy ==> FitsOnePage(before, DetailsFor(row, cfg).name)
    ensures AllSettled(synced, PlanTable(describe), cfg) ==>
              forall row :: row in PlanTable(describe) && !row.legacy ==>
                MappingOf(after, row, cfg) == MappingOf(synced, row, cfg)
  {
    FitsMean(before, PlanTable(describe), cfg);
    SameTableMeans(synced, after, PlanTable(describe), cfg);
  }

  lemma FitsMean(r: Remote, rows: seq<PlanRow>, cfg: Config)
    ensures AllSettleable(r, rows, cfg, true) <==>
              forall row :: row in rows && !row.legacy ==> FitsOnePage(r, DetailsFor(row, cfg).name)
  {
    forall row
      ensures RowSettleable(r, row, cfg, true) <==> FitsOnePage(r, DetailsFor(row, cfg).name)
    {
    }
  }

  lemma SameTableMeans(before: Remote, after: Remote, rows: seq<PlanRow>, cfg: Config)
    requires SameTable(before, after, rows, cfg)
    ensures AllSettled(after, rows, cfg) <==> AllSettled(before, rows, cfg)
    ensures AllSettled(before, rows, cfg) ==>
              forall row :: row in rows && !row.legacy ==> MappingOf(after, row, cfg) == MappingOf(before, row, cfg)
  {
  }
}
