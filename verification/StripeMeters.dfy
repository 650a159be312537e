/**
 Which meter a price is billed on, and what it charges: of every price a run makes, failures included, and of
 every price it reports.
 */
module StripeMeters {
  import opened StripeRemote
  import opened StripeSync
  import opened StripeConvergence
  import opened StripePricing

  /** The account has an active meter of that id for the event. */
  ghost predicate HasMeter(r: Remote, id: nat, event: string) {
    exists i :: 0 <= i < |r.meters| && r.meters[i].id == id && r.meters[i].active && r.meters[i].event == event
  }

  /** Usage is billed on the meters of its own kind; everything else is licensed. */
  predicate BilledOn(p: Price, marketing: nat, transactional: nat) {
    match p.terms.kind
    case MarketingUsage => p.terms.usage == Metered(marketing)
    case TransactionalUsage => p.terms.usage == Metered(transactional)
    case _ => p.terms.usage == Licensed
  }

  /** The same, by the events of the account's meters. */
  ghost predicate BilledByEvent(r: Remote, p: Price) {
    match p.terms.kind
    case MarketingUsage => p.terms.usage.Metered? && HasMeter(r, p.terms.usage.meter, "bytesend_marketing_emails")
    case TransactionalUsage =>
      p.terms.usage.Metered? && HasMeter(r, p.terms.usage.meter, "bytesend_transactional_emails")
    case _ => p.terms.usage == Licensed
  }

  /** Prices are only added, each billed on these meters, and the meters stay as they are. */
  ghost predicate AddsBilled(before: Remote, after: Remote, meters: MeterIds) {
    && after.meters == before.meters && before.prices <= after.prices
    && forall i :: |before.prices| <= i < |after.prices| ==>
         BilledOn(after.prices[i], meters.marketing, meters.transactional)
  }

  lemma AddsBilledOn(a: Remote, b: Remote, c: Remote, meters: MeterIds)
    requires AddsBilled(a, b, meters) && AddsBilled(b, c, meters)
    ensures AddsBilled(a, c, meters)
  {
    forall i | |a.prices| <= i < |c.prices|
      ensures BilledOn(c.prices[i], meters.marketing, meters.transactional)
    {
      if i < |b.prices| {
        assert c.prices[i] == b.prices[i];
      }
    }
  }

  lemma {:induction false} ArchivingAddsNone(w: World, doomed: seq<Product>)
    ensures ArchiveAll(w, doomed).world.remote.prices == w.remote.prices
    ensures ArchiveAll(w, doomed).world.remote.meters == w.remote.meters
    decreases doomed
  {
    if doomed != [] {
      var first := ArchiveProduct(w, doomed[0].id);
      if first.Done? {
        ArchivingAddsNone(first.world, doomed[1..]);
      }
    }
  }

  lemma ProductAddsNone(w: World, details: Details, forced: bool)
    ensures EnsureProduct(w, details, forced).world.remote.prices == w.remote.prices
    ensures EnsureProduct(w, details, forced).world.remote.meters == w.remote.meters
  {
    var search := SearchProducts(w, details.name);
    if search.Done? {
      ArchivingAddsNone(search.world, if forced then search.value else []);
    }
  }

  predicate TermsOn(terms: Terms, meters: MeterIds) {
    match terms.kind
    case MarketingUsage => terms.usage == Metered(meters.marketing)
    case TransactionalUsage => terms.usage == Metered(meters.transactional)
    case _ => terms.usage == Licensed
  }

  lemma PriceAddsBilled(w: World, product: nat, version: string, terms: Terms, meters: MeterIds)
    requires TermsOn(terms, meters)
    ensures AddsBilled(w.remote, EnsurePrice(w, product, version, terms).world.remote, meters)
  {
  }

  lemma {:induction false} PricesAddBilled(w: World, product: nat, version: string, terms: seq<Terms>, meters: MeterIds)
    requires forall t :: t in terms ==> TermsOn(t, meters)
    ensures AddsBilled(w.remote, EnsurePrices(w, product, version, terms).world.remote, meters)
    decreases terms
  {
    if terms != [] {
      PriceAddsBilled(w, product, version, terms[0], meters);
      var first := EnsurePrice(w, product, version, terms[0]);
      if first.Done? {
        PricesAddBilled(first.world, product, version, terms[1..], meters);
        AddsBilledOn(w.remote, first.world.remote,
                     EnsurePrices(first.world, product, version, terms[1..]).world.remote, meters);
      }
    }
  }

  lemma OfferAddsBilled(
      w: World, details: Details, version: string, terms: seq<Terms>, forced: bool, meters: MeterIds)
    requires forall t :: t in terms ==> TermsOn(t, meters)
    ensures AddsBilled(w.remote, EnsureOffer(w, details, version, terms, forced).world.remote, meters)
  {
    ProductAddsNone(w, details, forced);
    var product := EnsureProduct(w, details, forced);
    if product.Done? {
      PricesAddBilled(product.world, product.value, version, terms, meters);
    }
  }

  /** What the plan table asks for is billed on the meters of its kind. */
  lemma TableTermsOn(row: PlanRow, meters: MeterIds)
    ensures forall t :: t in TermsFor(row, meters) ==> TermsOn(t, meters)
  {
  }

  lemma {:induction false} RowsAddBilled(w: World, rows: seq<PlanRow>, cfg: Config, meters: MeterIds, forced: bool)
    ensures AddsBilled(w.remote, SyncRows(w, rows, cfg, meters, forced).world.remote, meters)
    decreases rows
  {
    if rows != [] {
      if rows[0].legacy {
        RowsAddBilled(w, rows[1..], cfg, meters, forced);
      } else {
        TableTermsOn(rows[0], meters);
        OfferAddsBilled(w, DetailsFor(rows[0], cfg), cfg.version, TermsFor(rows[0], meters), forced, meters);
        var step := SyncPlan(w, rows[0], cfg, meters, forced);
        RowsAddBilled(step.world, rows[1..], cfg, meters, forced);
        AddsBilledOn(w.remote, step.world.remote,
                     SyncRows(step.world, rows[1..], cfg, meters, forced).world.remote, meters);
      }
    }
  }

  /******* The meters *******/

  /** Meters are only ever put in front, and no price is touched. */
  ghost predicate AddsMeters(before: Remote, after: Remote) {
    && after.prices == before.prices && |before.meters| <= |after.meters|
    && after.meters[|after.meters| - |before.meters|..] == before.meters
  }

  lemma AddsMetersOn(a: Remote, b: Remote, c: Remote)
    requires AddsMeters(a, b) && AddsMeters(b, c)
    ensures AddsMeters(a, c)
  {
    var n := |c.meters| - |b.meters|;
    assert c.meters[n..][|b.meters| - |a.meters|..] == c.meters[|c.meters| - |a.meters|..];
  }

  lemma MeterStays(before: Remote, after: Remote, id: nat, event: string)
    requires AddsMeters(before, after) && HasMeter(before, id, event)
    ensures HasMeter(after, id, event)
  {
    var i :| 0 <= i < |before.meters| && before.meters[i].id == id && before.meters[i].active &&
             before.meters[i].event == event;
    assert after.meters[|after.meters| - |before.meters|..][i] == after.meters[|after.meters| - |before.meters| + i];
  }

  lemma {:induction false} FoundMeter(meters: seq<Meter>, event: string) returns (i: nat)
    requires FindMeter(meters, event) != []
    ensures i < |meters| && FindMeter(meters, event) == [meters[i]] && meters[i].active && meters[i].event == event
    decreases meters
  {
    if meters[0].event == event && meters[0].active {
      i := 0;
    } else {
      i := FoundMeter(meters[1..], event);
      i := i + 1;
    }
  }

  /** The meter ensured is one of the account's, for that very event, and active. */
  lemma MeterIsThere(w: World, event: string)
    ensures var s := EnsureMeter(w, event);
            AddsMeters(w.remote, s.world.remote) && (s.Done? ==> HasMeter(s.world.remote, s.value, event))
  {
    var listed := ListMeters(w);
    if listed.Done? {
      var found := FindMeter(listed.value, event);
      if found != [] {
        var i := FoundMeter(listed.value, event);
        assert w.remote.meters[i] == listed.value[i];
      } else {
        var m := Meter(w.remote.nextId, event, true);
        assert ([m] + w.remote.meters)[1..] == w.remote.meters;
        var made := CreateMeter(listed.world, event);
        if made.Done? {
          assert made.world.remote.meters[0] == m;
        }
      }
    }
  }

  lemma MetersAreThere(w: World)
    ensures var s := EnsureMeters(w);
            && AddsMeters(w.remote, s.world.remote)
            && (s.Done? ==>
                  && HasMeter(s.world.remote, s.value.marketing, "bytesend_marketing_emails")
                  && HasMeter(s.world.remote, s.value.transactional, "bytesend_transactional_emails")
                  && HasMeter(s.world.remote, s.value.extraMember, "bytesend_extra_team_members"))
  {
    MeterIsThere(w, MARKETING_EVENT);
    var m1 := EnsureMeter(w, MARKETING_EVENT);
    if m1.Done? {
      MeterIsThere(m1.world, TRANSACTIONAL_EVENT);
      var m2 := EnsureMeter(m1.world, TRANSACTIONAL_EVENT);
      AddsMetersOn(w.remote, m1.world.remote, m2.world.remote);
      if m2.Done? {
        MeterIsThere(m2.world, MEMBER_EVENT);
        var m3 := EnsureMeter(m2.world, MEMBER_EVENT);
        AddsMetersOn(w.remote, m2.world.remote, m3.world.remote);
        MeterStays(m1.world.remote, m2.world.remote, m1.value, MARKETING_EVENT);
        MeterStays(m2.world.remote, m3.world.remote, m1.value, MARKETING_EVENT);
        MeterStays(m2.world.remote, m3.world.remote, m2.value, TRANSACTIONAL_EVENT);
      }
    }
  }

  /******* Main results *******/

  /** The meters a run reports are active meters of the account it leaves, each for its own event. */
  ghost predicate ReportsMeters(r: Remote, meters: MeterIds) {
    && HasMeter(r, meters.marketing, "bytesend_marketing_emails")
    && HasMeter(r, meters.transactional, "bytesend_transactional_emails")
    && HasMeter(r, meters.extraMember, "bytesend_extra_team_members")
  }

  /**
   In every run, whatever fails: the meters reported are active meters of the account, each for its own event;
   every price the run adds is billed, if it is for marketing or transactional usage, on the reported meter of
   that kind, and is licensed otherwise; and without meters no price is added.
   */
  lemma NewPricesAreBilledRight(w: World, rows: seq<PlanRow>, cfg: Config, forced: bool)
    ensures var s := Sync(w, rows, cfg, forced);
            var r := s.world.remote;
            && w.remote.prices <= r.prices
            && (s.result.meters.Some? ==>
                  && ReportsMeters(r, s.result.meters.value)
                  && forall i :: |w.remote.prices| <= i < |r.prices| ==>
                       BilledOn(r.prices[i], s.result.meters.value.marketing, s.result.meters.value.transactional))
            && (s.result.meters.None? ==> r.prices == w.remote.prices)
  {
    MetersAreThere(w);
    var metered := EnsureMeters(w);
    if metered.Done? {
      RowsAddBilled(metered.world, rows, cfg, metered.value, forced);
    }
  }

  /** Every price under the version tag is billed by the event of its kind. */
  ghost predicate AllBilled(r: Remote, version: string) {
    forall p :: p in r.prices && p.version == version && p.terms.kind != OtherKind ==> BilledByEvent(r, p)
  }

  lemma BilledStays(before: Remote, after: Remote, p: Price)
    requires BilledByEvent(before, p)
    requires forall id, event :: HasMeter(before, id, event) ==> HasMeter(after, id, event)
    ensures BilledByEvent(after, p)
  {
  }

  lemma AllMetersStay(w: World, rows: seq<PlanRow>, cfg: Config, forced: bool)
    ensures forall id, event :: HasMeter(w.remote, id, event) ==>
              HasMeter(Sync(w, rows, cfg, forced).world.remote, id, event)
  {
    MetersAreThere(w);
    var metered := EnsureMeters(w);
    forall id, event | HasMeter(w.remote, id, event)
      ensures HasMeter(Sync(w, rows, cfg, forced).world.remote, id, event)
    {
      MeterStays(w.remote, metered.world.remote, id, event);
      if metered.Done? {
        RowsAddBilled(metered.world, rows, cfg, metered.value, forced);
      }
    }
  }

  /** An account whose tagged prices are billed by their events is left as one by every run. */
  lemma SyncKeepsBilling(w: World, rows: seq<PlanRow>, cfg: Config, forced: bool)
    requires AllBilled(w.remote, cfg.version)
    ensures AllBilled(Sync(w, rows, cfg, forced).world.remote, cfg.version)
  {
    NewPricesAreBilledRight(w, rows, cfg, forced);
    AllMetersStay(w, rows, cfg, forced);
    var r := Sync(w, rows, cfg, forced).world.remote;
    forall p | p in r.prices && p.version == cfg.version && p.terms.kind != OtherKind
      ensures BilledByEvent(r, p)
    {
      var i :| 0 <= i < |r.prices| && r.prices[i] == p;
      if i < |w.remote.prices| {
        assert p == w.remote.prices[i];
        BilledStays(w.remote, r, p);
      }
    }
  }

  /** The reported id is a current price's, of its kind on the reported product, billed by the event of its kind. */
  ghost predicate BillsByEvent(r: Remote, mapping: Mapping, kind: Kind)
    requires kind in mapping.prices
  {
    exists i :: 0 <= i < |r.prices| && r.prices[i].id == mapping.prices[kind] && r.prices[i].active &&
                r.prices[i].product == mapping.product && r.prices[i].terms.kind == kind &&
                BilledByEvent(r, r.prices[i])
  }

  /** Where the tagged prices were billed by their events, every reported price is. */
  lemma ReportedPricesAreBilledRight(
      w: World, rows: seq<PlanRow>, cfg: Config, forced: bool, mapping: Mapping, kind: Kind)
    requires WellFormed(w.remote) && NamesDiffer(rows, cfg) && AllBilled(w.remote, cfg.version)
    requires mapping in Sync(w, rows, cfg, forced).result.products && kind in mapping.prices
    ensures BillsByEvent(Sync(w, rows, cfg, forced).world.remote, mapping, kind)
  {
    SyncReports(w, rows, cfg, forced);
    SyncKeepsBilling(w, rows, cfg, forced);
    var r := Sync(w, rows, cfg, forced).world.remote;
    var k :| 0 <= k < |rows| && ReportedFor(r, mapping, rows[k], cfg);
    assert HasPrice(r, mapping.prices[kind], mapping.product, kind, cfg.version);
    var i :| 0 <= i < |r.prices| && r.prices[i].id == mapping.prices[kind] && r.prices[i].active &&
             r.prices[i].product == mapping.product && r.prices[i].terms.kind == kind &&
             r.prices[i].version == cfg.version;
    TermsKinds(rows[k], MeterIds(0, 0, 0));
    assert r.prices[i] in r.prices && kind != OtherKind;
  }
}
