/** The services as objects that update the cache, the stores and the audit queue in place. */
module Services {
  import opened Screening
  import opened Seqs
  import D = Decision
  import C = Cache
  import A = Alert
  import Audit

  function InsertByTime(rs: seq<Record>, r: Record): (out: seq<Record>)
    ensures out != []
  {
    if rs == [] then [r]
    else
      var n := |rs| - 1;
      if rs[n].createdAt <= r.createdAt then rs + [r] else InsertByTime(rs[..n], r) + [rs[n]]
  }

  function LastTime(rs: seq<Record>): int
    requires rs != []
  {
    rs[|rs| - 1].createdAt
  }

  lemma AppendSorts(rs: seq<Record>, r: Record)
    requires SortedByTime(rs) && rs != [] && LastTime(rs) <= r.createdAt
    ensures SortedByTime(rs + [r]) && LastTime(rs + [r]) == r.createdAt
  {
  }

  lemma {:induction false} InsertionSorts(rs: seq<Record>, r: Record)
    requires SortedByTime(rs)
    ensures SortedByTime(InsertByTime(rs, r))
    ensures LastTime(InsertByTime(rs, r)) == r.createdAt || (rs != [] && LastTime(InsertByTime(rs, r)) == LastTime(rs))
  {
    if rs != [] {
      var n := |rs| - 1;
      if rs[n].createdAt <= r.createdAt {
        AppendSorts(rs, r);
      } else {
        InsertionSorts(rs[..n], r);
        AppendSorts(InsertByTime(rs[..n], r), rs[n]);
      }
    }
  }

  lemma {:induction false} InsertionPermutes(rs: seq<Record>, r: Record)
    ensures multiset(InsertByTime(rs, r)) == multiset(rs) + multiset{r}
  {
    if rs != [] {
      var n := |rs| - 1;
      assert rs == rs[..n] + [rs[n]];
      if rs[n].createdAt > r.createdAt { InsertionPermutes(rs[..n], r); }
    }
  }

  /** A sort by creation time; the order of records created at the same time is not promised. */
  method SortByTime(xs: seq<Record>) returns (ys: seq<Record>)
    ensures SortedByTime(ys) && multiset(ys) == multiset(xs)
  {
    ys := [];
    for i := 0 to |xs|
      invariant SortedByTime(ys) && multiset(ys) == multiset(xs[..i])
    {
      assert xs[..i + 1] == xs[..i] + [xs[i]];
      InsertionSorts(ys, xs[i]);
      InsertionPermutes(ys, xs[i]);
      ys := InsertByTime(ys, xs[i]);
    }
    assert xs[..|xs|] == xs;
  }

  class MemoryScreenStore {
    var mem: map<string, Record>

    constructor ()
      ensures mem == map[]
    {
      mem := map[];
    }

    method Put(r: Record) returns (ok: bool)
      modifies this
      ensures ok <==> Screening.Put(old(mem), r).Some?
      ensures mem == if ok then Screening.Put(old(mem), r).value else old(mem)
      ensures old(FiledById(mem)) ==> FiledById(mem)
    {
      if r.screenId == "" { return false; }
      mem := mem[r.screenId := r];
      ok := true;
    }

    /** Collects the matching records in whatever order the map yields them, then sorts them. */
    method ListByAddress(address: string, chain: string) returns (out: seq<Record>)
      requires FiledById(mem)
      ensures IsListing(mem, address, chain, out)
    {
      out := [];
      var ids := mem.Keys;
      while ids != {}
        invariant ids <= mem.Keys
        invariant Distinct(out)
        invariant forall r :: r in out <==>
                    r.screenId in mem.Keys - ids && mem[r.screenId] == r && Matches(r, address, chain)
        decreases |ids|
      {
        var id :| id in ids;
        ids := ids - {id};
        var r := mem[id];
        assert r.screenId == id && r !in out;
        if r.address == address && r.chain == chain {
          out := out + [r];
        }
      }
      var sorted := SortByTime(out);
      PermutationKeepsDistinct(out, sorted);
      out := sorted;
    }
  }

  /** The synchronous screen path, wired as cmd/kyt/main.go wires it, with or without a cache. */
  class Service {
    const cache: C.MemoryCache?
    const thresholds: D.Thresholds
    const screens: MemoryScreenStore
    const alerts: A.Service
    const audit: Audit.Emitter

    ghost function Repr(): set<object> {
      {thresholds, screens, alerts.store, audit} + (if cache == null then {} else {cache as object})
    }

    ghost predicate Valid()
      reads Repr()
    {
      FiledById(screens.mem) && audit.Valid() && (cache != null ==> cache.Valid())
    }

    ghost function Value(): Stores
      reads Repr()
    {
      Stores(cache != null,
             if cache == null then map[] else cache.mem,
             if cache == null then C.Ttls(0, 0) else cache.ttls,
             thresholds.Value(), screens.mem, alerts.store.Value(), audit.calls)
    }

    constructor (cache: C.MemoryCache?, thresholds: D.Thresholds, screens: MemoryScreenStore, alerts: A.Service,
                 audit: Audit.Emitter)
      ensures this.cache == cache && this.thresholds == thresholds && this.screens == screens
      ensures this.alerts == alerts && this.audit == audit
    {
      this.cache, this.thresholds, this.screens, this.alerts, this.audit := cache, thresholds, screens, alerts, audit;
    }

    /** finalize */
    method Finish(req: Request, core: Core, hit: bool, i: Inputs) returns (out: Outcome)
      requires Valid()
      modifies screens, alerts.store, audit
      ensures Valid()
      ensures (Value(), out) == Finalize(old(Value()), RecordFor(req, core, hit, i.screen), i.alert)
    {
      var rec := RecordFor(req, core, hit, i.screen);
      var ok := screens.Put(rec);
      if !ok { return Rejected(PersistFailed); }

      if core.decision != D.ALLOW {
        var _ := alerts.Create(i.alert, rec.screenId, req.txId, req.address, req.chain, core.exposure,
                               D.SeverityFor(core.exposure));
      }

      var source := "vendor";
      if hit { source := "cache"; }
      var _ := audit.Emit(Audit.Event(rec.screenId, req.txId, req.address, req.chain, req.amount, core.decision,
                                      core.exposure, core.score, core.vendor, hit, source, "", rec.createdAt),
                          rec.createdAt);
      out := Screened(Response(rec.screenId, core.score, core.exposure, core.decision, core.vendor, hit));
    }

    /** `asked` tells whether the vendor was called. */
    method Screen(req: Request, i: Inputs) returns (out: Outcome, asked: bool)
      requires Valid()
      modifies Repr() - {thresholds}
      ensures Valid()
      ensures (Value(), out) == Screening.Screen(old(Value()), req, i)
      ensures asked == AsksVendor(old(Value()), req, i)
    {
      asked := false;
      var invalid := Validate(req);
      if invalid.Some? { return Rejected(invalid.value), false; }

      if cache != null {
        var hit := cache.Lookup(req.address, req.chain, i.lookupAt);
        if hit.Some? {
          var v := hit.value;
          out := Finish(req, Core(v.score, v.exposure, v.decision, v.vendor), true, i);
          return out, false;
        }
      }

      asked := true;
      match i.answer
      case Unreachable =>
        out := Finish(req, Core(0, D.UNKNOWN, D.DecideVendorUnreachable(), ""), false, i);
      case Answer(vendor, score, said) =>
        var exposure := said;
        if exposure == "" {
          exposure := D.ExposureFromScore(thresholds.Value(), score, req.chain);
        }
        var decision := D.Decide(thresholds.Value(), exposure);
        if cache != null {
          cache.Store(C.Verdict(req.address, req.chain, score, exposure, decision, vendor), i.cacheAt);
        }
        out := Finish(req, Core(score, exposure, decision, vendor), false, i);
    }
  }

  /** The webhook processor over the same stores. Reviews it has started but that have not run yet are
      queued in `started`. */
  class Processor {
    const service: Service
    var seen: set<string>
    var started: seq<Reclassification>

    constructor (service: Service)
      ensures this.service == service && seen == {} && started == []
    {
      this.service, seen, started := service, {}, [];
    }

    method Ingest(vendor: string, d: Delivery, stamp: A.Stamp) returns (r: IngestResult)
      requires service.Valid()
      modifies this`seen, this`started, service.Repr() - {service.thresholds, service.screens, service.audit}
      ensures service.Valid()
      ensures var e := Screening.Ingest(old(service.Value()), old(seen), vendor, d, stamp);
              && service.Value() == e.stores && seen == e.seen && r == e.result
              && started == old(started) + if e.review.Some? then [e.review.value] else []
    {
      if d.BadSignature? { return Refused(SignatureMismatch); }
      if d.BadJson? { return Refused(InvalidJson); }
      var rec := d.rec;
      if rec.address == "" || rec.chain == "" || rec.exposure == "" { return Refused(MissingFields); }
      if rec.eventId == "" {
        rec := rec.(eventId := vendor + ":" + rec.chain + ":" + rec.address + ":" + rec.exposure);
      }
      if rec.eventId in seen { return AlreadySeen(rec.eventId); }
      seen := seen + {rec.eventId};
      if service.cache != null {
        service.cache.Invalidate(rec.address, rec.chain);
      }
      var created := service.alerts.Create(stamp, "", rec.txId, rec.address, rec.chain, rec.exposure,
                                           D.SeverityFor(rec.exposure));
      if created.Failed? { return Refused(AlertCreate); }
      started := started + [rec];
      r := Accepted(rec.eventId);
    }
  }

  lemma {:induction false} DistinctFits(rs: seq<Record>, ids: set<string>)
    requires Distinct(rs) && (forall r :: r in rs ==> r.screenId in ids)
    requires forall i, j :: 0 <= i < j < |rs| ==> rs[i].screenId != rs[j].screenId
    ensures |rs| <= |ids|
  {
    if rs != [] {
      var n := |rs| - 1;
      assert forall i :: 0 <= i < n ==> rs[..n][i] == rs[i];
      assert forall r :: r in rs[..n] ==> r in rs;
      DistinctFits(rs[..n], ids - {rs[n].screenId});
    }
  }

  lemma ListingFits(screens: map<string, Record>, address: string, chain: string, rs: seq<Record>)
    requires IsListing(screens, address, chain, rs) && FiledById(screens)
    ensures |rs| <= |screens|
  {
    DistinctFits(rs, screens.Keys);
  }

  /** The downstream review of past screens. */
  class Trigger {
    const screens: MemoryScreenStore
    const alerts: A.Service

    constructor (screens: MemoryScreenStore, alerts: A.Service)
      ensures this.screens == screens && this.alerts == alerts
    {
      this.screens, this.alerts := screens, alerts;
    }

    /** The loop of TriggerReview. */
    method OpenAlerts(records: seq<Record>, exposure: string, stamps: seq<A.Stamp>)
      requires |stamps| >= |records| >= |AllowedOnly(records)|
      modifies alerts.store
      ensures alerts.store.Value() == Review(old(alerts.store.Value()), records, exposure, stamps)
    {
      var sev := D.SeverityFor(exposure);
      var used := 0;
      ghost var before := alerts.store.Value();
      assert records[..0] == [];
      for k := 0 to |records|
        invariant used == |AllowedOnly(records[..k])| <= k
        invariant alerts.store.Value() == Review(before, records[..k], exposure, stamps)
      {
        var r := records[k];
        AllowedOnlyStep(records, k);
        if r.decision != D.ALLOW { continue; }
        ghost var done := ReviewAlerts(AllowedOnly(records[..k]), exposure, stamps);
        ghost var more := ReviewAlerts(AllowedOnly(records[..k + 1]), exposure, stamps);
        assert more == done + [ReviewAlert(r, exposure, stamps[used])] && more[..used] == done;
        var _ := alerts.Create(stamps[used], r.screenId, r.txId, r.address, r.chain, exposure, sev);
        used := used + 1;
      }
      assert records[..|records|] == records;
    }

    /** stamps[k] is what generator and clock give the k-th alert. */
    method TriggerReview(address: string, chain: string, exposure: string, stamps: seq<A.Stamp>)
      returns (ghost listing: seq<Record>)
      requires FiledById(screens.mem)
      requires |stamps| >= |screens.mem|
      modifies alerts.store
      ensures IsListing(screens.mem, address, chain, listing) && |AllowedOnly(listing)| <= |stamps|
      ensures alerts.store.Value() == Review(old(alerts.store.Value()), listing, exposure, stamps)
    {
      var records := screens.ListByAddress(address, chain);
      listing := records;
      ListingFits(screens.mem, address, chain, records);
      AllowedOnlyMembers(records);
      OpenAlerts(records, exposure, stamps);
    }
  }
}
