/** What one call of the screening service, the webhook processor or the reviewer does to the stores,
    as functions on values. The classes in Services.dfy are proved against them. */
module Screening {
  import opened Text
  import opened Keys
  import opened Seqs
  import D = Decision
  import C = Cache
  import A = Alert
  import Audit

  datatype Request = Request(txId: string, address: string, source: string, chain: string, amount: string)

  datatype Response = Response(screenId: string, score: int, exposure: string, decision: string, vendor: string,
                               cacheHit: bool)

  datatype Record = Record(screenId: string, txId: string, address: string, source: string, chain: string,
                           amount: string, score: int, exposure: string, decision: string, vendor: string,
                           cacheHit: bool, createdAt: int)

  /** What the vendor says when asked, or that it cannot be reached. */
  datatype VendorAnswer = Unreachable | Answer(vendor: string, score: int, exposure: string)

  /** The part of a verdict that a caller of Screen sees. */
  datatype Core = Core(score: int, exposure: string, decision: string, vendor: string)

  datatype Error = TxIdRequired | AddressRequired | ChainRequired | AmountRequired | PersistFailed
  datatype Outcome = Screened(response: Response) | Rejected(error: Error)

  /** The data the services share. Without a cache, `cached` is false and `cache` is not used. */
  datatype Stores = Stores(cached: bool, cache: map<string, C.Entry>, ttls: C.Ttls, thresholds: D.Config,
                           screens: map<string, Record>, alerts: A.Store, audit: seq<Audit.Event>)

  // ---------------------------------------------------------------- screening

  function Validate(req: Request): Option<Error> {
    if IsBlank(req.txId) then Some(TxIdRequired)
    else if IsBlank(req.address) then Some(AddressRequired)
    else if IsBlank(req.chain) then Some(ChainRequired)
    else if IsBlank(req.amount) then Some(AmountRequired)
    else None
  }

  /** The key under which the cache would file this request's pair. */
  function KeyOf(req: Request): string {
    CacheKey(req.address, req.chain)
  }

  function Lookup(s: Stores, req: Request, now: int): Option<C.Verdict> {
    if s.cached then C.Get(s.cache, req.address, req.chain, now) else None
  }

  function CoreOf(v: C.Verdict): Core {
    Core(v.score, v.exposure, v.decision, v.vendor)
  }

  /** The verdict on a vendor's answer. */
  function Classify(th: D.Config, answer: VendorAnswer, chain: string): Core {
    match answer
    case Unreachable => Core(0, D.UNKNOWN, D.DecideVendorUnreachable(), "")
    case Answer(vendor, score, said) =>
      var exposure := D.Exposure(th, said, score, chain);
      Core(score, exposure, D.Decide(th, exposure), vendor)
  }

  function VerdictFor(req: Request, core: Core): C.Verdict {
    C.Verdict(req.address, req.chain, core.score, core.exposure, core.decision, core.vendor)
  }

  function RecordFor(req: Request, core: Core, hit: bool, stamp: A.Stamp): Record {
    Record(stamp.id, req.txId, req.address, req.source, req.chain, req.amount, core.score, core.exposure,
           core.decision, core.vendor, hit, stamp.at)
  }

  function EventFor(r: Record): Audit.Event {
    Audit.Event(r.screenId, r.txId, r.address, r.chain, r.amount, r.decision, r.exposure, r.score, r.vendor, r.cacheHit,
                if r.cacheHit then "cache" else "vendor", "", r.createdAt)
  }

  function ResponseFor(r: Record): Response {
    Response(r.screenId, r.score, r.exposure, r.decision, r.vendor, r.cacheHit)
  }

  /** MemoryScreenStore.Put: None stands for an error. */
  function Put(screens: map<string, Record>, r: Record): Option<map<string, Record>> {
    if r.screenId == "" then None else Some(screens[r.screenId := r])
  }

  /** Whether a record calls for an alert, and the alert store after it. */
  function AlertFor(alerts: A.Store, r: Record, stamp: A.Stamp): A.Store {
    if r.decision == D.ALLOW then alerts
    else A.Created(alerts, stamp, r.screenId, r.txId, r.address, r.chain, r.exposure, D.SeverityFor(r.exposure)).0
  }

  /** finalize: persist, alert unless allowed, audit, respond. */
  function Finalize(s: Stores, r: Record, alertStamp: A.Stamp): (Stores, Outcome) {
    match Put(s.screens, r)
    case None => (s, Rejected(PersistFailed))
    case Some(screens) =>
      (s.(screens := screens, alerts := AlertFor(s.alerts, r, alertStamp), audit := s.audit + [EventFor(r)]),
       Screened(ResponseFor(r)))
  }

  /** What the surroundings give one Screen call: the vendor's answer should it be asked, the readings of
      the clock at the cache lookup and the cache write, and the stamps of the record and the alert. */
  datatype Inputs = Inputs(answer: VendorAnswer, lookupAt: int, cacheAt: int, screen: A.Stamp, alert: A.Stamp)

  /** The answer is asked for: a valid request that the cache does not serve. */
  predicate AsksVendor(s: Stores, req: Request, i: Inputs) {
    Validate(req).None? && Lookup(s, req, i.lookupAt).None?
  }

  function Remember(s: Stores, req: Request, core: Core, now: int): Stores {
    if s.cached then s.(cache := C.Set(s.cache, s.ttls, VerdictFor(req, core), now)) else s
  }

  function Screen(s: Stores, req: Request, i: Inputs): (Stores, Outcome) {
    match Validate(req)
    case Some(e) => (s, Rejected(e))
    case None =>
      match Lookup(s, req, i.lookupAt)
      case Some(v) => Finalize(s, RecordFor(req, CoreOf(v), true, i.screen), i.alert)
      case None =>
        var core := Classify(s.thresholds, i.answer, req.chain);
        var s' := if i.answer.Answer? then Remember(s, req, core, i.cacheAt) else s;
        Finalize(s', RecordFor(req, core, false, i.screen), i.alert)
  }

  // ------------------------------------------------- what a Screen call tells and leaves

  /** A request is refused exactly when one of four fields is blank, the first one in this order being named. */
  lemma ValidateExactly(req: Request)
    ensures Validate(req) == Some(TxIdRequired) <==> IsBlank(req.txId)
    ensures Validate(req) == Some(AddressRequired) <==> !IsBlank(req.txId) && IsBlank(req.address)
    ensures Validate(req) == Some(ChainRequired) <==>
            !IsBlank(req.txId) && !IsBlank(req.address) && IsBlank(req.chain)
    ensures Validate(req) == Some(AmountRequired) <==>
            !IsBlank(req.txId) && !IsBlank(req.address) && !IsBlank(req.chain) && IsBlank(req.amount)
    ensures Validate(req) == None <==>
            !IsBlank(req.txId) && !IsBlank(req.address) && !IsBlank(req.chain) && !IsBlank(req.amount)
  {
  }

  /** Where the reply comes from: a live cache entry under the pair's key, word for word; or the vendor's
      answer, with the exposure derived from the score when the vendor names none and the decision of that
      exposure; or, when the vendor cannot be reached, the fail-safe verdict. */
  lemma ReplyComesFrom(s: Stores, req: Request, i: Inputs)
    requires Screen(s, req, i).1.Screened?
    ensures var (r, key) := (Screen(s, req, i).1.response, CacheKey(req.address, req.chain));
            && r.screenId == i.screen.id
            && (r.cacheHit <==> s.cached && key in s.cache && i.lookupAt <= s.cache[key].expiresAt)
            && if r.cacheHit then
                 var v := s.cache[key].verdict;
                 r.score == v.score && r.exposure == v.exposure && r.decision == v.decision && r.vendor == v.vendor
               else
                 match i.answer
                 case Unreachable =>
                   r.score == 0 && r.exposure == "UNKNOWN" && r.decision == "MANUAL_REVIEW" && r.vendor == ""
                 case Answer(vendor, score, said) =>
                   && r.score == score && r.vendor == vendor
                   && r.exposure == (if said != "" then said else D.ExposureFromScore(s.thresholds, score, req.chain))
                   && r.decision == D.Decide(s.thresholds, r.exposure)
  {
  }

  /** The record repeats the request and the reply. */
  predicate Records(r: Record, req: Request, reply: Response, at: int) {
    && r.screenId == reply.screenId && r.txId == req.txId && r.address == req.address && r.source == req.source
    && r.chain == req.chain && r.amount == req.amount && r.score == reply.score && r.exposure == reply.exposure
    && r.decision == reply.decision && r.vendor == reply.vendor && r.cacheHit == reply.cacheHit && r.createdAt == at
  }

  /** The audit event repeats the record, but perhaps for the time. */
  predicate Reports(e: Audit.Event, r: Record) {
    && e.screenId == r.screenId && e.txId == r.txId && e.address == r.address && e.chain == r.chain
    && e.amount == r.amount && e.decision == r.decision && e.exposure == r.exposure && e.score == r.score
    && e.vendor == r.vendor && e.cacheHit == r.cacheHit
    && e.source == (if r.cacheHit then "cache" else "vendor") && e.operator == ""
  }

  /** What a call that gets its reply leaves behind. */
  predicate LeavesOne(s: Stores, s': Stores, req: Request, r: Response, i: Inputs) {
    var id := i.screen.id;
    && id in s'.screens && s'.screens == s.screens[id := s'.screens[id]]
    && Records(s'.screens[id], req, r, i.screen.at)
    && |s'.audit| == |s.audit| + 1 && s'.audit[..|s.audit|] == s.audit
    && Reports(s'.audit[|s.audit|], s'.screens[id]) && s'.audit[|s.audit|].createdAt == i.screen.at
    && s'.alerts == if r.decision == "ALLOW" then s.alerts
                    else A.Created(s.alerts, i.alert, id, req.txId, req.address, req.chain, r.exposure,
                                   D.SeverityFor(r.exposure)).0
  }

  lemma FinalizeLeaves(s: Stores, req: Request, core: Core, hit: bool, i: Inputs)
    ensures var (s', out) := Finalize(s, RecordFor(req, core, hit, i.screen), i.alert);
            && (out.Rejected? <==> i.screen.id == "")
            && s' == s.(screens := s'.screens, alerts := s'.alerts, audit := s'.audit)
            && (out.Rejected? ==> s' == s && out.error == PersistFailed)
            && (out.Screened? ==> LeavesOne(s, s', req, out.response, i))
  {
  }

  /** A call fails when the request is refused or its id is empty, and then no record, alert or event is
      left. Otherwise one record is stored under its id, one event is handed over, and an alert is created
      unless the reply is ALLOW; what else is stored stays as it is, and only the cache may learn. */
  lemma ScreenLeaves(s: Stores, req: Request, i: Inputs)
    ensures var (s', out) := Screen(s, req, i);
            && (out.Rejected? <==> Validate(req).Some? || i.screen.id == "")
            && s' == s.(cache := s'.cache, screens := s'.screens, alerts := s'.alerts, audit := s'.audit)
            && (out.Rejected? ==> s'.screens == s.screens && s'.alerts == s.alerts && s'.audit == s.audit)
            && (out.Rejected? ==> out.error == if Validate(req).Some? then Validate(req).value else PersistFailed)
            && (out.Screened? ==> LeavesOne(s, s', req, out.response, i))
  {
    if Validate(req).None? {
      var found := Lookup(s, req, i.lookupAt);
      var core := Classify(s.thresholds, i.answer, req.chain);
      if found.Some? {
        FinalizeLeaves(s, req, CoreOf(found.value), true, i);
      } else {
        FinalizeLeaves(if i.answer.Answer? then Remember(s, req, core, i.cacheAt) else s, req, core, false, i);
      }
    }
  }

  // ------------------------------------------------------------------ webhook

  datatype Reclassification = Reclassification(eventId: string, address: string, chain: string, exposure: string,
                                               txId: string)

  /** The outcome of verifying and decoding a webhook's signature and body. */
  datatype Delivery = BadSignature | BadJson | Decoded(rec: Reclassification)

  datatype Refusal = SignatureMismatch | InvalidJson | MissingFields | AlertCreate
  datatype IngestResult = Accepted(eventId: string) | AlreadySeen(id: string) | Refused(reason: Refusal)

  function WithEventId(vendor: string, rec: Reclassification): Reclassification {
    if rec.eventId == "" then
      rec.(eventId := SynthesizedEventId(vendor, rec.chain, rec.address, rec.exposure))
    else rec
  }

  predicate HasFields(rec: Reclassification) {
    rec.address != "" && rec.chain != "" && rec.exposure != ""
  }

  /** The re-classification that gets past verification, decoding and the duplicate check. */
  function Fresh(seen: set<string>, vendor: string, d: Delivery): Option<Reclassification> {
    if d.Decoded? && HasFields(d.rec) && WithEventId(vendor, d.rec).eventId !in seen
    then Some(WithEventId(vendor, d.rec)) else None
  }

  function Forget(s: Stores, address: string, chain: string): Stores {
    if s.cached then s.(cache := C.Delete(s.cache, address, chain)) else s
  }

  function WebhookAlert(alerts: A.Store, rec: Reclassification, stamp: A.Stamp): (A.Store, A.Outcome) {
    A.Created(alerts, stamp, "", rec.txId, rec.address, rec.chain, rec.exposure, D.SeverityFor(rec.exposure))
  }

  datatype IngestEffect = IngestEffect(stores: Stores, seen: set<string>, result: IngestResult,
                                       review: Option<Reclassification>)

  function Ingest(s: Stores, seen: set<string>, vendor: string, d: Delivery, stamp: A.Stamp): IngestEffect {
    match d
    case BadSignature => IngestEffect(s, seen, Refused(SignatureMismatch), None)
    case BadJson => IngestEffect(s, seen, Refused(InvalidJson), None)
    case Decoded(raw) =>
      if !HasFields(raw) then IngestEffect(s, seen, Refused(MissingFields), None)
      else
        var rec := WithEventId(vendor, raw);
        if rec.eventId in seen then IngestEffect(s, seen, AlreadySeen(rec.eventId), None)
        else
          var s' := Forget(s, rec.address, rec.chain);
          var (alerts, out) := WebhookAlert(s'.alerts, rec, stamp);
          if out.Failed? then IngestEffect(s'.(alerts := alerts), seen + {rec.eventId}, Refused(AlertCreate), None)
          else IngestEffect(s'.(alerts := alerts), seen + {rec.eventId}, Accepted(rec.eventId), Some(rec))
  }

  // ------------------------------------------------------------ what a webhook does

  /** The id under which a re-classification is remembered: its own, or one made of its fields. */
  function EventId(vendor: string, raw: Reclassification): string {
    if raw.eventId != "" then raw.eventId else vendor + ":" + raw.chain + ":" + raw.address + ":" + raw.exposure
  }

  /** A re-classification gets past the checks: verified, decoded, with address, chain and exposure, and its
      id not seen before. */
  predicate IsNews(seen: set<string>, vendor: string, d: Delivery) {
    d.Decoded? && d.rec.address != "" && d.rec.chain != "" && d.rec.exposure != "" && EventId(vendor, d.rec) !in seen
  }

  /** News, and only news, is remembered, clears its own pair from the cache and creates one alert with its
      own content; if the alert is created it is accepted and its own review started, and otherwise not. */
  lemma IngestExactly(s: Stores, seen: set<string>, vendor: string, d: Delivery, stamp: A.Stamp)
    ensures var e := Ingest(s, seen, vendor, d, stamp);
            if !IsNews(seen, vendor, d) then
              && e.stores == s && e.seen == seen && e.review == None
              && e.result == match d
                             case BadSignature => Refused(SignatureMismatch)
                             case BadJson => Refused(InvalidJson)
                             case Decoded(raw) =>
                               if raw.address == "" || raw.chain == "" || raw.exposure == "" then Refused(MissingFields)
                               else AlreadySeen(EventId(vendor, raw))
            else
              var (raw, id) := (d.rec, EventId(vendor, d.rec));
              && e.seen == seen + {id}
              && e.stores == s.(cache := if s.cached then s.cache - {CacheKey(raw.address, raw.chain)} else s.cache,
                                alerts := A.Created(s.alerts, stamp, "", raw.txId, raw.address, raw.chain, raw.exposure,
                                                    D.SeverityFor(raw.exposure)).0)
              && if stamp.id == "" || stamp.id in s.alerts.mem then e.result == Refused(AlertCreate) && e.review == None
                 else
                   && e.result == Accepted(id) && e.review.Some?
                   && var rec := e.review.value;
                      && rec.address == raw.address && rec.chain == raw.chain && rec.exposure == raw.exposure
                      && rec.txId == raw.txId && rec.eventId == id
  {
    if d.Decoded? {
      assert WithEventId(vendor, d.rec) == d.rec.(eventId := EventId(vendor, d.rec));
    }
  }

  // ------------------------------------------------------------------- review

  predicate Matches(r: Record, address: string, chain: string) {
    r.address == address && r.chain == chain
  }

  predicate SortedByTime(rs: seq<Record>) {
    forall i, j :: 0 <= i < j < |rs| ==> rs[i].createdAt <= rs[j].createdAt
  }

  ghost predicate FiledById(screens: map<string, Record>) {
    forall id :: id in screens ==> screens[id].screenId == id
  }

  /** What ListByAddress may return: the matching records, each once, by creation time. */
  ghost predicate IsListing(screens: map<string, Record>, address: string, chain: string, rs: seq<Record>) {
    && SortedByTime(rs)
    && Distinct(rs)
    && (forall r :: r in rs <==> r.screenId in screens && screens[r.screenId] == r && Matches(r, address, chain))
  }

  /** The allowed records of a listing, in its order. */
  function AllowedOnly(rs: seq<Record>): seq<Record> {
    if rs == [] then []
    else AllowedOnly(rs[..|rs| - 1]) + if rs[|rs| - 1].decision == D.ALLOW then [rs[|rs| - 1]] else []
  }

  function ReviewAlert(r: Record, exposure: string, stamp: A.Stamp): A.Alert {
    A.NewAlert(stamp, r.screenId, r.txId, r.address, r.chain, exposure, D.SeverityFor(exposure))
  }

  function ReviewAlerts(rs: seq<Record>, exposure: string, stamps: seq<A.Stamp>): seq<A.Alert>
    requires |stamps| >= |rs|
  {
    seq(|rs|, i requires 0 <= i < |rs| => ReviewAlert(rs[i], exposure, stamps[i]))
  }

  /** One alert per allowed record of the listing, each with its own stamp; a creation that fails is
      skipped. */
  function Review(alerts: A.Store, listing: seq<Record>, exposure: string, stamps: seq<A.Stamp>): A.Store
    requires |stamps| >= |AllowedOnly(listing)|
  {
    A.InsertedAll(alerts, ReviewAlerts(AllowedOnly(listing), exposure, stamps))
  }

  lemma AllowedOnlyStep(rs: seq<Record>, k: nat)
    requires k < |rs|
    ensures rs[k].decision == D.ALLOW ==> AllowedOnly(rs[..k + 1]) == AllowedOnly(rs[..k]) + [rs[k]]
    ensures rs[k].decision != D.ALLOW ==> AllowedOnly(rs[..k + 1]) == AllowedOnly(rs[..k])
  {
    assert rs[..k + 1][..k] == rs[..k];
  }

  lemma {:induction false} AllowedOnlyMembers(rs: seq<Record>)
    ensures |AllowedOnly(rs)| <= |rs|
    ensures forall r :: r in AllowedOnly(rs) <==> r in rs && r.decision == D.ALLOW
  {
    if rs != [] {
      var n := |rs| - 1;
      AllowedOnlyMembers(rs[..n]);
      assert rs == rs[..n] + [rs[n]];
    }
  }

  lemma {:induction false} AllowedOnlyOrder(rs: seq<Record>)
    ensures Distinct(rs) ==> Distinct(AllowedOnly(rs))
    ensures SortedByTime(rs) ==> SortedByTime(AllowedOnly(rs))
  {
    if rs != [] {
      var n := |rs| - 1;
      AllowedOnlyOrder(rs[..n]);
      AllowedOnlyMembers(rs[..n]);
      assert forall i :: 0 <= i < |AllowedOnly(rs[..n])| ==> AllowedOnly(rs[..n])[i] in rs[..n];
    }
  }

  /** The alert of a review: about the old transaction, with the new exposure. */
  predicate Warns(a: A.Alert, r: Record, exposure: string, stamp: A.Stamp) {
    && a.id == stamp.id && a.createdAt == stamp.at && a.status == "OPEN" && a.assignee == "" && a.closedAt == None
    && a.screenId == r.screenId && a.txId == r.txId && a.address == r.address && a.chain == r.chain
    && a.exposure == exposure && a.severity == D.SeverityFor(exposure)
  }

  predicate Warned(alerts: A.Store, alerts': A.Store, i: nat, r: Record, exposure: string, stamp: A.Stamp)
    requires |alerts.order| + i < |alerts'.order|
  {
    var id := alerts'.order[|alerts.order| + i];
    id in alerts'.mem && Warns(alerts'.mem[id], r, exposure, stamp)
  }

  /** alerts' is alerts with one more alert for each of these records, in their order, and no other change. */
  ghost predicate AppendsWarnings(alerts: A.Store, alerts': A.Store, rs: seq<Record>, exposure: string,
                                  stamps: seq<A.Stamp>)
    requires |stamps| >= |rs|
  {
    && |alerts'.order| == |alerts.order| + |rs| && alerts'.order[..|alerts.order|] == alerts.order
    && (forall id :: id in alerts.mem ==> id in alerts'.mem && alerts'.mem[id] == alerts.mem[id])
    && (forall i :: 0 <= i < |rs| ==> Warned(alerts, alerts', i, rs[i], exposure, stamps[i]))
  }

  lemma ReviewAlertWarns(r: Record, exposure: string, stamp: A.Stamp)
    ensures Warns(ReviewAlert(r, exposure, stamp), r, exposure, stamp)
  {
    D.SeverityExactly(exposure);
  }

  lemma {:induction false} ReviewWarns(alerts: A.Store, rs: seq<Record>, exposure: string, stamps: seq<A.Stamp>)
    requires A.WellFormed(alerts) && |stamps| >= |rs| && A.NewIds(alerts, ReviewAlerts(rs, exposure, stamps))
    ensures AppendsWarnings(alerts, A.InsertedAll(alerts, ReviewAlerts(rs, exposure, stamps)), rs, exposure, stamps)
  {
    var added := ReviewAlerts(rs, exposure, stamps);
    A.InsertedAllAppends(alerts, added);
    var alerts' := A.InsertedAll(alerts, added);
    forall i | 0 <= i < |rs| ensures Warned(alerts, alerts', i, rs[i], exposure, stamps[i]) {
      assert alerts'.order[|alerts.order| + i] == added[i].id;
      ReviewAlertWarns(rs[i], exposure, stamps[i]);
    }
  }

  /** A review appends, in order of creation time, exactly one alert for each allowed record of the pair,
      with the record's transaction and the review's exposure, and touches no other alert. */
  lemma ReviewIsCompleteAndOrdered(screens: map<string, Record>, address: string, chain: string, alerts: A.Store,
                                   listing: seq<Record>, exposure: string, stamps: seq<A.Stamp>)
    requires IsListing(screens, address, chain, listing) && A.WellFormed(alerts)
    requires |stamps| >= |AllowedOnly(listing)|
    requires A.NewIds(alerts, ReviewAlerts(AllowedOnly(listing), exposure, stamps))
    ensures var (rs, alerts') := (AllowedOnly(listing), Review(alerts, listing, exposure, stamps));
            && AppendsWarnings(alerts, alerts', rs, exposure, stamps)
            && SortedByTime(rs) && Distinct(rs)
            && forall r :: r in rs <==> r.screenId in screens && screens[r.screenId] == r && r.address == address &&
                                        r.chain == chain && r.decision == "ALLOW"
  {
    AllowedOnlyMembers(listing);
    AllowedOnlyOrder(listing);
    ReviewWarns(alerts, AllowedOnly(listing), exposure, stamps);
  }

  lemma {:induction false} SortedDistinctUnique(xs: seq<Record>, ys: seq<Record>)
    requires SortedByTime(xs) && SortedByTime(ys)
    requires forall i, j :: 0 <= i < j < |xs| ==> xs[i].createdAt != xs[j].createdAt
    requires Distinct(ys)
    requires forall r :: r in xs <==> r in ys
    ensures xs == ys
  {
    if xs == [] {
      assert forall i :: 0 <= i < |ys| ==> ys[i] in xs;
    } else {
      var n := |xs| - 1;
      assert xs[n] in ys;
      var m := |ys| - 1;
      assert ys[m] in xs;
      var k :| 0 <= k < |xs| && xs[k] == ys[m];
      var l :| 0 <= l < |ys| && ys[l] == xs[n];
      assert xs[n].createdAt <= ys[m].createdAt;
      assert k == n;
      forall r ensures r in xs[..n] <==> r in ys[..m] {
        assert r in xs <==> r in xs[..n] || r == xs[n];
        assert r in ys <==> r in ys[..m] || r == ys[m];
        assert xs[n] !in xs[..n];
        assert ys[m] !in ys[..m];
      }
      SortedDistinctUnique(xs[..n], ys[..m]);
    }
  }

  /** Listings that agree on what they hold are the same listing when no two matching records share a
      creation time. */
  lemma {:induction false} ListingIsUnique(screens: map<string, Record>, address: string, chain: string,
                                           xs: seq<Record>, ys: seq<Record>)
    requires IsListing(screens, address, chain, xs) && IsListing(screens, address, chain, ys)
    requires forall i, j :: 0 <= i < j < |xs| ==> xs[i].createdAt != xs[j].createdAt
    ensures xs == ys
  {
    SortedDistinctUnique(xs, ys);
  }
}
