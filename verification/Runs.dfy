/** Whole runs of the screening system, each call one atomic step, and what the cache means in them. */
module Runs {
  import opened Text
  import opened Keys
  import opened Screening
  import D = Decision
  import C = Cache
  import A = Alert

  /** The stores, the webhook processor's memory, the reviews started but not yet run, and the clock. */
  datatype World = World(stores: Stores, seen: set<string>, reviews: seq<Reclassification>, now: int)

  datatype Step =
    | Screening(req: Request, inputs: Inputs)
    | Webhook(vendor: string, delivery: Delivery, stamp: A.Stamp)
    | Reviewing(index: nat, listing: seq<Record>, stamps: seq<A.Stamp>)
    | Reload(env: seq<string>)
    | Override(chain: string, block: int, highRisk: int)
    | Modify(id: string, change: A.Change)
    | Tick(to: int)

  ghost predicate Start(w: World) {
    w.stores.cache == map[] && w.stores.screens == map[] && w.stores.alerts == A.EMPTY && w.stores.audit == [] &&
    w.seen == {} && w.reviews == []
  }

  function Next(w: World, s: Step): World {
    match s
    case Screening(req, i) => w.(stores := Screen(w.stores, req, i).0, now := i.screen.at)
    case Webhook(vendor, d, stamp) =>
      var e := Ingest(w.stores, w.seen, vendor, d, stamp);
      World(e.stores, e.seen, w.reviews + (if e.review.Some? then [e.review.value] else []), stamp.at)
    case Reviewing(n, listing, stamps) =>
      if n >= |w.reviews| || |stamps| < |AllowedOnly(listing)| then w
      else
        w.(stores := w.stores.(alerts := Review(w.stores.alerts, listing, w.reviews[n].exposure, stamps)),
           reviews := w.reviews[..n] + w.reviews[n + 1..])
    case Reload(env) => w.(stores := w.stores.(thresholds := D.Reload(w.stores.thresholds, env)))
    case Override(chain, block, high) =>
      w.(stores := w.stores.(thresholds := D.WithOverride(w.stores.thresholds, chain, block, high)))
    case Modify(id, change) => w.(stores := w.stores.(alerts := A.Modify(w.stores.alerts, id, change).0))
    case Tick(to) => w.(now := to)
  }

  /** ws[k] is the world before the k-th step of the run. */
  ghost predicate StepAt(ws: seq<World>, run: seq<Step>, k: nat)
    requires k < |run| && |ws| == |run| + 1
  {
    ws[k + 1] == Next(ws[k], run[k])
  }

  ghost predicate Behavior(ws: seq<World>, run: seq<Step>) {
    |ws| == |run| + 1 && Start(ws[0]) && forall k: nat :: k < |run| ==> StepAt(ws, run, k)
  }

  /** Every sequence of calls, from every starting world, is a run. */
  lemma {:induction false} BehaviorExists(w: World, run: seq<Step>) returns (ws: seq<World>)
    requires Start(w)
    ensures Behavior(ws, run) && ws[0] == w
  {
    if run == [] {
      ws := [w];
    } else {
      var n := |run| - 1;
      var init := BehaviorExists(w, run[..n]);
      ws := init + [Next(init[n], run[n])];
      forall k: nat | k < |run| ensures StepAt(ws, run, k) {
        if k < n { assert StepAt(init, run[..n], k); }
      }
    }
  }

  /** What the caller of a Screen step is told. */
  function Reply(w: World, s: Step): Outcome
    requires s.Screening?
  {
    Screen(w.stores, s.req, s.inputs).1
  }

  function ReplyCore(r: Response): Core {
    Core(r.score, r.exposure, r.decision, r.vendor)
  }

  /** The clock does not run backwards. */
  predicate OnTime(w: World, s: Step) {
    match s
    case Screening(_, i) => w.now <= i.lookupAt <= i.cacheAt <= i.screen.at
    case Webhook(_, _, stamp) => w.now <= stamp.at
    case Tick(to) => w.now <= to
    case _ => true
  }

  ghost predicate Clocked(ws: seq<World>, run: seq<Step>)
    requires |ws| == |run| + 1
  {
    forall k :: 0 <= k < |run| ==> OnTime(ws[k], run[k])
  }

  // ------------------------------------------------------------- cache traffic

  /** What a step does to the cache: it learns a verdict (a vendor answer), or forgets one (a webhook that
      was not seen before), or neither. */
  datatype Traffic = Learned(key: string, entry: C.Entry) | Forgotten(key: string) | Nothing

  /** The verdict on the answer of a Screen step, under the thresholds of its moment. */
  function CoreAt(w: World, s: Step): Core
    requires s.Screening?
  {
    Classify(w.stores.thresholds, s.inputs.answer, s.req.chain)
  }

  function EntryAt(w: World, s: Step): C.Entry
    requires s.Screening?
  {
    C.Entry(VerdictFor(s.req, CoreAt(w, s)), s.inputs.cacheAt + C.Ttl(w.stores.ttls, CoreAt(w, s).exposure))
  }

  function TrafficAt(w: World, s: Step): Traffic {
    match s
    case Screening(req, i) =>
      if AsksVendor(w.stores, req, i) && i.answer.Answer? then Learned(KeyOf(req), EntryAt(w, s)) else Nothing
    case Webhook(vendor, d, _) =>
      (match Fresh(w.seen, vendor, d)
       case None => Nothing
       case Some(rec) => Forgotten(CacheKey(rec.address, rec.chain)))
    case _ => Nothing
  }

  ghost function Trace(ws: seq<World>, run: seq<Step>): (t: seq<Traffic>)
    requires |ws| == |run| + 1
    ensures |t| == |run| && forall k :: 0 <= k < |t| ==> t[k] == TrafficAt(ws[k], run[k])
  {
    seq(|run|, k requires 0 <= k < |run| => TrafficAt(ws[k], run[k]))
  }

  function Carry(m: map<string, C.Entry>, t: Traffic): map<string, C.Entry> {
    match t
    case Learned(key, e) => m[key := e]
    case Forgotten(key) => m - {key}
    case Nothing => m
  }

  function CacheAfter(t: seq<Traffic>, k: nat): map<string, C.Entry>
    requires k <= |t|
  {
    if k == 0 then map[] else Carry(CacheAfter(t, k - 1), t[k - 1])
  }

  predicate Learns(t: Traffic, key: string) { t.Learned? && t.key == key }
  predicate Forgets(t: Traffic, key: string) { t.Forgotten? && t.key == key }

  /** From step i up to step k, nothing is learned or forgotten about the key. */
  predicate Quiet(t: seq<Traffic>, i: int, k: int, key: string)
    requires 0 <= i && k <= |t|
  {
    forall l :: i <= l < k ==> !Learns(t[l], key) && !Forgets(t[l], key)
  }

  predicate Unforgotten(t: seq<Traffic>, i: int, k: int, key: string)
    requires 0 <= i && k <= |t|
  {
    forall l :: i <= l < k ==> !Forgets(t[l], key)
  }

  /** Step j is the last traffic about the key before step k, and it learned it. */
  predicate Supplies(t: seq<Traffic>, j: int, k: int, key: string)
    requires k <= |t|
  {
    0 <= j < k && Learns(t[j], key) && Quiet(t, j + 1, k, key)
  }

  lemma {:induction false} SuppliedEntry(t: seq<Traffic>, j: int, k: int, key: string)
    requires 0 <= k <= |t| && Supplies(t, j, k, key)
    ensures key in CacheAfter(t, k) && CacheAfter(t, k)[key] == t[j].entry
    decreases k
  {
    if j < k - 1 { SuppliedEntry(t, j, k - 1, key); }
  }

  lemma {:induction false} EntryHasSupplier(t: seq<Traffic>, k: nat, key: string)
    requires k <= |t| && key in CacheAfter(t, k)
    ensures exists j :: Supplies(t, j, k, key)
  {
    if Learns(t[k - 1], key) {
      assert Supplies(t, k - 1, k, key);
    } else {
      EntryHasSupplier(t, k - 1, key);
      var j :| Supplies(t, j, k - 1, key);
      assert Supplies(t, j, k, key);
    }
  }

  lemma ScreenCarriesCache(s: Stores, req: Request, i: Inputs)
    ensures var s' := Screen(s, req, i).0;
            && s'.cached == s.cached && s'.ttls == s.ttls
            && s'.cache == if s.cached && AsksVendor(s, req, i) && i.answer.Answer? then
                             C.Set(s.cache, s.ttls, VerdictFor(req, Classify(s.thresholds, i.answer, req.chain)),
                                   i.cacheAt)
                           else s.cache
  {
  }

  lemma IngestCarriesCache(s: Stores, seen: set<string>, vendor: string, d: Delivery, stamp: A.Stamp)
    ensures var s' := Ingest(s, seen, vendor, d, stamp).stores;
            && s'.cached == s.cached && s'.ttls == s.ttls
            && s'.cache == match Fresh(seen, vendor, d)
                           case None => s.cache
                           case Some(rec) => if s.cached then C.Delete(s.cache, rec.address, rec.chain) else s.cache
  {
  }

  lemma StepCarriesCache(w: World, s: Step)
    ensures Next(w, s).stores.cached == w.stores.cached && Next(w, s).stores.ttls == w.stores.ttls
    ensures Next(w, s).stores.cache == if w.stores.cached then Carry(w.stores.cache, TrafficAt(w, s)) else w.stores.cache
  {
    match s
    case Screening(req, i) => ScreenCarriesCache(w.stores, req, i);
    case Webhook(vendor, d, stamp) => IngestCarriesCache(w.stores, w.seen, vendor, d, stamp);
    case _ =>
  }

  lemma {:induction false} CacheIsTraffic(ws: seq<World>, run: seq<Step>, k: nat)
    requires Behavior(ws, run) && k <= |run|
    ensures ws[k].stores.cached == ws[0].stores.cached && ws[k].stores.ttls == ws[0].stores.ttls
    ensures ws[k].stores.cache == if ws[0].stores.cached then CacheAfter(Trace(ws, run), k) else map[]
  {
    if k > 0 {
      CacheIsTraffic(ws, run, k - 1);
      assert StepAt(ws, run, k - 1);
      StepCarriesCache(ws[k - 1], run[k - 1]);
    }
  }

  /** Step j put into the cache what step k looks up, and at step k its time to live has not run out. */
  ghost predicate Serves(ws: seq<World>, run: seq<Step>, j: int, k: int)
    requires |ws| == |run| + 1 && 0 <= k < |run| && run[k].Screening?
  {
    Supplies(Trace(ws, run), j, k, KeyOf(run[k].req)) && run[k].inputs.lookupAt <= EntryAt(ws[j], run[j]).expiresAt
  }

  /** What the cache answers at any step of any run is decided by the vendor answers, webhooks and times
      of the steps before it: it hits exactly when some step serves it, and then with that step's
      verdict. No assumption on the clock, the thresholds or the chains. */
  lemma CacheHitExactly(ws: seq<World>, run: seq<Step>, k: nat)
    requires Behavior(ws, run) && ws[0].stores.cached && k < |run| && run[k].Screening?
    ensures var found := Lookup(ws[k].stores, run[k].req, run[k].inputs.lookupAt);
            && (found.Some? <==> exists j :: Serves(ws, run, j, k))
            && forall j :: Serves(ws, run, j, k) ==> found == Some(VerdictFor(run[j].req, CoreAt(ws[j], run[j])))
  {
    var t, key := Trace(ws, run), KeyOf(run[k].req);
    CacheIsTraffic(ws, run, k);
    forall j | Supplies(t, j, k, key)
      ensures key in CacheAfter(t, k) && CacheAfter(t, k)[key] == EntryAt(ws[j], run[j])
    {
      SuppliedEntry(t, j, k, key);
    }
    if key in CacheAfter(t, k) {
      EntryHasSupplier(t, k, key);
      var j :| Supplies(t, j, k, key);
      assert Serves(ws, run, j, k) <==> Lookup(ws[k].stores, run[k].req, run[k].inputs.lookupAt).Some?;
    }
  }

  // ------------------------------------------------------- what justifies an ALLOW

  /** No two chains that are screened in the run are confused by the cache. */
  ghost predicate SeparatedRun(run: seq<Step>) {
    forall i, j :: 0 <= i < |run| && 0 <= j < |run| && run[i].Screening? && run[j].Screening? ==>
      !Extends(run[i].req.chain, run[j].req.chain)
  }

  lemma SameKeySamePair(run: seq<Step>, i: nat, j: nat)
    requires SeparatedRun(run) && i < |run| && j < |run| && run[i].Screening? && run[j].Screening?
    requires KeyOf(run[i].req) == KeyOf(run[j].req)
    ensures run[i].req.address == run[j].req.address && run[i].req.chain == run[j].req.chain
  {
    CacheKeyCollision(run[i].req.address, run[i].req.chain, run[j].req.address, run[j].req.chain);
  }

  lemma ServerIsScreening(ws: seq<World>, run: seq<Step>, j: int, k: int)
    requires |ws| == |run| + 1 && 0 <= k < |run| && run[k].Screening? && Serves(ws, run, j, k)
    ensures 0 <= j < k && run[j].Screening? && run[j].inputs.answer.Answer? && KeyOf(run[j].req) == KeyOf(run[k].req)
    ensures Validate(run[j].req).None? && AsksVendor(ws[j].stores, run[j].req, run[j].inputs)
  {
  }

  /** Step j entitles step k to an ALLOW: at j the vendor answered about the very same address and chain,
      and the answer was classified CLEAN under the thresholds of that moment; j is k itself, or it was
      cached no more than the default time to live before k looked, with no later vendor answer and no
      re-classification of the pair in between. */
  ghost predicate Entitles(ws: seq<World>, run: seq<Step>, j: int, k: int)
    requires |ws| == |run| + 1 && 0 <= k < |run| && run[k].Screening?
  {
    var t, key := Trace(ws, run), KeyOf(run[k].req);
    && 0 <= j <= k && Learns(t[j], key)
    && run[j].req.address == run[k].req.address && run[j].req.chain == run[k].req.chain
    && CoreAt(ws[j], run[j]).exposure == D.CLEAN
    && (j < k ==> && ws[0].stores.cached && Quiet(t, j + 1, k, key)
                  && run[k].inputs.lookupAt <= run[j].inputs.cacheAt + ws[0].stores.ttls.default)
  }

  lemma CleanIffAllowed(th: D.Config, answer: VendorAnswer, chain: string)
    ensures Classify(th, answer, chain).decision == D.ALLOW <==>
            answer.Answer? && Classify(th, answer, chain).exposure == D.CLEAN
  {
  }

  lemma ReplyRepeats(w: World, s: Step)
    requires s.Screening? && Reply(w, s).Screened?
    ensures Validate(s.req).None?
    ensures var found := Lookup(w.stores, s.req, s.inputs.lookupAt);
            ReplyCore(Reply(w, s).response) == if found.Some? then CoreOf(found.value) else CoreAt(w, s)
    ensures Reply(w, s).response.cacheHit <==> Lookup(w.stores, s.req, s.inputs.lookupAt).Some?
  {
  }

  /** An entitling step before k is one that serves k with a CLEAN verdict. */
  lemma EntitlesIsServesClean(ws: seq<World>, run: seq<Step>, j: int, k: int)
    requires Behavior(ws, run) && ws[0].stores.cached && SeparatedRun(run) && 0 <= j < k < |run| && run[k].Screening?
    ensures Entitles(ws, run, j, k) <==> Serves(ws, run, j, k) && CoreAt(ws[j], run[j]).exposure == D.CLEAN
  {
    CacheIsTraffic(ws, run, j);
    if Serves(ws, run, j, k) {
      ServerIsScreening(ws, run, j, k);
      SameKeySamePair(run, j, k);
    }
  }

  /** A call that misses the cache is told ALLOW exactly when its own answer entitles it. */
  lemma OwnAnswerEntitles(ws: seq<World>, run: seq<Step>, k: nat)
    requires |ws| == |run| + 1 && k < |run| && run[k].Screening? && Reply(ws[k], run[k]).Screened?
    requires Lookup(ws[k].stores, run[k].req, run[k].inputs.lookupAt).None?
    ensures Reply(ws[k], run[k]).response.decision == D.ALLOW <==> Entitles(ws, run, k, k)
  {
    ReplyRepeats(ws[k], run[k]);
    CleanIffAllowed(ws[k].stores.thresholds, run[k].inputs.answer, run[k].req.chain);
  }

  /** A call that hits the cache is told ALLOW exactly when the step that serves it was CLEAN. */
  lemma ServedAnswerEntitles(ws: seq<World>, run: seq<Step>, j: int, k: nat)
    requires Behavior(ws, run) && ws[0].stores.cached && SeparatedRun(run)
    requires k < |run| && run[k].Screening? && Reply(ws[k], run[k]).Screened? && Serves(ws, run, j, k)
    ensures Reply(ws[k], run[k]).response.decision == D.ALLOW <==> Entitles(ws, run, j, k)
  {
    CacheHitExactly(ws, run, k);
    ReplyRepeats(ws[k], run[k]);
    ServerIsScreening(ws, run, j, k);
    EntitlesIsServesClean(ws, run, j, k);
    CleanIffAllowed(ws[j].stores.thresholds, run[j].inputs.answer, run[j].req.chain);
  }

  lemma SupplierIsUnique(ws: seq<World>, run: seq<Step>, j: int, k: int)
    requires |ws| == |run| + 1 && 0 <= k < |run| && run[k].Screening? && Serves(ws, run, j, k)
    ensures forall i :: Serves(ws, run, i, k) ==> i == j
  {
  }

  lemma ServedAsksNobody(ws: seq<World>, run: seq<Step>, j: nat, k: nat)
    requires Behavior(ws, run) && ws[0].stores.cached && k < |run| && run[k].Screening? && Serves(ws, run, j, k)
    ensures Trace(ws, run)[k].Nothing?
  {
    CacheHitExactly(ws, run, k);
  }

  /** Before k itself, only a step that serves k entitles it. */
  lemma OnlyServersEntitle(ws: seq<World>, run: seq<Step>, k: nat)
    requires Behavior(ws, run) && (ws[0].stores.cached ==> SeparatedRun(run)) && k < |run| && run[k].Screening?
    ensures forall i :: Entitles(ws, run, i, k) ==> i == k || (ws[0].stores.cached && Serves(ws, run, i, k))
  {
    forall i | Entitles(ws, run, i, k) ensures i == k || (ws[0].stores.cached && Serves(ws, run, i, k)) {
      if i < k { EntitlesIsServesClean(ws, run, i, k); }
    }
  }

  lemma AllowWhenServed(ws: seq<World>, run: seq<Step>, j: int, k: nat)
    requires Behavior(ws, run) && ws[0].stores.cached && SeparatedRun(run)
    requires k < |run| && run[k].Screening? && Reply(ws[k], run[k]).Screened? && Serves(ws, run, j, k)
    ensures Reply(ws[k], run[k]).response.decision == D.ALLOW <==> exists i :: Entitles(ws, run, i, k)
  {
    ServedAnswerEntitles(ws, run, j, k);
    ServedAsksNobody(ws, run, j, k);
    OnlyServersEntitle(ws, run, k);
    SupplierIsUnique(ws, run, j, k);
  }

  lemma AllowWhenMissed(ws: seq<World>, run: seq<Step>, k: nat)
    requires Behavior(ws, run) && (ws[0].stores.cached ==> SeparatedRun(run))
    requires k < |run| && run[k].Screening? && Reply(ws[k], run[k]).Screened?
    requires ws[0].stores.cached ==> forall i :: !Serves(ws, run, i, k)
    requires Lookup(ws[k].stores, run[k].req, run[k].inputs.lookupAt).None?
    ensures Reply(ws[k], run[k]).response.decision == D.ALLOW <==> exists i :: Entitles(ws, run, i, k)
  {
    OwnAnswerEntitles(ws, run, k);
    OnlyServersEntitle(ws, run, k);
  }

  /** In every run, with a cache or without, a Screen call that gets a response is told ALLOW exactly when
      some step entitles it. */
  lemma AllowExactlyWhenEntitled(ws: seq<World>, run: seq<Step>, k: nat)
    requires Behavior(ws, run) && (ws[0].stores.cached ==> SeparatedRun(run))
    requires k < |run| && run[k].Screening? && Reply(ws[k], run[k]).Screened?
    ensures Reply(ws[k], run[k]).response.decision == D.ALLOW <==> exists j :: Entitles(ws, run, j, k)
  {
    CacheIsTraffic(ws, run, k);
    if ws[0].stores.cached {
      CacheHitExactly(ws, run, k);
      if j :| Serves(ws, run, j, k) {
        AllowWhenServed(ws, run, j, k);
        return;
      }
    }
    AllowWhenMissed(ws, run, k);
  }

  // --------------------------------------------------- what stands behind any reply

  /** Step j stands behind step k: at j the vendor answered about the very same address and chain, and that
      answer is k's own, or it was cached no longer than the time to live of its exposure before k looked, with
      no later vendor answer and no re-classification of the pair in between. */
  ghost predicate Stands(ws: seq<World>, run: seq<Step>, j: int, k: int)
    requires |ws| == |run| + 1 && 0 <= k < |run| && run[k].Screening?
  {
    var t, key := Trace(ws, run), KeyOf(run[k].req);
    && 0 <= j <= k && Learns(t[j], key)
    && run[j].req.address == run[k].req.address && run[j].req.chain == run[k].req.chain
    && (j < k ==> && ws[0].stores.cached && Quiet(t, j + 1, k, key)
                  && run[k].inputs.lookupAt <= run[j].inputs.cacheAt +
                       if CoreAt(ws[j], run[j]).exposure == "SANCTIONED" then ws[0].stores.ttls.sanctioned
                       else ws[0].stores.ttls.default)
  }

  lemma StandsIsServes(ws: seq<World>, run: seq<Step>, j: int, k: int)
    requires Behavior(ws, run) && ws[0].stores.cached && SeparatedRun(run) && 0 <= j < k < |run| && run[k].Screening?
    ensures Stands(ws, run, j, k) <==> Serves(ws, run, j, k)
  {
    CacheIsTraffic(ws, run, j);
    if Serves(ws, run, j, k) {
      ServerIsScreening(ws, run, j, k);
      SameKeySamePair(run, j, k);
    }
  }

  lemma ServedReply(ws: seq<World>, run: seq<Step>, j: int, k: nat)
    requires Behavior(ws, run) && ws[0].stores.cached && SeparatedRun(run)
    requires k < |run| && run[k].Screening? && Reply(ws[k], run[k]).Screened? && Serves(ws, run, j, k)
    ensures Stands(ws, run, j, k) && ReplyCore(Reply(ws[k], run[k]).response) == CoreAt(ws[j], run[j])
    ensures forall i :: Stands(ws, run, i, k) ==> i == j
  {
    ServerIsScreening(ws, run, j, k);
    StandsIsServes(ws, run, j, k);
    CacheHitExactly(ws, run, k);
    ReplyRepeats(ws[k], run[k]);
    ServedAsksNobody(ws, run, j, k);
    SupplierIsUnique(ws, run, j, k);
    forall i | Stands(ws, run, i, k) ensures i == j {
      if i < k { StandsIsServes(ws, run, i, k); }
    }
  }

  lemma OwnReply(ws: seq<World>, run: seq<Step>, k: nat)
    requires Behavior(ws, run) && (ws[0].stores.cached ==> SeparatedRun(run))
    requires k < |run| && run[k].Screening? && Reply(ws[k], run[k]).Screened?
    requires ws[0].stores.cached ==> forall i :: !Serves(ws, run, i, k)
    requires Lookup(ws[k].stores, run[k].req, run[k].inputs.lookupAt).None?
    ensures ReplyCore(Reply(ws[k], run[k]).response) == CoreAt(ws[k], run[k])
    ensures Stands(ws, run, k, k) <==> run[k].inputs.answer.Answer?
    ensures forall i :: Stands(ws, run, i, k) ==> i == k
  {
    ReplyRepeats(ws[k], run[k]);
    forall i | Stands(ws, run, i, k) ensures i == k {
      if i < k { StandsIsServes(ws, run, i, k); }
    }
  }

  /** Every reply is the verdict on the answer of the one step that stands behind it, under the thresholds of
      that step's moment; and when none does, the vendor could not be reached and the reply is the fail-safe one. */
  lemma ReplyExactly(ws: seq<World>, run: seq<Step>, k: nat)
    requires Behavior(ws, run) && (ws[0].stores.cached ==> SeparatedRun(run))
    requires k < |run| && run[k].Screening? && Reply(ws[k], run[k]).Screened?
    ensures forall j :: Stands(ws, run, j, k) ==> ReplyCore(Reply(ws[k], run[k]).response) == CoreAt(ws[j], run[j])
    ensures (forall j :: !Stands(ws, run, j, k)) ==>
              run[k].inputs.answer == Unreachable &&
              ReplyCore(Reply(ws[k], run[k]).response) == Core(0, "UNKNOWN", "MANUAL_REVIEW", "")
    ensures forall i, j :: Stands(ws, run, i, k) && Stands(ws, run, j, k) ==> i == j
  {
    CacheIsTraffic(ws, run, k);
    if ws[0].stores.cached {
      CacheHitExactly(ws, run, k);
      if j :| Serves(ws, run, j, k) {
        ServedReply(ws, run, j, k);
        return;
      }
    }
    OwnReply(ws, run, k);
  }

  /** The answer calls for a block: it is sanctioned, by name or by a score that reaches the block threshold of
      the chain, or it is unknown in a configuration that blocks the unknown. */
  predicate CallsForBlock(th: D.Config, answer: VendorAnswer, chain: string) {
    answer.Answer? &&
    var (block, high) := D.ThresholdsFor(th, chain);
    || answer.exposure == "SANCTIONED" || (answer.exposure == "" && answer.score >= block)
    || (th.unknownDecision == "BLOCK" &&
        (answer.exposure == "UNKNOWN" ||
         (answer.exposure == "" && answer.score < 0 && answer.score < block && answer.score < high)))
  }

  lemma BlockIffCalledFor(th: D.Config, answer: VendorAnswer, chain: string)
    ensures Classify(th, answer, chain).decision == "BLOCK" <==> CallsForBlock(th, answer, chain)
  {
    if answer.Answer? { D.BlockExactly(th, answer.exposure, answer.score, chain); }
  }

  /** In every run, with a cache or without, a Screen call that gets a response is told BLOCK exactly when the
      answer that stands behind it called for a block under the thresholds of its moment. */
  lemma BlockExactlyWhenCalledFor(ws: seq<World>, run: seq<Step>, k: nat)
    requires Behavior(ws, run) && (ws[0].stores.cached ==> SeparatedRun(run))
    requires k < |run| && run[k].Screening? && Reply(ws[k], run[k]).Screened?
    ensures Reply(ws[k], run[k]).response.decision == "BLOCK" <==>
            exists j :: Stands(ws, run, j, k) &&
                        CallsForBlock(ws[j].stores.thresholds, run[j].inputs.answer, run[j].req.chain)
  {
    ReplyExactly(ws, run, k);
    if j :| Stands(ws, run, j, k) {
      BlockIffCalledFor(ws[j].stores.thresholds, run[j].inputs.answer, run[j].req.chain);
    }
  }

  // --------------------------------------------------- caching preserves meaning

  ghost predicate FixedThresholds(ws: seq<World>) {
    forall w :: w in ws ==> w.stores.thresholds == ws[0].stores.thresholds
  }

  /** The vendor always answers, as a function of address and chain. */
  ghost predicate AnswersAs(run: seq<Step>, f: (string, string) -> VendorAnswer) {
    forall k :: 0 <= k < |run| && run[k].Screening? ==>
      run[k].inputs.answer == f(run[k].req.address, run[k].req.chain) && run[k].inputs.answer.Answer?
  }

  /** With or without a cache, the reply is the verdict on the vendor's answer about that pair. */
  lemma ReplyIsVendorsVerdict(ws: seq<World>, run: seq<Step>, k: nat, f: (string, string) -> VendorAnswer)
    requires Behavior(ws, run) && FixedThresholds(ws) && AnswersAs(run, f)
    requires ws[0].stores.cached ==> SeparatedRun(run)
    requires k < |run| && run[k].Screening? && Reply(ws[k], run[k]).Screened?
    ensures ReplyCore(Reply(ws[k], run[k]).response) ==
            Classify(ws[0].stores.thresholds, f(run[k].req.address, run[k].req.chain), run[k].req.chain)
  {
    CacheIsTraffic(ws, run, k);
    ReplyRepeats(ws[k], run[k]);
    if ws[0].stores.cached {
      CacheHitExactly(ws, run, k);
      if j :| Serves(ws, run, j, k) {
        ServerIsScreening(ws, run, j, k);
        SameKeySamePair(run, j, k);
      }
    }
  }

  /** The service with a cache and the service without one tell every caller the same score, exposure,
      decision and vendor, whatever requests, webhooks, reviews and clock readings surround the call. */
  lemma CachingPreservesMeaning(ws: seq<World>, run: seq<Step>, k: nat, us: seq<World>, run': seq<Step>, k': nat,
                                f: (string, string) -> VendorAnswer)
    requires Behavior(ws, run) && ws[0].stores.cached && SeparatedRun(run)
    requires Behavior(us, run') && !us[0].stores.cached
    requires ws[0].stores.thresholds == us[0].stores.thresholds && FixedThresholds(ws) && FixedThresholds(us)
    requires AnswersAs(run, f) && AnswersAs(run', f)
    requires k < |run| && run[k].Screening? && Reply(ws[k], run[k]).Screened?
    requires k' < |run'| && run'[k'].Screening? && Reply(us[k'], run'[k']).Screened?
    requires run[k].req.address == run'[k'].req.address && run[k].req.chain == run'[k'].req.chain
    ensures ReplyCore(Reply(ws[k], run[k]).response) == ReplyCore(Reply(us[k'], run'[k']).response)
  {
    ReplyIsVendorsVerdict(ws, run, k, f);
    ReplyIsVendorsVerdict(us, run', k', f);
  }

  ghost predicate ChainsIn(run: seq<Step>, chains: set<string>) {
    forall k :: 0 <= k < |run| && run[k].Screening? ==> run[k].req.chain in chains
  }

  /** Every response of the run is the verdict on the vendor's answer about its own pair. */
  ghost predicate Faithful(ws: seq<World>, run: seq<Step>, f: (string, string) -> VendorAnswer)
    requires |ws| == |run| + 1
  {
    forall k :: 0 <= k < |run| && run[k].Screening? && Reply(ws[k], run[k]).Screened? ==>
      ReplyCore(Reply(ws[k], run[k]).response) ==
      Classify(ws[0].stores.thresholds, f(run[k].req.address, run[k].req.chain), run[k].req.chain)
  }

  /** A run of a cached service with fixed thresholds, a vendor that answers as f, and these chains. */
  ghost predicate SteadyRun(ws: seq<World>, run: seq<Step>, f: (string, string) -> VendorAnswer, chains: set<string>) {
    Behavior(ws, run) && ws[0].stores.cached && FixedThresholds(ws) && AnswersAs(run, f) && ChainsIn(run, chains)
  }

  ghost predicate FaithfulOn(chains: set<string>) {
    forall ws: seq<World>, run: seq<Step>, f: (string, string) -> VendorAnswer ::
      SteadyRun(ws, run, f, chains) ==> Faithful(ws, run, f)
  }

  function Ask(address: string, chain: string, answer: VendorAnswer, id: string, at: int): Step {
    Screening(Request("t", address, "", chain, "1"), Inputs(answer, at, at, A.Stamp(id, at), A.Stamp(id, at)))
  }

  lemma AskIsValid(address: string, chain: string, answer: VendorAnswer, id: string, at: int)
    requires !IsBlank(address) && !IsBlank(chain) && id != ""
    ensures Validate(Ask(address, chain, answer, id, at).req).None?
    ensures forall w: World :: Reply(w, Ask(address, chain, answer, id, at)).Screened?
  {
    assert "t"[0] == 't' && "1"[0] == '1';
  }

  lemma EndsInX(s: string)
    ensures !IsBlank(s + "x")
  {
    assert (s + "x")[|s|] == 'x';
  }

  lemma ScreenKeepsThresholds(w: World, s: Step)
    requires s.Screening?
    ensures Next(w, s).stores.thresholds == w.stores.thresholds
  {
  }

  lemma TwoStepsFixThresholds(ws: seq<World>, run: seq<Step>)
    requires Behavior(ws, run) && |run| == 2 && run[0].Screening? && run[1].Screening?
    ensures FixedThresholds(ws)
  {
    assert StepAt(ws, run, 0) && StepAt(ws, run, 1);
    ScreenKeepsThresholds(ws[0], run[0]);
    ScreenKeepsThresholds(ws[1], run[1]);
  }

  /** Of two calls under one key at one moment, the second gets the verdict of the first. */
  lemma FirstAnswersSecond(ws: seq<World>, run: seq<Step>)
    requires Behavior(ws, run) && ws[0].stores.cached && |run| == 2 && run[0].Screening? && run[1].Screening?
    requires KeyOf(run[0].req) == KeyOf(run[1].req) && Validate(run[0].req).None? && run[0].inputs.answer.Answer?
    requires run[1].inputs.lookupAt <= EntryAt(ws[0], run[0]).expiresAt && Reply(ws[1], run[1]).Screened?
    ensures ReplyCore(Reply(ws[1], run[1]).response) == CoreAt(ws[0], run[0])
  {
    assert Trace(ws, run)[0] == Learned(KeyOf(run[1].req), EntryAt(ws[0], run[0]));
    assert Serves(ws, run, 0, 1);
    CacheHitExactly(ws, run, 1);
    ReplyRepeats(ws[1], run[1]);
  }

  lemma ConfusedAddress(c1: string, c2: string) returns (a: string)
    requires Extends(c1, c2)
    ensures !IsBlank(a) && !IsBlank("x") && CacheKey(a, c1) == CacheKey("x", c2) && c1 != c2
  {
    var m := c2[|c1| + 1..] + ":";
    a := m + "x";
    EndsInX("");
    EndsInX(m);
    assert "" + "x" == "x";
    CacheKeyCollision(a, c1, "x", c2);
  }

  /** With two chains that the cache confuses, a clean verdict on one pair answers for a sanctioned one. */
  lemma ConfusedVerdict(c1: string, c2: string) returns (ws: seq<World>, run: seq<Step>,
                                                        f: (string, string) -> VendorAnswer)
    requires Extends(c1, c2) && !IsBlank(c1) && !IsBlank(c2)
    ensures SteadyRun(ws, run, f, {c1, c2}) && !Faithful(ws, run, f)
  {
    var clean, bad := Answer("v", 0, D.CLEAN), Answer("v", 0, D.SANCTIONED);
    f := (address: string, chain: string) => if chain == c2 then clean else bad;
    var a1 := ConfusedAddress(c1, c2);
    run := [Ask("x", c2, clean, "1", 0), Ask(a1, c1, bad, "2", 0)];
    AskIsValid("x", c2, clean, "1", 0);
    AskIsValid(a1, c1, bad, "2", 0);
    var th := D.Config(90, 50, D.MANUAL_REVIEW, map[], map[]);
    ws := BehaviorExists(World(Stores(true, map[], C.Ttls(0, 0), th, map[], A.EMPTY, []), {}, [], 0), run);
    FirstAnswersSecond(ws, run);
    TwoStepsFixThresholds(ws, run);
  }

  /** A cached service is faithful to its vendor on a set of chains exactly when none extends another by
      a colon. */
  lemma FaithfulIffSeparated(chains: set<string>)
    requires forall c :: c in chains ==> !IsBlank(c)
    ensures FaithfulOn(chains) <==> Separated(chains)
  {
    if Separated(chains) {
      forall ws: seq<World>, run: seq<Step>, f: (string, string) -> VendorAnswer | SteadyRun(ws, run, f, chains)
        ensures Faithful(ws, run, f)
      {
        forall k | 0 <= k < |run| && run[k].Screening? && Reply(ws[k], run[k]).Screened? {
          ReplyIsVendorsVerdict(ws, run, k, f);
        }
      }
    } else {
      var c1, c2 :| c1 in chains && c2 in chains && Extends(c1, c2);
      var ws, run, f := ConfusedVerdict(c1, c2);
      assert SteadyRun(ws, run, f, chains);
    }
  }

  // -------------------------------------------------------- clocks and vendor calls

  lemma {:induction false} ClockAdvances(ws: seq<World>, run: seq<Step>, i: nat, k: nat)
    requires Behavior(ws, run) && Clocked(ws, run) && i <= k <= |run|
    ensures ws[i].now <= ws[k].now
    decreases k - i
  {
    if i < k {
      ClockAdvances(ws, run, i, k - 1);
      assert StepAt(ws, run, k - 1) && OnTime(ws[k - 1], run[k - 1]);
    }
  }

  lemma LaterScreen(ws: seq<World>, run: seq<Step>, i: nat, k: nat)
    requires Behavior(ws, run) && Clocked(ws, run) && i < k < |run| && run[i].Screening? && run[k].Screening?
    ensures run[i].inputs.lookupAt <= run[i].inputs.cacheAt <= run[k].inputs.lookupAt <= run[k].inputs.cacheAt
  {
    assert StepAt(ws, run, i) && OnTime(ws[i], run[i]) && OnTime(ws[k], run[k]);
    ClockAdvances(ws, run, i + 1, k);
  }

  /** The last step before k that learned or forgot something about the key, from step j on. */
  lemma LastTraffic(t: seq<Traffic>, j: nat, k: nat, key: string) returns (i: nat)
    requires j < k <= |t| && Learns(t[j], key) && Unforgotten(t, j, k, key)
    ensures j <= i && Supplies(t, i, k, key)
  {
    i := k - 1;
    while !Learns(t[i], key)
      invariant j <= i < k && Quiet(t, i + 1, k, key)
      decreases i
    {
      i := i - 1;
    }
  }

  /** Two vendor answers about one pair, with no re-classification between them, are more than a time to
      live apart, counted from the end of the first call to the start of the second. */
  lemma VendorGap(ws: seq<World>, run: seq<Step>, j: nat, k: nat, key: string)
    requires Behavior(ws, run) && ws[0].stores.cached && Clocked(ws, run) && j < k < |run|
    requires Learns(Trace(ws, run)[j], key) && Learns(Trace(ws, run)[k], key)
    requires Unforgotten(Trace(ws, run), j, k, key)
    ensures run[k].inputs.lookupAt > run[j].inputs.cacheAt + C.Min(ws[0].stores.ttls)
  {
    var i := LastTraffic(Trace(ws, run), j, k, key);
    CacheIsTraffic(ws, run, i);
    CacheHitExactly(ws, run, k);
    assert !Serves(ws, run, i, k);
    if j < i { LaterScreen(ws, run, j, i); }
  }

  /** More than n gaps lie between the two times. */
  predicate Exceeds(first: int, last: int, n: int, gap: int) {
    last - first > n * gap
  }

  /** From n - 1 gaps to n. */
  lemma GapsAddUp(first: int, lookup: int, cached: int, last: int, n: int, gap: int)
    requires Exceeds(first, lookup, n - 1, gap) && lookup <= cached && last > cached + gap
    ensures Exceeds(first, last, n, gap)
  {
    assert n * gap == (n - 1) * gap + gap;
  }

  lemma OneGap(first: int, last: int, gap: int)
    requires last > first + gap
    ensures Exceeds(first, last, 1, gap)
  {
  }

  ghost predicate VendorCalls(t: seq<Traffic>, calls: seq<nat>, key: string) {
    && (forall n :: 0 <= n < |calls| ==> calls[n] < |t| && Learns(t[calls[n]], key))
    && (forall m, n :: 0 <= m < n < |calls| ==> calls[m] < calls[n])
  }

  lemma FewerCalls(t: seq<Traffic>, calls: seq<nat>, key: string)
    requires |calls| >= 2 && VendorCalls(t, calls, key)
    requires calls[|calls| - 1] < |t| && Unforgotten(t, calls[0], calls[|calls| - 1], key)
    ensures var n := |calls| - 1;
            && VendorCalls(t, calls[..n], key) && calls[0] <= calls[n - 1] < calls[n] < |t|
            && Unforgotten(t, calls[0], calls[n - 1], key) && Unforgotten(t, calls[n - 1], calls[n], key)
            && Learns(t[calls[n - 1]], key) && Learns(t[calls[n]], key)
  {
  }

  lemma {:induction false} GapsBetweenCalls(ws: seq<World>, run: seq<Step>, calls: seq<nat>, key: string, n: nat)
    requires Behavior(ws, run) && ws[0].stores.cached && Clocked(ws, run)
    requires |calls| == n + 1 >= 2 && VendorCalls(Trace(ws, run), calls, key)
    requires Unforgotten(Trace(ws, run), calls[0], calls[n], key)
    ensures Exceeds(run[calls[0]].inputs.cacheAt, run[calls[n]].inputs.lookupAt, n, C.Min(ws[0].stores.ttls))
  {
    var gap, first := C.Min(ws[0].stores.ttls), run[calls[0]].inputs.cacheAt;
    var last, before := calls[n], calls[n - 1];
    FewerCalls(Trace(ws, run), calls, key);
    VendorGap(ws, run, before, last, key);
    if n == 1 {
      OneGap(first, run[last].inputs.lookupAt, gap);
    } else {
      GapsBetweenCalls(ws, run, calls[..n], key, n - 1);
      assert OnTime(ws[before], run[before]);
      GapsAddUp(first, run[before].inputs.lookupAt, run[before].inputs.cacheAt, run[last].inputs.lookupAt, n, gap);
    }
  }

  /** n >= 2 vendor answers about one pair, in a stretch without a re-classification of it, take strictly
      more than n - 1 times the shorter time to live. */
  lemma {:induction false} VendorCallBound(ws: seq<World>, run: seq<Step>, calls: seq<nat>, key: string)
    requires Behavior(ws, run) && ws[0].stores.cached && Clocked(ws, run)
    requires |calls| >= 2 && VendorCalls(Trace(ws, run), calls, key)
    requires Unforgotten(Trace(ws, run), calls[0], calls[|calls| - 1], key)
    ensures run[calls[|calls| - 1]].inputs.lookupAt - run[calls[0]].inputs.cacheAt >
            (|calls| - 1) * C.Min(ws[0].stores.ttls)
  {
    GapsBetweenCalls(ws, run, calls, key, |calls| - 1);
  }

  // -------------------------------------------------------- sanctioned verdicts

  lemma NoSecondAnswer(ws: seq<World>, run: seq<Step>, j: nat, i: nat, k: nat, key: string)
    requires Behavior(ws, run) && ws[0].stores.cached && Clocked(ws, run) && j < i < k < |run| && run[k].Screening?
    requires Supplies(Trace(ws, run), j, i, key) && run[k].inputs.lookupAt <= EntryAt(ws[j], run[j]).expiresAt
    ensures !Learns(Trace(ws, run)[i], key)
  {
    if run[i].Screening? && KeyOf(run[i].req) == key {
      LaterScreen(ws, run, i, k);
      ServedAsksNobody(ws, run, j, i);
    }
  }

  lemma QuietExtends(t: seq<Traffic>, j: nat, i: nat, k: nat, key: string)
    requires j < i < k <= |t| && Quiet(t, j + 1, i, key) && !Learns(t[i], key) && Unforgotten(t, j, k, key)
    ensures Quiet(t, j + 1, i + 1, key)
  {
  }

  lemma {:induction false} LiveEntryStays(ws: seq<World>, run: seq<Step>, j: nat, i: nat, k: nat, key: string)
    requires Behavior(ws, run) && ws[0].stores.cached && Clocked(ws, run) && j < i <= k < |run| && run[k].Screening?
    requires Learns(Trace(ws, run)[j], key) && Unforgotten(Trace(ws, run), j, k, key)
    requires run[k].inputs.lookupAt <= EntryAt(ws[j], run[j]).expiresAt
    ensures Quiet(Trace(ws, run), j + 1, i, key)
    decreases i
  {
    if j + 1 < i {
      LiveEntryStays(ws, run, j, i - 1, k, key);
      NoSecondAnswer(ws, run, j, i - 1, k, key);
      QuietExtends(Trace(ws, run), j, i - 1, k, key);
    }
  }

  lemma LearnerIsScreening(ws: seq<World>, run: seq<Step>, i: nat, key: string)
    requires |ws| == |run| + 1 && i < |run| && Learns(Trace(ws, run)[i], key)
    ensures run[i].Screening? && KeyOf(run[i].req) == key
  {
  }

  /** While a SANCTIONED verdict is the last thing the cache was told about a pair, a valid call about the
      pair is served from the cache, and told BLOCK, exactly until the sanctioned time to live has passed;
      from then on the vendor is asked again, re-classification or not. */
  lemma SanctionedServedExactly(ws: seq<World>, run: seq<Step>, j: nat, k: nat)
    requires Behavior(ws, run) && ws[0].stores.cached && k < |run| && run[k].Screening? && Validate(run[k].req).None?
    requires Supplies(Trace(ws, run), j, k, KeyOf(run[k].req)) && CoreAt(ws[j], run[j]).exposure == D.SANCTIONED
    ensures !AsksVendor(ws[k].stores, run[k].req, run[k].inputs) <==>
            run[k].inputs.lookupAt <= run[j].inputs.cacheAt + ws[0].stores.ttls.sanctioned
    ensures Reply(ws[k], run[k]).Screened? ==>
              var r := Reply(ws[k], run[k]).response;
              && (r.cacheHit <==> run[k].inputs.lookupAt <= run[j].inputs.cacheAt + ws[0].stores.ttls.sanctioned)
              && (r.cacheHit ==> r.decision == D.BLOCK)
  {
    LearnerIsScreening(ws, run, j, KeyOf(run[k].req));
    CacheIsTraffic(ws, run, j);
    CacheHitExactly(ws, run, k);
    assert forall i :: Serves(ws, run, i, k) ==> i == j;
    assert Serves(ws, run, j, k) <==> run[k].inputs.lookupAt <= run[j].inputs.cacheAt + ws[0].stores.ttls.sanctioned;
    if Reply(ws[k], run[k]).Screened? { ReplyRepeats(ws[k], run[k]); }
  }

  /** Once a vendor answer has been classified SANCTIONED and cached, every Screen call about the pair
      within the sanctioned time to live, and before any re-classification of it, is served from the
      cache without asking the vendor and is told BLOCK -- whatever threshold reloads come between. */
  lemma SanctionedSticks(ws: seq<World>, run: seq<Step>, j: nat, k: nat, key: string)
    requires Behavior(ws, run) && ws[0].stores.cached && Clocked(ws, run) && j < k < |run| && run[k].Screening?
    requires Learns(Trace(ws, run)[j], key) && CoreAt(ws[j], run[j]).exposure == D.SANCTIONED
    requires KeyOf(run[k].req) == key && Validate(run[k].req).None?
    requires Unforgotten(Trace(ws, run), j, k, key)
    requires run[k].inputs.lookupAt <= run[j].inputs.cacheAt + ws[0].stores.ttls.sanctioned
    ensures !AsksVendor(ws[k].stores, run[k].req, run[k].inputs)
    ensures Reply(ws[k], run[k]).Screened? ==>
              Reply(ws[k], run[k]).response.decision == D.BLOCK && Reply(ws[k], run[k]).response.cacheHit
  {
    CacheIsTraffic(ws, run, j);
    LiveEntryStays(ws, run, j, k, k, key);
    SanctionedServedExactly(ws, run, j, k);
  }

  /** Two calls about one pair: SANCTIONED first, then, past the time to live, CLEAN. */
  lemma AskedAgain(ws: seq<World>, run: seq<Step>)
    requires Behavior(ws, run) && ws[0].stores.cached && |run| == 2 && run[0].Screening? && run[1].Screening?
    requires run[0].req == run[1].req && Validate(run[0].req).None? && Reply(ws[1], run[1]).Screened?
    requires run[0].inputs.answer.Answer? && CoreAt(ws[0], run[0]).exposure == D.SANCTIONED
    requires run[1].inputs.lookupAt > run[0].inputs.cacheAt + ws[0].stores.ttls.sanctioned
    requires run[1].inputs.answer.Answer? && run[1].inputs.answer.exposure == D.CLEAN
    ensures Learns(Trace(ws, run)[0], KeyOf(run[1].req))
    ensures AsksVendor(ws[1].stores, run[1].req, run[1].inputs) && Reply(ws[1], run[1]).response.decision == D.ALLOW
  {
    assert Supplies(Trace(ws, run), 0, 1, KeyOf(run[1].req));
    SanctionedServedExactly(ws, run, 0, 1);
    ReplyRepeats(ws[1], run[1]);
    CleanIffAllowed(ws[1].stores.thresholds, run[1].inputs.answer, run[1].req.chain);
  }

  lemma AsksAreClocked(ws: seq<World>, run: seq<Step>, later: int)
    requires Behavior(ws, run) && |run| == 2 && run[0].Screening? && run[1].Screening? && ws[0].now == 0 <= later
    requires run[0].inputs.lookupAt == run[0].inputs.cacheAt == run[0].inputs.screen.at == 0
    requires run[1].inputs.lookupAt == run[1].inputs.cacheAt == run[1].inputs.screen.at == later
    ensures Clocked(ws, run)
  {
    assert StepAt(ws, run, 0);
    assert ws[1].now == 0;
  }

  /** For any times to live, a run without webhooks in which a pair is found sanctioned and later, once
      the verdict has expired, the vendor is asked again and the pair is allowed. */
  lemma SanctionedExpires(ttls: C.Ttls) returns (ws: seq<World>, run: seq<Step>)
    ensures Behavior(ws, run) && ws[0].stores.cached && ws[0].stores.ttls == ttls && Clocked(ws, run)
    ensures |run| == 2 && run[0].Screening? && run[1].Screening? && run[0].req == run[1].req
    ensures Learns(Trace(ws, run)[0], KeyOf(run[1].req)) && CoreAt(ws[0], run[0]).exposure == D.SANCTIONED
    ensures AsksVendor(ws[1].stores, run[1].req, run[1].inputs)
    ensures Reply(ws[1], run[1]).Screened? && Reply(ws[1], run[1]).response.decision == D.ALLOW
  {
    var later := if ttls.sanctioned < 0 then 0 else ttls.sanctioned + 1;
    var bad, clean := Answer("v", 0, D.SANCTIONED), Answer("v", 0, D.CLEAN);
    run := [Ask("x", "x", bad, "1", 0), Ask("x", "x", clean, "2", later)];
    assert "" + "x" == "x";
    EndsInX("");
    AskIsValid("x", "x", bad, "1", 0);
    AskIsValid("x", "x", clean, "2", later);
    var th := D.Config(90, 50, D.MANUAL_REVIEW, map[], map[]);
    ws := BehaviorExists(World(Stores(true, map[], ttls, th, map[], A.EMPTY, []), {}, [], 0), run);
    AsksAreClocked(ws, run, later);
    AskedAgain(ws, run);
  }
}
