/** Many Screen and webhook calls in flight at once: each call is split where it lets go of a lock, and
    the parts of different calls interleave freely. Thresholds are fixed. */
module Interleaved {
  import opened Text
  import opened Keys
  import opened Seqs
  import opened Screening
  import D = Decision
  import C = Cache
  import A = Alert

  /** Where a call stands. */
  datatype Phase =
    | Validated(req: Request)                                       // Screen: about to read the cache
    | Missed(req: Request)                                          // about to ask the vendor
    | Replied(req: Request, answer: VendorAnswer, exchange: nat)    // about to classify and cache
    | Settled(req: Request, core: Core, hit: bool)                  // about to take id and time
    | Stamped(record: Record)                                       // about to persist
    | Persisted(record: Record)                                     // about to alert
    | Alerted(record: Record)                                       // about to emit the audit event
    | Finished(record: Record, response: Response)
    | PersistError
    | Received(rec: Reclassification)                               // webhook: about to check for duplicates
    | Marked(rec: Reclassification)                                 // about to delete from the cache
    | Cleared(rec: Reclassification)                                // about to open the alert
    | Warned(rec: Reclassification)                                 // about to start the review
    | Handled(rec: Reclassification)
    | Duplicate(rec: Reclassification)
    | Abandoned(rec: Reclassification)

  datatype Exchange = Exchange(address: string, chain: string, answer: VendorAnswer)

  /** The shared data, the calls in flight, and -- for telling what happened -- the vendor exchanges so
      far, the exchange behind each cache entry, and the event ids acted upon. */
  datatype State = State(stores: Stores, seen: set<string>, threads: map<int, Phase>,
                         exchanges: seq<Exchange>, origin: map<string, nat>,
                         deletions: seq<string>, warnings: seq<string>, reviews: seq<string>)

  datatype Step =
    | StartScreen(t: int, req: Request)
    | ReadCache(t: int, now: int)
    | AskVendor(t: int, answer: VendorAnswer)
    | WriteCache(t: int, now: int)
    | TakeStamp(t: int, stamp: A.Stamp)
    | Persist(t: int)
    | OpenAlert(t: int, stamp: A.Stamp)
    | EmitAudit(t: int)
    | StartWebhook(t: int, rec: Reclassification)
    | MarkSeen(t: int)
    | Delete(t: int)
    | Warn(t: int, stamp: A.Stamp)
    | StartReview(t: int)

  function Move(s: State, t: int, p: Phase): State {
    s.(threads := s.threads[t := p])
  }

  function DoReadCache(s: State, t: int, now: int, req: Request): State {
    match Lookup(s.stores, req, now)
    case Some(v) => Move(s, t, Settled(req, CoreOf(v), true))
    case None => Move(s, t, Missed(req))
  }

  function DoAskVendor(s: State, t: int, answer: VendorAnswer, req: Request): State {
    Move(s, t, Replied(req, answer, |s.exchanges|))
      .(exchanges := s.exchanges + [Exchange(req.address, req.chain, answer)])
  }

  function DoWriteCache(s: State, t: int, now: int, req: Request, answer: VendorAnswer, x: nat): State {
    var core := Classify(s.stores.thresholds, answer, req.chain);
    var s' := Move(s, t, Settled(req, core, false));
    if answer.Answer? then s'.(stores := Remember(s.stores, req, core, now), origin := s.origin[KeyOf(req) := x])
    else s'
  }

  function DoPersist(s: State, t: int, r: Record): State {
    match Put(s.stores.screens, r)
    case None => Move(s, t, PersistError)
    case Some(screens) => Move(s, t, Persisted(r)).(stores := s.stores.(screens := screens))
  }

  function DoMarkSeen(s: State, t: int, rec: Reclassification): State {
    if rec.eventId in s.seen then Move(s, t, Duplicate(rec))
    else Move(s, t, Marked(rec)).(seen := s.seen + {rec.eventId})
  }

  function DoWarn(s: State, t: int, rec: Reclassification, stamp: A.Stamp): State {
    var (alerts, out) := WebhookAlert(s.stores.alerts, rec, stamp);
    if out.Failed? then Move(s, t, Abandoned(rec))
    else Move(s, t, Warned(rec)).(stores := s.stores.(alerts := alerts), warnings := s.warnings + [rec.eventId])
  }

  function Continue(s: State, step: Step, p: Phase): State {
    match step
    case ReadCache(t, now) => if p.Validated? then DoReadCache(s, t, now, p.req) else s
    case AskVendor(t, answer) => if p.Missed? then DoAskVendor(s, t, answer, p.req) else s
    case WriteCache(t, now) => if p.Replied? then DoWriteCache(s, t, now, p.req, p.answer, p.exchange) else s
    case TakeStamp(t, stamp) => if p.Settled? then Move(s, t, Stamped(RecordFor(p.req, p.core, p.hit, stamp))) else s
    case Persist(t) => if p.Stamped? then DoPersist(s, t, p.record) else s
    case OpenAlert(t, stamp) =>
      if p.Persisted? then
        Move(s, t, Alerted(p.record)).(stores := s.stores.(alerts := AlertFor(s.stores.alerts, p.record, stamp)))
      else s
    case EmitAudit(t) =>
      if p.Alerted? then
        Move(s, t, Finished(p.record, ResponseFor(p.record)))
          .(stores := s.stores.(audit := s.stores.audit + [EventFor(p.record)]))
      else s
    case MarkSeen(t) => if p.Received? then DoMarkSeen(s, t, p.rec) else s
    case Delete(t) =>
      if p.Marked? then
        Move(s, t, Cleared(p.rec))
          .(stores := Forget(s.stores, p.rec.address, p.rec.chain), deletions := s.deletions + [p.rec.eventId])
      else s
    case Warn(t, stamp) => if p.Cleared? then DoWarn(s, t, p.rec, stamp) else s
    case StartReview(t) =>
      if p.Warned? then Move(s, t, Handled(p.rec)).(reviews := s.reviews + [p.rec.eventId]) else s
    case _ => s
  }

  /** A step that does not fit the phase of its call changes nothing. */
  function Next(s: State, step: Step): State {
    match step
    case StartScreen(t, req) =>
      if t in s.threads || Validate(req).Some? then s else Move(s, t, Validated(req))
    case StartWebhook(t, rec) =>
      if t in s.threads || !HasFields(rec) then s else Move(s, t, Received(rec))
    case _ =>
      if step.t !in s.threads then s else Continue(s, step, s.threads[step.t])
  }

  ghost function After(s: State, steps: seq<Step>): State
    decreases |steps|
  {
    if steps == [] then s else After(Next(s, steps[0]), steps[1..])
  }

  ghost predicate Start(s: State) {
    && s.stores.cached && s.stores.cache == map[] && s.stores.screens == map[] && s.stores.audit == []
    && s.seen == {} && s.threads == map[] && s.exchanges == [] && s.origin == map[]
    && s.deletions == [] && s.warnings == [] && s.reviews == []
  }

  /** The id is not in use by a stored record or by a call that has taken it. */
  ghost predicate UnusedId(s: State, id: string) {
    id !in s.stores.screens && forall t :: t in s.threads && s.threads[t].Stamped? ==> s.threads[t].record.screenId != id
  }

  ghost predicate FreshIds(s: State, steps: seq<Step>)
    decreases |steps|
  {
    steps == [] ||
    ((steps[0].TakeStamp? ==> UnusedId(s, steps[0].stamp.id)) && FreshIds(Next(s, steps[0]), steps[1..]))
  }

  // --------------------------------------------------------- cache and verdicts

  /** The entry under this key is about a pair with this key, and is the verdict on the vendor's
      successful answer in the exchange named as its origin. */
  predicate GoodEntry(s: State, key: string)
    requires key in s.stores.cache
  {
    var v := s.stores.cache[key].verdict;
    && key == CacheKey(v.address, v.chain)
    && key in s.origin && s.origin[key] < |s.exchanges|
    && var x := s.exchanges[s.origin[key]];
       x.address == v.address && x.chain == v.chain && x.answer.Answer? &&
       CoreOf(v) == Classify(s.stores.thresholds, x.answer, x.chain) &&
       v.decision == D.Decide(s.stores.thresholds, v.exposure)
  }

  /** The verdict rests on exchange i, a vendor's successful answer filed under the request's key. */
  predicate RestsOn(s: State, req: Request, core: Core, i: int) {
    0 <= i < |s.exchanges| && s.exchanges[i].answer.Answer? &&
    CacheKey(s.exchanges[i].address, s.exchanges[i].chain) == KeyOf(req) &&
    core == Classify(s.stores.thresholds, s.exchanges[i].answer, s.exchanges[i].chain)
  }

  ghost predicate GoodCore(s: State, req: Request, core: Core, hit: bool) {
    (!hit && core == Classify(s.stores.thresholds, Unreachable, req.chain)) || exists i :: RestsOn(s, req, core, i)
  }

  function Pair(r: Record): Request {
    Request(r.txId, r.address, r.source, r.chain, r.amount)
  }

  function RecordCore(r: Record): Core {
    Core(r.score, r.exposure, r.decision, r.vendor)
  }

  ghost predicate GoodThread(s: State, p: Phase) {
    match p
    case Replied(req, answer, x) => x < |s.exchanges| && s.exchanges[x] == Exchange(req.address, req.chain, answer)
    case Settled(req, core, hit) => GoodCore(s, req, core, hit)
    case Stamped(r) => GoodCore(s, Pair(r), RecordCore(r), r.cacheHit)
    case Persisted(r) => GoodCore(s, Pair(r), RecordCore(r), r.cacheHit)
    case Alerted(r) => GoodCore(s, Pair(r), RecordCore(r), r.cacheHit)
    case Finished(r, resp) => GoodCore(s, Pair(r), RecordCore(r), r.cacheHit) && resp == ResponseFor(r)
    case _ => true
  }

  ghost predicate VerdictInv(s: State) {
    && s.stores.cached
    && (forall key :: key in s.stores.cache ==> GoodEntry(s, key))
    && (forall t :: t in s.threads ==> GoodThread(s, s.threads[t]))
  }

  /** More exchanges do not spoil what already rested on some. */
  lemma GoodStaysGood(s: State, s': State, p: Phase)
    requires GoodThread(s, p) && s.exchanges <= s'.exchanges && s'.stores.thresholds == s.stores.thresholds
    ensures GoodThread(s', p)
  {
    forall req, core, hit | GoodCore(s, req, core, hit) ensures GoodCore(s', req, core, hit) {
      if i :| RestsOn(s, req, core, i) { assert RestsOn(s', req, core, i); }
    }
  }

  /** s' differs from s in what one call, t, has done: the vendor exchanges only grow, and t is now in a
      good phase. */
  ghost predicate Proceeds(s: State, s': State, t: int) {
    && t in s.threads && t in s'.threads && s'.threads == s.threads[t := s'.threads[t]]
    && s.exchanges <= s'.exchanges && s'.stores.thresholds == s.stores.thresholds && s'.stores.cached == s.stores.cached
    && GoodThread(s', s'.threads[t])
  }

  lemma ProceedKeepsVerdicts(s: State, s': State, t: int)
    requires VerdictInv(s) && Proceeds(s, s', t)
    requires forall key :: key in s'.stores.cache ==> GoodEntry(s', key)
    ensures VerdictInv(s')
  {
    forall u | u in s'.threads ensures GoodThread(s', s'.threads[u]) {
      if u != t { GoodStaysGood(s, s', s.threads[u]); }
    }
  }

  /** Entries that were there before, with their origins, stay good. */
  lemma EntriesStayGood(s: State, s': State)
    requires VerdictInv(s) && s.exchanges <= s'.exchanges && s'.stores.thresholds == s.stores.thresholds
    requires s'.origin == s.origin
    requires forall key :: key in s'.stores.cache ==> key in s.stores.cache && s'.stores.cache[key] == s.stores.cache[key]
    ensures forall key :: key in s'.stores.cache ==> GoodEntry(s', key)
  {
    forall key | key in s'.stores.cache ensures GoodEntry(s', key) {
      assert GoodEntry(s, key);
    }
  }

  lemma ReadCacheKeeps(s: State, t: int, now: int)
    requires VerdictInv(s) && t in s.threads && s.threads[t].Validated?
    ensures VerdictInv(Next(s, ReadCache(t, now))) && Proceeds(s, Next(s, ReadCache(t, now)), t)
  {
    var s', req := Next(s, ReadCache(t, now)), s.threads[t].req;
    var found := Lookup(s.stores, req, now);
    if found.Some? {
      assert GoodEntry(s, KeyOf(req));
      assert RestsOn(s', req, CoreOf(found.value), s.origin[KeyOf(req)]);
    }
    EntriesStayGood(s, s');
    ProceedKeepsVerdicts(s, s', t);
  }

  lemma AskVendorKeeps(s: State, t: int, answer: VendorAnswer)
    requires VerdictInv(s) && t in s.threads && s.threads[t].Missed?
    ensures VerdictInv(Next(s, AskVendor(t, answer))) && Proceeds(s, Next(s, AskVendor(t, answer)), t)
  {
    var s' := Next(s, AskVendor(t, answer));
    EntriesStayGood(s, s');
    ProceedKeepsVerdicts(s, s', t);
  }

  lemma WriteCacheKeeps(s: State, t: int, now: int)
    requires VerdictInv(s) && t in s.threads && s.threads[t].Replied?
    ensures VerdictInv(Next(s, WriteCache(t, now))) && Proceeds(s, Next(s, WriteCache(t, now)), t)
  {
    var s', req, answer := Next(s, WriteCache(t, now)), s.threads[t].req, s.threads[t].answer;
    var core := Classify(s.stores.thresholds, answer, req.chain);
    assert GoodThread(s, s.threads[t]);
    if answer.Answer? {
      assert RestsOn(s', req, core, s.threads[t].exchange);
      forall key | key in s'.stores.cache ensures GoodEntry(s', key) {
        if key != KeyOf(req) { assert GoodEntry(s, key); }
      }
    } else {
      EntriesStayGood(s, s');
    }
    ProceedKeepsVerdicts(s, s', t);
  }

  lemma TakeStampKeeps(s: State, t: int, stamp: A.Stamp)
    requires VerdictInv(s) && t in s.threads && s.threads[t].Settled?
    ensures VerdictInv(Next(s, TakeStamp(t, stamp))) && Proceeds(s, Next(s, TakeStamp(t, stamp)), t)
  {
    var s', p := Next(s, TakeStamp(t, stamp)), s.threads[t];
    var r := RecordFor(p.req, p.core, p.hit, stamp);
    assert Pair(r) == p.req && RecordCore(r) == p.core;
    assert GoodThread(s, p);
    GoodStaysGood(s, s', p);
    EntriesStayGood(s, s');
    ProceedKeepsVerdicts(s, s', t);
  }

  predicate WebhookStep(s: State, step: Step) {
    step.t in s.threads &&
    match s.threads[step.t]
    case Received(_) => step.MarkSeen?
    case Marked(_) => step.Delete?
    case Cleared(_) => step.Warn?
    case Warned(_) => step.StartReview?
    case _ => false
  }

  /** The steps after a record has its stamp, and those of a webhook. */
  predicate LateStep(s: State, step: Step) {
    step.t in s.threads &&
    match s.threads[step.t]
    case Stamped(_) => step.Persist?
    case Persisted(_) => step.OpenAlert?
    case Alerted(_) => step.EmitAudit?
    case _ => WebhookStep(s, step)
  }

  predicate EarlyStep(s: State, step: Step) {
    step.t in s.threads &&
    match s.threads[step.t]
    case Validated(_) => step.ReadCache?
    case Missed(_) => step.AskVendor?
    case Replied(_, _, _) => step.WriteCache?
    case Settled(_, _, _) => step.TakeStamp?
    case _ => false
  }

  predicate HasRecord(p: Phase) {
    p.Persisted? || p.Alerted? || p.Finished?
  }

  predicate LatePhase(p: Phase, p': Phase) {
    && (p.Stamped? || HasRecord(p) ==> p'.PersistError? || (HasRecord(p') && p'.record == p.record))
    && (p'.Finished? ==> p'.response == ResponseFor(p'.record))
    && !p'.Validated? && !p'.Missed? && !p'.Replied? && !p'.Settled? && !p'.Stamped?
    && (HasRecord(p') ==> p.Stamped? || HasRecord(p))
  }

  /** What a late step of call t leaves alone: exchanges, origins, thresholds, the record the call has
      taken, and every cache entry it does not delete. */
  ghost predicate LateFrame(s: State, s': State, t: int) {
    && t in s.threads && t in s'.threads && s'.threads == s.threads[t := s'.threads[t]]
    && s'.exchanges == s.exchanges && s'.origin == s.origin
    && s'.stores.thresholds == s.stores.thresholds && s'.stores.cached == s.stores.cached
    && (forall key :: key in s'.stores.cache ==> key in s.stores.cache && s'.stores.cache[key] == s.stores.cache[key])
    && LatePhase(s.threads[t], s'.threads[t])
  }

  lemma WebhookStepFrame(s: State, step: Step)
    requires WebhookStep(s, step)
    ensures LateFrame(s, Next(s, step), step.t)
  {
  }

  lemma RecordStepFrame(s: State, step: Step)
    requires LateStep(s, step) && !WebhookStep(s, step)
    ensures LateFrame(s, Next(s, step), step.t)
  {
  }

  lemma LateStepFrame(s: State, step: Step)
    requires LateStep(s, step)
    ensures LateFrame(s, Next(s, step), step.t)
  {
    if WebhookStep(s, step) {
      WebhookStepFrame(s, step);
    } else {
      RecordStepFrame(s, step);
    }
  }

  lemma FrameKeepsVerdicts(s: State, s': State, t: int)
    requires VerdictInv(s) && LateFrame(s, s', t)
    ensures VerdictInv(s') && Proceeds(s, s', t)
  {
    assert GoodThread(s, s.threads[t]);
    GoodStaysGood(s, s', s.threads[t]);
    EntriesStayGood(s, s');
    ProceedKeepsVerdicts(s, s', t);
  }

  lemma LateStepKeeps(s: State, step: Step)
    requires VerdictInv(s) && LateStep(s, step)
    ensures VerdictInv(Next(s, step)) && Proceeds(s, Next(s, step), step.t)
  {
    LateStepFrame(s, step);
    FrameKeepsVerdicts(s, Next(s, step), step.t);
  }

  lemma IdleStep(s: State, step: Step)
    requires !EarlyStep(s, step) && !LateStep(s, step)
    ensures Next(s, step) == s ||
            (step.t !in s.threads &&
             exists p: Phase :: (p.Validated? || p.Received?) && Next(s, step) == Move(s, step.t, p))
  {
    if step.StartScreen? {
      assert Validated(step.req).Validated?;
    } else if step.StartWebhook? {
      assert Received(step.rec).Received?;
    }
  }

  lemma IdleStepKeeps(s: State, step: Step)
    requires VerdictInv(s) && !EarlyStep(s, step) && !LateStep(s, step)
    ensures VerdictInv(Next(s, step)) && Next(s, step).exchanges == s.exchanges && Next(s, step).stores == s.stores
  {
    IdleStep(s, step);
    var s' := Next(s, step);
    if s' != s {
      EntriesStayGood(s, s');
      forall t | t in s'.threads ensures GoodThread(s', s'.threads[t]) {
        if t != step.t { GoodStaysGood(s, s', s.threads[t]); }
      }
    }
  }

  lemma NextVerdict(s: State, step: Step)
    requires VerdictInv(s)
    ensures VerdictInv(Next(s, step)) && s.exchanges <= Next(s, step).exchanges
    ensures Next(s, step).stores.thresholds == s.stores.thresholds
  {
    if EarlyStep(s, step) {
      match step
      case ReadCache(t, now) => ReadCacheKeeps(s, t, now);
      case AskVendor(t, answer) => AskVendorKeeps(s, t, answer);
      case WriteCache(t, now) => WriteCacheKeeps(s, t, now);
      case TakeStamp(t, stamp) => TakeStampKeeps(s, t, stamp);
    } else if LateStep(s, step) {
      LateStepKeeps(s, step);
    } else {
      IdleStepKeeps(s, step);
    }
  }

  /** In every interleaving: each cache entry sits under its own pair's key, comes from a vendor's
      successful answer about that pair -- never from the vendor-unreachable path -- and carries the
      decision of its exposure; and each response is the verdict on such an answer filed under its own
      key, or the fail-safe verdict of a call that could not reach the vendor. */
  lemma {:induction false} VerdictsRestOnAnswers(s: State, steps: seq<Step>)
    requires VerdictInv(s)
    ensures VerdictInv(After(s, steps)) && s.exchanges <= After(s, steps).exchanges
    ensures After(s, steps).stores.thresholds == s.stores.thresholds
    decreases |steps|
  {
    if steps != [] {
      NextVerdict(s, steps[0]);
      VerdictsRestOnAnswers(Next(s, steps[0]), steps[1..]);
    }
  }

  /** The chains that the Screen calls of a run ask about. */
  function ChainsOf(steps: seq<Step>): set<string> {
    set k | 0 <= k < |steps| && steps[k].StartScreen? :: steps[k].req.chain
  }

  predicate OnChain(p: Phase, chains: set<string>) {
    match p
    case Validated(req) => req.chain in chains
    case Missed(req) => req.chain in chains
    case Replied(req, _, _) => req.chain in chains
    case Settled(req, _, _) => req.chain in chains
    case Stamped(r) => r.chain in chains
    case Persisted(r) => r.chain in chains
    case Alerted(r) => r.chain in chains
    case Finished(r, _) => r.chain in chains
    case _ => true
  }

  /** Everything in flight, and every vendor exchange, is about one of these chains. */
  ghost predicate OnChains(s: State, chains: set<string>) {
    && (forall i :: 0 <= i < |s.exchanges| ==> s.exchanges[i].chain in chains)
    && (forall t :: t in s.threads ==> OnChain(s.threads[t], chains))
  }

  lemma EarlyOnChains(s: State, step: Step, chains: set<string>)
    requires OnChains(s, chains) && EarlyStep(s, step)
    ensures OnChains(Next(s, step), chains)
  {
  }

  lemma LateOnChains(s: State, s': State, t: int, chains: set<string>)
    requires OnChains(s, chains) && LateFrame(s, s', t)
    ensures OnChains(s', chains)
  {
  }

  lemma NextOnChains(s: State, step: Step, chains: set<string>)
    requires OnChains(s, chains) && (step.StartScreen? ==> step.req.chain in chains)
    ensures OnChains(Next(s, step), chains)
  {
    if EarlyStep(s, step) {
      EarlyOnChains(s, step, chains);
    } else if LateStep(s, step) {
      LateStepFrame(s, step);
      LateOnChains(s, Next(s, step), step.t, chains);
    } else {
      IdleStep(s, step);
    }
  }

  lemma {:induction false} StaysOnChains(s: State, steps: seq<Step>, chains: set<string>)
    requires OnChains(s, chains) && ChainsOf(steps) <= chains
    ensures OnChains(After(s, steps), chains)
    decreases |steps|
  {
    if steps != [] {
      assert steps[0].StartScreen? ==> steps[0].req.chain in ChainsOf(steps);
      forall k | 0 <= k < |steps[1..]| && steps[1..][k].StartScreen? ensures steps[1..][k].req.chain in ChainsOf(steps) {
        assert steps[1..][k] == steps[k + 1];
      }
      NextOnChains(s, steps[0], chains);
      StaysOnChains(Next(s, steps[0]), steps[1..], chains);
    }
  }

  /** The verdict rests on exchange i, and that was about the request's own address and chain. */
  predicate RestsOnOwn(s: State, req: Request, core: Core, i: int) {
    RestsOn(s, req, core, i) && s.exchanges[i].address == req.address && s.exchanges[i].chain == req.chain
  }

  lemma SeparatedRestsOnOwn(s: State, req: Request, core: Core, i: int, chains: set<string>)
    requires OnChains(s, chains) && Separated(chains) && req.chain in chains && RestsOn(s, req, core, i)
    ensures RestsOnOwn(s, req, core, i)
  {
    CacheKeyCollision(s.exchanges[i].address, s.exchanges[i].chain, req.address, req.chain);
  }

  /** However the calls interleave, an ALLOW rests on a vendor's successful answer, filed under the
      request's key, that was classified CLEAN; and, when no chain asked about extends another by a colon,
      on one about the very same address and chain. */
  lemma {:induction false} AllowRestsOnCleanAnswer(s: State, steps: seq<Step>, t: int)
    requires Start(s) && t in After(s, steps).threads && After(s, steps).threads[t].Finished?
    requires After(s, steps).threads[t].response.decision == D.ALLOW
    ensures var (s', r) := (After(s, steps), After(s, steps).threads[t].record);
            && r.exposure == D.CLEAN
            && (exists i :: RestsOn(s', Pair(r), RecordCore(r), i))
            && (Separated(ChainsOf(steps)) ==> exists i :: RestsOnOwn(s', Pair(r), RecordCore(r), i))
  {
    VerdictsRestOnAnswers(s, steps);
    StaysOnChains(s, steps, ChainsOf(steps));
    var s' := After(s, steps);
    assert GoodThread(s', s'.threads[t]) && OnChain(s'.threads[t], ChainsOf(steps));
    var r := s'.threads[t].record;
    if i :| RestsOn(s', Pair(r), RecordCore(r), i) {
      var x := s'.exchanges[i];
      assert D.Decide(s'.stores.thresholds, r.exposure) == r.decision;
      if Separated(ChainsOf(steps)) { SeparatedRestsOnOwn(s', Pair(r), RecordCore(r), i, ChainsOf(steps)); }
    }
  }

  // ------------------------------------------------- records, events and responses

  /** A call that has persisted its record finds it in the store, and one that has finished finds its
      event in the audit log. Ids in use are all different. */
  ghost predicate RecordInv(s: State) {
    && (forall t :: t in s.threads && HasRecord(s.threads[t]) ==>
          var r := s.threads[t].record;
          r.screenId in s.stores.screens && s.stores.screens[r.screenId] == r)
    && (forall t :: t in s.threads && s.threads[t].Finished? ==> EventFor(s.threads[t].record) in s.stores.audit)
    && (forall t :: t in s.threads && s.threads[t].Stamped? ==> s.threads[t].record.screenId !in s.stores.screens)
    && (forall t, u :: t in s.threads && u in s.threads && t != u && s.threads[t].Stamped? && s.threads[u].Stamped? ==>
          s.threads[t].record.screenId != s.threads[u].record.screenId)
  }

  lemma PersistRecords(s: State, t: int)
    requires RecordInv(s) && t in s.threads && s.threads[t].Stamped?
    ensures RecordInv(Next(s, Persist(t)))
  {
    var s', r := Next(s, Persist(t)), s.threads[t].record;
    if r.screenId != "" {
      assert s'.stores.screens == s.stores.screens[r.screenId := r] && s'.stores.audit == s.stores.audit;
    }
  }

  lemma EmitRecords(s: State, t: int)
    requires RecordInv(s) && t in s.threads && s.threads[t].Alerted?
    ensures RecordInv(Next(s, EmitAudit(t)))
  {
    var s', r := Next(s, EmitAudit(t)), s.threads[t].record;
    assert s'.stores.screens == s.stores.screens && s'.stores.audit == s.stores.audit + [EventFor(r)];
  }

  /** Records and audit events are as before, and call t, alone in moving, has neither finished nor taken
      an id that is in use. */
  lemma QuietRecords(s: State, s': State, t: int)
    requires RecordInv(s) && t in s'.threads && s'.threads == s.threads[t := s'.threads[t]]
    requires s'.stores.screens == s.stores.screens && s'.stores.audit == s.stores.audit
    requires !s'.threads[t].Finished?
    requires HasRecord(s'.threads[t]) ==>
               t in s.threads && HasRecord(s.threads[t]) && s.threads[t].record == s'.threads[t].record
    requires s'.threads[t].Stamped? ==> UnusedId(s, s'.threads[t].record.screenId)
    ensures RecordInv(s')
  {
  }

  lemma EarlyRecords(s: State, step: Step)
    requires RecordInv(s) && EarlyStep(s, step) && (step.TakeStamp? ==> UnusedId(s, step.stamp.id))
    ensures RecordInv(Next(s, step))
  {
    var s', t := Next(s, step), step.t;
    assert s'.stores.screens == s.stores.screens && s'.stores.audit == s.stores.audit;
    assert s'.threads == s.threads[t := s'.threads[t]] && !HasRecord(s'.threads[t]);
    assert s'.threads[t].Stamped? ==> step.TakeStamp? && s'.threads[t].record.screenId == step.stamp.id;
    QuietRecords(s, s', t);
  }

  lemma LateStores(s: State, step: Step)
    requires LateStep(s, step) && !step.Persist? && !step.EmitAudit?
    ensures Next(s, step).stores.screens == s.stores.screens && Next(s, step).stores.audit == s.stores.audit
    ensures step.t in Next(s, step).threads && !Next(s, step).threads[step.t].Finished?
  {
  }

  lemma LateRecords(s: State, step: Step)
    requires RecordInv(s) && LateStep(s, step) && !step.Persist? && !step.EmitAudit?
    ensures RecordInv(Next(s, step))
  {
    LateStepFrame(s, step);
    LateStores(s, step);
    assert !s.threads[step.t].Stamped?;
    QuietRecords(s, Next(s, step), step.t);
  }

  lemma IdleRecords(s: State, step: Step)
    requires RecordInv(s) && !EarlyStep(s, step) && !LateStep(s, step)
    ensures RecordInv(Next(s, step))
  {
    IdleStep(s, step);
    if Next(s, step) != s { QuietRecords(s, Next(s, step), step.t); }
  }

  lemma NextRecords(s: State, step: Step)
    requires RecordInv(s) && (step.TakeStamp? ==> UnusedId(s, step.stamp.id))
    ensures RecordInv(Next(s, step))
  {
    if EarlyStep(s, step) {
      EarlyRecords(s, step);
    } else if LateStep(s, step) {
      if step.Persist? {
        PersistRecords(s, step.t);
      } else if step.EmitAudit? {
        EmitRecords(s, step.t);
      } else {
        LateRecords(s, step);
      }
    } else {
      IdleRecords(s, step);
    }
  }

  /** In every interleaving with fresh ids, the record, the audit event and the response of a finished
      Screen call agree. */
  lemma {:induction false} FinishedCallsAgree(s: State, steps: seq<Step>)
    requires RecordInv(s) && VerdictInv(s) && FreshIds(s, steps)
    ensures RecordInv(After(s, steps))
    ensures forall t :: t in After(s, steps).threads && After(s, steps).threads[t].Finished? ==>
              var (p, stores) := (After(s, steps).threads[t], After(s, steps).stores);
              && p.response.screenId in stores.screens
              && ResponseFor(stores.screens[p.response.screenId]) == p.response
              && EventFor(stores.screens[p.response.screenId]) in stores.audit
    decreases |steps|
  {
    if steps != [] {
      NextRecords(s, steps[0]);
      NextVerdict(s, steps[0]);
      FinishedCallsAgree(Next(s, steps[0]), steps[1..]);
    } else {
      forall t | t in s.threads && s.threads[t].Finished?
        ensures s.threads[t].response == ResponseFor(s.threads[t].record)
      {
        assert GoodThread(s, s.threads[t]);
      }
    }
  }

  // ------------------------------------------------------------- stale verdicts

  /** The call holds a vendor's answer about a pair with this key that it has not cached yet. */
  predicate HasAnswer(p: Phase, key: string) {
    p.Replied? && p.answer.Answer? && KeyOf(p.req) == key
  }

  ghost predicate AnswerInHand(s: State, key: string) {
    exists t :: t in s.threads && HasAnswer(s.threads[t], key)
  }

  predicate NewerThan(s: State, key: string, n: nat) {
    key in s.stores.cache ==> key in s.origin && s.origin[key] >= n
  }

  /** Whatever happens next, an entry found under the key comes from a vendor exchange yet to come. */
  ghost predicate OnlyNewer(s: State, key: string) {
    forall steps :: NewerThan(After(s, steps), key, |s.exchanges|)
  }

  /** Nothing cached or in hand about the key dates from before exchange n. */
  ghost predicate NothingOlder(s: State, key: string, n: nat) {
    && NewerThan(s, key, n) && n <= |s.exchanges|
    && forall t :: t in s.threads && HasAnswer(s.threads[t], key) ==> s.threads[t].exchange >= n
  }

  lemma NextNothingOlder(s: State, step: Step, key: string, n: nat)
    requires NothingOlder(s, key, n) && s.stores.cached
    ensures NothingOlder(Next(s, step), key, n) && Next(s, step).stores.cached
  {
    if EarlyStep(s, step) {
    } else if LateStep(s, step) {
      LateStepFrame(s, step);
    } else {
      IdleStep(s, step);
    }
  }

  lemma {:induction false} StaysNewer(s: State, steps: seq<Step>, key: string, n: nat)
    requires NothingOlder(s, key, n) && s.stores.cached
    ensures NewerThan(After(s, steps), key, n)
    decreases |steps|
  {
    if steps != [] {
      NextNothingOlder(s, steps[0], key, n);
      StaysNewer(Next(s, steps[0]), steps[1..], key, n);
    }
  }

  lemma AfterOne(s: State, a: Step)
    ensures After(s, [a]) == Next(s, a)
  {
    assert [a][1..] == [];
  }

  lemma LateAnswer(d: State, u: int, key: string)
    requires VerdictInv(d) && u in d.threads && HasAnswer(d.threads[u], key)
    ensures !OnlyNewer(d, key)
  {
    assert GoodThread(d, d.threads[u]);
    var steps := [WriteCache(u, 0)];
    AfterOne(d, steps[0]);
    assert !NewerThan(After(d, steps), key, |d.exchanges|);
  }

  /** After a webhook has deleted a pair from the cache, everything cached about it from then on comes
      from later vendor exchanges -- exactly when no Screen call about it was holding an answer. */
  lemma DeletionIsFinalExactly(s: State, t: int)
    requires VerdictInv(s) && t in s.threads && s.threads[t].Marked?
    ensures var key := CacheKey(s.threads[t].rec.address, s.threads[t].rec.chain);
            OnlyNewer(Next(s, Delete(t)), key) <==> !AnswerInHand(s, key)
  {
    var key := CacheKey(s.threads[t].rec.address, s.threads[t].rec.chain);
    var d := Next(s, Delete(t));
    LateStepKeeps(s, Delete(t));
    LateStepFrame(s, Delete(t));
    assert key !in d.stores.cache;
    if u :| u in s.threads && HasAnswer(s.threads[u], key) {
      assert d.threads[u] == s.threads[u];
      LateAnswer(d, u, key);
    } else {
      forall steps ensures NewerThan(After(d, steps), key, |d.exchanges|) {
        StaysNewer(d, steps, key, |d.exchanges|);
      }
    }
  }

  // ------------------------------------------------------- webhooks at most once

  /** How far a webhook call that won the duplicate check has come. */
  function Progress(p: Phase): nat {
    match p
    case Marked(_) => 1
    case Cleared(_) => 2
    case Warned(_) => 3
    case Abandoned(_) => 3
    case Handled(_) => 4
    case _ => 0
  }

  function EventOf(p: Phase): string
    requires Progress(p) > 0
  {
    p.rec.eventId
  }

  ghost predicate Holds(s: State, t: int, e: string) {
    t in s.threads && Progress(s.threads[t]) > 0 && EventOf(s.threads[t]) == e
  }

  ghost predicate WebhookInv(s: State) {
    && Distinct(s.deletions) && Distinct(s.warnings) && Distinct(s.reviews)
    && (forall e :: e in s.deletions || e in s.warnings || e in s.reviews ==> e in s.seen)
    && (forall t, e :: Holds(s, t, e) ==> e in s.seen)
    && (forall t, u, e :: Holds(s, t, e) && Holds(s, u, e) ==> t == u)
    && (forall t, e :: Holds(s, t, e) ==>
          && (e in s.deletions <==> Progress(s.threads[t]) >= 2)
          && (e in s.warnings <==> s.threads[t].Warned? || s.threads[t].Handled?)
          && (e in s.reviews <==> s.threads[t].Handled?))
  }

  lemma HoldsFrame(s: State, s': State, t: int, p: Phase)
    requires t in s.threads && s'.threads == s.threads[t := p] && (Progress(p) > 0 <==> Progress(s.threads[t]) > 0)
    requires Progress(p) > 0 ==> EventOf(p) == EventOf(s.threads[t])
    ensures forall u, e :: Holds(s', u, e) <==> Holds(s, u, e)
  {
  }

  lemma MarkKeepsWebhooks(s: State, t: int)
    requires WebhookInv(s) && t in s.threads && s.threads[t].Received?
    ensures WebhookInv(Next(s, MarkSeen(t)))
  {
    var s', e := Next(s, MarkSeen(t)), s.threads[t].rec.eventId;
    if e !in s.seen {
      assert forall u, f :: Holds(s', u, f) <==> Holds(s, u, f) || (u == t && f == e);
    } else {
      HoldsFrame(s, s', t, Duplicate(s.threads[t].rec));
    }
  }

  lemma DeleteKeepsWebhooks(s: State, t: int)
    requires WebhookInv(s) && t in s.threads && s.threads[t].Marked?
    ensures WebhookInv(Next(s, Delete(t)))
  {
    var s', e := Next(s, Delete(t)), s.threads[t].rec.eventId;
    HoldsFrame(s, s', t, Cleared(s.threads[t].rec));
    assert Holds(s, t, e);
  }

  lemma WarnKeepsWebhooks(s: State, t: int, stamp: A.Stamp)
    requires WebhookInv(s) && t in s.threads && s.threads[t].Cleared?
    ensures WebhookInv(Next(s, Warn(t, stamp)))
  {
    var s', e := Next(s, Warn(t, stamp)), s.threads[t].rec.eventId;
    HoldsFrame(s, s', t, s'.threads[t]);
    assert Holds(s, t, e);
  }

  lemma ReviewKeepsWebhooks(s: State, t: int)
    requires WebhookInv(s) && t in s.threads && s.threads[t].Warned?
    ensures WebhookInv(Next(s, StartReview(t)))
  {
    var s', e := Next(s, StartReview(t)), s.threads[t].rec.eventId;
    HoldsFrame(s, s', t, Handled(s.threads[t].rec));
    assert Holds(s, t, e);
  }

  lemma OtherStepFrame(s: State, step: Step)
    requires !WebhookStep(s, step)
    ensures var s' := Next(s, step);
            && s'.seen == s.seen && s'.deletions == s.deletions && s'.warnings == s.warnings && s'.reviews == s.reviews
            && (s'.threads == s.threads ||
                (step.t in s'.threads && s'.threads == s.threads[step.t := s'.threads[step.t]]
                 && Progress(s'.threads[step.t]) == 0 && (step.t in s.threads ==> Progress(s.threads[step.t]) == 0)))
  {
  }

  lemma SameHolders(s: State, s': State)
    requires WebhookInv(s)
    requires s'.seen == s.seen && s'.deletions == s.deletions && s'.warnings == s.warnings && s'.reviews == s.reviews
    requires forall u, e :: Holds(s', u, e) ==> Holds(s, u, e) && s'.threads[u] == s.threads[u]
    ensures WebhookInv(s')
  {
  }

  lemma OtherStepsKeepWebhooks(s: State, step: Step)
    requires WebhookInv(s) && !WebhookStep(s, step)
    ensures WebhookInv(Next(s, step))
  {
    OtherStepFrame(s, step);
    SameHolders(s, Next(s, step));
  }

  /** Under any interleaving of webhook calls, duplicates included, each event id is acted upon at most
      once: at most one cache deletion, one alert and one review; and a call that has been handled has
      had all three. */
  lemma {:induction false} WebhookAtMostOnce(s: State, steps: seq<Step>)
    requires WebhookInv(s)
    ensures WebhookInv(After(s, steps))
    decreases |steps|
  {
    if steps != [] {
      var step := steps[0];
      if WebhookStep(s, step) {
        match step
        case MarkSeen(t) => MarkKeepsWebhooks(s, t);
        case Delete(t) => DeleteKeepsWebhooks(s, t);
        case Warn(t, stamp) => WarnKeepsWebhooks(s, t, stamp);
        case StartReview(t) => ReviewKeepsWebhooks(s, t);
      } else {
        OtherStepsKeepWebhooks(s, step);
      }
      WebhookAtMostOnce(Next(s, step), steps[1..]);
    }
  }

  /** The invariants hold at the start. */
  lemma StartsGood(s: State)
    requires Start(s)
    ensures VerdictInv(s) && RecordInv(s) && WebhookInv(s)
  {
  }

  // -------------------------------------------------- undisturbed calls are atomic

  /** The steps of one Screen call: up to a verdict, up to a stored record, and to the end. */
  function SettleSteps(t: int, i: Inputs): seq<Step> {
    [ReadCache(t, i.lookupAt), AskVendor(t, i.answer), WriteCache(t, i.cacheAt)]
  }

  function PersistSteps(t: int, i: Inputs): seq<Step> {
    [TakeStamp(t, i.screen), Persist(t)]
  }

  function EndSteps(t: int, i: Inputs): seq<Step> {
    [OpenAlert(t, i.alert), EmitAudit(t)]
  }

  function ScreenScript(t: int, req: Request, i: Inputs): seq<Step> {
    [StartScreen(t, req)] + (SettleSteps(t, i) + (PersistSteps(t, i) + EndSteps(t, i)))
  }

  /** The steps of one webhook call that got past verification and decoding: to the deletion, and on. */
  function ClearSteps(t: int): seq<Step> {
    [MarkSeen(t), Delete(t)]
  }

  function WarnSteps(t: int, stamp: A.Stamp): seq<Step> {
    [Warn(t, stamp), StartReview(t)]
  }

  function WebhookScript(t: int, rec: Reclassification, stamp: A.Stamp): seq<Step> {
    [StartWebhook(t, rec)] + (ClearSteps(t) + WarnSteps(t, stamp))
  }

  lemma {:induction false} AfterJoins(s: State, xs: seq<Step>, ys: seq<Step>)
    ensures After(s, xs + ys) == After(After(s, xs), ys)
    decreases |xs|
  {
    if xs == [] {
      assert xs + ys == ys;
    } else {
      assert (xs + ys)[1..] == xs[1..] + ys;
      AfterJoins(Next(s, xs[0]), xs[1..], ys);
    }
  }

  lemma AfterTwo(s: State, a: Step, b: Step)
    ensures After(s, [a, b]) == Next(Next(s, a), b)
  {
    assert [a, b] == [a] + [b];
    AfterJoins(s, [a], [b]);
    AfterOne(s, a);
    AfterOne(Next(s, a), b);
  }

  /** The call has ended with this effect on the stores and this outcome. */
  predicate EndsAs(s: State, t: int, effect: (Stores, Outcome)) {
    s.stores == effect.0 && t in s.threads &&
    match effect.1
    case Screened(response) => s.threads[t].Finished? && s.threads[t].response == response
    case Rejected(_) => s.threads[t].PersistError?
  }

  lemma SettleScript(s: State, t: int, req: Request, i: Inputs)
    requires t in s.threads && s.threads[t] == Validated(req)
    ensures var s' := After(s, SettleSteps(t, i));
            var found := Lookup(s.stores, req, i.lookupAt);
            && t in s'.threads
            && (found.Some? ==> s'.stores == s.stores && s'.threads[t] == Settled(req, CoreOf(found.value), true))
            && (found.None? ==>
                  var core := Classify(s.stores.thresholds, i.answer, req.chain);
                  && s'.threads[t] == Settled(req, core, false)
                  && s'.stores == if i.answer.Answer? then Remember(s.stores, req, core, i.cacheAt) else s.stores)
  {
    var steps := SettleSteps(t, i);
    assert steps == [steps[0]] + [steps[1], steps[2]];
    AfterJoins(s, [steps[0]], [steps[1], steps[2]]);
    AfterOne(s, steps[0]);
    AfterTwo(Next(s, steps[0]), steps[1], steps[2]);
  }

  lemma PersistScript(s: State, t: int, req: Request, core: Core, hit: bool, i: Inputs)
    requires t in s.threads && s.threads[t] == Settled(req, core, hit)
    ensures var r := RecordFor(req, core, hit, i.screen);
            var s' := After(s, PersistSteps(t, i));
            && t in s'.threads
            && match Put(s.stores.screens, r)
               case None => s'.stores == s.stores && s'.threads[t] == PersistError
               case Some(screens) => s'.stores == s.stores.(screens := screens) && s'.threads[t] == Persisted(r)
  {
    AfterTwo(s, TakeStamp(t, i.screen), Persist(t));
    assert Next(s, TakeStamp(t, i.screen)).threads[t] == Stamped(RecordFor(req, core, hit, i.screen));
  }

  lemma EndScript(s: State, t: int, i: Inputs)
    requires t in s.threads && (s.threads[t].Persisted? || s.threads[t].PersistError?)
    ensures var s' := After(s, EndSteps(t, i));
            && t in s'.threads
            && match s.threads[t]
               case Persisted(r) =>
                 && s'.threads[t] == Finished(r, ResponseFor(r))
                 && s'.stores == s.stores.(alerts := AlertFor(s.stores.alerts, r, i.alert),
                                           audit := s.stores.audit + [EventFor(r)])
               case _ => s' == s
  {
    AfterTwo(s, OpenAlert(t, i.alert), EmitAudit(t));
    if s.threads[t].Persisted? {
      assert Next(s, OpenAlert(t, i.alert)).threads[t] == Alerted(s.threads[t].record);
    }
  }

  lemma FinishScript(s: State, t: int, req: Request, core: Core, hit: bool, i: Inputs)
    requires t in s.threads && s.threads[t] == Settled(req, core, hit)
    ensures EndsAs(After(s, PersistSteps(t, i) + EndSteps(t, i)), t,
                   Finalize(s.stores, RecordFor(req, core, hit, i.screen), i.alert))
  {
    AfterJoins(s, PersistSteps(t, i), EndSteps(t, i));
    PersistScript(s, t, req, core, hit, i);
    EndScript(After(s, PersistSteps(t, i)), t, i);
  }

  /** A Screen call whose steps run without interruption does to the stores, and tells its caller, what
      the atomic description of Screen says. */
  lemma UndisturbedScreenIsAtomic(s: State, t: int, req: Request, i: Inputs)
    requires t !in s.threads && Validate(req).None?
    ensures EndsAs(After(s, ScreenScript(t, req, i)), t, Screen(s.stores, req, i))
  {
    var start, rest := StartScreen(t, req), PersistSteps(t, i) + EndSteps(t, i);
    var s1 := Move(s, t, Validated(req));
    AfterJoins(s, [start], SettleSteps(t, i) + rest);
    AfterOne(s, start);
    AfterJoins(s1, SettleSteps(t, i), rest);
    SettleScript(s1, t, req, i);
    var s4 := After(s1, SettleSteps(t, i));
    FinishScript(s4, t, req, s4.threads[t].core, s4.threads[t].hit, i);
  }

  lemma ClearScript(s: State, t: int, rec: Reclassification)
    requires t in s.threads && s.threads[t] == Received(rec)
    ensures var s' := After(s, ClearSteps(t));
            && t in s'.threads
            && if rec.eventId in s.seen then
                 s'.threads[t] == Duplicate(rec) && s'.stores == s.stores && s'.seen == s.seen
               else
                 && s'.threads[t] == Cleared(rec) && s'.seen == s.seen + {rec.eventId}
                 && s'.stores == Forget(s.stores, rec.address, rec.chain)
  {
    AfterTwo(s, MarkSeen(t), Delete(t));
    var s2 := Next(s, MarkSeen(t));
    assert s2.threads[t] == if rec.eventId in s.seen then Duplicate(rec) else Marked(rec);
  }

  lemma WarnScript(s: State, t: int, rec: Reclassification, stamp: A.Stamp)
    requires t in s.threads && (s.threads[t] == Cleared(rec) || s.threads[t] == Duplicate(rec))
    ensures var s' := After(s, WarnSteps(t, stamp));
            var (alerts, out) := WebhookAlert(s.stores.alerts, rec, stamp);
            && t in s'.threads && s'.seen == s.seen
            && if s.threads[t].Duplicate? then s' == s
               else
                 && s'.stores == s.stores.(alerts := alerts)
                 && s'.threads[t] == if out.Failed? then Abandoned(rec) else Handled(rec)
  {
    AfterTwo(s, Warn(t, stamp), StartReview(t));
    var s2 := Next(s, Warn(t, stamp));
    assert s2.threads[t] == if s.threads[t].Duplicate? then Duplicate(rec)
                            else if WebhookAlert(s.stores.alerts, rec, stamp).1.Failed? then Abandoned(rec)
                            else Warned(rec);
  }

  /** How a webhook call ends that has rec to act on. */
  predicate RanAs(s: State, s': State, t: int, rec: Reclassification, stamp: A.Stamp) {
    var (alerts, out) := WebhookAlert(s.stores.alerts, rec, stamp);
    && t in s'.threads
    && if rec.eventId in s.seen then
         s'.threads[t] == Duplicate(rec) && s'.stores == s.stores && s'.seen == s.seen
       else
         && s'.threads[t] == (if out.Failed? then Abandoned(rec) else Handled(rec))
         && s'.seen == s.seen + {rec.eventId}
         && s'.stores == Forget(s.stores, rec.address, rec.chain).(alerts := alerts)
  }

  lemma ReceivedScript(s: State, t: int, rec: Reclassification, stamp: A.Stamp)
    requires t in s.threads && s.threads[t] == Received(rec)
    ensures RanAs(s, After(s, ClearSteps(t) + WarnSteps(t, stamp)), t, rec, stamp)
  {
    AfterJoins(s, ClearSteps(t), WarnSteps(t, stamp));
    ClearScript(s, t, rec);
    WarnScript(After(s, ClearSteps(t)), t, rec, stamp);
  }

  lemma StartScript(s: State, t: int, rec: Reclassification)
    requires t !in s.threads && HasFields(rec)
    ensures After(s, [StartWebhook(t, rec)]) == Move(s, t, Received(rec))
  {
    AfterOne(s, StartWebhook(t, rec));
  }

  lemma RunWebhook(s: State, t: int, rec: Reclassification, stamp: A.Stamp)
    requires t !in s.threads && HasFields(rec)
    ensures RanAs(s, After(s, WebhookScript(t, rec, stamp)), t, rec, stamp)
  {
    AfterJoins(s, [StartWebhook(t, rec)], ClearSteps(t) + WarnSteps(t, stamp));
    StartScript(s, t, rec);
    ReceivedScript(Move(s, t, Received(rec)), t, rec, stamp);
  }

  /** The call has ended with this effect. */
  predicate EndsAsIngest(s: State, t: int, e: IngestEffect) {
    && s.stores == e.stores && s.seen == e.seen && t in s.threads
    && (e.result.Accepted? <==> s.threads[t].Handled?)
    && (e.result.AlreadySeen? <==> s.threads[t].Duplicate?)
    && (e.review.Some? <==> s.threads[t].Handled?)
    && (s.threads[t].Handled? ==> e.review == Some(s.threads[t].rec) && e.result == Accepted(s.threads[t].rec.eventId))
  }

  /** The same for a webhook that got past verification and decoding. */
  lemma UndisturbedWebhookIsAtomic(s: State, t: int, vendor: string, raw: Reclassification, stamp: A.Stamp)
    requires t !in s.threads && HasFields(raw)
    ensures EndsAsIngest(After(s, WebhookScript(t, WithEventId(vendor, raw), stamp)), t,
                         Ingest(s.stores, s.seen, vendor, Decoded(raw), stamp))
  {
    RunWebhook(s, t, WithEventId(vendor, raw), stamp);
  }

  // ------------------------------------------------- a stale verdict comes back

  /** A Screen call up to the vendor's answer. */
  lemma AskScript(s: State, t: int, req: Request, now: int, answer: VendorAnswer)
    requires t !in s.threads && Validate(req).None? && Lookup(s.stores, req, now).None?
    ensures var s' := After(s, [StartScreen(t, req), ReadCache(t, now), AskVendor(t, answer)]);
            && s'.threads == s.threads[t := Replied(req, answer, |s.exchanges|)]
            && s'.stores == s.stores && s'.seen == s.seen
  {
    var s1 := Move(s, t, Validated(req));
    assert [StartScreen(t, req), ReadCache(t, now), AskVendor(t, answer)] ==
           [StartScreen(t, req)] + [ReadCache(t, now), AskVendor(t, answer)];
    AfterJoins(s, [StartScreen(t, req)], [ReadCache(t, now), AskVendor(t, answer)]);
    AfterOne(s, StartScreen(t, req));
    AfterTwo(s1, ReadCache(t, now), AskVendor(t, answer));
    assert Next(s1, ReadCache(t, now)) == Move(s1, t, Missed(req));
  }

  /** A webhook call up to the deletion. */
  lemma MarkScript(s: State, t: int, rec: Reclassification)
    requires t !in s.threads && HasFields(rec) && rec.eventId !in s.seen
    ensures var s' := After(s, [StartWebhook(t, rec), MarkSeen(t)]);
            s'.threads == s.threads[t := Marked(rec)] && s'.stores == s.stores
  {
    AfterTwo(s, StartWebhook(t, rec), MarkSeen(t));
    assert Next(s, StartWebhook(t, rec)) == Move(s, t, Received(rec));
  }

  lemma DeleteStep(s: State, t: int, rec: Reclassification)
    requires t in s.threads && s.threads[t] == Marked(rec)
    ensures var s' := Next(s, Delete(t));
            s'.threads == s.threads[t := Cleared(rec)] && s'.stores == Forget(s.stores, rec.address, rec.chain)
  {
  }

  lemma WriteStep(s: State, t: int, req: Request, answer: VendorAnswer, x: nat, now: int)
    requires t in s.threads && s.threads[t] == Replied(req, answer, x) && answer.Answer?
    ensures var s' := Next(s, WriteCache(t, now));
            && s'.threads.Keys == s.threads.Keys
            && s'.stores == Remember(s.stores, req, Classify(s.stores.thresholds, answer, req.chain), now)
  {
  }

  /** The deletion, and then the cache write of a call that holds an answer. */
  lemma OverwriteScript(d: State, rec: Reclassification, req: Request, answer: VendorAnswer, x: nat, now: int)
    requires 1 in d.threads && d.threads[1] == Marked(rec) && 0 in d.threads && d.threads[0] == Replied(req, answer, x)
    requires d.stores.cached && answer.Answer?
    ensures var e := After(d, [Delete(1), WriteCache(0, now)]);
            && e.threads.Keys == d.threads.Keys && e.stores.cached && e.stores.ttls == d.stores.ttls
            && e.stores.cache == C.Set(C.Delete(d.stores.cache, rec.address, rec.chain), d.stores.ttls,
                                       VerdictFor(req, Classify(d.stores.thresholds, answer, req.chain)), now)
  {
    AfterTwo(d, Delete(1), WriteCache(0, now));
    DeleteStep(d, 1, rec);
    WriteStep(Next(d, Delete(1)), 0, req, answer, x, now);
  }

  /** A call that runs undisturbed against a live entry is told what the entry says. */
  lemma HitScript(s: State, t: int, req: Request, i: Inputs, v: C.Verdict)
    requires t !in s.threads && Validate(req).None? && Lookup(s.stores, req, i.lookupAt) == Some(v) && i.screen.id != ""
    ensures var s' := After(s, ScreenScript(t, req, i));
            && t in s'.threads && s'.threads[t].Finished?
            && s'.threads[t].response.decision == v.decision && s'.threads[t].response.cacheHit
  {
    UndisturbedScreenIsAtomic(s, t, req, i);
  }

  /** The call has ended, and its caller was told ALLOW from the cache. */
  predicate ToldAllowFromCache(s: State, t: int) {
    t in s.threads && s.threads[t].Finished? &&
    s.threads[t].response.decision == D.ALLOW && s.threads[t].response.cacheHit
  }

  /** The steps that lead to a re-classification about to be cleared from the cache while call 0 holds an
      older, clean answer about the same pair. */
  function HeldBack(req: Request, rec: Reclassification, clean: VendorAnswer): seq<Step> {
    [StartScreen(0, req), ReadCache(0, 0), AskVendor(0, clean)] + [StartWebhook(1, rec), MarkSeen(1)]
  }

  lemma CleanVerdict(th: D.Config, req: Request, clean: VendorAnswer)
    requires clean.Answer? && clean.exposure == D.CLEAN
    ensures var v := VerdictFor(req, Classify(th, clean, req.chain));
            v.decision == D.ALLOW && forall ttls :: C.Ttl(ttls, v.exposure) == ttls.default
  {
    assert D.CLEAN[0] != D.SANCTIONED[0];
  }

  lemma HeldBackScript(s: State, req: Request, rec: Reclassification, clean: VendorAnswer)
    requires Start(s) && Validate(req).None? && HasFields(rec)
    ensures var d := After(s, HeldBack(req, rec, clean));
            d.threads == map[0 := Replied(req, clean, 0), 1 := Marked(rec)] && d.stores == s.stores
  {
    AfterJoins(s, [StartScreen(0, req), ReadCache(0, 0), AskVendor(0, clean)], [StartWebhook(1, rec), MarkSeen(1)]);
    AskScript(s, 0, req, 0, clean);
    MarkScript(After(s, [StartScreen(0, req), ReadCache(0, 0), AskVendor(0, clean)]), 1, rec);
  }

  lemma JustSetIsServed(st: Stores, mem: map<string, C.Entry>, req: Request, v: C.Verdict, at: int, now: int)
    requires st.cached && st.cache == C.Set(mem, st.ttls, v, at) && v.address == req.address && v.chain == req.chain
    requires now <= at + C.Ttl(st.ttls, v.exposure)
    ensures Lookup(st, req, now) == Some(v)
  {
  }

  /** A cache that was just told a clean verdict about the pair answers the next call with ALLOW. */
  lemma ServedClean(e: State, mem: map<string, C.Entry>, th: D.Config, req: Request, clean: VendorAnswer,
                    again: Request, i: Inputs)
    requires 2 !in e.threads && e.stores.cached && clean.Answer? && clean.exposure == D.CLEAN
    requires e.stores.cache == C.Set(mem, e.stores.ttls, VerdictFor(req, Classify(th, clean, req.chain)), 0)
    requires req.address == again.address && req.chain == again.chain && i.lookupAt <= e.stores.ttls.default
    requires Validate(again).None? && i.screen.id != ""
    ensures ToldAllowFromCache(After(e, ScreenScript(2, again, i)), 2)
  {
    var v := VerdictFor(req, Classify(th, clean, req.chain));
    CleanVerdict(th, req, clean);
    JustSetIsServed(e.stores, mem, again, v, 0, i.lookupAt);
    HitScript(e, 2, again, i, v);
  }

  lemma ReturnScript(d: State, req: Request, rec: Reclassification, clean: VendorAnswer, again: Request, i: Inputs)
    requires d.threads == map[0 := Replied(req, clean, 0), 1 := Marked(rec)] && d.stores.cached
    requires clean.Answer? && clean.exposure == D.CLEAN && Validate(again).None? && i.screen.id != ""
    requires req.address == again.address && req.chain == again.chain && i.lookupAt <= d.stores.ttls.default
    ensures ToldAllowFromCache(After(After(d, [Delete(1), WriteCache(0, 0)]), ScreenScript(2, again, i)), 2)
  {
    OverwriteScript(d, rec, req, clean, 0, 0);
    ServedClean(After(d, [Delete(1), WriteCache(0, 0)]), C.Delete(d.stores.cache, rec.address, rec.chain),
                d.stores.thresholds, req, clean, again, i);
  }

  /** From the start: whatever the pair and its re-classification, the verdict from before the webhook can
      be back in the cache after its deletion, and a later call about the pair is told ALLOW from it. */
  lemma StaleVerdictReturns(s: State, req: Request, rec: Reclassification, again: Request, i: Inputs)
    requires Start(s) && Validate(req).None? && Validate(again).None? && HasFields(rec)
    requires rec.address == req.address == again.address && rec.chain == req.chain == again.chain
    requires i.lookupAt <= s.stores.ttls.default && i.screen.id != ""
    ensures var d := After(s, HeldBack(req, rec, Answer("v", 0, D.CLEAN)));
            && 1 in d.threads && d.threads[1] == Marked(rec)
            && ToldAllowFromCache(After(After(d, [Delete(1), WriteCache(0, 0)]), ScreenScript(2, again, i)), 2)
  {
    var clean := Answer("v", 0, D.CLEAN);
    HeldBackScript(s, req, rec, clean);
    ReturnScript(After(s, HeldBack(req, rec, clean)), req, rec, clean, again, i);
  }
}
