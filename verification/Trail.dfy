/** What every alert and every review goes back to: over whole runs, the deliveries of the vendors' webhooks. */
module Trail {
  import opened Seqs
  import opened Screening
  import opened Runs
  import opened Ledger
  import D = Decision
  import A = Alert

  // ----------------------------------------------------- which deliveries are accepted

  /** The step brings a re-classification that was verified and decoded and names address, chain and exposure. */
  predicate Delivers(s: Step) {
    s.Webhook? && s.delivery.Decoded? &&
    s.delivery.rec.address != "" && s.delivery.rec.chain != "" && s.delivery.rec.exposure != ""
  }

  function IdOf(s: Step): string
    requires Delivers(s)
  {
    EventId(s.vendor, s.delivery.rec)
  }

  lemma StepSees(w: World, s: Step)
    ensures Next(w, s).seen == if Delivers(s) then w.seen + {IdOf(s)} else w.seen
  {
    if s.Webhook? { IngestExactly(w.stores, w.seen, s.vendor, s.delivery, s.stamp); }
  }

  /** The webhook processor remembers the ids of all deliveries so far, and nothing else. */
  lemma {:induction false} SeenExactly(ws: seq<World>, run: seq<Step>, k: nat, id: string)
    requires Behavior(ws, run) && k <= |run|
    ensures id in ws[k].seen <==> exists j :: 0 <= j < k && Delivers(run[j]) && IdOf(run[j]) == id
  {
    if k > 0 {
      SeenExactly(ws, run, k - 1, id);
      assert StepAt(ws, run, k - 1);
      StepSees(ws[k - 1], run[k - 1]);
    }
  }

  /** A delivery is accepted exactly when none before it had its id: at most one of those that share an id
      ever is. */
  lemma AcceptedExactly(ws: seq<World>, run: seq<Step>, k: nat)
    requires Behavior(ws, run) && Supplied(ws, run) && k < |run|
    ensures AcceptsWebhook(ws[k], run[k]) <==>
            Delivers(run[k]) && forall j :: 0 <= j < k && Delivers(run[j]) ==> IdOf(run[j]) != IdOf(run[k])
  {
    var w, s := ws[k], run[k];
    if s.Webhook? {
      assert SuppliedAt(ws, run, k);
      assert s.stamp == [s.stamp][0];
      IngestExactly(w.stores, w.seen, s.vendor, s.delivery, s.stamp);
      if Delivers(s) { SeenExactly(ws, run, k, IdOf(s)); }
    }
  }

  // ------------------------------------------------------------ the reviews that wait

  /** What a step does to the queue of reviews. */
  datatype Kind = Accepts | Reviews(index: nat) | Other

  function KindOf(w: World, s: Step): Kind {
    if AcceptsWebhook(w, s) then Accepts
    else if s.Reviewing? && s.index < |w.reviews| && |s.stamps| >= |AllowedOnly(s.listing)| then Reviews(s.index)
    else Other
  }

  ghost function Kinds(ws: seq<World>, run: seq<Step>): seq<Kind>
    requires |ws| == |run| + 1
  {
    seq(|run|, i requires 0 <= i < |run| => KindOf(ws[i], run[i]))
  }

  ghost predicate KindAt(ws: seq<World>, run: seq<Step>, kinds: seq<Kind>, i: nat)
    requires |ws| == |run| + 1 && |kinds| == |run| && i < |run|
  {
    kinds[i] == KindOf(ws[i], run[i])
  }

  /** kinds tells of each step what it does to the queue. */
  ghost predicate Classified(ws: seq<World>, run: seq<Step>, kinds: seq<Kind>) {
    |ws| == |run| + 1 && |kinds| == |run| && forall i: nat :: i < |run| ==> KindAt(ws, run, kinds, i)
  }

  lemma KindsClassify(ws: seq<World>, run: seq<Step>)
    requires |ws| == |run| + 1
    ensures Classified(ws, run, Kinds(ws, run))
  {
  }

  function Without<T>(xs: seq<T>, n: nat): seq<T> {
    if n < |xs| then xs[..n] + xs[n + 1..] else xs
  }

  /** What step k does to the steps that wait. */
  function Advanced(p: seq<nat>, kind: Kind, k: nat): seq<nat> {
    match kind
    case Accepts => p + [k]
    case Reviews(n) => Without(p, n)
    case Other => p
  }

  /** The steps whose webhook was accepted and whose review has not run by step k, in order. */
  function Pending(kinds: seq<Kind>, k: nat): seq<nat>
    requires k <= |kinds|
  {
    if k == 0 then [] else Advanced(Pending(kinds, k - 1), kinds[k - 1], k - 1)
  }

  lemma WithoutOne(p: seq<nat>, n: nat)
    requires n < |p| && forall i, j :: 0 <= i < j < |p| ==> p[i] < p[j]
    ensures p[n] !in Without(p, n) && forall x :: x in Without(p, n) ==> x in p
  {
  }

  /** The steps that wait are past, ascending and accepted. */
  lemma {:induction false} PendingAscends(kinds: seq<Kind>, k: nat)
    requires k <= |kinds|
    ensures forall i :: 0 <= i < |Pending(kinds, k)| ==> Pending(kinds, k)[i] < k && kinds[Pending(kinds, k)[i]].Accepts?
    ensures forall i, j :: 0 <= i < j < |Pending(kinds, k)| ==> Pending(kinds, k)[i] < Pending(kinds, k)[j]
  {
    if k > 0 { PendingAscends(kinds, k - 1); }
  }

  /** The queued review is of what this step delivered. */
  predicate Brought(s: Step, rec: Reclassification) {
    Delivers(s) && rec.address == s.delivery.rec.address && rec.chain == s.delivery.rec.chain &&
    rec.exposure == s.delivery.rec.exposure && rec.txId == s.delivery.rec.txId && rec.eventId == IdOf(s)
  }

  /** p[i] is the step that delivered the i-th queued review. */
  ghost predicate Matched(reviews: seq<Reclassification>, run: seq<Step>, p: seq<nat>) {
    |p| == |reviews| && forall i :: 0 <= i < |p| ==> p[i] < |run| && Brought(run[p[i]], reviews[i])
  }

  lemma StepQueues(w: World, s: Step)
    ensures var (before, after) := (w.reviews, Next(w, s).reviews);
            match KindOf(w, s)
            case Accepts => |after| == |before| + 1 && after[..|before|] == before && Brought(s, after[|before|])
            case Reviews(n) => n < |before| && after == Without(before, n)
            case Other => after == before
  {
    if s.Webhook? { IngestExactly(w.stores, w.seen, s.vendor, s.delivery, s.stamp); }
  }

  lemma MatchedAdvances(before: seq<Reclassification>, after: seq<Reclassification>, run: seq<Step>, p: seq<nat>,
                        kind: Kind, k: nat)
    requires k < |run| && Matched(before, run, p)
    requires match kind
             case Accepts => |after| == |before| + 1 && after[..|before|] == before && Brought(run[k], after[|before|])
             case Reviews(n) => n < |before| && after == Without(before, n)
             case Other => after == before
    ensures Matched(after, run, Advanced(p, kind, k))
  {
    if kind.Accepts? {
      assert forall i :: 0 <= i < |before| ==> after[i] == after[..|before|][i];
    }
  }

  lemma {:induction false} QueueAdvances(ws: seq<World>, run: seq<Step>, kinds: seq<Kind>, k: nat, p: seq<nat>)
    requires Behavior(ws, run) && Classified(ws, run, kinds) && k < |run| && Matched(ws[k].reviews, run, p)
    ensures Matched(ws[k + 1].reviews, run, Advanced(p, kinds[k], k))
  {
    assert StepAt(ws, run, k) && KindAt(ws, run, kinds, k);
    StepQueues(ws[k], run[k]);
    MatchedAdvances(ws[k].reviews, ws[k + 1].reviews, run, p, kinds[k], k);
  }

  lemma {:induction false} QueueMatches(ws: seq<World>, run: seq<Step>, kinds: seq<Kind>, k: nat)
    requires Behavior(ws, run) && Classified(ws, run, kinds) && k <= |run|
    ensures Matched(ws[k].reviews, run, Pending(kinds, k))
  {
    if k > 0 {
      QueueMatches(ws, run, kinds, k - 1);
      QueueAdvances(ws, run, kinds, k - 1, Pending(kinds, k - 1));
    }
  }

  /** In every reachable world the queued reviews are, in order, those of the accepted deliveries whose review
      has not run: each with the delivery's own address, chain, exposure and transaction. */
  lemma {:induction false} QueueExactly(ws: seq<World>, run: seq<Step>, k: nat)
    requires Behavior(ws, run) && k <= |run|
    ensures var (reviews, p) := (ws[k].reviews, Pending(Kinds(ws, run), k));
            && |p| == |reviews| && (forall i, j :: 0 <= i < j < |p| ==> p[i] < p[j])
            && forall i :: 0 <= i < |p| ==>
                 p[i] < k && AcceptsWebhook(ws[p[i]], run[p[i]]) && Brought(run[p[i]], reviews[i])
  {
    var kinds := Kinds(ws, run);
    KindsClassify(ws, run);
    QueueMatches(ws, run, kinds, k);
    PendingAscends(kinds, k);
    forall i | 0 <= i < |Pending(kinds, k)|
      ensures AcceptsWebhook(ws[Pending(kinds, k)[i]], run[Pending(kinds, k)[i]])
    {
      assert KindAt(ws, run, kinds, Pending(kinds, k)[i]);
    }
  }

  // ------------------------------------------------- the ledger, counted in deliveries

  /** The delivery is about the record's address and chain. */
  predicate IsAbout(s: Step, r: Record) {
    Delivers(s) && s.delivery.rec.address == r.address && s.delivery.rec.chain == r.chain
  }

  /** Step k runs the review of a waiting delivery about the pair of this record, which is stored. */
  predicate ReviewsDelivery(screens: map<string, Record>, run: seq<Step>, kind: Kind, p: seq<nat>, sid: string) {
    kind.Reviews? && kind.index < |p| && p[kind.index] < |run| && sid in screens &&
    IsAbout(run[p[kind.index]], screens[sid])
  }

  /** The accepted deliveries about the record's pair whose review ran in the first k steps, while the record
      was stored. */
  ghost function ReviewedFor(ws: seq<World>, run: seq<Step>, kinds: seq<Kind>, k: nat, sid: string): set<nat>
    requires |ws| == |run| + 1 && |kinds| == |run| && k <= |run|
  {
    if k == 0 then {}
    else
      var p := Pending(kinds, k - 1);
      ReviewedFor(ws, run, kinds, k - 1, sid) +
      if ReviewsDelivery(ws[k - 1].stores.screens, run, kinds[k - 1], p, sid) then {p[kinds[k - 1].index]} else {}
  }

  /** A delivery whose review has run is past and does not wait any more. */
  lemma {:induction false} ReviewedIsNotPending(ws: seq<World>, run: seq<Step>, kinds: seq<Kind>, k: nat, sid: string)
    requires |ws| == |run| + 1 && |kinds| == |run| && k <= |run|
    ensures forall j :: j in ReviewedFor(ws, run, kinds, k, sid) ==> j < k && j !in Pending(kinds, k)
  {
    if k > 0 {
      ReviewedIsNotPending(ws, run, kinds, k - 1, sid);
      PendingAscends(kinds, k - 1);
      var p := Pending(kinds, k - 1);
      if kinds[k - 1].Reviews? && kinds[k - 1].index < |p| { WithoutOne(p, kinds[k - 1].index); }
    }
  }

  lemma {:induction false} ReviewStepIsAbout(ws: seq<World>, run: seq<Step>, kinds: seq<Kind>, k: nat, sid: string)
    requires Behavior(ws, run) && Supplied(ws, run) && Classified(ws, run, kinds) && k < |run|
    ensures ReviewsRecord(ws[k], run[k], sid) <==>
            ReviewsDelivery(ws[k].stores.screens, run, kinds[k], Pending(kinds, k), sid)
  {
    QueueMatches(ws, run, kinds, k);
    assert SuppliedAt(ws, run, k) && KindAt(ws, run, kinds, k);
  }

  lemma {:induction false} ReviewedGrows(ws: seq<World>, run: seq<Step>, kinds: seq<Kind>, k: nat, sid: string)
    requires |ws| == |run| + 1 && |kinds| == |run| && k < |run|
    ensures |ReviewedFor(ws, run, kinds, k + 1, sid)| ==
            |ReviewedFor(ws, run, kinds, k, sid)| +
            if ReviewsDelivery(ws[k].stores.screens, run, kinds[k], Pending(kinds, k), sid) then 1 else 0
  {
    ReviewedIsNotPending(ws, run, kinds, k, sid);
    var p := Pending(kinds, k);
    if ReviewsDelivery(ws[k].stores.screens, run, kinds[k], p, sid) {
      assert p[kinds[k].index] in p;
    }
  }

  lemma {:induction false} CountsGrow(ws: seq<World>, run: seq<Step>, kinds: seq<Kind>, k: nat, sid: string)
    requires Behavior(ws, run) && Supplied(ws, run) && Classified(ws, run, kinds) && k < |run|
    ensures ReviewsOf(ws, run, k + 1, sid) - ReviewsOf(ws, run, k, sid) ==
            |ReviewedFor(ws, run, kinds, k + 1, sid)| - |ReviewedFor(ws, run, kinds, k, sid)|
  {
    ReviewStepIsAbout(ws, run, kinds, k, sid);
    ReviewedGrows(ws, run, kinds, k, sid);
  }

  /** Counting the review steps of a record is counting the deliveries behind them: no delivery is reviewed
      twice. */
  lemma {:induction false} ReviewsAreDeliveries(ws: seq<World>, run: seq<Step>, kinds: seq<Kind>, k: nat, sid: string)
    requires Behavior(ws, run) && Supplied(ws, run) && Classified(ws, run, kinds) && k <= |run|
    ensures ReviewsOf(ws, run, k, sid) == |ReviewedFor(ws, run, kinds, k, sid)|
  {
    if k > 0 {
      ReviewsAreDeliveries(ws, run, kinds, k - 1, sid);
      CountsGrow(ws, run, kinds, k - 1, sid);
    }
  }

  /** The ledger, with nothing but deliveries and records in it: an allowed record has exactly as many alerts as
      accepted deliveries about its address and chain have been reviewed since it was stored, any other record
      exactly one, and the alerts about no record are as many as the accepted deliveries. */
  lemma {:induction false} LedgerInDeliveries(ws: seq<World>, run: seq<Step>, k: nat, sid: string)
    requires Behavior(ws, run) && Supplied(ws, run) && k <= |run|
    ensures A.WellFormed(ws[k].stores.alerts)
    ensures Tally(ws[k].stores.alerts, sid) ==
            if sid == "" then WebhooksAccepted(ws, run, k)
            else if sid !in ws[k].stores.screens then 0
            else if ws[k].stores.screens[sid].decision == "ALLOW" then |ReviewedFor(ws, run, Kinds(ws, run), k, sid)|
            else 1
  {
    LedgerBalances(ws, run, k, sid);
    KindsClassify(ws, run);
    ReviewsAreDeliveries(ws, run, Kinds(ws, run), k, sid);
  }

  // -------------------------------------------------------- what an alert goes back to

  /** The alert says what this delivery says, and was opened when it came. */
  predicate Echoes(a: A.Alert, s: Step) {
    Delivers(s) && a.id == s.stamp.id && a.createdAt == s.stamp.at && a.txId == s.delivery.rec.txId &&
    a.address == s.delivery.rec.address && a.chain == s.delivery.rec.chain && a.exposure == s.delivery.rec.exposure
  }

  ghost predicate Announced(run: seq<Step>, kinds: seq<Kind>, k: nat, a: A.Alert)
    requires k <= |run| == |kinds|
  {
    exists j :: 0 <= j < k && kinds[j].Accepts? && Echoes(a, run[j])
  }

  ghost predicate Reclassified(run: seq<Step>, kinds: seq<Kind>, k: nat, r: Record, exposure: string)
    requires k <= |run| == |kinds|
  {
    exists j :: 0 <= j < k && kinds[j].Accepts? && IsAbout(run[j], r) && run[j].delivery.rec.exposure == exposure
  }

  /** Why there is this alert after k steps. One about no record: a delivery was accepted that says the same.
      One about a record: it repeats the record's transaction, address and chain, and gives its exposure when
      the record was not allowed, and when it was, the exposure of an accepted delivery about the pair. The
      severity is always that of the alert's exposure. */
  ghost predicate Warranted(screens: map<string, Record>, run: seq<Step>, kinds: seq<Kind>, k: nat, a: A.Alert)
    requires k <= |run| == |kinds|
  {
    && a.severity == D.SeverityFor(a.exposure)
    && if a.screenId == "" then Announced(run, kinds, k, a)
       else
         a.screenId in screens &&
         var r := screens[a.screenId];
         && a.txId == r.txId && a.address == r.address && a.chain == r.chain
         && if r.decision != "ALLOW" then a.exposure == r.exposure else Reclassified(run, kinds, k, r, a.exposure)
  }

  /** A warrant outlives the step, and changes of status, assignee and closing time. */
  lemma WarrantLasts(m: map<string, Record>, m': map<string, Record>, run: seq<Step>, kinds: seq<Kind>, k: nat,
                     a: A.Alert, b: A.Alert)
    requires k < |run| == |kinds| && Warranted(m, run, kinds, k, a) && A.SameIdentity(a, b)
    requires forall id :: id in m ==> id in m' && m'[id] == m[id]
    ensures Warranted(m', run, kinds, k + 1, b)
  {
    if a.screenId == "" {
      var j :| 0 <= j < k && kinds[j].Accepts? && Echoes(a, run[j]);
      assert Echoes(b, run[j]);
    } else if m[a.screenId].decision == "ALLOW" {
      assert Reclassified(run, kinds, k + 1, m[a.screenId], a.exposure);
    }
  }

  /** The alert was opened by this step for a record that is not allowed. */
  ghost predicate OpenedForRecord(screens: map<string, Record>, a: A.Alert) {
    a.screenId != "" && a.screenId in screens &&
    var r := screens[a.screenId];
    r.decision != "ALLOW" && a.txId == r.txId && a.address == r.address && a.chain == r.chain &&
    a.exposure == r.exposure && a.severity == D.SeverityFor(a.exposure)
  }

  ghost predicate OpenedByReview(w: World, s: Step, a: A.Alert) {
    s.Reviewing? && s.index < |w.reviews| && a.screenId in w.stores.screens && a.screenId != "" &&
    var (r, rec) := (w.stores.screens[a.screenId], w.reviews[s.index]);
    r.decision == "ALLOW" && r.address == rec.address && r.chain == rec.chain && a.txId == r.txId &&
    a.address == r.address && a.chain == r.chain && a.exposure == rec.exposure && a.severity == D.SeverityFor(a.exposure)
  }

  ghost predicate OpenedByWebhook(w: World, s: Step, a: A.Alert) {
    AcceptsWebhook(w, s) && Echoes(a, s) && a.screenId == "" && a.severity == D.SeverityFor(a.exposure)
  }

  /** Every alert after a step was there before, in all but status, assignee and closing time, or was opened
      by the step in one of three ways. */
  ghost predicate Explained(w: World, w': World, s: Step, id: string)
    requires id in w'.stores.alerts.mem
  {
    var a := w'.stores.alerts.mem[id];
    || (id in w.stores.alerts.mem && A.SameIdentity(w.stores.alerts.mem[id], a))
    || OpenedForRecord(w'.stores.screens, a) || OpenedByWebhook(w, s, a) || OpenedByReview(w, s, a)
  }

  lemma ScreenExplains(w: World, s: Step, id: string)
    requires s.Screening? && WellSupplied(w, s) && id in Next(w, s).stores.alerts.mem
    ensures Explained(w, Next(w, s), s, id)
  {
    var r := ScreenEffect(w, s);
    if Validate(s.req).None? && r.decision != "ALLOW" {
      D.SeverityExactly(r.exposure);
      A.CreateExactly(w.stores.alerts, s.inputs.alert, r.screenId, r.txId, r.address, r.chain, r.exposure,
                      D.SeverityFor(r.exposure));
    }
  }

  lemma WebhookExplains(w: World, s: Step, id: string)
    requires s.Webhook? && WellSupplied(w, s) && id in Next(w, s).stores.alerts.mem
    ensures Explained(w, Next(w, s), s, id)
  {
    assert s.stamp == [s.stamp][0];
    IngestExactly(w.stores, w.seen, s.vendor, s.delivery, s.stamp);
    if Delivers(s) {
      var raw := s.delivery.rec;
      D.SeverityExactly(raw.exposure);
      A.CreateExactly(w.stores.alerts, s.stamp, "", raw.txId, raw.address, raw.chain, raw.exposure,
                      D.SeverityFor(raw.exposure));
    }
  }

  /** An alert of the store after a review is an old one or warns about an allowed record. */
  lemma OldOrWarning(before: A.Store, after: A.Store, rs: seq<Record>, exposure: string, stamps: seq<A.Stamp>, id: string)
    returns (n: nat)
    requires |stamps| >= |rs| && A.WellFormed(before) && A.WellFormed(after) && id in after.mem
    requires AppendsWarnings(before, after, rs, exposure, stamps)
    ensures id in before.mem ==> after.mem[id] == before.mem[id]
    ensures id !in before.mem ==> n < |rs| && Warns(after.mem[id], rs[n], exposure, stamps[n])
  {
    n := 0;
    forall i | 0 <= i < |before.order| ensures after.order[i] in before.mem {
      assert after.order[i] == after.order[..|before.order|][i];
    }
    if id !in before.mem {
      var i :| 0 <= i < |after.order| && after.order[i] == id;
      n := i - |before.order|;
      assert Warned(before, after, n, rs[n], exposure, stamps[n]);
    }
  }

  lemma ReviewedExplains(w: World, w': World, s: Step, id: string)
    requires s.Reviewing? && WellSupplied(w, s) && Sound(w.stores) && Sound(w'.stores) && id in w'.stores.alerts.mem
    requires w'.stores.alerts ==
             A.InsertedAll(w.stores.alerts, ReviewAlerts(AllowedOnly(s.listing), w.reviews[s.index].exposure, s.stamps))
    ensures Explained(w, w', s, id)
  {
    var rs, rec := AllowedOnly(s.listing), w.reviews[s.index];
    ReviewWarns(w.stores.alerts, rs, rec.exposure, s.stamps);
    var n := OldOrWarning(w.stores.alerts, w'.stores.alerts, rs, rec.exposure, s.stamps, id);
    if id !in w.stores.alerts.mem {
      AllowedOnlyMembers(s.listing);
      assert rs[n] in rs;
    }
  }

  lemma ReviewExplains(w: World, s: Step, id: string)
    requires s.Reviewing? && WellSupplied(w, s) && Sound(w.stores) && id in Next(w, s).stores.alerts.mem
    ensures Explained(w, Next(w, s), s, id)
  {
    ReviewEffect(w, s);
    ReviewKeeps(w, s, "");
    ReviewedExplains(w, Next(w, s), s, id);
  }

  lemma StepExplains(w: World, s: Step, id: string)
    requires WellSupplied(w, s) && Sound(w.stores) && id in Next(w, s).stores.alerts.mem
    ensures Explained(w, Next(w, s), s, id)
  {
    match s
    case Screening(_, _) => ScreenExplains(w, s, id);
    case Webhook(_, _, _) => WebhookExplains(w, s, id);
    case Reviewing(_, _, _) => ReviewExplains(w, s, id);
    case Modify(mid, change) =>
      ModifyEffect(w, s);
      A.ModifyExactly(w.stores.alerts, mid, change);
    case _ => OtherEffect(w, s);
  }

  lemma {:induction false} ReviewWarrants(ws: seq<World>, run: seq<Step>, kinds: seq<Kind>, k: nat,
                                          m': map<string, Record>, a: A.Alert)
    requires Behavior(ws, run) && Classified(ws, run, kinds) && k < |run| && OpenedByReview(ws[k], run[k], a)
    requires forall id :: id in ws[k].stores.screens ==> id in m' && m'[id] == ws[k].stores.screens[id]
    ensures Warranted(m', run, kinds, k + 1, a)
  {
    QueueMatches(ws, run, kinds, k);
    PendingAscends(kinds, k);
    var j := Pending(kinds, k)[run[k].index];
    assert Brought(run[j], ws[k].reviews[run[k].index]);
    assert Reclassified(run, kinds, k + 1, m'[a.screenId], a.exposure);
  }

  ghost predicate Keeps(w: World, w': World) {
    forall sid :: sid in w.stores.screens ==>
      sid in w'.stores.screens && w'.stores.screens[sid] == w.stores.screens[sid]
  }

  lemma {:induction false} ExplainedAt(ws: seq<World>, run: seq<Step>, k: nat, id: string)
    requires Behavior(ws, run) && Supplied(ws, run) && k < |run| && Sound(ws[k].stores)
    requires id in ws[k + 1].stores.alerts.mem
    ensures Explained(ws[k], ws[k + 1], run[k], id)
  {
    assert StepAt(ws, run, k) && SuppliedAt(ws, run, k);
    StepExplains(ws[k], run[k], id);
  }

  lemma {:induction false} KeptAt(ws: seq<World>, run: seq<Step>, k: nat)
    requires Behavior(ws, run) && Supplied(ws, run) && k < |run|
    ensures Keeps(ws[k], ws[k + 1])
  {
    assert StepAt(ws, run, k) && SuppliedAt(ws, run, k);
    StepKeepsRecords(ws[k], run[k]);
  }

  lemma {:induction false} AcceptedKind(ws: seq<World>, run: seq<Step>, kinds: seq<Kind>, k: nat)
    requires Classified(ws, run, kinds) && k < |run|
    ensures AcceptsWebhook(ws[k], run[k]) <==> kinds[k].Accepts?
  {
    assert KindAt(ws, run, kinds, k);
  }

  lemma {:induction false} WarrantedThroughout(ws: seq<World>, run: seq<Step>, kinds: seq<Kind>, k: nat, id: string)
    requires Behavior(ws, run) && Supplied(ws, run) && Classified(ws, run, kinds) && k <= |run|
    requires id in ws[k].stores.alerts.mem
    ensures Warranted(ws[k].stores.screens, run, kinds, k, ws[k].stores.alerts.mem[id])
  {
    if k > 0 {
      var w, w', s, a := ws[k - 1], ws[k], run[k - 1], ws[k].stores.alerts.mem[id];
      SoundThroughout(ws, run, k - 1);
      ExplainedAt(ws, run, k - 1, id);
      KeptAt(ws, run, k - 1);
      AcceptedKind(ws, run, kinds, k - 1);
      if id in w.stores.alerts.mem && A.SameIdentity(w.stores.alerts.mem[id], a) {
        WarrantedThroughout(ws, run, kinds, k - 1, id);
        WarrantLasts(w.stores.screens, w'.stores.screens, run, kinds, k - 1, w.stores.alerts.mem[id], a);
      } else if OpenedByReview(w, s, a) {
        ReviewWarrants(ws, run, kinds, k - 1, w'.stores.screens, a);
      }
    }
  }

  /** In every reachable world every alert has its warrant. */
  lemma {:induction false} EveryAlertIsWarranted(ws: seq<World>, run: seq<Step>, k: nat, id: string)
    requires Behavior(ws, run) && Supplied(ws, run) && k <= |run| && id in ws[k].stores.alerts.mem
    ensures Warranted(ws[k].stores.screens, run, Kinds(ws, run), k, ws[k].stores.alerts.mem[id])
  {
    KindsClassify(ws, run);
    WarrantedThroughout(ws, run, Kinds(ws, run), k, id);
  }
}
