/** Book-keeping over whole runs: alerts balance against records, webhooks and reviews, and every
    record has its audit event. */
module Ledger {
  import opened Seqs
  import opened Screening
  import opened Runs
  import D = Decision
  import A = Alert
  import Audit

  ghost predicate FreshAlertIds(alerts: A.Store, stamps: seq<A.Stamp>) {
    && (forall i :: 0 <= i < |stamps| ==> stamps[i].id != "" && stamps[i].id !in alerts.mem)
    && (forall i, j :: 0 <= i < j < |stamps| ==> stamps[i].id != stamps[j].id)
  }

  /** The id generators give new, non-empty ids, and a review that runs has been started and reads what
      the store lists. */
  ghost predicate WellSupplied(w: World, s: Step) {
    match s
    case Screening(_, i) =>
      i.screen.id != "" && i.screen.id !in w.stores.screens && FreshAlertIds(w.stores.alerts, [i.alert])
    case Webhook(_, _, stamp) => FreshAlertIds(w.stores.alerts, [stamp])
    case Reviewing(n, listing, stamps) =>
      && n < |w.reviews|
      && IsListing(w.stores.screens, w.reviews[n].address, w.reviews[n].chain, listing)
      && |stamps| >= |AllowedOnly(listing)| && FreshAlertIds(w.stores.alerts, stamps)
    case _ => true
  }

  ghost predicate SuppliedAt(ws: seq<World>, run: seq<Step>, k: nat)
    requires |ws| == |run| + 1 && k < |run|
  {
    WellSupplied(ws[k], run[k])
  }

  ghost predicate Supplied(ws: seq<World>, run: seq<Step>)
    requires |ws| == |run| + 1
  {
    forall k: nat :: k < |run| ==> SuppliedAt(ws, run, k)
  }

  // ------------------------------------------------------------------ counting

  function TallyIn(mem: map<string, A.Alert>, order: seq<string>, sid: string): nat
    requires forall id :: id in order ==> id in mem
  {
    if order == [] then 0
    else
      var n := |order| - 1;
      TallyIn(mem, order[..n], sid) + if mem[order[n]].screenId == sid then 1 else 0
  }

  /** How many alerts carry this ScreenID. */
  function Tally(s: A.Store, sid: string): nat
    requires forall id :: id in s.order ==> id in s.mem
  {
    TallyIn(s.mem, s.order, sid)
  }

  lemma {:induction false} TallyFrame(mem: map<string, A.Alert>, mem': map<string, A.Alert>, order: seq<string>,
                                      sid: string)
    requires forall id :: id in order ==> id in mem && id in mem' && mem[id].screenId == mem'[id].screenId
    ensures TallyIn(mem, order, sid) == TallyIn(mem', order, sid)
  {
    if order != [] { TallyFrame(mem, mem', order[..|order| - 1], sid); }
  }

  /** One alert more at the end of the order. */
  lemma TallyAppends(mem: map<string, A.Alert>, order: seq<string>, a: A.Alert, sid: string)
    requires (forall id :: id in order ==> id in mem) && a.id !in order
    ensures TallyIn(mem[a.id := a], order + [a.id], sid) ==
            TallyIn(mem, order, sid) + if a.screenId == sid then 1 else 0
  {
    assert (order + [a.id])[..|order|] == order;
    TallyFrame(mem, mem[a.id := a], order, sid);
  }

  lemma InsertIsWellFormed(s: A.Store, a: A.Alert)
    requires A.WellFormed(s) && a.id != "" && a.id !in s.mem
    ensures A.WellFormed(A.Inserted(s, a).0)
  {
  }

  lemma InsertTallies(s: A.Store, a: A.Alert, sid: string)
    requires A.WellFormed(s) && a.id != "" && a.id !in s.mem
    ensures var s' := A.Inserted(s, a).0;
            && A.WellFormed(s') && s'.mem == s.mem[a.id := a] && s'.order == s.order + [a.id]
            && Tally(s', sid) == Tally(s, sid) + if a.screenId == sid then 1 else 0
  {
    InsertIsWellFormed(s, a);
    TallyAppends(s.mem, s.order, a, sid);
  }

  lemma ModifyTallies(s: A.Store, id: string, c: A.Change, sid: string)
    requires A.WellFormed(s)
    ensures var s' := A.Modify(s, id, c).0;
            && A.WellFormed(s') && s'.order == s.order && s'.mem.Keys == s.mem.Keys
            && (forall i :: i in s.mem ==> A.SameIdentity(s.mem[i], s'.mem[i]))
            && Tally(s', sid) == Tally(s, sid)
  {
    var s' := A.Modify(s, id, c).0;
    assert forall i :: i in s.mem ==> i in s'.mem && A.SameIdentity(s.mem[i], s'.mem[i]);
    TallyFrame(s.mem, s'.mem, s.order, sid);
  }

  function Mentions(added: seq<A.Alert>, sid: string): nat {
    if added == [] then 0
    else Mentions(added[..|added| - 1], sid) + if added[|added| - 1].screenId == sid then 1 else 0
  }

  lemma {:induction false} InsertAllTallies(s: A.Store, added: seq<A.Alert>, sid: string)
    requires A.WellFormed(s) && A.NewIds(s, added)
    ensures A.WellFormed(A.InsertedAll(s, added))
    ensures Tally(A.InsertedAll(s, added), sid) == Tally(s, sid) + Mentions(added, sid)
  {
    if added != [] {
      var n := |added| - 1;
      A.NewIdStaysNew(s, added);
      InsertAllTallies(s, added[..n], sid);
      InsertTallies(A.InsertedAll(s, added[..n]), added[n], sid);
    }
  }

  lemma {:induction false} MentionsOnce(added: seq<A.Alert>, sid: string)
    requires forall i, j :: 0 <= i < j < |added| ==> added[i].screenId != added[j].screenId
    ensures Mentions(added, sid) == if exists a :: a in added && a.screenId == sid then 1 else 0
  {
    if added != [] {
      var n := |added| - 1;
      MentionsOnce(added[..n], sid);
      assert added == added[..n] + [added[n]];
      assert forall i :: 0 <= i < n ==> added[..n][i] == added[i];
    }
  }

  lemma ReviewIdsDiffer(rs: seq<Record>, screens: map<string, Record>, exposure: string, stamps: seq<A.Stamp>)
    requires Distinct(rs) && |stamps| >= |rs|
    requires forall r :: r in rs ==> r.screenId in screens && screens[r.screenId] == r
    ensures var added := ReviewAlerts(rs, exposure, stamps);
            forall i, j :: 0 <= i < j < |added| ==> added[i].screenId != added[j].screenId
  {
    var added := ReviewAlerts(rs, exposure, stamps);
    forall i, j | 0 <= i < j < |added| ensures added[i].screenId != added[j].screenId {
      assert rs[i] in rs && rs[j] in rs;
    }
  }

  lemma MentionedIffListed(rs: seq<Record>, exposure: string, stamps: seq<A.Stamp>, sid: string)
    requires |stamps| >= |rs|
    ensures (exists a :: a in ReviewAlerts(rs, exposure, stamps) && a.screenId == sid) <==>
            exists r :: r in rs && r.screenId == sid
  {
    var added := ReviewAlerts(rs, exposure, stamps);
    if r :| r in rs && r.screenId == sid {
      var i :| 0 <= i < |rs| && rs[i] == r;
      assert added[i] in added && added[i].screenId == sid;
    }
    if a :| a in added && a.screenId == sid {
      var i :| 0 <= i < |added| && added[i] == a;
      assert rs[i] in rs && rs[i].screenId == sid;
    }
  }

  /** In a review of a pair, an id is mentioned once if it is that of an allowed record of the pair, and
      otherwise not at all. */
  lemma ReviewMentions(screens: map<string, Record>, address: string, chain: string, listing: seq<Record>,
                       exposure: string, stamps: seq<A.Stamp>, sid: string)
    requires IsListing(screens, address, chain, listing) && |stamps| >= |AllowedOnly(listing)|
    ensures Mentions(ReviewAlerts(AllowedOnly(listing), exposure, stamps), sid) ==
            if sid in screens && screens[sid].screenId == sid && screens[sid].decision == D.ALLOW &&
               Matches(screens[sid], address, chain) then 1 else 0
  {
    AllowedOnlyMembers(listing);
    AllowedOnlyOrder(listing);
    var rs := AllowedOnly(listing);
    ReviewIdsDiffer(rs, screens, exposure, stamps);
    MentionsOnce(ReviewAlerts(rs, exposure, stamps), sid);
    MentionedIffListed(rs, exposure, stamps, sid);
    assert sid in screens && screens[sid] in rs ==> screens[sid] in listing;
  }

  // -------------------------------------------------- what each call contributes

  predicate ReviewsRecord(w: World, s: Step, sid: string) {
    s.Reviewing? && s.index < |w.reviews| && sid in w.stores.screens &&
    Matches(w.stores.screens[sid], w.reviews[s.index].address, w.reviews[s.index].chain)
  }

  /** The reviews run in the first k steps, while the record was stored, on the record's own pair. */
  ghost function ReviewsOf(ws: seq<World>, run: seq<Step>, k: nat, sid: string): nat
    requires |ws| == |run| + 1 && k <= |run|
  {
    if k == 0 then 0
    else ReviewsOf(ws, run, k - 1, sid) + if ReviewsRecord(ws[k - 1], run[k - 1], sid) then 1 else 0
  }

  predicate AcceptsWebhook(w: World, s: Step) {
    s.Webhook? && Ingest(w.stores, w.seen, s.vendor, s.delivery, s.stamp).result.Accepted?
  }

  ghost function WebhooksAccepted(ws: seq<World>, run: seq<Step>, k: nat): nat
    requires |ws| == |run| + 1 && k <= |run|
  {
    if k == 0 then 0 else WebhooksAccepted(ws, run, k - 1) + if AcceptsWebhook(ws[k - 1], run[k - 1]) then 1 else 0
  }

  /** How many alerts a stored record should have: one if it was not allowed, and otherwise one for every
      review of its pair since it was stored. */
  ghost function Due(ws: seq<World>, run: seq<Step>, k: nat, sid: string): nat
    requires |ws| == |run| + 1 && k <= |run| && sid in ws[k].stores.screens
  {
    if ws[k].stores.screens[sid].decision == D.ALLOW then ReviewsOf(ws, run, k, sid) else 1
  }

  /** An alert that names a record repeats its transaction, address and chain, and for a record that was
      not allowed also its exposure. */
  predicate Describes(a: A.Alert, r: Record) {
    && a.txId == r.txId && a.address == r.address && a.chain == r.chain
    && (r.decision != D.ALLOW ==> a.exposure == r.exposure && a.severity == D.SeverityFor(r.exposure))
  }

  ghost predicate Sound(st: Stores) {
    && A.WellFormed(st.alerts) && FiledById(st.screens) && "" !in st.screens
    && (forall id :: id in st.alerts.mem ==>
          var a := st.alerts.mem[id];
          a.screenId == "" || (a.screenId in st.screens && Describes(a, st.screens[a.screenId])))
  }

  ghost predicate Balances(ws: seq<World>, run: seq<Step>, k: nat, sid: string)
    requires |ws| == |run| + 1 && k <= |run| && A.WellFormed(ws[k].stores.alerts)
  {
    Tally(ws[k].stores.alerts, sid) ==
    if sid == "" then WebhooksAccepted(ws, run, k)
    else if sid in ws[k].stores.screens then Due(ws, run, k, sid)
    else 0
  }

  // ------------------------------------------------------------- effects of steps

  /** A Screen call either leaves records, alerts and audit alone and is rejected as invalid, or adds one
      record, the alert it calls for, and its audit event, and answers with the record's content. */
  lemma ScreenEffect(w: World, s: Step) returns (r: Record)
    requires s.Screening? && WellSupplied(w, s)
    ensures var (st, st') := (w.stores, Next(w, s).stores);
            if Validate(s.req).Some? then st' == st && Reply(w, s) == Rejected(Validate(s.req).value)
            else
              && r.screenId == s.inputs.screen.id && r.txId == s.req.txId
              && r.address == s.req.address && r.source == s.req.source
              && r.chain == s.req.chain && r.amount == s.req.amount
              && st'.screens == st.screens[r.screenId := r]
              && st'.alerts == AlertFor(st.alerts, r, s.inputs.alert)
              && st'.audit == st.audit + [EventFor(r)]
              && Reply(w, s) == Screened(ResponseFor(r))
  {
    var found := Lookup(w.stores, s.req, s.inputs.lookupAt);
    var core := if found.Some? then CoreOf(found.value) else CoreAt(w, s);
    r := RecordFor(s.req, core, found.Some?, s.inputs.screen);
  }

  lemma WebhookEffect(w: World, s: Step)
    requires s.Webhook? && WellSupplied(w, s)
    ensures var (st, st') := (w.stores, Next(w, s).stores);
            && st'.screens == st.screens && st'.audit == st.audit
            && (AcceptsWebhook(w, s) <==> Fresh(w.seen, s.vendor, s.delivery).Some?)
            && match Fresh(w.seen, s.vendor, s.delivery)
               case None => st'.alerts == st.alerts
               case Some(rec) => st'.alerts == WebhookAlert(st.alerts, rec, s.stamp).0
  {
    assert s.stamp == [s.stamp][0];
  }

  lemma OtherEffect(w: World, s: Step)
    requires s.Reload? || s.Override? || s.Tick?
    ensures Next(w, s).stores.screens == w.stores.screens && Next(w, s).stores.audit == w.stores.audit
    ensures Next(w, s).stores.alerts == w.stores.alerts
  {
  }

  lemma ModifyEffect(w: World, s: Step)
    requires s.Modify?
    ensures Next(w, s).stores.screens == w.stores.screens && Next(w, s).stores.audit == w.stores.audit
    ensures Next(w, s).stores.alerts == A.Modify(w.stores.alerts, s.id, s.change).0
  {
  }

  lemma ReviewEffect(w: World, s: Step)
    requires s.Reviewing? && WellSupplied(w, s)
    ensures Next(w, s).stores.screens == w.stores.screens && Next(w, s).stores.audit == w.stores.audit
    ensures Next(w, s).stores.alerts ==
            A.InsertedAll(w.stores.alerts, ReviewAlerts(AllowedOnly(s.listing), w.reviews[s.index].exposure, s.stamps))
  {
  }

  /** What one step adds to the tally of a ScreenID. */
  ghost function Added(w: World, s: Step, sid: string): nat {
    if s.Screening? && Validate(s.req).None? && sid == s.inputs.screen.id && sid in Next(w, s).stores.screens &&
       Next(w, s).stores.screens[sid].decision != D.ALLOW then 1
    else if sid == "" && AcceptsWebhook(w, s) then 1
    else if ReviewsRecord(w, s, sid) && w.stores.screens[sid].decision == D.ALLOW then 1
    else 0
  }

  /** One alert more, about a stored record or about none, keeps the books sound. */
  lemma InsertKeepsSound(st: Stores, st': Stores, a: A.Alert, sid: string)
    requires Sound(st) && a.id != "" && a.id !in st.alerts.mem && st'.alerts == A.Inserted(st.alerts, a).0
    requires FiledById(st'.screens) && "" !in st'.screens
    requires forall id :: id in st.screens ==> id in st'.screens && st'.screens[id] == st.screens[id]
    requires a.screenId == "" || (a.screenId in st'.screens && Describes(a, st'.screens[a.screenId]))
    ensures Sound(st')
    ensures Tally(st'.alerts, sid) == Tally(st.alerts, sid) + if a.screenId == sid then 1 else 0
  {
    InsertTallies(st.alerts, a, sid);
  }

  lemma SeverityIsGiven(exposure: string)
    ensures D.SeverityFor(exposure) != ""
  {
  }

  lemma RecordKeeps(st: Stores, st': Stores, r: Record, stamp: A.Stamp, sid: string)
    requires Sound(st) && r.screenId != "" && r.screenId !in st.screens && FreshAlertIds(st.alerts, [stamp])
    requires st'.screens == st.screens[r.screenId := r] && st'.alerts == AlertFor(st.alerts, r, stamp)
    ensures Sound(st')
    ensures Tally(st'.alerts, sid) == Tally(st.alerts, sid) + if r.screenId == sid && r.decision != D.ALLOW then 1 else 0
  {
    if r.decision != D.ALLOW {
      assert stamp == [stamp][0];
      var a := A.NewAlert(stamp, r.screenId, r.txId, r.address, r.chain, r.exposure, D.SeverityFor(r.exposure));
      SeverityIsGiven(r.exposure);
      InsertKeepsSound(st, st', a, sid);
    }
  }

  lemma ScreenKeeps(w: World, s: Step, sid: string)
    requires s.Screening? && WellSupplied(w, s) && Sound(w.stores)
    ensures Sound(Next(w, s).stores)
    ensures Tally(Next(w, s).stores.alerts, sid) == Tally(w.stores.alerts, sid) + Added(w, s, sid)
  {
    var r := ScreenEffect(w, s);
    if Validate(s.req).None? {
      assert s.inputs.alert == [s.inputs.alert][0];
      RecordKeeps(w.stores, Next(w, s).stores, r, s.inputs.alert, sid);
    }
  }

  lemma WebhookKeeps(w: World, s: Step, sid: string)
    requires s.Webhook? && WellSupplied(w, s) && Sound(w.stores)
    ensures Sound(Next(w, s).stores)
    ensures Tally(Next(w, s).stores.alerts, sid) == Tally(w.stores.alerts, sid) + Added(w, s, sid)
  {
    WebhookEffect(w, s);
    match Fresh(w.seen, s.vendor, s.delivery)
    case None =>
    case Some(rec) =>
      assert s.stamp == [s.stamp][0];
      InsertKeepsSound(w.stores, Next(w, s).stores,
                       A.NewAlert(s.stamp, "", rec.txId, rec.address, rec.chain, rec.exposure,
                                  D.SeverityFor(rec.exposure)),
                       sid);
  }

  lemma ReviewDescribes(screens: map<string, Record>, address: string, chain: string, listing: seq<Record>,
                        exposure: string, stamps: seq<A.Stamp>)
    requires IsListing(screens, address, chain, listing) && |stamps| >= |AllowedOnly(listing)|
    ensures forall a :: a in ReviewAlerts(AllowedOnly(listing), exposure, stamps) ==>
              a.screenId in screens && Describes(a, screens[a.screenId])
  {
    AllowedOnlyMembers(listing);
    var rs := AllowedOnly(listing);
    assert forall i :: 0 <= i < |rs| ==> rs[i] in rs;
  }

  lemma AppendedStaysSound(st: Stores, st': Stores, added: seq<A.Alert>)
    requires Sound(st) && A.WellFormed(st'.alerts) && A.Appended(st.alerts, st'.alerts, added)
    requires st'.screens == st.screens
    requires forall a :: a in added ==> a.screenId in st.screens && Describes(a, st.screens[a.screenId])
    ensures Sound(st')
  {
    var alerts' := st'.alerts;
    forall id | id in alerts'.mem
      ensures var a := alerts'.mem[id];
              a.screenId == "" || (a.screenId in st.screens && Describes(a, st.screens[a.screenId]))
    {
      var i :| 0 <= i < |alerts'.order| && alerts'.order[i] == id;
      if i < |st.alerts.order| {
        assert st.alerts.order[i] in st.alerts.mem;
      } else {
        assert added[i - |st.alerts.order|] in added;
      }
    }
  }

  lemma ReviewedKeeps(st: Stores, st': Stores, rec: Reclassification, listing: seq<Record>, stamps: seq<A.Stamp>,
                      sid: string)
    requires Sound(st) && IsListing(st.screens, rec.address, rec.chain, listing)
    requires |stamps| >= |AllowedOnly(listing)| && FreshAlertIds(st.alerts, stamps)
    requires st'.screens == st.screens
    requires st'.alerts == A.InsertedAll(st.alerts, ReviewAlerts(AllowedOnly(listing), rec.exposure, stamps))
    ensures Sound(st')
    ensures Tally(st'.alerts, sid) == Tally(st.alerts, sid) +
              if sid in st.screens && Matches(st.screens[sid], rec.address, rec.chain) &&
                 st.screens[sid].decision == D.ALLOW then 1 else 0
  {
    var added := ReviewAlerts(AllowedOnly(listing), rec.exposure, stamps);
    InsertAllTallies(st.alerts, added, sid);
    ReviewMentions(st.screens, rec.address, rec.chain, listing, rec.exposure, stamps, sid);
    A.InsertedAllAppends(st.alerts, added);
    ReviewDescribes(st.screens, rec.address, rec.chain, listing, rec.exposure, stamps);
    AppendedStaysSound(st, st', added);
  }

  lemma ReviewKeeps(w: World, s: Step, sid: string)
    requires s.Reviewing? && WellSupplied(w, s) && Sound(w.stores)
    ensures Sound(Next(w, s).stores)
    ensures Tally(Next(w, s).stores.alerts, sid) == Tally(w.stores.alerts, sid) + Added(w, s, sid)
  {
    ReviewEffect(w, s);
    ReviewedKeeps(w.stores, Next(w, s).stores, w.reviews[s.index], s.listing, s.stamps, sid);
  }

  lemma {:induction false} StepKeeps(w: World, s: Step, sid: string)
    requires WellSupplied(w, s) && Sound(w.stores)
    ensures Sound(Next(w, s).stores)
    ensures Tally(Next(w, s).stores.alerts, sid) == Tally(w.stores.alerts, sid) + Added(w, s, sid)
  {
    match s
    case Screening(_, _) => ScreenKeeps(w, s, sid);
    case Webhook(_, _, _) => WebhookKeeps(w, s, sid);
    case Reviewing(_, _, _) => ReviewKeeps(w, s, sid);
    case Modify(id, change) =>
      ModifyEffect(w, s);
      ModifyTallies(w.stores.alerts, id, change, sid);
    case _ => OtherEffect(w, s);
  }

  /** Records are only added, and only by the Screen call that made them. */
  lemma StepKeepsRecords(w: World, s: Step)
    requires WellSupplied(w, s)
    ensures var (m, m') := (w.stores.screens, Next(w, s).stores.screens);
            && (forall id :: id in m ==> id in m' && m'[id] == m[id])
            && (forall id :: id in m' && id !in m ==> s.Screening? && Validate(s.req).None? && id == s.inputs.screen.id)
  {
    match s
    case Screening(_, _) => var r := ScreenEffect(w, s);
    case Webhook(_, _, _) => WebhookEffect(w, s);
    case Reviewing(_, _, _) => ReviewEffect(w, s);
    case Modify(_, _) => ModifyEffect(w, s);
    case _ => OtherEffect(w, s);
  }

  lemma {:induction false} UnstoredIsUnreviewed(ws: seq<World>, run: seq<Step>, k: nat, sid: string)
    requires Behavior(ws, run) && Supplied(ws, run) && k <= |run| && sid !in ws[k].stores.screens
    ensures ReviewsOf(ws, run, k, sid) == 0
  {
    if k > 0 {
      assert StepAt(ws, run, k - 1) && SuppliedAt(ws, run, k - 1);
      StepKeepsRecords(ws[k - 1], run[k - 1]);
      UnstoredIsUnreviewed(ws, run, k - 1, sid);
    }
  }

  lemma {:induction false} SoundThroughout(ws: seq<World>, run: seq<Step>, k: nat)
    requires Behavior(ws, run) && Supplied(ws, run) && k <= |run|
    ensures Sound(ws[k].stores)
  {
    if k > 0 {
      SoundThroughout(ws, run, k - 1);
      assert StepAt(ws, run, k - 1) && SuppliedAt(ws, run, k - 1);
      StepKeeps(ws[k - 1], run[k - 1], "");
    }
  }

  /** What a step adds for no ScreenID, for a record already stored, and for any other ScreenID. */
  lemma AddedExactly(w: World, s: Step, sid: string)
    requires WellSupplied(w, s) && Sound(w.stores)
    ensures var (m, m') := (w.stores.screens, Next(w, s).stores.screens);
            Added(w, s, sid) ==
            if sid == "" then (if AcceptsWebhook(w, s) then 1 else 0)
            else if sid in m then (if ReviewsRecord(w, s, sid) && m[sid].decision == D.ALLOW then 1 else 0)
            else if sid in m' && m'[sid].decision != D.ALLOW then 1 else 0
  {
    StepKeepsRecords(w, s);
  }

  /** What the k-th step changes about a ScreenID, told of the worlds before and after it. */
  ghost predicate Owes(w: World, w': World, s: Step, sid: string)
    requires A.WellFormed(w.stores.alerts) && A.WellFormed(w'.stores.alerts)
  {
    var (m, m') := (w.stores.screens, w'.stores.screens);
    && (sid in m ==> sid in m' && m'[sid] == m[sid])
    && Tally(w'.stores.alerts, sid) == Tally(w.stores.alerts, sid) +
         if sid == "" then (if AcceptsWebhook(w, s) then 1 else 0)
         else if sid in m then (if ReviewsRecord(w, s, sid) && m[sid].decision == D.ALLOW then 1 else 0)
         else if sid in m' && m'[sid].decision != D.ALLOW then 1 else 0
  }

  lemma StepOwes(w: World, s: Step, sid: string)
    requires WellSupplied(w, s) && Sound(w.stores)
    ensures Sound(Next(w, s).stores) && Owes(w, Next(w, s), s, sid)
  {
    StepKeeps(w, s, sid);
    StepKeepsRecords(w, s);
    AddedExactly(w, s, sid);
  }

  lemma OwesAt(ws: seq<World>, run: seq<Step>, k: nat, sid: string)
    requires Behavior(ws, run) && Supplied(ws, run) && k < |run| && Sound(ws[k].stores)
    ensures Sound(ws[k + 1].stores) && Owes(ws[k], ws[k + 1], run[k], sid)
  {
    assert StepAt(ws, run, k) && SuppliedAt(ws, run, k);
    StepOwes(ws[k], run[k], sid);
  }

  lemma BalanceCarries(ws: seq<World>, run: seq<Step>, k: nat, sid: string)
    requires |ws| == |run| + 1 && 0 < k <= |run|
    requires Sound(ws[k - 1].stores) && Sound(ws[k].stores) && Balances(ws, run, k - 1, sid)
    requires Owes(ws[k - 1], ws[k], run[k - 1], sid)
    requires sid !in ws[k - 1].stores.screens ==> ReviewsOf(ws, run, k - 1, sid) == 0
    ensures Balances(ws, run, k, sid)
  {
  }

  /** In every reachable state: each record that was not allowed has exactly one alert with its ScreenID;
      each allowed one has exactly as many as there were reviews of its pair since it was stored; the
      alerts with no ScreenID are as many as the webhooks accepted; and no other ScreenID occurs. */
  lemma {:induction false} LedgerBalances(ws: seq<World>, run: seq<Step>, k: nat, sid: string)
    requires Behavior(ws, run) && Supplied(ws, run) && k <= |run|
    ensures Sound(ws[k].stores) && Balances(ws, run, k, sid)
  {
    SoundThroughout(ws, run, k);
    if k > 0 {
      LedgerBalances(ws, run, k - 1, sid);
      OwesAt(ws, run, k - 1, sid);
      if sid !in ws[k - 1].stores.screens {
        UnstoredIsUnreviewed(ws, run, k - 1, sid);
      }
      BalanceCarries(ws, run, k, sid);
    }
  }

  // ------------------------------------------------------------------- the total

  function SumOfTallies(mem: map<string, A.Alert>, order: seq<string>, sids: seq<string>): nat
    requires forall id :: id in order ==> id in mem
  {
    if sids == [] then 0
    else SumOfTallies(mem, order, sids[..|sids| - 1]) + TallyIn(mem, order, sids[|sids| - 1])
  }

  lemma {:induction false} SumGrows(mem: map<string, A.Alert>, order: seq<string>, sids: seq<string>)
    requires order != [] && (forall id :: id in order ==> id in mem) && Distinct(sids)
    ensures SumOfTallies(mem, order, sids) ==
            SumOfTallies(mem, order[..|order| - 1], sids) +
            if mem[order[|order| - 1]].screenId in sids then 1 else 0
  {
    if sids != [] {
      var n := |sids| - 1;
      assert sids == sids[..n] + [sids[n]];
      assert forall i :: 0 <= i < n ==> sids[..n][i] == sids[i];
      SumGrows(mem, order, sids[..n]);
    }
  }

  lemma {:induction false} EmptySum(mem: map<string, A.Alert>, sids: seq<string>)
    ensures SumOfTallies(mem, [], sids) == 0
  {
    if sids != [] { EmptySum(mem, sids[..|sids| - 1]); }
  }

  lemma {:induction false} SumIsTotal(mem: map<string, A.Alert>, order: seq<string>, sids: seq<string>)
    requires Distinct(sids) && forall id :: id in order ==> id in mem && mem[id].screenId in sids
    ensures SumOfTallies(mem, order, sids) == |order|
  {
    if order == [] {
      EmptySum(mem, sids);
    } else {
      SumGrows(mem, order, sids);
      SumIsTotal(mem, order[..|order| - 1], sids);
    }
  }

  ghost function SumOfDues(ws: seq<World>, run: seq<Step>, k: nat, sids: seq<string>): nat
    requires |ws| == |run| + 1 && k <= |run| && forall sid :: sid in sids ==> sid in ws[k].stores.screens
  {
    if sids == [] then 0
    else SumOfDues(ws, run, k, sids[..|sids| - 1]) + Due(ws, run, k, sids[|sids| - 1])
  }

  lemma {:induction false} DuesAreTallies(ws: seq<World>, run: seq<Step>, k: nat, sids: seq<string>)
    requires Behavior(ws, run) && Supplied(ws, run) && k <= |run|
    requires A.WellFormed(ws[k].stores.alerts)
    requires forall sid :: sid in sids ==> sid in ws[k].stores.screens && sid != ""
    ensures SumOfDues(ws, run, k, sids) == SumOfTallies(ws[k].stores.alerts.mem, ws[k].stores.alerts.order, sids)
  {
    if sids != [] {
      var n := |sids| - 1;
      assert forall sid :: sid in sids[..n] ==> sid in sids;
      assert sids[n] in sids;
      DuesAreTallies(ws, run, k, sids[..n]);
      LedgerBalances(ws, run, k, sids[n]);
    }
  }

  /** The alerts are exactly those accounted for: over the ids of all stored records, listed once each,
      what is due to them and the accepted webhooks add up to the number of alerts. */
  lemma {:induction false} LedgerTotal(ws: seq<World>, run: seq<Step>, k: nat, sids: seq<string>)
    requires Behavior(ws, run) && Supplied(ws, run) && k <= |run|
    requires Distinct(sids) && forall sid :: sid in sids <==> sid in ws[k].stores.screens
    ensures |ws[k].stores.alerts.order| == WebhooksAccepted(ws, run, k) + SumOfDues(ws, run, k, sids)
  {
    SoundThroughout(ws, run, k);
    var mem, order := ws[k].stores.alerts.mem, ws[k].stores.alerts.order;
    var all := sids + [""];
    assert all[..|sids|] == sids;
    forall id | id in order ensures mem[id].screenId in all {
      assert mem[id].screenId == "" ==> all[|sids|] == mem[id].screenId;
    }
    SumIsTotal(mem, order, all);
    LedgerBalances(ws, run, k, "");
    DuesAreTallies(ws, run, k, sids);
  }

  // ----------------------------------------------------------------------- audit

  /** The audit events handed to the emitter are those of the stored records, one each. */
  ghost predicate Audited(st: Stores) {
    && Distinct(Audit.Ids(st.audit)) && (forall id :: id in Audit.Ids(st.audit) <==> id in st.screens)
    && (forall e :: e in st.audit ==> e.screenId in st.screens && e == EventFor(st.screens[e.screenId]))
  }

  lemma RecordIsAudited(st: Stores, r: Record, st': Stores)
    requires Audited(st) && r.screenId !in st.screens
    requires st'.screens == st.screens[r.screenId := r] && st'.audit == st.audit + [EventFor(r)]
    ensures Audited(st')
  {
    assert Audit.Ids(st'.audit) == Audit.Ids(st.audit) + [r.screenId];
  }

  lemma StepAudits(w: World, s: Step)
    requires WellSupplied(w, s) && Audited(w.stores)
    ensures Audited(Next(w, s).stores)
  {
    match s
    case Screening(_, _) =>
      var r := ScreenEffect(w, s);
      if Validate(s.req).None? { RecordIsAudited(w.stores, r, Next(w, s).stores); }
    case Webhook(_, _, _) =>
      WebhookEffect(w, s);
      assert Audit.Ids(Next(w, s).stores.audit) == Audit.Ids(w.stores.audit);
    case Reviewing(_, _, _) =>
      ReviewEffect(w, s);
      assert Audit.Ids(Next(w, s).stores.audit) == Audit.Ids(w.stores.audit);
    case Modify(_, _) =>
      ModifyEffect(w, s);
      assert Audit.Ids(Next(w, s).stores.audit) == Audit.Ids(w.stores.audit);
    case _ =>
      OtherEffect(w, s);
      assert Audit.Ids(Next(w, s).stores.audit) == Audit.Ids(w.stores.audit);
  }

  lemma {:induction false} AuditedThroughout(ws: seq<World>, run: seq<Step>, k: nat)
    requires Behavior(ws, run) && Supplied(ws, run) && k <= |run|
    ensures Audited(ws[k].stores)
  {
    if k > 0 {
      AuditedThroughout(ws, run, k - 1);
      assert StepAt(ws, run, k - 1) && SuppliedAt(ws, run, k - 1);
      StepAudits(ws[k - 1], run[k - 1]);
    }
  }

  /** Every stored record has exactly one audit event, with its content, and there are no others. */
  lemma EveryRecordIsAudited(ws: seq<World>, run: seq<Step>, k: nat)
    requires Behavior(ws, run) && Supplied(ws, run) && k <= |run|
    ensures Audited(ws[k].stores) && |ws[k].stores.audit| == |ws[k].stores.screens|
    ensures forall e :: e in ws[k].stores.audit ==>
              e.screenId in ws[k].stores.screens && Reports(e, ws[k].stores.screens[e.screenId]) &&
              e.createdAt == ws[k].stores.screens[e.screenId].createdAt
  {
    AuditedThroughout(ws, run, k);
    A.OrderCountsMap(Audit.Ids(ws[k].stores.audit), ws[k].stores.screens.Keys);
  }

  lemma {:induction false} EmitsAreOffered(emitting: seq<Audit.Step>, i: nat)
    requires i < |emitting| && emitting[i].Emit?
    ensures emitting[i].event in Audit.Offered(emitting)
  {
    var n := |emitting| - 1;
    if i < n { EmitsAreOffered(emitting[..n], i); }
  }

  predicate Told(screens: map<string, Record>, e: Audit.Event) {
    e.screenId in screens && Reports(e, screens[e.screenId]) &&
    (screens[e.screenId].createdAt != 0 ==> e.createdAt == screens[e.screenId].createdAt)
  }

  /** What the sink holds about a stored record is what the record says; the time too, unless it is zero. */
  lemma {:induction false} SinkTellsTheRecord(st: Stores, queueSize: int, emitting: seq<Audit.Step>, e: Audit.Event)
    requires Audited(st) && Audit.Offered(emitting) == st.audit
    requires e in Audit.At(Audit.Init(queueSize), emitting, |emitting|).sink
    ensures Told(st.screens, e)
  {
    Audit.EventsSayWhatWasOffered(queueSize, emitting, e);
    var i :| 0 <= i < |emitting| && emitting[i].Emit? && Audit.Carries(e, emitting[i].event, emitting[i].now);
    EmitsAreOffered(emitting, i);
  }

  /** From the record to the sink: let the emitter's run offer the events that the calls handed over, in
      their order, among any steps of its worker. Then the stored records are as many as the events emitted,
      dropped, queued and in flight; what the sink holds is about stored records, each at most once; and it
      says what the record says. */
  lemma {:induction false} RecordsReachSink(ws: seq<World>, run: seq<Step>, k: nat, queueSize: int,
                                            emitting: seq<Audit.Step>)
    requires Behavior(ws, run) && Supplied(ws, run) && k <= |run|
    requires Audit.Offered(emitting) == ws[k].stores.audit
    ensures var s := Audit.At(Audit.Init(queueSize), emitting, |emitting|);
            && |ws[k].stores.screens| == s.emitted + s.drops + |s.queue| + |Audit.InFlight(s.worker)|
            && Distinct(Audit.Ids(s.sink)) && forall e :: e in s.sink ==> Told(ws[k].stores.screens, e)
  {
    EveryRecordIsAudited(ws, run, k);
    Audit.OfferedCounts(emitting);
    Audit.EveryCallAccountedFor(queueSize, emitting);
    Audit.SinkHoldsOffered(queueSize, emitting);
    forall e | e in Audit.At(Audit.Init(queueSize), emitting, |emitting|).sink ensures Told(ws[k].stores.screens, e) {
      SinkTellsTheRecord(ws[k].stores, queueSize, emitting, e);
    }
  }

  predicate OnRecord(screens: map<string, Record>, response: Response) {
    response.screenId in screens &&
    var r := screens[response.screenId];
    && r.screenId == response.screenId && r.score == response.score && r.exposure == response.exposure
    && r.decision == response.decision && r.vendor == response.vendor && r.cacheHit == response.cacheHit
  }

  lemma {:induction false} StaysOnRecord(ws: seq<World>, run: seq<Step>, i: nat, k: nat, response: Response)
    requires Behavior(ws, run) && Supplied(ws, run) && i <= k <= |run|
    requires OnRecord(ws[i].stores.screens, response)
    ensures OnRecord(ws[k].stores.screens, response)
    decreases k
  {
    if i < k {
      StaysOnRecord(ws, run, i, k - 1, response);
      assert StepAt(ws, run, k - 1) && SuppliedAt(ws, run, k - 1);
      StepKeepsRecords(ws[k - 1], run[k - 1]);
    }
  }

  lemma JustScreened(w: World, s: Step)
    requires s.Screening? && WellSupplied(w, s) && Reply(w, s).Screened?
    ensures OnRecord(Next(w, s).stores.screens, Reply(w, s).response)
  {
    var r := ScreenEffect(w, s);
  }

  /** Every response is on record, for ever, with the content the caller was told. */
  lemma ResponseStaysOnRecord(ws: seq<World>, run: seq<Step>, j: nat, k: nat)
    requires Behavior(ws, run) && Supplied(ws, run) && j < k <= |run|
    requires run[j].Screening? && Reply(ws[j], run[j]).Screened?
    ensures OnRecord(ws[k].stores.screens, Reply(ws[j], run[j]).response)
  {
    assert StepAt(ws, run, j) && SuppliedAt(ws, run, j);
    JustScreened(ws[j], run[j]);
    StaysOnRecord(ws, run, j + 1, k, Reply(ws[j], run[j]).response);
  }
}
