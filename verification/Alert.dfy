/** Alerts: the in-memory store (a map and a creation order) and the service over it. */
module Alert {
  import opened Text

  const OPEN := "OPEN"
  const IN_REVIEW := "IN_REVIEW"
  const CLOSED := "CLOSED"

  datatype Alert = Alert(id: string, screenId: string, txId: string, address: string, chain: string,
                         exposure: string, severity: string, status: string, assignee: string, createdAt: int,
                         closedAt: Option<int>)

  datatype Error = IdRequired | Duplicate | NotFound | AlreadyClosed
  datatype Outcome = Done(alert: Alert) | Failed(error: Error)

  /** The value of a store: the alerts by id, and the ids in order of creation. */
  datatype Store = Store(mem: map<string, Alert>, order: seq<string>)

  const EMPTY := Store(map[], [])

  /** What the id generator and the clock return to one call. */
  datatype Stamp = Stamp(id: string, at: int)

  // ------------------------------------------------------------ specification

  function Inserted(s: Store, a: Alert): (Store, Outcome) {
    if a.id == "" then (s, Failed(IdRequired))
    else if a.id in s.mem then (s, Failed(Duplicate))
    else (Store(s.mem[a.id := a], s.order + [a.id]), Done(a))
  }

  function Overwrite(s: Store, a: Alert): (Store, Outcome) {
    if a.id !in s.mem then (s, Failed(NotFound)) else (s.(mem := s.mem[a.id := a]), Done(a))
  }

  function NewAlert(stamp: Stamp, screenId: string, txId: string, address: string, chain: string, exposure: string,
                    severity: string): Alert
  {
    Alert(stamp.id, screenId, txId, address, chain, exposure, if severity == "" then "medium" else severity, OPEN, "",
          stamp.at, None)
  }

  function Created(s: Store, stamp: Stamp, screenId: string, txId: string, address: string, chain: string,
                  exposure: string, severity: string): (Store, Outcome)
  {
    Inserted(s, NewAlert(stamp, screenId, txId, address, chain, exposure, severity))
  }

  /** A change to an alert that has been read but not yet written back. */
  datatype Change = AssignTo(assignee: string) | CloseBy(assignee: string, at: int)

  /** The first half of Assign and Close: read the alert, refuse a closed one. */
  function Fetch(s: Store, id: string): Outcome {
    if id !in s.mem then Failed(NotFound)
    else if s.mem[id].status == CLOSED then Failed(AlreadyClosed)
    else Done(s.mem[id])
  }

  /** The alert that the second half writes back. */
  function Changed(a: Alert, c: Change): Alert {
    match c
    case AssignTo(who) => a.(status := IN_REVIEW, assignee := who)
    case CloseBy(who, at) => a.(status := CLOSED, assignee := if who != "" then who else a.assignee, closedAt := Some(at))
  }

  /** Assign and Close, undisturbed. */
  function Modify(s: Store, id: string, c: Change): (Store, Outcome) {
    match Fetch(s, id)
    case Failed(e) => (s, Failed(e))
    case Done(a) => Overwrite(s, Changed(a, c))
  }

  function Select(mem: map<string, Alert>, order: seq<string>, status: string): seq<Alert>
    requires forall id :: id in order ==> id in mem
  {
    if order == [] then []
    else
      var init := order[..|order| - 1];
      var a := mem[order[|order| - 1]];
      Select(mem, init, status) + if status == "" || a.status == status then [a] else []
  }

  /** The order lists exactly the ids of the map, once each, and each alert is filed under its id. */
  ghost predicate WellFormed(s: Store) {
    && (forall i, j :: 0 <= i < j < |s.order| ==> s.order[i] != s.order[j])
    && (forall id :: id in s.order <==> id in s.mem)
    && (forall id :: id in s.mem ==> id != "" && s.mem[id].id == id)
  }

  /** List: "" asks for every alert. */
  function Listing(s: Store, status: string): seq<Alert>
    requires WellFormed(s)
  {
    Select(s.mem, s.order, status)
  }

  predicate GoodStatus(a: Alert) {
    a.status in {OPEN, IN_REVIEW, CLOSED} && (a.closedAt.Some? <==> a.status == CLOSED)
  }

  ghost predicate GoodStatuses(s: Store) {
    forall id :: id in s.mem ==> GoodStatus(s.mem[id])
  }

  /** Everything about an alert except its status, assignee and closing time. */
  predicate SameIdentity(a: Alert, b: Alert) {
    a == b.(status := a.status, assignee := a.assignee, closedAt := a.closedAt)
  }

  // ------------------------------------------------------------------ classes

  class MemoryStore {
    var mem: map<string, Alert>
    var order: seq<string>

    function Value(): Store
      reads this
    {
      Store(mem, order)
    }

    constructor ()
      ensures Value() == EMPTY
    {
      mem, order := map[], [];
    }

    method Insert(a: Alert) returns (r: Outcome)
      modifies this
      ensures (Value(), r) == Inserted(old(Value()), a)
    {
      if a.id == "" { return Failed(IdRequired); }
      if a.id in mem { return Failed(Duplicate); }
      mem := mem[a.id := a];
      order := order + [a.id];
      r := Done(a);
    }

    method Get(id: string) returns (r: Option<Alert>)
      ensures r == if id in mem then Some(mem[id]) else None
    {
      r := if id in mem then Some(mem[id]) else None;
    }

    method List(status: string) returns (out: seq<Alert>)
      requires WellFormed(Value())
      ensures out == Listing(Value(), status)
    {
      out := [];
      for i := 0 to |order|
        invariant out == Select(mem, order[..i], status)
      {
        assert order[..i + 1][..i] == order[..i];
        var a := mem[order[i]];
        if status == "" || a.status == status {
          out := out + [a];
        }
      }
      assert order[..|order|] == order;
    }

    method Update(a: Alert) returns (r: Outcome)
      modifies this
      ensures (Value(), r) == Overwrite(old(Value()), a)
    {
      if a.id !in mem { return Failed(NotFound); }
      mem := mem[a.id := a];
      r := Done(a);
    }
  }

  class Service {
    const store: MemoryStore

    constructor (store: MemoryStore)
      ensures this.store == store
    {
      this.store := store;
    }

    method Create(stamp: Stamp, screenId: string, txId: string, address: string, chain: string, exposure: string,
                  severity: string) returns (r: Outcome)
      modifies store
      ensures (store.Value(), r) ==
              Created(old(store.Value()), stamp, screenId, txId, address, chain, exposure, severity)
    {
      var sev := severity;
      if sev == "" { sev := "medium"; }
      r := store.Insert(Alert(stamp.id, screenId, txId, address, chain, exposure, sev, OPEN, "", stamp.at, None));
    }

    method Assign(id: string, assignee: string) returns (r: Outcome)
      modifies store
      ensures (store.Value(), r) == Modify(old(store.Value()), id, AssignTo(assignee))
    {
      var found := store.Get(id);
      if found.None? { return Failed(NotFound); }
      var a := found.value;
      if a.status == CLOSED { return Failed(AlreadyClosed); }
      r := store.Update(a.(status := IN_REVIEW, assignee := assignee));
    }

    method Close(id: string, assignee: string, now: int) returns (r: Outcome)
      modifies store
      ensures (store.Value(), r) == Modify(old(store.Value()), id, CloseBy(assignee, now))
    {
      var found := store.Get(id);
      if found.None? { return Failed(NotFound); }
      var a := found.value;
      if a.status == CLOSED { return Failed(AlreadyClosed); }
      a := a.(status := CLOSED);
      if assignee != "" { a := a.(assignee := assignee); }
      r := store.Update(a.(closedAt := Some(now)));
    }
  }

  // -------------------------------------------------- what the calls leave behind

  /** Create opens an alert with exactly what it is told, under the generator's id and the clock's time, at
      the end of the order -- unless the id is empty or taken; and leaves every other alert alone. */
  lemma CreateExactly(s: Store, stamp: Stamp, screenId: string, txId: string, address: string, chain: string,
                      exposure: string, severity: string)
    ensures var (s', r) := Created(s, stamp, screenId, txId, address, chain, exposure, severity);
            if stamp.id == "" then s' == s && r == Failed(IdRequired)
            else if stamp.id in s.mem then s' == s && r == Failed(Duplicate)
            else
              && stamp.id in s'.mem && r == Done(s'.mem[stamp.id]) && s'.order == s.order + [stamp.id]
              && s'.mem.Keys == s.mem.Keys + {stamp.id} && (forall id :: id in s.mem ==> s'.mem[id] == s.mem[id])
              && var a := s'.mem[stamp.id];
                 && a.id == stamp.id && a.screenId == screenId && a.txId == txId && a.address == address
                 && a.chain == chain && a.exposure == exposure
                 && a.severity == (if severity == "" then "medium" else severity)
                 && a.status == "OPEN" && a.assignee == "" && a.createdAt == stamp.at && a.closedAt == None
  {
  }

  /** Assign and Close, field by field: a missing or closed alert is refused and nothing changes; otherwise
      that alert alone changes, in status, assignee and closing time alone. */
  lemma ModifyExactly(s: Store, id: string, c: Change)
    requires WellFormed(s)
    ensures var (s', r) := Modify(s, id, c);
            if id !in s.mem then s' == s && r == Failed(NotFound)
            else if s.mem[id].status == "CLOSED" then s' == s && r == Failed(AlreadyClosed)
            else
              && s'.order == s.order && s'.mem.Keys == s.mem.Keys && r == Done(s'.mem[id])
              && (forall other :: other in s.mem && other != id ==> s'.mem[other] == s.mem[other])
              && var (a, b) := (s.mem[id], s'.mem[id]);
                 && a.id == b.id && a.screenId == b.screenId && a.txId == b.txId && a.address == b.address
                 && a.chain == b.chain && a.exposure == b.exposure && a.severity == b.severity
                 && a.createdAt == b.createdAt
                 && match c
                    case AssignTo(who) => b.status == "IN_REVIEW" && b.assignee == who && b.closedAt == a.closedAt
                    case CloseBy(who, at) =>
                      b.status == "CLOSED" && b.closedAt == Some(at) &&
                      b.assignee == if who == "" then a.assignee else who
  {
    assert CLOSED == "CLOSED";
  }

  // ------------------------------------------------------------------- lists

  ghost function Contents(s: Store): multiset<Alert>
    requires WellFormed(s)
  {
    multiset(Listing(s, ""))
  }

  /** List(status) is List("") with the other alerts struck out, in the same order. */
  function Filter(xs: seq<Alert>, status: string): seq<Alert> {
    if xs == [] then []
    else
      var last := xs[|xs| - 1];
      Filter(xs[..|xs| - 1], status) + if last.status == status then [last] else []
  }

  /** Filtering keeps the alerts with the status, and the order. */
  lemma {:induction false} FilterJoins(xs: seq<Alert>, ys: seq<Alert>, status: string)
    ensures Filter(xs + ys, status) == Filter(xs, status) + Filter(ys, status)
    ensures forall a :: Filter([a], status) == if a.status == status then [a] else []
  {
    assert forall a: Alert :: [a][..0] == [];
    if ys == [] {
      assert xs + ys == xs;
    } else {
      var n := |ys| - 1;
      assert (xs + ys)[..|xs + ys| - 1] == xs + ys[..n];
      FilterJoins(xs, ys[..n], status);
    }
  }

  lemma {:induction false} SelectFilters(mem: map<string, Alert>, order: seq<string>, status: string)
    requires forall id :: id in order ==> id in mem
    requires status != ""
    ensures |Select(mem, order, "")| == |order|
    ensures forall i :: 0 <= i < |order| ==> Select(mem, order, "")[i] == mem[order[i]]
    ensures Select(mem, order, status) == Filter(Select(mem, order, ""), status)
  {
    if order != [] {
      var n := |order| - 1;
      SelectFilters(mem, order[..n], status);
      var all := Select(mem, order, "");
      assert all[..n] == Select(mem, order[..n], "");
    }
  }

  lemma OneStatus(a: Alert)
    requires GoodStatus(a)
    ensures multiset(Filter([a], OPEN)) + multiset(Filter([a], IN_REVIEW)) + multiset(Filter([a], CLOSED)) == multiset{a}
  {
    assert [a][..0] == [];
    assert OPEN[0] != IN_REVIEW[0] && IN_REVIEW[0] != CLOSED[0] && CLOSED[0] != OPEN[0];
  }

  lemma SelectStep(mem: map<string, Alert>, order: seq<string>, status: string)
    requires order != [] && forall id :: id in order ==> id in mem
    ensures var n := |order| - 1;
            Select(mem, order, status) ==
              Select(mem, order[..n], status) + if status == "" then [mem[order[n]]] else Filter([mem[order[n]]], status)
  {
    assert [mem[order[|order| - 1]]][..0] == [];
  }

  lemma {:induction false} SelectPartition(mem: map<string, Alert>, order: seq<string>)
    requires forall id :: id in order ==> id in mem && GoodStatus(mem[id])
    ensures multiset(Select(mem, order, OPEN)) + multiset(Select(mem, order, IN_REVIEW)) +
            multiset(Select(mem, order, CLOSED)) == multiset(Select(mem, order, ""))
  {
    if order != [] {
      var n := |order| - 1;
      SelectPartition(mem, order[..n]);
      SelectStep(mem, order, OPEN);
      SelectStep(mem, order, IN_REVIEW);
      SelectStep(mem, order, CLOSED);
      SelectStep(mem, order, "");
      OneStatus(mem[order[n]]);
    }
  }

  lemma {:induction false} OrderCountsMap(order: seq<string>, keys: set<string>)
    requires forall i, j :: 0 <= i < j < |order| ==> order[i] != order[j]
    requires forall id :: id in order <==> id in keys
    ensures |order| == |keys|
  {
    if order == [] {
      assert keys == {};
    } else {
      var n := |order| - 1;
      assert order == order[..n] + [order[n]];
      OrderCountsMap(order[..n], keys - {order[n]});
    }
  }

  /** What the lists show: every alert once, in creation order; each status list is the filter of the
      whole; and the three status lists partition it. */
  lemma ListsAgree(s: Store, status: string)
    requires WellFormed(s) && GoodStatuses(s) && status != ""
    ensures |Listing(s, "")| == |s.order| == |s.mem|
    ensures forall i :: 0 <= i < |s.order| ==> Listing(s, "")[i] == s.mem[s.order[i]]
    ensures Listing(s, status) == Filter(Listing(s, ""), status)
    ensures multiset(Listing(s, OPEN)) + multiset(Listing(s, IN_REVIEW)) + multiset(Listing(s, CLOSED)) == Contents(s)
  {
    SelectFilters(s.mem, s.order, status);
    SelectPartition(s.mem, s.order);
    OrderCountsMap(s.order, s.mem.Keys);
  }

  // ------------------------------------------------------------ several at once

  /** Alerts inserted one after the other; one that is refused is skipped. */
  function InsertedAll(s: Store, added: seq<Alert>): Store {
    if added == [] then s
    else Inserted(InsertedAll(s, added[..|added| - 1]), added[|added| - 1]).0
  }

  ghost predicate NewIds(s: Store, added: seq<Alert>) {
    && (forall i :: 0 <= i < |added| ==> added[i].id != "" && added[i].id !in s.mem)
    && (forall i, j :: 0 <= i < j < |added| ==> added[i].id != added[j].id)
  }

  /** s' is s with these alerts appended in this order, and no other alert touched. */
  ghost predicate Appended(s: Store, s': Store, added: seq<Alert>) {
    && |s'.order| == |s.order| + |added|
    && (forall i :: 0 <= i < |s.order| ==> s'.order[i] == s.order[i])
    && (forall i :: 0 <= i < |added| ==> s'.order[|s.order| + i] == added[i].id)
    && (forall i :: 0 <= i < |added| ==> added[i].id in s'.mem && s'.mem[added[i].id] == added[i])
    && (forall id :: id in s.mem ==> id in s'.mem && s'.mem[id] == s.mem[id])
  }

  lemma AppendedOne(s: Store, s1: Store, added: seq<Alert>, a: Alert)
    requires WellFormed(s) && WellFormed(s1) && Appended(s, s1, added) && NewIds(s, added + [a])
    ensures a.id != "" && a.id !in s1.mem
  {
    var n := |added|;
    assert (added + [a])[n] == a;
    forall i | 0 <= i < |s1.order| ensures s1.order[i] != a.id {
      if i >= |s.order| {
        assert (added + [a])[i - |s.order|] == added[i - |s.order|];
      }
    }
  }

  lemma AppendOneMore(s: Store, s1: Store, added: seq<Alert>, a: Alert)
    requires WellFormed(s1) && Appended(s, s1, added) && a.id != "" && a.id !in s1.mem
    ensures WellFormed(Inserted(s1, a).0) && Appended(s, Inserted(s1, a).0, added + [a])
  {
  }

  lemma {:induction false} InsertedAllAppends(s: Store, added: seq<Alert>)
    requires WellFormed(s) && NewIds(s, added)
    ensures WellFormed(InsertedAll(s, added)) && Appended(s, InsertedAll(s, added), added)
  {
    if added != [] {
      var init, a := added[..|added| - 1], added[|added| - 1];
      assert added == init + [a];
      InsertedAllAppends(s, init);
      AppendedOne(s, InsertedAll(s, init), init, a);
      AppendOneMore(s, InsertedAll(s, init), init, a);
    }
  }

  lemma NewIdStaysNew(s: Store, added: seq<Alert>)
    requires WellFormed(s) && NewIds(s, added) && added != []
    ensures var s1 := InsertedAll(s, added[..|added| - 1]);
            WellFormed(s1) && added[|added| - 1].id != "" && added[|added| - 1].id !in s1.mem
    ensures NewIds(s, added[..|added| - 1])
  {
    var init, a := added[..|added| - 1], added[|added| - 1];
    assert added == init + [a];
    InsertedAllAppends(s, init);
    AppendedOne(s, InsertedAll(s, init), init, a);
  }

  // -------------------------------------------------- overlapping modifications

  /** A caller of Assign or Close that has read its copy and not yet written it back. */
  datatype Pending = Pending(copy: Alert, change: Change)

  /** The store together with the calls in progress. */
  datatype Desk = Desk(store: Store, pending: map<int, Pending>)

  datatype Step =
    | Open(alert: Alert)
    | Begin(caller: int, id: string, change: Change)
    | Finish(caller: int)

  function Next(d: Desk, s: Step): Desk {
    match s
    case Open(a) => d.(store := Inserted(d.store, a).0)
    case Begin(t, id, change) =>
      (match Fetch(d.store, id)
       case Failed(_) => d
       case Done(a) => d.(pending := d.pending[t := Pending(a, change)]))
    case Finish(t) =>
      if t !in d.pending then d
      else
        var p := d.pending[t];
        Desk(Overwrite(d.store, Changed(p.copy, p.change)).0, d.pending - {t})
  }

  /** A caller makes one call at a time, and alerts are opened as the service opens them. */
  ghost predicate Enabled(d: Desk, s: Step) {
    match s
    case Open(a) => a.status == OPEN && a.closedAt.None?
    case Begin(t, _, _) => t !in d.pending
    case Finish(t) => t in d.pending
  }

  ghost predicate Legal(d: Desk, steps: seq<Step>)
    decreases |steps|
  {
    steps == [] || (Enabled(d, steps[0]) && Legal(Next(d, steps[0]), steps[1..]))
  }

  ghost function After(d: Desk, steps: seq<Step>): Desk
    decreases |steps|
  {
    if steps == [] then d else After(Next(d, steps[0]), steps[1..])
  }

  /** Copies in hand are of existing alerts, were not closed when read, and differ from the stored
      alert only in status, assignee and closing time. */
  ghost predicate DeskInv(d: Desk) {
    && WellFormed(d.store)
    && GoodStatuses(d.store)
    && (forall t :: t in d.pending ==>
          && GoodStatus(d.pending[t].copy) && d.pending[t].copy.status != CLOSED
          && d.pending[t].copy.id in d.store.mem
          && SameIdentity(d.pending[t].copy, d.store.mem[d.pending[t].copy.id]))
  }

  lemma InsertedKeeps(s: Store, a: Alert)
    requires WellFormed(s) && GoodStatuses(s) && GoodStatus(a)
    ensures var s' := Inserted(s, a).0;
            && WellFormed(s') && GoodStatuses(s')
            && forall id :: id in s.mem ==> id in s'.mem && s'.mem[id] == s.mem[id]
  {
  }

  lemma OverwriteKeeps(s: Store, a: Alert)
    requires WellFormed(s) && GoodStatuses(s) && GoodStatus(a)
    requires a.id in s.mem ==> SameIdentity(a, s.mem[a.id])
    ensures var s' := Overwrite(s, a).0;
            && WellFormed(s') && GoodStatuses(s') && s'.order == s.order
            && forall id :: id in s.mem ==> id in s'.mem && SameIdentity(s.mem[id], s'.mem[id])
  {
  }

  lemma ChangedKeeps(a: Alert, c: Change)
    requires GoodStatus(a) && a.status != CLOSED
    ensures GoodStatus(Changed(a, c)) && SameIdentity(Changed(a, c), a)
  {
  }

  lemma {:induction false} NextKeepsDesk(d: Desk, s: Step)
    requires DeskInv(d) && Enabled(d, s)
    ensures DeskInv(Next(d, s))
    ensures forall id :: id in d.store.mem ==>
              id in Next(d, s).store.mem && SameIdentity(d.store.mem[id], Next(d, s).store.mem[id])
  {
    match s
    case Open(a) => InsertedKeeps(d.store, a);
    case Begin(t, id, change) =>
    case Finish(t) =>
      var p := d.pending[t];
      ChangedKeeps(p.copy, p.change);
      OverwriteKeeps(d.store, Changed(p.copy, p.change));
  }

  /** However the two halves of Assign and Close interleave: the index stays well formed, ClosedAt is
      set exactly when the status is CLOSED, no alert disappears, and its identity never changes. */
  lemma {:induction false} LifecycleUnderOverlap(d: Desk, steps: seq<Step>)
    requires DeskInv(d) && Legal(d, steps)
    ensures DeskInv(After(d, steps))
    ensures forall id :: id in d.store.mem ==>
              id in After(d, steps).store.mem && SameIdentity(d.store.mem[id], After(d, steps).store.mem[id])
    decreases |steps|
  {
    if steps != [] {
      NextKeepsDesk(d, steps[0]);
      LifecycleUnderOverlap(Next(d, steps[0]), steps[1..]);
    }
  }

  ghost predicate IsClosed(d: Desk, id: string) {
    id in d.store.mem && d.store.mem[id].status == CLOSED
  }

  /** Some caller of Assign holds an outdated copy of this alert. */
  ghost predicate AssignInFlight(d: Desk, id: string) {
    exists t :: t in d.pending && d.pending[t].copy.id == id && d.pending[t].change.AssignTo?
  }

  ghost predicate StaysClosed(d: Desk, id: string) {
    forall steps :: Legal(d, steps) ==> IsClosed(After(d, steps), id)
  }

  lemma NextKeepsClosed(d: Desk, id: string, s: Step)
    requires DeskInv(d) && Enabled(d, s) && IsClosed(d, id) && !AssignInFlight(d, id)
    ensures IsClosed(Next(d, s), id) && !AssignInFlight(Next(d, s), id)
  {
    var d' := Next(d, s);
    forall t | t in d'.pending && d'.pending[t].copy.id == id ensures !d'.pending[t].change.AssignTo? {
      assert t in d.pending && d.pending[t] == d'.pending[t];
    }
  }

  lemma {:induction false} ClosedWithoutAssign(d: Desk, id: string, steps: seq<Step>)
    requires DeskInv(d) && IsClosed(d, id) && !AssignInFlight(d, id) && Legal(d, steps)
    ensures IsClosed(After(d, steps), id)
    decreases |steps|
  {
    if steps != [] {
      NextKeepsDesk(d, steps[0]);
      NextKeepsClosed(d, id, steps[0]);
      ClosedWithoutAssign(Next(d, steps[0]), id, steps[1..]);
    }
  }

  /** Closing is final exactly when no overlapping Assign read the alert before it was closed. */
  lemma ClosedIsAbsorbingExactly(d: Desk, id: string)
    requires DeskInv(d) && IsClosed(d, id)
    ensures StaysClosed(d, id) <==> !AssignInFlight(d, id)
  {
    if t :| t in d.pending && d.pending[t].copy.id == id && d.pending[t].change.AssignTo? {
      var steps := [Finish(t)];
      assert Legal(Next(d, steps[0]), steps[1..]);
      assert After(Next(d, steps[0]), steps[1..]) == Next(d, steps[0]);
      assert Legal(d, steps) && !IsClosed(After(d, steps), id);
    } else {
      forall steps | Legal(d, steps) ensures IsClosed(After(d, steps), id) {
        ClosedWithoutAssign(d, id, steps);
      }
    }
  }

  lemma Unfolds(d: Desk, steps: seq<Step>)
    requires steps != []
    ensures After(d, steps) == After(Next(d, steps[0]), steps[1..])
    ensures Legal(d, steps) <==> Enabled(d, steps[0]) && Legal(Next(d, steps[0]), steps[1..])
  {
  }

  lemma FourSteps(d: Desk, a: Step, b: Step, c: Step, e: Step)
    ensures After(d, [a, b, c, e]) == Next(Next(Next(Next(d, a), b), c), e)
    ensures Legal(d, [a, b, c, e]) <==>
            Enabled(d, a) && Enabled(Next(d, a), b) && Enabled(Next(Next(d, a), b), c) &&
            Enabled(Next(Next(Next(d, a), b), c), e)
  {
    Unfolds(d, [a, b, c, e]);
    assert [a, b, c, e][1..] == [b, c, e];
    Unfolds(Next(d, a), [b, c, e]);
    assert [b, c, e][1..] == [c, e];
    Unfolds(Next(Next(d, a), b), [c, e]);
    assert [c, e][1..] == [e];
    Unfolds(Next(Next(Next(d, a), b), c), [e]);
  }

  /** A closed alert can be reopened: Assign reads, Close runs through, Assign writes. */
  lemma OverlapReopens(a: Alert)
    requires a.id != "" && a.status == OPEN && a.closedAt.None?
    ensures var steps := [Open(a), Begin(1, a.id, AssignTo("ann")), Begin(2, a.id, CloseBy("bob", 5)), Finish(2)];
            var d := After(Desk(EMPTY, map[]), steps);
            Legal(Desk(EMPTY, map[]), steps) && IsClosed(d, a.id) && !StaysClosed(d, a.id)
  {
    var d0 := Desk(EMPTY, map[]);
    var d1 := Next(d0, Open(a));
    assert d1 == Desk(Store(map[a.id := a], [a.id]), map[]);
    var d2 := Next(d1, Begin(1, a.id, AssignTo("ann")));
    assert d2 == d1.(pending := map[1 := Pending(a, AssignTo("ann"))]);
    var d3 := Next(d2, Begin(2, a.id, CloseBy("bob", 5)));
    var d4 := Next(d3, Finish(2));
    FourSteps(d0, Open(a), Begin(1, a.id, AssignTo("ann")), Begin(2, a.id, CloseBy("bob", 5)), Finish(2));
    LifecycleUnderOverlap(d0, [Open(a), Begin(1, a.id, AssignTo("ann")), Begin(2, a.id, CloseBy("bob", 5)), Finish(2)]);
    assert d4.pending[1] == Pending(a, AssignTo("ann"));
    ClosedIsAbsorbingExactly(d4, a.id);
  }

  predicate IsOpenFor(s: Store, id: string) {
    id in s.mem && s.mem[id].status != CLOSED
  }

  /** Run without interruption, the two halves are the service's Assign and Close. */
  lemma UninterruptedCallIsModify(d: Desk, t: int, id: string, c: Change)
    requires DeskInv(d) && t !in d.pending
    ensures After(d, [Begin(t, id, c), Finish(t)]).store == Modify(d.store, id, c).0
    ensures Modify(d.store, id, c).1.Done? <==> IsOpenFor(d.store, id)
    ensures IsOpenFor(d.store, id) ==> Modify(d.store, id, c).0.mem == d.store.mem[id := Changed(d.store.mem[id], c)]
  {
    var steps := [Begin(t, id, c), Finish(t)];
    assert steps[1..][1..] == [];
    var d1 := Next(d, steps[0]);
    assert After(d1, steps[1..]) == Next(d1, Finish(t));
  }
}
