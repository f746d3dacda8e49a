// Runs in which many admins read, deliberate and commit while everyone else writes too, and the proof that
// optimistic commits are as good as indivisible requests.
module BookingRuns {
  import opened Wrappers
  import opened BookingTables

  // Each admin request in progress sits in its own slot between its read and its transaction.
  datatype World = World(db: Tables, waiting: map<nat, Decision>)

  datatype Event =
    | Read(slot: nat, request: Request)
    | Write(slot: nat)
    | Elsewhere(step: OtherStep)

  function Step(w: World, e: Event): World {
    match e
    case Read(slot, r) =>
      (match Decide(w.db, r)
       case Ok(d) => w.(waiting := w.waiting[slot := d])
       case Err(_) => w)
    case Write(slot) =>
      if slot !in w.waiting then w
      else
        var rest := map k | k in w.waiting && k != slot :: w.waiting[k];
        (match Commit(w.db, w.waiting[slot])
         case Ok(db) => World(db, rest)
         case Err(_) => World(w.db, rest))
    case Elsewhere(s) => w.(db := Other(w.db, s))
  }

  // A transaction ends its own request and no other, whether it goes through or not.
  lemma WritesEndOneRequest(w: World, slot: nat, k: nat)
    ensures var after := Step(w, Write(slot));
      (k in after.waiting <==> k in w.waiting && k != slot) && (k in after.waiting ==> after.waiting[k] == w.waiting[k])
  {
  }

  function Run(w: World, events: seq<Event>): World
    decreases |events|
  {
    if events == [] then w else Run(Step(w, events[0]), events[1..])
  }

  // The sequential history the run is compared with: committed requests as indivisible steps, in commit order.
  datatype Done = Whole(request: Request) | Outside(step: OtherStep)

  predicate Commits(w: World, e: Event) {
    e.Write? && e.slot in w.waiting && Commit(w.db, w.waiting[e.slot]).Ok?
  }

  function History(w: World, events: seq<Event>): seq<Done>
    decreases |events|
  {
    if events == [] then []
    else
      var now :=
        if Commits(w, events[0]) then [Whole(w.waiting[events[0].slot].request)]
        else if events[0].Elsewhere? then [Outside(events[0].step)]
        else [];
      now + History(Step(w, events[0]), events[1..])
  }

  // None when some request of the history is refused.
  function Replay(db: Tables, history: seq<Done>): Option<Tables>
    decreases |history|
  {
    if history == [] then Some(db)
    else match history[0]
      case Outside(s) => Replay(Other(db, s), history[1..])
      case Whole(r) =>
        (match Fused(db, r)
         case Ok(db') => Replay(db', history[1..])
         case Err(_) => None)
  }

  // How a booking may move: statuses fall into ranks that never go down, and within a rank everything a
  // commit takes from the row it read is fixed, but that a disputed or billed row may gain its invoice.

  function Rank(s: Status): nat {
    match s
    case Pending => 0
    case Accepted | QuoteSubmitted | QuoteApproved => 1
    case InProgress => 2
    case Disputed | PendingCompletion | AwaitingPayment => 3
    case Completed => 4
    case Cancelled | Rejected => 5
  }

  predicate Later(before: Booking, after: Booking) {
    || Rank(before.status) < Rank(after.status)
    || (&& Rank(before.status) == Rank(after.status)
        && (Rank(before.status) != 3 ==> before.status == after.status && before.invoiced == after.invoiced)
        && (before.invoiced ==> after.invoiced)
        && before.base == after.base
        && before.notes == after.notes
        && (!before.status.Pending? ==> before.worker == after.worker))
  }

  ghost predicate AllLater(before: Tables, after: Tables) {
    && (forall b <- before.bookings :: b in after.bookings && Later(before.bookings[b], after.bookings[b]))
    && SameCases(before.disputes, after.disputes)
  }

  ghost predicate SameCases(before: map<Id, Dispute>, after: map<Id, Dispute>) {
    forall d <- before :: d in after && after[d].booking == before[d].booking
  }

  // A waiting decision was right about the row it saw, and that row only moved later since.
  predicate Decided(d: Decision) {
    match d.request
    case Resolve(_, action, _, _) =>
      if action.CancelDisputed? then ResolveCancels(d.seen.status) else d.seen.status.Disputed? && d.seen.invoiced
    case AdminCancel(b, _, _) => d.booking == b && !Terminal(d.seen.status)
    case Archive(b, archived) => d.booking == b && (archived ==> Terminal(d.seen.status))
  }

  ghost predicate Fresh(db: Tables, d: Decision) {
    && Decided(d)
    && d.booking in db.bookings
    && Later(d.seen, db.bookings[d.booking])
    && (d.request.Resolve? ==>
          d.request.dispute in db.disputes && db.disputes[d.request.dispute].booking == d.booking)
  }

  ghost predicate AllFresh(w: World) {
    forall k <- w.waiting :: Fresh(w.db, w.waiting[k])
  }

  lemma LaterTransitive(a: Booking, b: Booking, c: Booking)
    requires Later(a, b) && Later(b, c)
    ensures Later(a, c)
  {
  }

  lemma FreshLater(before: Tables, after: Tables, d: Decision)
    requires Fresh(before, d) && AllLater(before, after)
    ensures Fresh(after, d)
  {
    LaterTransitive(d.seen, before.bookings[d.booking], after.bookings[d.booking]);
  }

  lemma RowMovesLater(before: Tables, after: Tables, b: Id, row: Booking)
    requires b in before.bookings && after.bookings == before.bookings[b := row]
    requires Later(before.bookings[b], row) && SameCases(before.disputes, after.disputes)
    ensures AllLater(before, after)
  {
  }

  lemma CommitMovesLater(db: Tables, d: Decision)
    requires Fresh(db, d) && Commit(db, d).Ok?
    ensures AllLater(db, Commit(db, d).value)
  {
    var after := Commit(db, d).value;
    var row := after.bookings[d.booking];
    assert after.bookings == db.bookings[d.booking := row] && Later(db.bookings[d.booking], row);
    assert SameCases(db.disputes, after.disputes);
    hide Commit, Fresh, Later, SameCases;
    RowMovesLater(db, after, d.booking, row);
  }

  // What an outside step may do to the one booking row it writes.
  predicate RowMove(s: OtherStep, before: Booking, after: Booking) {
    match s
    case Rematch(_, w) => before.status.Pending? && after == before.(worker := w)
    case AcceptJob(_) => before.status.Pending? && before.worker.Some? && after == before.(status := Status.Accepted)
    case DeclineJob(_) => before.status.Pending? && after == before.(status := Status.Rejected)
    case StartJob(_) => before.status.Accepted? && after == before.(status := InProgress)
    case SendInvoice(_, _) =>
      && (before.status.InProgress? || before.status.Disputed?)
      && after == before.(status := PendingCompletion, invoiced := true, finalPrice := after.finalPrice)
    case AskForPayment(_) => before.status.PendingCompletion? && after == before.(status := AwaitingPayment)
    case ReportInvoice(_, _) =>
      (before.status.PendingCompletion? || before.status.AwaitingPayment?) && after == before.(status := Disputed)
    case SettlePayment(_) =>
      && (before.status.PendingCompletion? || before.status.AwaitingPayment? || before.status.Disputed?)
      && after == before.(status := Completed)
    case _ => false
  }

  predicate OnlyDisputes(s: OtherStep) {
    s.MarkUnderReview? || s.OverwriteDispute? || s.OpenProblem? || s.RaiseDispute?
  }

  lemma DisputeStepsKeepRows(db: Tables, s: OtherStep)
    requires OnlyDisputes(s)
    ensures Other(db, s) == db.(disputes := Other(db, s).disputes) && SameCases(db.disputes, Other(db, s).disputes)
  {
    if s.OpenProblem? { OpenOrJoinIsModest(db, s.booking, s.newDispute); }
  }

  lemma OtherWritesOneRow(db: Tables, s: OtherStep)
    ensures var after := Other(db, s);
      && SameCases(db.disputes, after.disputes)
      && after.cancellations == db.cancellations
      && (after.bookings != db.bookings ==>
            && !OnlyDisputes(s)
            && s.booking in db.bookings && s.booking in after.bookings
            && after.bookings == db.bookings[s.booking := after.bookings[s.booking]]
            && RowMove(s, db.bookings[s.booking], after.bookings[s.booking]))
  {
    if OnlyDisputes(s) {
      DisputeStepsKeepRows(db, s);
    } else if s.ReportInvoice? {
      if s.booking in db.bookings { OpenOrJoinIsModest(WithStatus(db, s.booking, Disputed), s.booking, s.newDispute); }
    }
  }

  lemma OpenOrJoinIsModest(db: Tables, b: Id, d: Id)
    ensures var after := OpenOrJoin(db, b, d);
      SameCases(db.disputes, after.disputes) && after == db.(disputes := after.disputes)
  {
  }

  lemma OtherMovesLater(db: Tables, s: OtherStep)
    ensures AllLater(db, Other(db, s))
  {
    OtherWritesOneRow(db, s);
    var after := Other(db, s);
    if after.bookings != db.bookings {
      RowMovesLater(db, after, s.booking, after.bookings[s.booking]);
    }
  }

  lemma StepKeepsFresh(w: World, e: Event)
    requires AllFresh(w)
    ensures AllFresh(Step(w, e)) && AllLater(w.db, Step(w, e).db)
  {
    var w' := Step(w, e);
    if Commits(w, e) { CommitMovesLater(w.db, w.waiting[e.slot]); }
    if e.Elsewhere? { OtherMovesLater(w.db, e.step); }
    forall k | k in w'.waiting && k in w.waiting && w'.waiting[k] == w.waiting[k]
      ensures Fresh(w'.db, w'.waiting[k])
    {
      FreshLater(w.db, w'.db, w.waiting[k]);
    }
  }

  // The one thing a commit can take wrongly from its read: a cancelling resolution gives the worker's slot
  // back although the invoice, sent since, gave it back already.
  predicate StaleRelease(db: Tables, d: Decision) {
    && d.request.Resolve? && d.request.action.CancelDisputed? && ResolveReleases(d.seen)
    && d.booking in db.bookings && db.bookings[d.booking].invoiced
  }

  // Tables that agree but for counters, which in the first are at most those of the second.

  ghost predicate AtMost(a: map<Id, int>, b: map<Id, int>) {
    a.Keys == b.Keys && forall w <- a :: a[w] <= b[w]
  }

  ghost predicate Below(a: Tables, b: Tables) {
    b == a.(activeJobs := b.activeJobs) && AtMost(a.activeJobs, b.activeJobs)
  }

  // A worker's counter moved by k, if there is such a worker.
  function Shift(counters: map<Id, int>, w: Option<Id>, k: int): map<Id, int> {
    if w.Some? && w.value in counters then counters[w.value := counters[w.value] + k] else counters
  }

  lemma ShiftAtMost(a: map<Id, int>, b: map<Id, int>, w: Option<Id>, j: int, k: int)
    requires AtMost(a, b) && j <= k
    ensures AtMost(Shift(a, w, j), Shift(b, w, k))
    ensures Shift(a, w, j) == Shift(b, w, k) <==> a == b && (w.Some? && w.value in a ==> j == k)
  {
    var x, y := Shift(a, w, j), Shift(b, w, k);
    assert forall v <- a :: v in x && v in y && y[v] - x[v] >= b[v] - a[v];
    if x == y { assert forall v <- a :: a[v] == b[v]; }
  }

  // The worker whose counter an outside step moves.
  function Counted(db: Tables, s: OtherStep): Option<Id> {
    if (s.AcceptJob? && StatusStill(db, s.booking, Pending))
       || (s.SendInvoice? && (StatusStill(db, s.booking, InProgress) || StatusStill(db, s.booking, Disputed)))
    then db.bookings[s.booking].worker else None
  }

  lemma OtherShifts(db: Tables, s: OtherStep)
    ensures Other(db, s).activeJobs == Shift(db.activeJobs, Counted(db, s), if s.AcceptJob? then 1 else -1)
  {
  }

  lemma OtherIgnoresCounters(db: Tables, s: OtherStep, counters: map<Id, int>)
    requires counters.Keys == db.activeJobs.Keys
    ensures var other := Other(db.(activeJobs := counters), s); other == Other(db, s).(activeJobs := other.activeJobs)
  {
    if OnlyDisputes(s) {
      DisputeStepIgnoresCounters(db, s, counters);
    } else if s.SendInvoice? {
      InvoiceIgnoresCounters(db, s.booking, s.items, counters);
    } else if s.ReportInvoice? {
      if s.booking in db.bookings {
        OpenOrJoinIgnoresCounters(WithStatus(db, s.booking, Disputed), s.booking, s.newDispute, counters);
      }
    } else {
      StatusStepIgnoresCounters(db, s, counters);
    }
  }

  lemma DisputeStepIgnoresCounters(db: Tables, s: OtherStep, counters: map<Id, int>)
    requires OnlyDisputes(s)
    ensures Other(db.(activeJobs := counters), s) == Other(db, s).(activeJobs := counters)
  {
    if s.OpenProblem? { OpenOrJoinIgnoresCounters(db, s.booking, s.newDispute, counters); }
  }

  lemma StatusStepIgnoresCounters(db: Tables, s: OtherStep, counters: map<Id, int>)
    requires !OnlyDisputes(s) && !s.SendInvoice? && !s.ReportInvoice? && counters.Keys == db.activeJobs.Keys
    ensures var other := Other(db.(activeJobs := counters), s); other == Other(db, s).(activeJobs := other.activeJobs)
  {
  }

  lemma InvoiceIgnoresCounters(db: Tables, b: Id, items: seq<(AddOnKind, int)>, counters: map<Id, int>)
    requires counters.Keys == db.activeJobs.Keys
    ensures var other := Invoiced(db.(activeJobs := counters), b, items);
      other == Invoiced(db, b, items).(activeJobs := other.activeJobs)
  {
    hide InvoicedAddOns, VisitsDone, Billed;
  }

  lemma OpenOrJoinIgnoresCounters(db: Tables, b: Id, d: Id, counters: map<Id, int>)
    ensures OpenOrJoin(db.(activeJobs := counters), b, d) == OpenOrJoin(db, b, d).(activeJobs := counters)
  {
  }

  lemma OtherBelow(a: Tables, b: Tables, s: OtherStep)
    requires Below(a, b)
    ensures Below(Other(a, s), Other(b, s)) && (Other(a, s) == Other(b, s) <==> a == b)
  {
    OtherIgnoresCounters(a, s, b.activeJobs);
    OtherShifts(a, s);
    OtherShifts(b, s);
    assert Counted(a, s) == Counted(b, s);
    hide Other, AtMost, Shift, Counted;
    var k := if s.AcceptJob? then 1 else -1;
    ShiftAtMost(a.activeJobs, b.activeJobs, Counted(a, s), k, k);
  }

  function Releases(d: Decision): bool {
    match d.request
    case Resolve(_, action, _, _) => action.CancelDisputed? && ResolveReleases(d.seen)
    case AdminCancel(_, _, _) => AdminReleases(d.seen)
    case Archive(_, _) => false
  }

  lemma CommitShifts(db: Tables, d: Decision)
    requires Commit(db, d).Ok?
    ensures Releases(d) ==> d.seen.worker.Some? && d.seen.worker.value in db.activeJobs
    ensures Commit(db, d).value.activeJobs == Shift(db.activeJobs, if Releases(d) then d.seen.worker else None, -1)
  {
  }

  // A commit that succeeds writes what a decision taken from the present row would write, but for counters.
  lemma CommitIgnoresCounters(db: Tables, d: Decision, counters: map<Id, int>)
    requires Fresh(db, d) && Commit(db, d).Ok? && counters.Keys == db.activeJobs.Keys
    ensures var present := db.(activeJobs := counters);
      var now := Decision(d.request, d.booking, db.bookings[d.booking]);
      && Decide(present, d.request) == Ok(now) && Commit(present, now).Ok?
      && Commit(present, now).value == Commit(db, d).value.(activeJobs := Commit(present, now).value.activeJobs)
      && (Releases(d) ==> now.seen.worker == d.seen.worker)
      && (Releases(now) <==> Releases(d) && !StaleRelease(db, d))
  {
    var present, now := db.(activeJobs := counters), Decision(d.request, d.booking, db.bookings[d.booking]);
    assert Decide(present, d.request) == Ok(now);
    assert Commit(present, now).Ok?;
  }

  // The heart of the matter: a commit that succeeds does what the whole request would do now, on tables that
  // differ in counters only, and the same down to the counters exactly when it is no stale release.
  lemma CommitBelow(a: Tables, b: Tables, d: Decision)
    requires Below(a, b) && Fresh(a, d) && Commit(a, d).Ok?
    ensures var whole := Fused(b, d.request);
      && whole.Ok? && Below(Commit(a, d).value, whole.value)
      && (Commit(a, d).value == whole.value <==> a == b && !StaleRelease(a, d))
  {
    var now := Decision(d.request, d.booking, a.bookings[d.booking]);
    CommitIgnoresCounters(a, d, b.activeJobs);
    CommitShifts(a, d);
    CommitShifts(b, now);
    assert StaleRelease(a, d) ==> Releases(d);
    hide Commit, Decide, Fresh, AtMost, Shift, Releases, StaleRelease;
    var w := if Releases(d) then d.seen.worker else None;
    var k := if StaleRelease(a, d) then 0 else -1;
    ShiftAtMost(a.activeJobs, b.activeJobs, w, -1, k);
    ShiftOfNothing(b.activeJobs, w);
  }

  lemma ShiftOfNothing(counters: map<Id, int>, w: Option<Id>)
    ensures Shift(counters, w, 0) == counters == Shift(counters, None, -1)
  {
  }

  lemma CommitIsFusedIff(db: Tables, d: Decision)
    requires Fresh(db, d) && Commit(db, d).Ok?
    ensures Fused(db, d.request) == Commit(db, d) <==> !StaleRelease(db, d)
  {
    CommitBelow(db, db, d);
  }

  predicate NeverStale(w: World, events: seq<Event>)
    decreases |events|
  {
    events != [] ==>
      && (Commits(w, events[0]) ==> !StaleRelease(w.db, w.waiting[events[0].slot]))
      && NeverStale(Step(w, events[0]), events[1..])
  }

  // The history replays from tables above the run's, stays above, and meets the run exactly when both start
  // together and no release is stale.
  lemma {:induction false} RunBelow(w: World, b: Tables, events: seq<Event>)
    requires AllFresh(w) && Below(w.db, b)
    ensures var end := Replay(b, History(w, events));
      && end.Some? && Below(Run(w, events).db, end.value)
      && (end.value == Run(w, events).db <==> w.db == b && NeverStale(w, events))
    decreases |events|
  {
    if events != [] {
      var e, w' := events[0], Step(w, events[0]);
      StepKeepsFresh(w, e);
      var rest := History(w', events[1..]);
      if Commits(w, e) {
        var d := w.waiting[e.slot];
        CommitBelow(w.db, b, d);
        assert History(w, events) == [Whole(d.request)] + rest;
        RunBelow(w', Fused(b, d.request).value, events[1..]);
      } else if e.Elsewhere? {
        OtherBelow(w.db, b, e.step);
        assert History(w, events) == [Outside(e.step)] + rest;
        RunBelow(w', Other(b, e.step), events[1..]);
      } else {
        assert History(w, events) == rest;
        RunBelow(w', b, events[1..]);
      }
    }
  }

  // Every interleaving always replays, and is the sequence of its committed requests, each whole and in commit
  // order, exactly when no commit in it is a stale release.
  lemma RunIsSequentialIff(db: Tables, events: seq<Event>)
    ensures Replay(db, History(World(db, map[]), events)) == Some(Run(World(db, map[]), events).db)
      <==> NeverStale(World(db, map[]), events)
  {
    RunBelow(World(db, map[]), db, events);
  }

  // The same from any moment of a run, with requests already waiting.
  lemma RunIsSequentialFromIff(w: World, events: seq<Event>)
    requires AllFresh(w)
    ensures Replay(w.db, History(w, events)) == Some(Run(w, events).db) <==> NeverStale(w, events)
  {
    RunBelow(w, w.db, events);
  }

  // Only an invoice for a disputed job that had none can make a waiting release stale.

  predicate InvoicesDisputed(db: Tables, s: OtherStep) {
    s.SendInvoice? && StatusStill(db, s.booking, Disputed) && !db.bookings[s.booking].invoiced
  }

  predicate CleanRun(w: World, events: seq<Event>)
    decreases |events|
  {
    events != [] ==>
      && (events[0].Elsewhere? ==> !InvoicesDisputed(w.db, events[0].step))
      && CleanRun(Step(w, events[0]), events[1..])
  }

  ghost predicate InvoicesSeen(w: World) {
    forall k <- w.waiting ::
      w.waiting[k].booking in w.db.bookings
      && var seen, now := w.waiting[k].seen, w.db.bookings[w.waiting[k].booking];
         Rank(seen.status) == Rank(now.status) ==> seen.invoiced == now.invoiced
  }

  // Within a rank the invoice stays as it is.
  ghost predicate SameInvoices(before: Tables, after: Tables) {
    forall b <- before.bookings :: b in after.bookings &&
      (Rank(before.bookings[b].status) == Rank(after.bookings[b].status) ==>
        before.bookings[b].invoiced == after.bookings[b].invoiced)
  }

  lemma StepKeepsInvoices(w: World, e: Event)
    requires AllFresh(w) && (e.Elsewhere? ==> !InvoicesDisputed(w.db, e.step))
    ensures SameInvoices(w.db, Step(w, e).db)
  {
    if e.Elsewhere? {
      OtherWritesOneRow(w.db, e.step);
      hide Other;
    } else if Commits(w, e) {
      CommitKeepsInvoices(w.db, w.waiting[e.slot]);
    }
  }

  lemma CommitKeepsInvoices(db: Tables, d: Decision)
    requires Commit(db, d).Ok?
    ensures SameInvoices(db, Commit(db, d).value)
  {
  }

  lemma StepKeepsSeen(w: World, e: Event)
    requires AllFresh(w) && InvoicesSeen(w) && (e.Elsewhere? ==> !InvoicesDisputed(w.db, e.step))
    ensures InvoicesSeen(Step(w, e))
  {
    StepKeepsInvoices(w, e);
    StepKeepsFresh(w, e);
    var w' := Step(w, e);
    forall k | k in w'.waiting && k in w.waiting && w'.waiting[k] == w.waiting[k]
      ensures w'.waiting[k].booking in w'.db.bookings
      ensures var seen, now := w'.waiting[k].seen, w'.db.bookings[w'.waiting[k].booking];
        Rank(seen.status) == Rank(now.status) ==> seen.invoiced == now.invoiced
    {
      assert Fresh(w.db, w.waiting[k]) && Fresh(w'.db, w'.waiting[k]);
    }
  }

  lemma {:induction false} CleanIsNeverStale(w: World, events: seq<Event>)
    requires AllFresh(w) && InvoicesSeen(w) && CleanRun(w, events)
    ensures NeverStale(w, events)
    decreases |events|
  {
    if events != [] {
      var e := events[0];
      StepKeepsFresh(w, e);
      StepKeepsSeen(w, e);
      CleanIsNeverStale(Step(w, e), events[1..]);
    }
  }

  // So every interleaving that never invoices an uninvoiced disputed job is a sequence of whole requests.
  lemma RunIsSequential(db: Tables, events: seq<Event>)
    requires CleanRun(World(db, map[]), events)
    ensures Replay(db, History(World(db, map[]), events)) == Some(Run(World(db, map[]), events).db)
  {
    CleanIsNeverStale(World(db, map[]), events);
    RunIsSequentialIff(db, events);
  }

  predicate AdminsOnly(events: seq<Event>) {
    forall i | 0 <= i < |events| :: !events[i].Elsewhere?
  }

  lemma {:induction false} AdminsOnlyIsClean(w: World, events: seq<Event>)
    requires AdminsOnly(events)
    ensures CleanRun(w, events)
    decreases |events|
  {
    if events != [] { AdminsOnlyIsClean(Step(w, events[0]), events[1..]); }
  }

  // Admins racing only each other need no condition on the data at all.
  lemma AdminRunIsSequential(db: Tables, events: seq<Event>)
    requires AdminsOnly(events)
    ensures Replay(db, History(World(db, map[]), events)) == Some(Run(World(db, map[]), events).db)
  {
    AdminsOnlyIsClean(World(db, map[]), events);
    RunIsSequential(db, events);
  }

  // Rows that carry an invoice whenever their status says so; the code never writes any other kind.
  ghost predicate InvoicedByStatus(db: Tables) {
    forall b <- db.bookings :: Rank(db.bookings[b].status) == 3 ==> db.bookings[b].invoiced
  }

  lemma CommitKeepsInvoiced(db: Tables, d: Decision)
    requires InvoicedByStatus(db) && Fresh(db, d) && Commit(db, d).Ok?
    ensures InvoicedByStatus(Commit(db, d).value)
  {
    var after := Commit(db, d).value;
    assert after.bookings == db.bookings[d.booking := after.bookings[d.booking]];
  }

  lemma OtherKeepsInvoiced(db: Tables, s: OtherStep)
    requires InvoicedByStatus(db)
    ensures InvoicedByStatus(Other(db, s)) && !InvoicesDisputed(db, s)
  {
    OtherWritesOneRow(db, s);
  }

  lemma {:induction false} InvoicedRunIsClean(w: World, events: seq<Event>)
    requires AllFresh(w) && InvoicedByStatus(w.db)
    ensures CleanRun(w, events) && InvoicedByStatus(Run(w, events).db)
    decreases |events|
  {
    if events != [] {
      var e := events[0];
      if Commits(w, e) { CommitKeepsInvoiced(w.db, w.waiting[e.slot]); }
      if e.Elsewhere? { OtherKeepsInvoiced(w.db, e.step); }
      StepKeepsFresh(w, e);
      InvoicedRunIsClean(Step(w, e), events[1..]);
    }
  }

  // Where a job is invoiced before it is disputed, every interleaving whatsoever is sequential.
  lemma InvoicedRunIsSequential(db: Tables, events: seq<Event>)
    requires InvoicedByStatus(db)
    ensures Replay(db, History(World(db, map[]), events)) == Some(Run(World(db, map[]), events).db)
  {
    InvoicedRunIsClean(World(db, map[]), events);
    RunIsSequential(db, events);
  }

  // Exactly when a cancelling resolution that passes the status check is as good as a fused one: the status
  // alone does not reveal that the row was invoiced between the read and the write.
  lemma StaleCancelIsFusedIff(db: Tables, d: Decision)
    requires d.request.Resolve? && d.request.action.CancelDisputed? && Decided(d) && Commit(db, d).Ok?
    requires db.disputes[d.request.dispute].booking == d.booking
    requires db.bookings[d.booking].worker == d.seen.worker
    ensures Fused(db, d.request) == Commit(db, d)
       <==> d.seen.status.Completed? || d.seen.worker.None? || d.seen.invoiced == db.bookings[d.booking].invoiced
  {
    var now := Decision(d.request, d.booking, db.bookings[d.booking]);
    assert Decide(db, d.request) == Ok(now);
    if !d.seen.status.Completed? && d.seen.worker.Some? && d.seen.invoiced != now.seen.invoiced {
      var w := d.seen.worker.value;
      var after := Commit(db, d).value;
      if Commit(db, now).Ok? {
        assert Commit(db, now).value.activeJobs[w] != after.activeJobs[w];
      }
    }
  }

  // A disputed job without an invoice, read by an admin, then invoiced and reported again before the commit. No code
  // path writes such a row: a job is disputed only once it is invoiced.
  function LegacyDispute(): Tables {
    Tables(map["b" := Booking(Disputed, Some("w"), false, 100, None, None, None, false)],
           map["d" := Dispute("b", Open)], [], [], map[], map["w" := 1])
  }

  function LegacyRequest(): Request {
    Resolve("d", CancelDisputed, "a", "")
  }

  function LegacyEvents(): seq<Event> {
    [Read(0, LegacyRequest()), Elsewhere(SendInvoice("b", [])), Elsewhere(ReportInvoice("b", "e")), Write(0)]
  }

  // The tables once the invoice has been sent and reported.
  function LegacyReported(): Tables {
    Tables(map["b" := Booking(Disputed, Some("w"), true, 100, Some(100), None, None, false)],
           map["d" := Dispute("b", Open)], [], [], map[], map["w" := 0])
  }

  lemma LegacyInvoice()
    ensures Other(LegacyDispute(), SendInvoice("b", [])) == LegacyReported().(
              bookings := map["b" := LegacyReported().bookings["b"].(status := PendingCompletion)])
  {
    var db := LegacyDispute();
    assert InvoicedAddOns(db.addOns, "b", []) == [] && VisitsDone(db.visits, "b") == [];
  }

  lemma LegacyReport(db: Tables)
    requires db == LegacyReported().(
               bookings := map["b" := LegacyReported().bookings["b"].(status := PendingCompletion)])
    ensures Other(db, ReportInvoice("b", "e")) == LegacyReported()
  {
    var db' := WithStatus(db, "b", Disputed);
    assert db'.bookings == LegacyReported().bookings;
    assert "d" in db'.disputes;
  }

  // The stale commit takes the worker's slot away a second time; the whole request would not.
  lemma LegacyCommit()
    ensures
      var stale := Decision(LegacyRequest(), "b", LegacyDispute().bookings["b"]);
      && Commit(LegacyReported(), stale).Ok?
      && Commit(LegacyReported(), stale).value.activeJobs == map["w" := -1]
      && Fused(LegacyReported(), LegacyRequest()).Ok?
      && Fused(LegacyReported(), LegacyRequest()).value.activeJobs == map["w" := 0]
  {
  }

  lemma OneEvent(w: World, e: Event, rest: seq<Event>)
    ensures Run(w, [e] + rest) == Run(Step(w, e), rest)
    ensures e.Elsewhere? ==> History(w, [e] + rest) == [Outside(e.step)] + History(Step(w, e), rest)
    ensures e.Read? ==> History(w, [e] + rest) == History(Step(w, e), rest)
    ensures Commits(w, e) ==>
              History(w, [e] + rest) == [Whole(w.waiting[e.slot].request)] + History(Step(w, e), rest)
  {
    assert ([e] + rest)[1..] == rest;
  }

  lemma OneOutside(db: Tables, s: OtherStep, rest: seq<Done>)
    ensures Replay(db, [Outside(s)] + rest) == Replay(Other(db, s), rest)
  {
    assert ([Outside(s)] + rest)[1..] == rest;
  }

  function LegacyHistory(): seq<Done> {
    [Outside(SendInvoice("b", []))] + ([Outside(ReportInvoice("b", "e"))] + [Whole(LegacyRequest())])
  }

  lemma LegacyRun()
    ensures var w := World(LegacyDispute(), map[]);
      Run(w, LegacyEvents()).db.activeJobs == map["w" := -1] && History(w, LegacyEvents()) == LegacyHistory()
  {
    var r := LegacyRequest();
    var d := Decision(r, "b", LegacyDispute().bookings["b"]);
    var e1, e2, e3 := Elsewhere(SendInvoice("b", [])), Elsewhere(ReportInvoice("b", "e")), Write(0);
    var w0, w3 := World(LegacyDispute(), map[]), World(LegacyReported(), map[0 := d]);
    var w1 := Step(w0, Read(0, r));
    assert w1 == World(w0.db, map[0 := d]);
    LegacyInvoice();
    var w2 := Step(w1, e1);
    LegacyReport(w2.db);
    assert Step(w2, e2) == w3;
    LegacyCommit();
    OneEvent(w3, e3, []);
    OneEvent(w2, e2, [e3]);
    OneEvent(w1, e1, [e2] + [e3]);
    assert LegacyEvents() == [Read(0, r)] + ([e1] + ([e2] + [e3]));
    OneEvent(w0, Read(0, r), [e1] + ([e2] + [e3]));
    assert [e3] + [] == [e3] && [Whole(r)] + [] == [Whole(r)];
  }

  lemma LegacyReplay()
    ensures var end := Replay(LegacyDispute(), LegacyHistory());
      end.Some? && end.value.activeJobs == map["w" := 0]
  {
    var db := LegacyDispute();
    LegacyInvoice();
    var db' := Other(db, SendInvoice("b", []));
    LegacyReport(db');
    LegacyCommit();
    var last := [Whole(LegacyRequest())];
    OneOutside(db, SendInvoice("b", []), [Outside(ReportInvoice("b", "e"))] + last);
    OneOutside(db', ReportInvoice("b", "e"), last);
    assert Replay(LegacyReported(), last) == Replay(Fused(LegacyReported(), LegacyRequest()).value, []);
  }

  lemma StaleCancelReleasesTwice()
    ensures var w := World(LegacyDispute(), map[]);
      && Run(w, LegacyEvents()).db.activeJobs == map["w" := -1]
      && Replay(w.db, History(w, LegacyEvents())) != Some(Run(w, LegacyEvents()).db)
  {
    LegacyRun();
    LegacyReplay();
    assert map["w" := -1]["w"] != map["w" := 0]["w"];
  }

  // Resolutions: a dispute is claimed again only after someone has reopened it.

  function ClaimsOf(w: World, events: seq<Event>, d: Id): nat
    decreases |events|
  {
    if events == [] then 0
    else
      var e := events[0];
      (if Claims(w, e, d) then 1 else 0) + ClaimsOf(Step(w, e), events[1..], d)
  }

  // The unconditional review write landing on a dispute that is already closed.
  function ReopeningsOf(w: World, events: seq<Event>, d: Id): nat
    decreases |events|
  {
    if events == [] then 0
    else
      var e := events[0];
      (if Reopens(w, e, d) then 1 else 0) + ReopeningsOf(Step(w, e), events[1..], d)
  }

  function ClosingsOf(w: World, events: seq<Event>, d: Id): nat
    decreases |events|
  {
    if events == [] then 0
    else
      var e := events[0];
      (if Closes(w, e, d) then 1 else 0) + ClosingsOf(Step(w, e), events[1..], d)
  }

  function Claimable(db: Tables, d: Id): nat {
    if d in db.disputes && !DisputeOpen(db, d) then 0 else 1
  }

  predicate Claims(w: World, e: Event, d: Id) {
    Commits(w, e) && w.waiting[e.slot].request.Resolve? && w.waiting[e.slot].request.dispute == d
  }

  predicate Reopens(w: World, e: Event, d: Id) {
    e == Elsewhere(MarkUnderReview(d)) && d in w.db.disputes && !DisputeOpen(w.db, d)
  }

  // The writes that close an open dispute without claiming it: a dismissal or other outcome written over it, and the
  // admin cancel of its booking.
  predicate Closes(w: World, e: Event, d: Id) {
    && DisputeOpen(w.db, d)
    && (|| (e.Elsewhere? && e.step.OverwriteDispute? && e.step.dispute == d && !IsOpen(e.step.outcome))
        || (Commits(w, e) && w.waiting[e.slot].request.AdminCancel?
            && w.waiting[e.slot].request.booking == w.db.disputes[d].booking))
  }

  lemma OtherChangesClaimable(db: Tables, s: OtherStep, d: Id)
    ensures Claimable(Other(db, s), d) ==
      if d !in db.disputes then 1
      else if s == MarkUnderReview(d) then 1
      else if s.OverwriteDispute? && s.dispute == d && !IsOpen(s.outcome) then 0
      else Claimable(db, d)
  {
  }

  lemma CommitChangesClaimable(db: Tables, decision: Decision, d: Id)
    requires Commit(db, decision).Ok?
    ensures Claimable(Commit(db, decision).value, d) ==
      var r := decision.request;
      if d !in db.disputes then 1
      else if r.Resolve? && r.dispute == d then 0
      else if r.AdminCancel? && r.booking == db.disputes[d].booking then 0
      else Claimable(db, d)
    ensures decision.request.Resolve? ==> DisputeOpen(db, decision.request.dispute)
  {
  }

  lemma ClaimCloses(w: World, e: Event, d: Id)
    ensures Claimable(Step(w, e).db, d) + (if Claims(w, e, d) then 1 else 0) + (if Closes(w, e, d) then 1 else 0)
         == Claimable(w.db, d) + (if Reopens(w, e, d) then 1 else 0)
  {
    hide Commit, Other, Decide;
    if e.Elsewhere? { OtherChangesClaimable(w.db, e.step, d); }
    if Commits(w, e) { CommitChangesClaimable(w.db, w.waiting[e.slot], d); }
  }

  // The exact account of a dispute: it is resolved as often as it could be resolved at the start or was reopened,
  // less the times another write closed it and the once it may still be resolved.
  lemma {:induction false} ClaimsAccount(w: World, events: seq<Event>, d: Id)
    ensures Claimable(Run(w, events).db, d) + ClaimsOf(w, events, d) + ClosingsOf(w, events, d)
         == Claimable(w.db, d) + ReopeningsOf(w, events, d)
    decreases |events|
  {
    if events != [] {
      ClaimCloses(w, events[0], d);
      ClaimsAccount(Step(w, events[0]), events[1..], d);
    }
  }

  lemma ClaimsNeedReopenings(w: World, events: seq<Event>, d: Id)
    ensures ClaimsOf(w, events, d) + Claimable(Run(w, events).db, d) <= Claimable(w.db, d) + ReopeningsOf(w, events, d)
  {
    ClaimsAccount(w, events, d);
  }

  // After a cancelling resolution of a completed booking its status check still passes, so a second one goes
  // through exactly when its own dispute is still open.
  lemma ClaimAloneGuardsCompleted(db: Tables, first: Decision, second: Decision)
    requires first.request.Resolve? && first.request.action.CancelDisputed? && first.seen.status.Completed?
    requires second.request.Resolve? && second.request.action.CancelDisputed? && second.seen.status.Completed?
    requires first.booking == second.booking && Commit(db, first).Ok?
    ensures
      var after := Commit(db, first).value;
      && StatusStill(after, first.booking, Completed)
      && after.visits == db.visits && after.activeJobs == db.activeJobs && after.cancellations == db.cancellations
      && (Commit(after, second).Ok? <==> DisputeOpen(db, second.request.dispute)
                                         && second.request.dispute != first.request.dispute)
      && (Commit(after, second).Err? ==> Commit(after, second).error == Conflict)
  {
  }

  // A read that found the dispute open and writes after it was resolved puts it back under review.
  lemma OneClaim(w: World, e: Event, rest: seq<Event>, d: Id)
    ensures ClaimsOf(w, [e] + rest, d) == (if Claims(w, e, d) then 1 else 0) + ClaimsOf(Step(w, e), rest, d)
  {
    assert ([e] + rest)[1..] == rest;
  }

  lemma StaleReviewAllowsSecondClaim()
    ensures
      var b := Booking(Completed, Some("w"), true, 100, None, None, None, false);
      var db := Tables(map["b" := b], map["d" := Dispute("b", Open)], [], [], map[], map["w" := 0]);
      var r := Resolve("d", CancelDisputed, "a", "");
      ClaimsOf(World(db, map[]),
               [Read(0, r), Write(0), Elsewhere(MarkUnderReview("d")), Read(0, r), Write(0)], "d") == 2
  {
    var b := Booking(Completed, Some("w"), true, 100, None, None, None, false);
    var db := Tables(map["b" := b], map["d" := Dispute("b", Open)], [], [], map[], map["w" := 0]);
    var r := Resolve("d", CancelDisputed, "a", "");
    var e := Elsewhere(MarkUnderReview("d"));
    var w0 := World(db, map[]);
    var w1 := Step(w0, Read(0, r));
    assert w1.waiting[0] == Decision(r, "b", b);
    assert Claims(w1, Write(0), "d");
    var w2 := Step(w1, Write(0));
    var w3 := Step(w2, e);
    var w4 := Step(w3, Read(0, r));
    assert w4.waiting[0] == Decision(r, "b", w3.db.bookings["b"]);
    assert Claims(w4, Write(0), "d");
    hide Decide, Commit, Other;
    var t3 := [Read(0, r)] + [Write(0)];
    assert [Write(0)] == [Write(0)] + [];
    OneClaim(w4, Write(0), [], "d");
    OneClaim(w3, Read(0, r), [Write(0)], "d");
    OneClaim(w2, e, t3, "d");
    OneClaim(w1, Write(0), [e] + t3, "d");
    OneClaim(w0, Read(0, r), [Write(0)] + ([e] + t3), "d");
    assert [Read(0, r), Write(0), e, Read(0, r), Write(0)] == [Read(0, r)] + ([Write(0)] + ([e] + t3));
  }

  // Archiving writes without a status check, yet an archived booking is always finished.

  ghost predicate ArchivedAreFinished(db: Tables) {
    forall b <- db.bookings :: db.bookings[b].archived ==> Terminal(db.bookings[b].status)
  }

  lemma CommitKeepsArchived(db: Tables, d: Decision)
    requires Fresh(db, d) && ArchivedAreFinished(db) && Commit(db, d).Ok?
    ensures ArchivedAreFinished(Commit(db, d).value)
  {
    var after := Commit(db, d).value;
    assert after.bookings == db.bookings[d.booking := after.bookings[d.booking]];
  }

  lemma OtherKeepsArchived(db: Tables, s: OtherStep)
    requires ArchivedAreFinished(db)
    ensures ArchivedAreFinished(Other(db, s))
  {
    OtherWritesOneRow(db, s);
  }

  lemma {:induction false} ArchivedStayFinished(w: World, events: seq<Event>)
    requires AllFresh(w) && ArchivedAreFinished(w.db)
    ensures ArchivedAreFinished(Run(w, events).db)
    decreases |events|
  {
    if events != [] {
      var e := events[0];
      if Commits(w, e) { CommitKeepsArchived(w.db, w.waiting[e.slot]); }
      if e.Elsewhere? { OtherKeepsArchived(w.db, e.step); }
      StepKeepsFresh(w, e);
      ArchivedStayFinished(Step(w, e), events[1..]);
    }
  }
}
