// What every step keeps: the workers' active-job counters and the cancellation records.
module BookingBalance {
  import opened Wrappers
  import opened BookingTables
  import opened BookingRuns

  // A job occupies its worker until the worker has invoiced it or it is over.
  predicate Active(row: Booking, w: Id) {
    row.worker == Some(w) && HoldsSlot(row.status) && !row.invoiced
  }

  ghost function ActiveJobs(bookings: map<Id, Booking>, w: Id): set<Id> {
    set b | b in bookings && Active(bookings[b], w)
  }

  ghost predicate Balanced(db: Tables) {
    forall w <- db.activeJobs :: db.activeJobs[w] == |ActiveJobs(db.bookings, w)|
  }

  // No invoice before the work is done, and always one after; a disputed job may be of either kind.
  predicate SoundRow(row: Booking) {
    && (Rank(row.status) < 3 ==> !row.invoiced)
    && (row.status.PendingCompletion? || row.status.AwaitingPayment? ==> row.invoiced)
  }

  ghost predicate Sound(db: Tables) {
    forall b <- db.bookings :: SoundRow(db.bookings[b])
  }

  function Weight(row: Booking, w: Id): int {
    if Active(row, w) then 1 else 0
  }

  lemma RowChangesCount(bookings: map<Id, Booking>, b: Id, row: Booking, w: Id)
    requires b in bookings
    ensures |ActiveJobs(bookings[b := row], w)| == |ActiveJobs(bookings, w)| - Weight(bookings[b], w) + Weight(row, w)
  {
    hide Active, Weight;
    RowCounts(bookings, b, w);
    RowCounts(bookings[b := row], b, w);
    assert ActiveJobs(bookings, w) - {b} == ActiveJobs(bookings[b := row], w) - {b};
  }

  lemma RowCounts(bookings: map<Id, Booking>, b: Id, w: Id)
    requires b in bookings
    ensures |ActiveJobs(bookings, w)| == |ActiveJobs(bookings, w) - {b}| + Weight(bookings[b], w)
  {
    if b in ActiveJobs(bookings, w) { assert ActiveJobs(bookings, w) == (ActiveJobs(bookings, w) - {b}) + {b}; }
    else { assert ActiveJobs(bookings, w) == ActiveJobs(bookings, w) - {b}; }
  }

  // One row rewritten and one worker's counter moved by delta: balance survives exactly when delta is the
  // change in that worker's weight and no other worker's weight changed.
  lemma BalanceAfter(db: Tables, after: Tables, b: Id, row: Booking)
    requires Balanced(db) && b in db.bookings && after.bookings == db.bookings[b := row]
    requires after.activeJobs.Keys == db.activeJobs.Keys
    ensures Balanced(after) <==>
              forall w <- db.activeJobs ::
                after.activeJobs[w] - db.activeJobs[w] == Weight(row, w) - Weight(db.bookings[b], w)
  {
    forall w | w in db.activeJobs
      ensures |ActiveJobs(after.bookings, w)| == db.activeJobs[w] - Weight(db.bookings[b], w) + Weight(row, w)
    {
      RowChangesCount(db.bookings, b, row, w);
    }
  }

  // A waiting decision whose status still matches saw the worker, and an invoice that is still there.
  lemma FreshSawTheRow(db: Tables, d: Decision)
    requires Fresh(db, d) && StatusStill(db, d.booking, d.seen.status) && !d.seen.status.Pending?
    ensures d.seen.worker == db.bookings[d.booking].worker
    ensures d.seen.invoiced ==> db.bookings[d.booking].invoiced
  {
  }

  // A dispute resolution keeps the counters right exactly when it is no stale release.
  lemma ResolutionKeepsBalanceIff(db: Tables, d: Decision)
    requires Balanced(db) && Sound(db) && Fresh(db, d) && d.request.Resolve? && Commit(db, d).Ok?
    ensures Balanced(Commit(db, d).value) <==> !StaleRelease(db, d)
  {
    var after := Commit(db, d).value;
    FreshSawTheRow(db, d);
    BalanceAfter(db, after, d.booking, after.bookings[d.booking]);
    if StaleRelease(db, d) {
      assert after.activeJobs[d.seen.worker.value] == db.activeJobs[d.seen.worker.value] - 1;
    }
  }

  // The admin cancel looks only at the status, so it is right exactly when a disputed job has no invoice by then.
  lemma AdminCancelKeepsBalanceIff(db: Tables, d: Decision)
    requires Balanced(db) && Sound(db) && Fresh(db, d) && d.request.AdminCancel? && Commit(db, d).Ok?
    ensures Balanced(Commit(db, d).value)
       <==> !(d.seen.status.Disputed? && db.bookings[d.booking].invoiced && d.seen.worker.Some?)
  {
    var after := Commit(db, d).value;
    if !d.seen.status.Pending? { FreshSawTheRow(db, d); }
    BalanceAfter(db, after, d.booking, after.bookings[d.booking]);
    if AdminReleases(d.seen) {
      assert after.activeJobs[d.seen.worker.value] == db.activeJobs[d.seen.worker.value] - 1;
    }
  }

  // Such a booking: the worker's slot went back with the invoice and goes back again with the cancel.
  lemma AdminCancelReleasesTwice()
    ensures
      var row := Booking(Disputed, Some("w"), true, 100, Some(100), None, None, false);
      var db := Tables(map["b" := row], map["d" := Dispute("b", Open)], [], [], map[], map["w" := 0]);
      var r := Fused(db, AdminCancel("b", "a", ""));
      Balanced(db) && Sound(db) && r.Ok? && r.value.activeJobs == map["w" := -1] && !Balanced(r.value)
  {
    var row := Booking(Disputed, Some("w"), true, 100, Some(100), None, None, false);
    var db := Tables(map["b" := row], map["d" := Dispute("b", Open)], [], [], map[], map["w" := 0]);
    assert ActiveJobs(db.bookings, "w") == {};
    var after := Fused(db, AdminCancel("b", "a", "")).value;
    assert after.activeJobs["w"] == -1;
  }

  lemma ArchiveKeepsBalance(db: Tables, d: Decision)
    requires Balanced(db) && Fresh(db, d) && d.request.Archive? && Commit(db, d).Ok?
    ensures Balanced(Commit(db, d).value)
  {
    var after := Commit(db, d).value;
    BalanceAfter(db, after, d.booking, after.bookings[d.booking]);
  }

  // The outside steps that take a slot away twice, or never.
  predicate Miscounts(db: Tables, s: OtherStep) {
    && (s.SendInvoice? || s.SettlePayment?)
    && StatusStill(db, s.booking, Disputed)
    && db.bookings[s.booking].invoiced == s.SendInvoice?
    && db.bookings[s.booking].worker.Some? && db.bookings[s.booking].worker.value in db.activeJobs
  }

  // The first of them: the state machine lets the worker send a second invoice for the job in dispute.
  lemma SecondInvoiceReleasesTwice()
    ensures
      var row := Booking(Disputed, Some("w"), true, 100, Some(100), None, None, false);
      var db := Tables(map["b" := row], map["d" := Dispute("b", Open)], [], [], map[], map["w" := 0]);
      var after := Other(db, SendInvoice("b", []));
      Balanced(db) && Sound(db) && after.activeJobs == map["w" := -1] && !Balanced(after)
  {
    var row := Booking(Disputed, Some("w"), true, 100, Some(100), None, None, false);
    var db := Tables(map["b" := row], map["d" := Dispute("b", Open)], [], [], map[], map["w" := 0]);
    assert ActiveJobs(db.bookings, "w") == {};
    assert Other(db, SendInvoice("b", [])).activeJobs["w"] == -1;
  }

  lemma OtherKeepsBalanceIff(db: Tables, s: OtherStep)
    requires Balanced(db) && Sound(db)
    ensures Balanced(Other(db, s)) <==> !Miscounts(db, s)
  {
    OtherWritesOneRow(db, s);
    OtherCounters(db, s);
    if Miscounts(db, s) { MiscountsChange(db, s); }
    var after := Other(db, s);
    hide Other, SameCases, Counted, Shift;
    if after.bookings != db.bookings {
      var b := s.booking;
      BalanceAfter(db, after, b, after.bookings[b]);
      hide Balanced;
      if db.bookings[b].worker.Some? && db.bookings[b].worker.value in db.activeJobs {
        var w := db.bookings[b].worker.value;
        assert forall v <- db.activeJobs :: v != w ==> after.activeJobs[v] == db.activeJobs[v];
      }
    }
  }

  // Accepting a job counts it for its worker, an invoice counts it off, and no other outside step moves a counter.
  lemma OtherCounters(db: Tables, s: OtherStep)
    ensures var after := Other(db, s);
      if after.bookings != db.bookings && (s.AcceptJob? || s.SendInvoice?) then
        && s.booking in db.bookings && db.bookings[s.booking].worker.Some?
        && var w := db.bookings[s.booking].worker.value;
           w in db.activeJobs && after.activeJobs == db.activeJobs[w := db.activeJobs[w] + if s.AcceptJob? then 1 else -1]
      else after.activeJobs == db.activeJobs
  {
  }

  lemma MiscountsChange(db: Tables, s: OtherStep)
    requires Miscounts(db, s)
    ensures Other(db, s).bookings != db.bookings
  {
    assert Other(db, s).bookings[s.booking] != db.bookings[s.booking];
  }

  lemma CommitKeepsSound(db: Tables, d: Decision)
    requires Sound(db) && Fresh(db, d) && Commit(db, d).Ok?
    ensures Sound(Commit(db, d).value)
  {
    var after := Commit(db, d).value;
    assert SoundRow(after.bookings[d.booking]);
    assert after.bookings == db.bookings[d.booking := after.bookings[d.booking]];
  }

  lemma OtherKeepsSound(db: Tables, s: OtherStep)
    requires Sound(db)
    ensures Sound(Other(db, s))
  {
    OtherWritesOneRow(db, s);
  }

  // Over whole runs.

  predicate MiscountsNow(w: World, e: Event) {
    || (e.Elsewhere? && Miscounts(w.db, e.step))
    || (Commits(w, e) && StaleRelease(w.db, w.waiting[e.slot]))
    || (&& Commits(w, e) && w.waiting[e.slot].request.AdminCancel?
        && var d := w.waiting[e.slot];
           d.booking in w.db.bookings && d.seen.status.Disputed? && w.db.bookings[d.booking].invoiced && d.seen.worker.Some?)
  }

  predicate NeverMiscounts(w: World, events: seq<Event>)
    decreases |events|
  {
    events != [] ==> !MiscountsNow(w, events[0]) && NeverMiscounts(Step(w, events[0]), events[1..])
  }

  ghost predicate AlwaysBalanced(w: World, events: seq<Event>)
    decreases |events|
  {
    Balanced(w.db) && (events != [] ==> AlwaysBalanced(Step(w, events[0]), events[1..]))
  }

  lemma StepKeepsBalanceIff(w: World, e: Event)
    requires AllFresh(w) && Sound(w.db) && Balanced(w.db)
    ensures Balanced(Step(w, e).db) <==> !MiscountsNow(w, e)
    ensures Sound(Step(w, e).db)
  {
    if e.Elsewhere? {
      OtherKeepsBalanceIff(w.db, e.step);
      OtherKeepsSound(w.db, e.step);
    } else if Commits(w, e) {
      var d := w.waiting[e.slot];
      CommitKeepsSound(w.db, d);
      match d.request
      case Resolve(_, _, _, _) => ResolutionKeepsBalanceIff(w.db, d);
      case AdminCancel(_, _, _) => AdminCancelKeepsBalanceIff(w.db, d);
      case Archive(_, _) => ArchiveKeepsBalance(w.db, d);
    }
  }

  // The counters equal the workers' active jobs throughout a run exactly when none of the four miscounting
  // writes happens in it: a stale release, an admin cancel of a disputed job that is invoiced, a second invoice
  // for a disputed job, a settlement of a disputed job never invoiced.
  lemma {:induction false} RunIsBalancedIff(w: World, events: seq<Event>)
    requires AllFresh(w) && Sound(w.db) && Balanced(w.db)
    ensures AlwaysBalanced(w, events) <==> NeverMiscounts(w, events)
    decreases |events|
  {
    if events != [] {
      var e := events[0];
      StepKeepsFresh(w, e);
      StepKeepsBalanceIff(w, e);
      if !MiscountsNow(w, e) {
        RunIsBalancedIff(Step(w, e), events[1..]);
      } else {
        assert !AlwaysBalanced(Step(w, e), events[1..]);
      }
    }
  }

  // Cancellation records.

  ghost predicate CancellationsMatch(db: Tables) {
    forall b <- db.bookings ::
      && (b in db.cancellations <==> db.bookings[b].status.Cancelled?)
      && (db.bookings[b].status.Cancelled? ==> Visit(b, Scheduled) !in db.visits)
  }

  lemma CancelScheduledLeavesNone(visits: seq<Visit>, b: Id)
    ensures Visit(b, Scheduled) !in CancelScheduled(visits, b)
    ensures forall v :: v in CancelScheduled(visits, b) && v.status.Scheduled? ==> v in visits
  {
  }

  lemma CommitKeepsCancellations(db: Tables, d: Decision)
    requires CancellationsMatch(db) && Fresh(db, d) && Commit(db, d).Ok?
    ensures CancellationsMatch(Commit(db, d).value)
  {
    var after := Commit(db, d).value;
    CancelScheduledLeavesNone(db.visits, d.booking);
    assert after.bookings == db.bookings[d.booking := after.bookings[d.booking]];
  }

  lemma OtherKeepsCancellations(db: Tables, s: OtherStep)
    requires CancellationsMatch(db)
    ensures CancellationsMatch(Other(db, s))
  {
    OtherWritesOneRow(db, s);
    var after := Other(db, s);
    assert forall v :: v in after.visits && v.status.Scheduled? ==> v in db.visits;
  }

  // In every reachable state a booking has its cancellation record exactly when it is cancelled, keeps no
  // scheduled visit then, and a cancelled booking stays cancelled.
  lemma {:induction false} RunKeepsCancellations(w: World, events: seq<Event>)
    requires AllFresh(w) && CancellationsMatch(w.db)
    ensures CancellationsMatch(Run(w, events).db)
    ensures forall b <- w.db.bookings :: w.db.bookings[b].status.Cancelled? ==>
              b in Run(w, events).db.bookings && Run(w, events).db.bookings[b].status.Cancelled?
    decreases |events|
  {
    if events != [] {
      StepKeepsFresh(w, events[0]);
      StepKeepsCancellations(w, events[0]);
      RunKeepsCancellations(Step(w, events[0]), events[1..]);
    }
  }

  lemma StepKeepsCancellations(w: World, e: Event)
    requires AllFresh(w) && CancellationsMatch(w.db)
    ensures CancellationsMatch(Step(w, e).db)
    ensures forall b <- w.db.bookings :: w.db.bookings[b].status.Cancelled? ==>
              b in Step(w, e).db.bookings && Step(w, e).db.bookings[b].status.Cancelled?
  {
    hide Commit, Other, Decide, Fresh, CancellationsMatch;
    StepKeepsFresh(w, e);
    if Commits(w, e) { CommitKeepsCancellations(w.db, w.waiting[e.slot]); }
    if e.Elsewhere? { OtherKeepsCancellations(w.db, e.step); }
  }

  // An admin cancel closes every dispute of its booking; a cancelling resolution closes only its own.
  lemma CancelClosesDisputes(db: Tables, d: Decision, x: Id)
    requires Fresh(db, d) && Commit(db, d).Ok? && x in db.disputes && db.disputes[x].booking == d.booking
    ensures d.request.AdminCancel? ==> !DisputeOpen(Commit(db, d).value, x)
    ensures d.request.Resolve? ==>
              (DisputeOpen(Commit(db, d).value, x) <==> DisputeOpen(db, x) && x != d.request.dispute)
  {
  }

  // After an admin cancel no other can commit: whatever it read, it breaks the unique cancellation record (or
  // misses its worker's profile) before its status check is ever reached, so its caller is told of an internal
  // error, not of a conflict.
  lemma SecondAdminCancelHitsTheRecord(db: Tables, first: Decision, second: Decision)
    requires first.request.AdminCancel? && second.request.AdminCancel? && first.request.booking == second.request.booking
    requires Commit(db, first).Ok?
    ensures Commit(Commit(db, first).value, second) == Err(
      if AdminReleases(second.seen) && second.seen.worker.value !in db.activeJobs then NoSuchWorker
      else DuplicateCancellation)
  {
  }
}
