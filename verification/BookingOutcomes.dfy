// Which requests and steps go through, and what each of them leaves behind.
module BookingOutcomes {
  import opened Wrappers
  import opened BookingTables
  import opened BookingRuns

  // VALID_TRANSITIONS.
  predicate Allowed(from: Status, to: Status) {
    match from
    case Pending => to in {Status.Accepted, Rejected, Cancelled}
    case Accepted => to in {InProgress, Cancelled}
    case InProgress => to in {PendingCompletion, Cancelled}
    case QuoteSubmitted | QuoteApproved => to == Cancelled
    case Disputed => to in {PendingCompletion, AwaitingPayment, Completed, Cancelled}
    case PendingCompletion => to in {AwaitingPayment, Completed, Disputed, Cancelled}
    case AwaitingPayment => to in {Completed, Disputed, Cancelled}
    case Completed | Rejected | Cancelled => false
  }

  predicate KeepsOrMoves(before: Tables, after: Tables, b: Id) {
    && b in before.bookings && b in after.bookings
    && var from, to := before.bookings[b].status, after.bookings[b].status;
       to == from || Allowed(from, to)
  }

  // No step of a run, whoever takes it and however stale its read, moves a booking past the table of transitions.
  lemma StepsFollowTheTable(w: World, e: Event, b: Id)
    requires AllFresh(w) && b in w.db.bookings
    ensures KeepsOrMoves(w.db, Step(w, e).db, b)
  {
    if Commits(w, e) { CommitFollowsTheTable(w.db, w.waiting[e.slot], b); }
    if e.Elsewhere? { OtherFollowsTheTable(w.db, e.step, b); }
    hide Commit, Other, Decide, Fresh;
  }

  lemma CommitFollowsTheTable(db: Tables, d: Decision, b: Id)
    requires Fresh(db, d) && Commit(db, d).Ok? && b in db.bookings
    ensures KeepsOrMoves(db, Commit(db, d).value, b)
  {
    CommitTouchesOneRow(db, d);
  }

  lemma OtherFollowsTheTable(db: Tables, s: OtherStep, b: Id)
    requires b in db.bookings
    ensures KeepsOrMoves(db, Other(db, s), b)
  {
    OtherWritesOneRow(db, s);
    hide Other;
  }

  // What gets past the checks of a read.

  lemma DecidesIff(db: Tables, r: Request)
    ensures Decide(db, r).Ok? <==>
      match r
      case Resolve(d, action, _, _) =>
        && d in db.disputes && (db.disputes[d].status == Open || db.disputes[d].status == UnderReview)
        && db.disputes[d].booking in db.bookings
        && var row := db.bookings[db.disputes[d].booking];
           if action == CancelDisputed then
             row.status == Completed || (Allowed(row.status, Cancelled) && !(row.status in {Pending, QuoteSubmitted, QuoteApproved}))
           else row.status == Disputed && row.invoiced
      case AdminCancel(b, _, _) => b in db.bookings && Allowed(db.bookings[b].status, Cancelled)
      case Archive(b, archived) =>
        b in db.bookings && (archived ==> db.bookings[b].status in {Completed, Cancelled, Rejected})
    ensures Decide(db, r).Ok? ==>
      var d := Decide(db, r).value;
      && d.request == r && d.booking in db.bookings && d.seen == db.bookings[d.booking]
      && d.booking == if r.Resolve? then db.disputes[r.dispute].booking else r.booking
  {
  }

  // And what the others are told.
  lemma RefusalsAreTold(db: Tables, r: Request)
    requires Decide(db, r).Err?
    ensures Decide(db, r).error ==
      if r.Resolve? then
        if r.dispute !in db.disputes || db.disputes[r.dispute].booking !in db.bookings then NotFound
        else if !(db.disputes[r.dispute].status in {Open, UnderReview}) then AlreadyResolved
        else if r.action == CancelDisputed then WrongStatus
        else if db.bookings[db.disputes[r.dispute].booking].status == Disputed then NoInvoice
        else NotDisputed
      else if r.booking in db.bookings then WrongStatus
      else NotFound
  {
  }

  // A transaction goes through exactly when the status is as read, the dispute open, the worker's profile there if
  // the slot is given back, and no cancellation recorded before.
  lemma CommitsIff(db: Tables, d: Decision)
    requires Fresh(db, d)
    ensures Commit(db, d).Ok? <==>
      match d.request
      case Resolve(id, action, _, _) =>
        && (db.disputes[id].status == Open || db.disputes[id].status == UnderReview)
        && db.bookings[d.booking].status == d.seen.status
        && (action == CancelDisputed && d.seen.status != Completed ==>
              && d.booking !in db.cancellations
              && (d.seen.worker.Some? && !d.seen.invoiced ==> d.seen.worker.value in db.activeJobs))
      case AdminCancel(_, _, _) =>
        && db.bookings[d.booking].status == d.seen.status && d.booking !in db.cancellations
        && (d.seen.worker.Some? && d.seen.status in {Status.Accepted, InProgress, QuoteSubmitted, QuoteApproved, Disputed} ==>
              d.seen.worker.value in db.activeJobs)
      case Archive(_, _) => true
  {
  }

  // Nothing but its own booking, that booking's disputes and its worker's counter is touched by a transaction.
  lemma CommitTouchesOneRow(db: Tables, d: Decision)
    requires Fresh(db, d) && Commit(db, d).Ok?
    ensures var after := Commit(db, d).value;
      && (forall b :: b in after.bookings <==> b in db.bookings)
      && (forall b | b in db.bookings && b != d.booking :: after.bookings[b] == db.bookings[b])
      && after.disputes.Keys == db.disputes.Keys
      && (forall x | x in db.disputes && db.disputes[x].booking != d.booking :: after.disputes[x] == db.disputes[x])
      && (forall b | b != d.booking :: b in after.cancellations <==> b in db.cancellations)
      && (forall b | b in db.cancellations && b != d.booking :: after.cancellations[b] == db.cancellations[b])
      && after.activeJobs.Keys == db.activeJobs.Keys
      && (forall w | w in db.activeJobs && d.seen.worker != Some(w) :: after.activeJobs[w] == db.activeJobs[w])
      && KeepsOrMoves(db, after, d.booking)
  {
    CommitKeepsOtherRows(db, d);
    CommitKeepsOtherDisputes(db, d);
    CommitKeepsOtherCounters(db, d);
    hide Commit, Fresh;
  }

  lemma CommitKeepsOtherRows(db: Tables, d: Decision)
    requires Fresh(db, d) && Commit(db, d).Ok?
    ensures var after := Commit(db, d).value;
      && d.booking in after.bookings && after.bookings == db.bookings[d.booking := after.bookings[d.booking]]
      && KeepsOrMoves(db, after, d.booking)
  {
    hide RejectExtras, Billed, CancelScheduled, DismissOpen;
  }

  lemma CommitKeepsOtherDisputes(db: Tables, d: Decision)
    requires Fresh(db, d) && Commit(db, d).Ok?
    ensures var after := Commit(db, d).value;
      && after.disputes.Keys == db.disputes.Keys
      && (forall x | x in db.disputes && db.disputes[x].booking != d.booking :: after.disputes[x] == db.disputes[x])
  {
    hide RejectExtras, Billed, CancelScheduled, Release;
  }

  lemma CommitKeepsOtherCounters(db: Tables, d: Decision)
    requires Fresh(db, d) && Commit(db, d).Ok?
    ensures var after := Commit(db, d).value;
      && (forall b | b != d.booking :: b in after.cancellations <==> b in db.cancellations)
      && (forall b | b in db.cancellations && b != d.booking :: after.cancellations[b] == db.cancellations[b])
      && after.activeJobs.Keys == db.activeJobs.Keys
      && (forall w | w in db.activeJobs && d.seen.worker != Some(w) :: after.activeJobs[w] == db.activeJobs[w])
  {
    hide RejectExtras, Billed, CancelScheduled, DismissOpen;
  }

  // A resolution told by its dispute: kept and adjusted invoices wait for the client again, a cancelled job is
  // cancelled on record unless it was completed, and the admin's name is on the booking.
  lemma ResolutionOutcome(db: Tables, d: Decision)
    requires Fresh(db, d) && d.request.Resolve? && Commit(db, d).Ok?
    ensures var r, after := d.request, Commit(db, d).value;
      var row, row' := db.bookings[d.booking], after.bookings[d.booking];
      && after.disputes[r.dispute].status ==
           (if r.action == KeepInvoice then InvoiceKept
            else if r.action == RemoveInvoiceExtras then InvoiceAdjusted else ResolvedCancelled)
      && row'.resolvedBy == Some(r.admin)
      && row'.(status := row.status, finalPrice := row.finalPrice, resolvedBy := row.resolvedBy) == row
      && (r.action == CancelDisputed ==> row'.finalPrice == row.finalPrice)
      && row'.status == (if r.action != CancelDisputed then PendingCompletion
                         else if row.status == Completed then Completed else Cancelled)
      && (row'.status == Cancelled ==>
            && d.booking in after.cancellations
            && after.cancellations[d.booking] == if r.note == "" then "Cancelled via dispute resolution" else r.note)
      && (row'.status != Cancelled ==> after.cancellations == db.cancellations && after.activeJobs == db.activeJobs)
  {
  }

  // The slot goes back with it exactly when the job was not completed and its worker had not billed it when read.
  lemma ResolutionReleasesIff(db: Tables, d: Decision, w: Id)
    requires Fresh(db, d) && d.request.Resolve? && Commit(db, d).Ok? && w in db.activeJobs
    ensures Commit(db, d).value.activeJobs[w] == db.activeJobs[w] -
      if d.request.action == CancelDisputed && d.seen.status != Completed && d.seen.worker == Some(w) && !d.seen.invoiced
      then 1 else 0
  {
  }

  // An admin cancel: the record carries the reason, and so do the notes unless there is none.
  lemma AdminCancelOutcome(db: Tables, d: Decision, w: Id)
    requires Fresh(db, d) && d.request.AdminCancel? && Commit(db, d).Ok?
    ensures var reason, after := d.request.reason, Commit(db, d).value;
      var row, row' := db.bookings[d.booking], after.bookings[d.booking];
      && row'.status == Cancelled
      && row'.(status := row.status, notes := row.notes) == row
      && row'.notes == (if reason == "" then row.notes else Some(reason))
      && d.booking in after.cancellations
      && after.cancellations[d.booking] == (if reason == "" then "Cancelled by admin" else reason)
      && after.addOns == db.addOns
      && (forall x | x in db.disputes && db.disputes[x].booking == d.booking && db.disputes[x].status in {Open, UnderReview} ::
            after.disputes[x].status == Dismissed)
      && (forall x | x in db.disputes && !(db.disputes[x].status in {Open, UnderReview}) :: after.disputes[x] == db.disputes[x])
    ensures w in db.activeJobs ==>
      Commit(db, d).value.activeJobs[w] == db.activeJobs[w] -
        if d.seen.worker == Some(w) && d.seen.status in {Status.Accepted, InProgress, QuoteSubmitted, QuoteApproved, Disputed}
        then 1 else 0
  {
  }

  // Archiving changes the flag alone.
  lemma ArchiveOutcome(db: Tables, d: Decision)
    requires Fresh(db, d) && d.request.Archive? && Commit(db, d).Ok?
    ensures var after := Commit(db, d).value;
      && after == db.(bookings := after.bookings)
      && after.bookings == db.bookings[d.booking := after.bookings[d.booking]]
      && after.bookings[d.booking] == db.bookings[d.booking].(archived := d.request.archived)
  {
  }

  // The outside steps.

  function Target(s: OtherStep): Status
    requires s.AcceptJob? || s.DeclineJob? || s.StartJob? || s.SendInvoice? || s.AskForPayment? || s.ReportInvoice?
             || s.SettlePayment?
  {
    match s
    case AcceptJob(_) => Status.Accepted
    case DeclineJob(_) => Rejected
    case StartJob(_) => InProgress
    case SendInvoice(_, _) => PendingCompletion
    case AskForPayment(_) => AwaitingPayment
    case ReportInvoice(_, _) => Disputed
    case SettlePayment(_) => Completed
  }

  // A status step goes through exactly when the table allows it, but that payment is asked for only of a job that
  // waits for its client, and that a job is accepted or billed only by a worker with a profile.
  lemma MovesIff(db: Tables, s: OtherStep)
    requires s.AcceptJob? || s.DeclineJob? || s.StartJob? || s.SendInvoice? || s.AskForPayment? || s.ReportInvoice?
             || s.SettlePayment?
    ensures var b, after := s.booking, Other(db, s);
      && ((b in db.bookings && b in after.bookings && after.bookings[b].status != db.bookings[b].status) <==>
            && b in db.bookings && Allowed(db.bookings[b].status, Target(s))
            && (s.AskForPayment? ==> db.bookings[b].status == PendingCompletion)
            && (s.AcceptJob? || s.SendInvoice? ==>
                  db.bookings[b].worker.Some? && db.bookings[b].worker.value in db.activeJobs))
      && (b in db.bookings && b in after.bookings && after.bookings[b].status != db.bookings[b].status ==>
            after.bookings[b].status == Target(s) && (s.SendInvoice? ==> after.bookings[b].invoiced))
      && (b in db.bookings && b in after.bookings && after.bookings[b].status == db.bookings[b].status ==> after == db)
  {
  }

  lemma RematchesIff(db: Tables, b: Id, w: Option<Id>)
    requires b in db.bookings
    ensures Other(db, Rematch(b, w)) ==
      if db.bookings[b].status == Pending then db.(bookings := db.bookings[b := db.bookings[b].(worker := w)]) else db
  {
  }

  // A report or a problem leaves the booking with an open dispute, and opens one only where there was none.
  lemma ReportsJoin(db: Tables, s: OtherStep)
    requires (s.ReportInvoice? || s.OpenProblem?) && s.booking in db.bookings && s.newDispute !in db.disputes
    ensures var b, after := s.booking, Other(db, s);
      && b in after.bookings
      && (if (if s.ReportInvoice? then Allowed(db.bookings[b].status, Disputed)
              else db.bookings[b].status in {Status.Accepted, InProgress})
          then
            && (exists x | x in after.disputes :: after.disputes[x].booking == b && after.disputes[x].status in {Open, UnderReview})
            && after.disputes ==
                 (if exists x | x in db.disputes :: db.disputes[x].booking == b && db.disputes[x].status in {Open, UnderReview}
                  then db.disputes else db.disputes[s.newDispute := Dispute(b, Open)])
          else after == db)
  {
    var b, after := s.booking, Other(db, s);
    if !HasOpenDispute(db, b) && after != db { assert after.disputes[s.newDispute] == Dispute(b, Open); }
  }

  // A dispute raised from outside is there whatever other disputes the booking has.
  lemma RaisedIsOpen(db: Tables, b: Id, x: Id)
    requires b in db.bookings && x !in db.disputes
    ensures Other(db, RaiseDispute(b, x)) == db.(disputes := db.disputes[x := Dispute(b, Open)])
  {
  }
}
