// The two transactions as they run against the database: one write after another, rolled back when one throws.
module BookingDatabase {
  import opened Wrappers
  import opened BookingTables

  class Database {
    var bookings: map<Id, Booking>
    var disputes: map<Id, Dispute>
    var addOns: seq<AddOn>
    var visits: seq<Visit>
    var cancellations: map<Id, string>
    var activeJobs: map<Id, int>

    function Contents(): Tables
      reads this
    {
      Tables(bookings, disputes, addOns, visits, cancellations, activeJobs)
    }

    constructor (tables: Tables)
      ensures Contents() == tables
    {
      bookings, disputes, addOns := tables.bookings, tables.disputes, tables.addOns;
      visits, cancellations, activeJobs := tables.visits, tables.cancellations, tables.activeJobs;
    }

    method Rollback(tables: Tables)
      modifies this
      ensures Contents() == tables
    {
      bookings, disputes, addOns := tables.bookings, tables.disputes, tables.addOns;
      visits, cancellations, activeJobs := tables.visits, tables.cancellations, tables.activeJobs;
    }

    // updateBookingIfStatus: the write happens only while the row still has the status that was read.
    method UpdateBookingIfStatus(b: Id, expected: Status, row: Booking) returns (count: nat)
      modifies this`bookings
      ensures count == if StatusStill(old(Contents()), b, expected) then 1 else 0
      ensures bookings == if count == 1 then old(bookings)[b := row] else old(bookings)
    {
      count := 0;
      if b in bookings && bookings[b].status == expected {
        bookings := bookings[b := row];
        count := 1;
      }
    }

    method DecrementActiveJobs(w: Id) returns (found: bool)
      modifies this`activeJobs
      ensures found <==> w in old(activeJobs)
      ensures activeJobs == if found then old(activeJobs)[w := old(activeJobs)[w] - 1] else old(activeJobs)
    {
      found := w in activeJobs;
      if found { activeJobs := activeJobs[w := activeJobs[w] - 1]; }
    }

    method ClaimDispute(id: Id, status: DisputeStatus) returns (count: nat)
      modifies this`disputes
      ensures count == if DisputeOpen(old(Contents()), id) then 1 else 0
      ensures disputes == if count == 1 then old(disputes)[id := old(disputes)[id].(status := status)] else old(disputes)
    {
      count := 0;
      if id in disputes && IsOpen(disputes[id].status) {
        disputes := disputes[id := disputes[id].(status := status)];
        count := 1;
      }
    }

    method InvoiceTransaction(d: Decision) returns (r: Result<(), Failure>)
      requires d.request.Resolve? && !d.request.action.CancelDisputed?
      modifies this
      ensures CommitInvoice(old(Contents()), d) == if r.Ok? then Ok(Contents()) else Err(r.error)
      ensures r.Err? ==> Contents() == old(Contents())
    {
      var before := Contents();
      var action, admin, b := d.request.action, d.request.admin, d.booking;
      if action.RemoveInvoiceExtras? { addOns := RejectExtras(addOns, b); }
      var subtotal := d.seen.base + Billed(addOns, b);
      var row := if b in bookings
        then bookings[b].(status := PendingCompletion, finalPrice := Some(subtotal), resolvedBy := Some(admin))
        else d.seen;
      var count := UpdateBookingIfStatus(b, Disputed, row);
      if count == 0 { Rollback(before); return Err(Conflict); }
      var claimed := ClaimDispute(d.request.dispute, ResolvedStatus(action));
      if claimed == 0 { Rollback(before); return Err(Conflict); }
      r := Ok(());
    }

    method CancelByResolution(d: Decision) returns (r: Result<(), Failure>)
      requires d.request.Resolve? && d.request.action.CancelDisputed?
      modifies this
      ensures CommitCancel(old(Contents()), d) == if r.Ok? then Ok(Contents()) else Err(r.error)
      ensures r.Err? ==> Contents() == old(Contents())
    {
      var before := Contents();
      var b, keeps := d.booking, d.seen.status.Completed?;
      if !keeps && d.seen.worker.Some? && !d.seen.invoiced {
        var found := DecrementActiveJobs(d.seen.worker.value);
        if !found { return Err(NoSuchWorker); }
      }
      if !keeps { visits := CancelScheduled(visits, b); }
      var row := if b in bookings
        then bookings[b].(status := if keeps then bookings[b].status else Cancelled,
                          resolvedBy := Some(d.request.admin))
        else d.seen;
      var count := UpdateBookingIfStatus(b, d.seen.status, row);
      if count == 0 { Rollback(before); return Err(Conflict); }
      if !keeps {
        if b in cancellations { Rollback(before); return Err(DuplicateCancellation); }
        cancellations := cancellations[b := OrElse(d.request.note, "Cancelled via dispute resolution")];
      }
      var claimed := ClaimDispute(d.request.dispute, ResolvedCancelled);
      if claimed == 0 { Rollback(before); return Err(Conflict); }
      r := Ok(());
    }

    method ResolveTransaction(d: Decision) returns (r: Result<(), Failure>)
      requires d.request.Resolve?
      modifies this
      ensures Commit(old(Contents()), d) == if r.Ok? then Ok(Contents()) else Err(r.error)
      ensures r.Err? ==> Contents() == old(Contents())
    {
      if d.request.action.CancelDisputed? {
        r := CancelByResolution(d);
      } else {
        r := InvoiceTransaction(d);
      }
    }

    method CancelTransaction(d: Decision) returns (r: Result<(), Failure>)
      requires d.request.AdminCancel?
      modifies this
      ensures CommitAdminCancel(old(Contents()), d) == if r.Ok? then Ok(Contents()) else Err(r.error)
      ensures r.Err? ==> Contents() == old(Contents())
    {
      hide CancelScheduled, DismissOpen;
      var before := Contents();
      var b, reason := d.request.booking, d.request.reason;
      if HoldsSlot(d.seen.status) && d.seen.worker.Some? {
        var found := DecrementActiveJobs(d.seen.worker.value);
        if !found { return Err(NoSuchWorker); }
      }
      visits := CancelScheduled(visits, b);
      disputes := DismissOpen(disputes, b);
      if b in cancellations { Rollback(before); return Err(DuplicateCancellation); }
      cancellations := cancellations[b := OrElse(reason, "Cancelled by admin")];
      var row := if b in bookings
        then bookings[b].(status := Cancelled, notes := if reason != "" then Some(reason) else d.seen.notes)
        else d.seen;
      var count := UpdateBookingIfStatus(b, d.seen.status, row);
      if count == 0 { Rollback(before); return Err(Conflict); }
      r := Ok(());
    }

    // The review page: a read, then a write that does not look again.
    method ReviewDispute(id: Id, readStatus: DisputeStatus)
      modifies this`disputes
      ensures Contents() == if readStatus.Open? then Other(old(Contents()), MarkUnderReview(id)) else old(Contents())
    {
      if readStatus.Open? && id in disputes {
        disputes := disputes[id := disputes[id].(status := UnderReview)];
      }
    }
  }
}
