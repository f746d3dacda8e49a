// The rows that booking administration reads and writes, and what each request decides and commits.
// A request first reads its booking and decides (Decide); later one transaction writes (Commit), guarded
// by a conditional update on the status that was read.
module BookingTables {
  import opened Wrappers

  type Id = string

  datatype Status =
    | Pending | Accepted | Rejected | InProgress | QuoteSubmitted | QuoteApproved
    | Disputed | PendingCompletion | AwaitingPayment | Completed | Cancelled

  // invoiced stands for workerCompletedAt != null; amounts are whole centavos.
  datatype Booking = Booking(
    status: Status,
    worker: Option<Id>,
    invoiced: bool,
    base: int,
    finalPrice: Option<int>,
    notes: Option<string>,
    resolvedBy: Option<Id>,
    archived: bool)

  datatype DisputeStatus =
    | Open | UnderReview
    | InvoiceKept | InvoiceAdjusted | ResolvedCancelled
    | Dismissed | Paid | WorkerProtected | PlatformPaid

  datatype Dispute = Dispute(booking: Id, status: DisputeStatus)

  datatype AddOnKind = Service | Part | ExtraWork

  datatype AddOn = AddOn(booking: Id, kind: AddOnKind, price: int, approved: bool, rejected: bool)

  datatype VisitStatus = Scheduled | VisitDone | VisitCancelled

  datatype Visit = Visit(booking: Id, status: VisitStatus)

  // Cancellation rows are keyed by booking: the schema declares that column unique.
  datatype Tables = Tables(
    bookings: map<Id, Booking>,
    disputes: map<Id, Dispute>,
    addOns: seq<AddOn>,
    visits: seq<Visit>,
    cancellations: map<Id, string>,
    activeJobs: map<Id, int>)

  datatype ResolveAction = KeepInvoice | RemoveInvoiceExtras | CancelDisputed

  datatype Request =
    | Resolve(dispute: Id, action: ResolveAction, admin: Id, note: string)
    | AdminCancel(booking: Id, admin: Id, reason: string)
    | Archive(booking: Id, archived: bool)

  // What a request carries from its read to its transaction: the booking row it saw.
  datatype Decision = Decision(request: Request, booking: Id, seen: Booking)

  datatype Failure =
    | NotFound | AlreadyResolved | NotDisputed | NoInvoice | WrongStatus
    | Conflict | DuplicateCancellation | NoSuchWorker

  predicate IsOpen(s: DisputeStatus) {
    s.Open? || s.UnderReview?
  }

  predicate Terminal(s: Status) {
    s.Completed? || s.Cancelled? || s.Rejected?
  }

  predicate ResolveCancels(s: Status) {
    s in {Status.Accepted, InProgress, Disputed, PendingCompletion, AwaitingPayment, Completed}
  }

  // Statuses for which the admin cancel gives the worker a job slot back.
  predicate HoldsSlot(s: Status) {
    s in {Status.Accepted, InProgress, QuoteSubmitted, QuoteApproved, Disputed}
  }

  function ResolvedStatus(a: ResolveAction): DisputeStatus {
    match a
    case KeepInvoice => InvoiceKept
    case RemoveInvoiceExtras => InvoiceAdjusted
    case CancelDisputed => ResolvedCancelled
  }

  predicate DisputeOpen(db: Tables, d: Id) {
    d in db.disputes && IsOpen(db.disputes[d].status)
  }

  // updateMany on a booking's rows.

  function CancelScheduled(visits: seq<Visit>, b: Id): seq<Visit> {
    seq(|visits|, i requires 0 <= i < |visits| =>
      if visits[i] == Visit(b, Scheduled) then Visit(b, VisitCancelled) else visits[i])
  }

  predicate BilledExtra(a: AddOn, b: Id) {
    a.booking == b && a.approved && (a.kind.Part? || a.kind.ExtraWork?)
  }

  function RejectExtras(addOns: seq<AddOn>, b: Id): seq<AddOn> {
    seq(|addOns|, i requires 0 <= i < |addOns| =>
      if BilledExtra(addOns[i], b) then addOns[i].(approved := false, rejected := true) else addOns[i])
  }

  function Billed(addOns: seq<AddOn>, b: Id): int {
    if addOns == [] then 0
    else (if addOns[0].booking == b && addOns[0].approved then addOns[0].price else 0) + Billed(addOns[1..], b)
  }

  function DismissOpen(disputes: map<Id, Dispute>, b: Id): map<Id, Dispute> {
    map d | d in disputes ::
      if disputes[d].booking == b && IsOpen(disputes[d].status) then Dispute(b, Dismissed) else disputes[d]
  }

  // The read half of a request.

  function Decide(db: Tables, r: Request): Result<Decision, Failure> {
    match r
    case Resolve(d, action, _, _) =>
      if d !in db.disputes || db.disputes[d].booking !in db.bookings then Err(NotFound)
      else if !IsOpen(db.disputes[d].status) then Err(AlreadyResolved)
      else
        var b := db.disputes[d].booking;
        var row := db.bookings[b];
        if !action.CancelDisputed? && row.status != Disputed then Err(NotDisputed)
        else if !action.CancelDisputed? && !row.invoiced then Err(NoInvoice)
        else if action.CancelDisputed? && !ResolveCancels(row.status) then Err(WrongStatus)
        else Ok(Decision(r, b, row))
    case AdminCancel(b, _, _) =>
      if b !in db.bookings then Err(NotFound)
      else if Terminal(db.bookings[b].status) then Err(WrongStatus)
      else Ok(Decision(r, b, db.bookings[b]))
    case Archive(b, archived) =>
      if b !in db.bookings then Err(NotFound)
      else if archived && !Terminal(db.bookings[b].status) then Err(WrongStatus)
      else Ok(Decision(r, b, db.bookings[b]))
  }

  // The write half: either every write happens or none does.

  predicate StatusStill(db: Tables, b: Id, s: Status) {
    b in db.bookings && db.bookings[b].status == s
  }

  function CommitInvoice(db: Tables, d: Decision): Result<Tables, Failure>
    requires d.request.Resolve? && !d.request.action.CancelDisputed?
  {
    var Resolve(id, action, admin, _) := d.request;
    if !StatusStill(db, d.booking, Disputed) || !DisputeOpen(db, id) then Err(Conflict)
    else
      var addOns := if action.RemoveInvoiceExtras? then RejectExtras(db.addOns, d.booking) else db.addOns;
      var row := db.bookings[d.booking].(
        status := PendingCompletion,
        finalPrice := Some(d.seen.base + Billed(addOns, d.booking)),
        resolvedBy := Some(admin));
      Ok(db.(
        addOns := addOns,
        bookings := db.bookings[d.booking := row],
        disputes := db.disputes[id := db.disputes[id].(status := ResolvedStatus(action))]))
  }

  // Notes and reasons arrive trimmed; an absent one is the empty string.
  function OrElse(text: string, fallback: string): string {
    if text != "" then text else fallback
  }

  // Whether a cancelling resolution gives the worker's slot back.
  predicate ResolveReleases(seen: Booking) {
    !seen.status.Completed? && seen.worker.Some? && !seen.invoiced
  }

  predicate AdminReleases(seen: Booking) {
    HoldsSlot(seen.status) && seen.worker.Some?
  }

  function Release(activeJobs: map<Id, int>, seen: Booking, releases: bool): map<Id, int>
    requires releases ==> seen.worker.Some? && seen.worker.value in activeJobs
  {
    if releases then activeJobs[seen.worker.value := activeJobs[seen.worker.value] - 1] else activeJobs
  }

  function CommitCancel(db: Tables, d: Decision): Result<Tables, Failure>
    requires d.request.Resolve? && d.request.action.CancelDisputed?
  {
    var Resolve(id, action, admin, note) := d.request;
    var keeps := d.seen.status.Completed?;
    if ResolveReleases(d.seen) && d.seen.worker.value !in db.activeJobs then Err(NoSuchWorker)
    else if !StatusStill(db, d.booking, d.seen.status) then Err(Conflict)
    else if !keeps && d.booking in db.cancellations then Err(DuplicateCancellation)
    else if !DisputeOpen(db, id) then Err(Conflict)
    else
      var row := db.bookings[d.booking].(
        status := if keeps then Completed else Cancelled,
        resolvedBy := Some(admin));
      Ok(db.(
        activeJobs := Release(db.activeJobs, d.seen, ResolveReleases(d.seen)),
        visits := if keeps then db.visits else CancelScheduled(db.visits, d.booking),
        bookings := db.bookings[d.booking := row],
        cancellations := if keeps then db.cancellations
                         else db.cancellations[d.booking := OrElse(note, "Cancelled via dispute resolution")],
        disputes := db.disputes[id := db.disputes[id].(status := ResolvedStatus(action))]))
  }

  function CommitAdminCancel(db: Tables, d: Decision): Result<Tables, Failure>
    requires d.request.AdminCancel?
  {
    var AdminCancel(b, admin, reason) := d.request;
    if AdminReleases(d.seen) && d.seen.worker.value !in db.activeJobs then Err(NoSuchWorker)
    else if b in db.cancellations then Err(DuplicateCancellation)
    else if !StatusStill(db, b, d.seen.status) then Err(Conflict)
    else
      var row := db.bookings[b].(
        status := Cancelled,
        notes := if reason != "" then Some(reason) else d.seen.notes);
      Ok(db.(
        activeJobs := Release(db.activeJobs, d.seen, AdminReleases(d.seen)),
        visits := CancelScheduled(db.visits, b),
        disputes := DismissOpen(db.disputes, b),
        cancellations := db.cancellations[b := OrElse(reason, "Cancelled by admin")],
        bookings := db.bookings[b := row]))
  }

  // Archiving writes without looking at the status again.
  function CommitArchive(db: Tables, d: Decision): Result<Tables, Failure>
    requires d.request.Archive?
  {
    var Archive(b, archived) := d.request;
    if b !in db.bookings then Err(NotFound)
    else Ok(db.(bookings := db.bookings[b := db.bookings[b].(archived := archived)]))
  }

  function Commit(db: Tables, d: Decision): Result<Tables, Failure> {
    match d.request
    case Resolve(_, action, _, _) => if action.CancelDisputed? then CommitCancel(db, d) else CommitInvoice(db, d)
    case AdminCancel(_, _, _) => CommitAdminCancel(db, d)
    case Archive(_, _) => CommitArchive(db, d)
  }

  // The request as one indivisible step: read and write fused.
  function Fused(db: Tables, r: Request): Result<Tables, Failure> {
    match Decide(db, r)
    case Err(e) => Err(e)
    case Ok(d) => Commit(db, d)
  }

  // Others who write these rows while admins deliberate. Each is one transaction of its own.
  datatype OtherStep =
    | Rematch(booking: Id, newWorker: Option<Id>)
    | AcceptJob(booking: Id)
    | DeclineJob(booking: Id)
    | StartJob(booking: Id)
    | SendInvoice(booking: Id, items: seq<(AddOnKind, int)>)
    | AskForPayment(booking: Id)
    | ReportInvoice(booking: Id, newDispute: Id)
    | OpenProblem(booking: Id, newDispute: Id)
    | RaiseDispute(booking: Id, newDispute: Id)
    | SettlePayment(booking: Id)
    | MarkUnderReview(dispute: Id)
    | OverwriteDispute(dispute: Id, outcome: DisputeStatus)

  function WithStatus(db: Tables, b: Id, s: Status): Tables
    requires b in db.bookings
  {
    db.(bookings := db.bookings[b := db.bookings[b].(status := s)])
  }

  function InvoicedAddOns(addOns: seq<AddOn>, b: Id, items: seq<(AddOnKind, int)>): seq<AddOn> {
    seq(|addOns|, i requires 0 <= i < |addOns| =>
      if addOns[i].booking == b && !addOns[i].approved && !addOns[i].rejected then addOns[i].(rejected := true)
      else addOns[i])
    + seq(|items|, i requires 0 <= i < |items| => AddOn(b, items[i].0, items[i].1, true, false))
  }

  function VisitsDone(visits: seq<Visit>, b: Id): seq<Visit> {
    seq(|visits|, i requires 0 <= i < |visits| =>
      if visits[i] == Visit(b, Scheduled) then Visit(b, VisitDone) else visits[i])
  }

  predicate HasOpenDispute(db: Tables, b: Id) {
    exists d | d in db.disputes :: db.disputes[d].booking == b && IsOpen(db.disputes[d].status)
  }

  function OpenOrJoin(db: Tables, b: Id, newDispute: Id): Tables {
    if HasOpenDispute(db, b) || newDispute in db.disputes then db
    else db.(disputes := db.disputes[newDispute := Dispute(b, Open)])
  }

  // An overdue payment or a refund request: the look for an open dispute is an earlier read, and the status
  // is not looked at.
  function Raised(db: Tables, b: Id, newDispute: Id): Tables {
    if b !in db.bookings || newDispute in db.disputes then db
    else db.(disputes := db.disputes[newDispute := Dispute(b, Open)])
  }

  function Accepted(db: Tables, b: Id): Tables {
    if StatusStill(db, b, Pending) && db.bookings[b].worker.Some? && db.bookings[b].worker.value in db.activeJobs then
      var w := db.bookings[b].worker.value;
      WithStatus(db, b, Status.Accepted).(activeJobs := db.activeJobs[w := db.activeJobs[w] + 1])
    else db
  }

  // The state machine lets a worker send an invoice for a disputed job as well as for one in progress.
  function Invoiced(db: Tables, b: Id, items: seq<(AddOnKind, int)>): Tables {
    if (StatusStill(db, b, InProgress) || StatusStill(db, b, Disputed))
       && db.bookings[b].worker.Some? && db.bookings[b].worker.value in db.activeJobs then
      var w := db.bookings[b].worker.value;
      var addOns := InvoicedAddOns(db.addOns, b, items);
      var row := db.bookings[b].(
        status := PendingCompletion, invoiced := true,
        finalPrice := Some(db.bookings[b].base + Billed(addOns, b)));
      db.(addOns := addOns,
          bookings := db.bookings[b := row],
          visits := VisitsDone(db.visits, b),
          activeJobs := db.activeJobs[w := db.activeJobs[w] - 1])
    else db
  }

  function Reported(db: Tables, b: Id, newDispute: Id): Tables {
    if StatusStill(db, b, PendingCompletion) || StatusStill(db, b, AwaitingPayment)
    then OpenOrJoin(WithStatus(db, b, Disputed), b, newDispute) else db
  }

  // The booking's open disputes over an overdue payment are closed with it: each is an OverwriteDispute to follow.
  function Settled(db: Tables, b: Id): Tables {
    if StatusStill(db, b, PendingCompletion) || StatusStill(db, b, AwaitingPayment) || StatusStill(db, b, Disputed)
    then WithStatus(db, b, Completed) else db
  }

  // The two dispute writes that look at nothing.
  function Overwritten(db: Tables, d: Id, s: DisputeStatus): Tables {
    if d in db.disputes then db.(disputes := db.disputes[d := db.disputes[d].(status := s)]) else db
  }

  function Moved(db: Tables, b: Id, from: Status, to: Status): Tables {
    if StatusStill(db, b, from) then WithStatus(db, b, to) else db
  }

  function Other(db: Tables, s: OtherStep): Tables {
    match s
    case MarkUnderReview(d) => Overwritten(db, d, UnderReview)
    case OverwriteDispute(d, outcome) => if IsOpen(outcome) then db else Overwritten(db, d, outcome)
    case Rematch(b, w) =>
      if StatusStill(db, b, Pending) then db.(bookings := db.bookings[b := db.bookings[b].(worker := w)]) else db
    case AcceptJob(b) => Accepted(db, b)
    case DeclineJob(b) => Moved(db, b, Pending, Rejected)
    case StartJob(b) => Moved(db, b, Status.Accepted, InProgress)
    case SendInvoice(b, items) => Invoiced(db, b, items)
    case AskForPayment(b) => Moved(db, b, PendingCompletion, AwaitingPayment)
    case ReportInvoice(b, d) => Reported(db, b, d)
    case OpenProblem(b, d) =>
      if StatusStill(db, b, Status.Accepted) || StatusStill(db, b, InProgress) then OpenOrJoin(db, b, d) else db
    case RaiseDispute(b, d) => Raised(db, b, d)
    case SettlePayment(b) => Settled(db, b)
  }
}
