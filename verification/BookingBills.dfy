// What the writes come to: what each booking is billed, what becomes of its visits, and how a resolution ends.
module BookingBills {
  import opened Wrappers
  import opened BookingTables
  import opened BookingRuns

  // The approved add-ons of a booking: what removing invoice extras keeps, and what it takes away.

  function KeptPrices(addOns: seq<AddOn>, b: Id): int {
    if addOns == [] then 0
    else (if addOns[0].booking == b && addOns[0].approved && addOns[0].kind.Service? then addOns[0].price else 0)
         + KeptPrices(addOns[1..], b)
  }

  function ExtraPrices(addOns: seq<AddOn>, b: Id): int {
    if addOns == [] then 0
    else (if addOns[0].booking == b && addOns[0].approved && !addOns[0].kind.Service? then addOns[0].price else 0)
         + ExtraPrices(addOns[1..], b)
  }

  function ItemPrices(items: seq<(AddOnKind, int)>): int {
    if items == [] then 0 else items[0].1 + ItemPrices(items[1..])
  }

  // The base price and every approved add-on of whatever kind.
  function Owed(db: Tables, b: Id): int
    requires b in db.bookings
  {
    db.bookings[b].base + KeptPrices(db.addOns, b) + ExtraPrices(db.addOns, b)
  }

  lemma {:induction false} BilledSplits(addOns: seq<AddOn>, b: Id)
    ensures Billed(addOns, b) == KeptPrices(addOns, b) + ExtraPrices(addOns, b)
  {
    if addOns != [] { BilledSplits(addOns[1..], b); }
  }

  lemma {:induction false} ExtrasAreRejected(addOns: seq<AddOn>, b: Id, x: Id)
    ensures KeptPrices(RejectExtras(addOns, b), x) == KeptPrices(addOns, x)
    ensures ExtraPrices(RejectExtras(addOns, b), x) == if x == b then 0 else ExtraPrices(addOns, x)
  {
    if addOns != [] {
      assert RejectExtras(addOns, b)[1..] == RejectExtras(addOns[1..], b);
      ExtrasAreRejected(addOns[1..], b, x);
    }
  }

  // After removing invoice extras what is billed is what was approved apart from parts and extra work.
  lemma ExtrasAreNotBilled(addOns: seq<AddOn>, b: Id)
    ensures Billed(RejectExtras(addOns, b), b) == KeptPrices(addOns, b)
  {
    BilledSplits(RejectExtras(addOns, b), b);
    ExtrasAreRejected(addOns, b, b);
  }

  // Keeping the invoice bills everything approved, of whatever kind, and takes nothing away.
  lemma KeptInvoice(db: Tables, d: Decision)
    requires d.request.Resolve? && d.request.action.KeepInvoice? && Commit(db, d).Ok?
    ensures var after := Commit(db, d).value;
      && after.addOns == db.addOns
      && after.bookings[d.booking].finalPrice
         == Some(d.seen.base + KeptPrices(db.addOns, d.booking) + ExtraPrices(db.addOns, d.booking))
  {
    BilledSplits(db.addOns, d.booking);
  }

  // Adjusting it bills the base price and the kept add-ons, and takes the extras away from this booking alone.
  lemma AdjustedInvoice(db: Tables, d: Decision, other: Id)
    requires d.request.Resolve? && d.request.action.RemoveInvoiceExtras? && Commit(db, d).Ok? && other != d.booking
    ensures var after := Commit(db, d).value;
      && after.bookings[d.booking].finalPrice == Some(d.seen.base + KeptPrices(db.addOns, d.booking))
      && KeptPrices(after.addOns, d.booking) == KeptPrices(db.addOns, d.booking)
      && ExtraPrices(after.addOns, d.booking) == 0
      && |after.addOns| == |db.addOns|
      && (forall i | 0 <= i < |db.addOns| :: after.addOns[i] ==
            var a := db.addOns[i];
            if a.booking == d.booking && a.approved && a.kind != AddOnKind.Service then a.(approved := false, rejected := true)
            else a)
      && KeptPrices(after.addOns, other) == KeptPrices(db.addOns, other)
      && ExtraPrices(after.addOns, other) == ExtraPrices(db.addOns, other)
  {
    ExtrasAreNotBilled(db.addOns, d.booking);
    ExtrasAreRejected(db.addOns, d.booking, d.booking);
    ExtrasAreRejected(db.addOns, d.booking, other);
  }

  // A sent invoice.

  lemma {:induction false} SumsAppend(a: seq<AddOn>, c: seq<AddOn>, b: Id)
    ensures KeptPrices(a + c, b) == KeptPrices(a, b) + KeptPrices(c, b)
    ensures ExtraPrices(a + c, b) == ExtraPrices(a, b) + ExtraPrices(c, b)
  {
    if a == [] {
      assert a + c == c;
    } else {
      assert (a + c)[1..] == a[1..] + c;
      SumsAppend(a[1..], c, b);
    }
  }

  lemma {:induction false} SumsOfDecided(addOns: seq<AddOn>, decided: seq<AddOn>, b: Id)
    requires |decided| == |addOns|
    requires forall i | 0 <= i < |addOns| ::
      decided[i] == addOns[i] || (!addOns[i].approved && !decided[i].approved)
    ensures KeptPrices(decided, b) == KeptPrices(addOns, b) && ExtraPrices(decided, b) == ExtraPrices(addOns, b)
  {
    if addOns != [] { SumsOfDecided(addOns[1..], decided[1..], b); }
  }

  lemma {:induction false} SumsOfItems(items: seq<(AddOnKind, int)>, sent: seq<AddOn>, b: Id, x: Id)
    requires |sent| == |items|
    requires forall i | 0 <= i < |items| :: sent[i] == AddOn(b, items[i].0, items[i].1, true, false)
    ensures KeptPrices(sent, x) + ExtraPrices(sent, x) == if x == b then ItemPrices(items) else 0
  {
    if items != [] { SumsOfItems(items[1..], sent[1..], b, x); }
  }

  lemma SentSums(addOns: seq<AddOn>, b: Id, items: seq<(AddOnKind, int)>, x: Id)
    ensures var after := InvoicedAddOns(addOns, b, items);
      KeptPrices(after, x) + ExtraPrices(after, x)
      == KeptPrices(addOns, x) + ExtraPrices(addOns, x) + if x == b then ItemPrices(items) else 0
  {
    var after := InvoicedAddOns(addOns, b, items);
    var decided, sent := after[..|addOns|], after[|addOns|..];
    assert after == decided + sent;
    SumsAppend(decided, sent, x);
    SumsOfDecided(addOns, decided, x);
    SumsOfItems(items, sent, b, x);
  }

  predicate Sends(db: Tables, s: OtherStep) {
    && s.SendInvoice?
    && s.booking in db.bookings && s.booking in Other(db, s).bookings
    && db.bookings[s.booking].status != Other(db, s).bookings[s.booking].status
  }

  // It bills everything approved before, of whatever kind, and every item on it; it leaves nothing undecided, and
  // what other bookings owe as it was.
  lemma SentInvoice(db: Tables, s: OtherStep, other: Id)
    requires Sends(db, s) && other != s.booking && other in db.bookings
    ensures var b, after := s.booking, Other(db, s);
      && after.bookings[b].finalPrice == Some(Owed(db, b) + ItemPrices(s.items))
      && (forall a <- after.addOns :: a.booking == b ==> a.approved || a.rejected)
      && |after.addOns| == |db.addOns| + |s.items|
      && (forall i | 0 <= i < |db.addOns| && (db.addOns[i].booking != b || db.addOns[i].approved) ::
            after.addOns[i] == db.addOns[i])
      && Owed(after, b) == Owed(db, b) + ItemPrices(s.items)
      && Owed(after, other) == Owed(db, other)
  {
    SentSums(db.addOns, s.booking, s.items, s.booking);
    SentSums(db.addOns, s.booking, s.items, other);
    BilledSplits(InvoicedAddOns(db.addOns, s.booking, s.items), s.booking);
  }

  // Over whole runs an invoiced booking costs what is approved.

  ghost predicate Bills(db: Tables) {
    forall b <- db.bookings :: db.bookings[b].invoiced ==> db.bookings[b].finalPrice == Some(Owed(db, b))
  }

  lemma CommitKeepsBills(db: Tables, d: Decision)
    requires Fresh(db, d) && Bills(db) && Commit(db, d).Ok?
    ensures Bills(Commit(db, d).value)
  {
    var after := Commit(db, d).value;
    forall b | b in after.bookings
      ensures b in db.bookings && (after.bookings[b].invoiced ==> after.bookings[b].finalPrice == Some(Owed(after, b)))
    {
      if d.request.Resolve? && d.request.action.RemoveInvoiceExtras? {
        ExtrasAreRejected(db.addOns, d.booking, b);
        ExtrasAreNotBilled(db.addOns, d.booking);
      } else {
        BilledSplits(db.addOns, b);
      }
    }
  }

  lemma OtherKeepsBills(db: Tables, s: OtherStep)
    requires Bills(db)
    ensures Bills(Other(db, s))
  {
    OtherWritesOneRow(db, s);
    var after := Other(db, s);
    forall b | b in after.bookings
      ensures b in db.bookings && (after.bookings[b].invoiced ==> after.bookings[b].finalPrice == Some(Owed(after, b)))
    {
      if s.SendInvoice? {
        SentSums(db.addOns, s.booking, s.items, b);
        BilledSplits(InvoicedAddOns(db.addOns, s.booking, s.items), s.booking);
      }
    }
  }

  lemma {:induction false} RunKeepsBills(w: World, events: seq<Event>)
    requires AllFresh(w) && Bills(w.db)
    ensures Bills(Run(w, events).db)
    decreases |events|
  {
    if events != [] {
      var e := events[0];
      StepKeepsFresh(w, e);
      if Commits(w, e) { CommitKeepsBills(w.db, w.waiting[e.slot]); }
      if e.Elsewhere? { OtherKeepsBills(w.db, e.step); }
      RunKeepsBills(Step(w, e), events[1..]);
    }
  }

  // Visits.

  predicate Becomes(before: Tables, after: Tables, b: Id, s: Status) {
    && b in before.bookings && before.bookings[b].status != s
    && b in after.bookings && after.bookings[b].status == s
  }

  function VisitAfter(before: Tables, after: Tables, v: Visit, billed: bool): Visit {
    if !v.status.Scheduled? then v
    else if Becomes(before, after, v.booking, Cancelled) then Visit(v.booking, VisitCancelled)
    else if billed && Becomes(before, after, v.booking, PendingCompletion) then Visit(v.booking, VisitDone)
    else v
  }

  lemma CommitMovesVisits(db: Tables, d: Decision, i: nat)
    requires Fresh(db, d) && Commit(db, d).Ok? && i < |db.visits|
    ensures var after := Commit(db, d).value;
      |after.visits| == |db.visits| && after.visits[i] == VisitAfter(db, after, db.visits[i], false)
  {
    hide RejectExtras, Billed, DismissOpen;
    match d.request
    case Resolve(_, action, _, _) => if action.CancelDisputed? {}
    case AdminCancel(_, _, _) =>
    case Archive(_, _) =>
  }

  lemma OtherMovesVisits(db: Tables, s: OtherStep, i: nat)
    requires i < |db.visits|
    ensures var after := Other(db, s);
      |after.visits| == |db.visits| && after.visits[i] == VisitAfter(db, after, db.visits[i], s.SendInvoice?)
  {
    hide InvoicedAddOns, Billed;
    OtherWritesOneRow(db, s);
    if OnlyDisputes(s) { DisputeStepsKeepRows(db, s); }
  }

  // A visit leaves Scheduled exactly with its own booking: for cancelled in the step that cancels the booking, for
  // done in the step that bills it; any other visit stays as it is, place and all.
  lemma VisitsFollowBookings(w: World, e: Event, i: nat)
    requires AllFresh(w) && i < |w.db.visits|
    ensures var db := Step(w, e).db;
      && |db.visits| == |w.db.visits|
      && db.visits[i] == VisitAfter(w.db, db, w.db.visits[i], e.Elsewhere? && e.step.SendInvoice?)
  {
    hide Commit, Other, Decide, Fresh;
    if Commits(w, e) { CommitMovesVisits(w.db, w.waiting[e.slot], i); }
    if e.Elsewhere? { OtherMovesVisits(w.db, e.step, i); }
  }
}
