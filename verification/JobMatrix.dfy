// Applying a job matrix to a category and restoring the category from the backup taken before.
module JobMatrix {
  import opened Catalog
  import opened Wrappers

  // A worker's selection of a job.
  datatype Pick = Pick(worker: string, job: string)

  // The rows the script touches: selections with their active flag, the workers there are,
  // and which of them are verified in which category.
  datatype State = State(
    categories: map<string, Category>,
    jobs: map<string, Job>,
    selections: map<Pick, bool>,
    workers: set<string>,
    verified: set<(string, string)>)

  // What the database's foreign and unique keys keep.
  predicate Keyed(s: State) {
    && "" !in s.jobs
    && (forall c, d | c in s.categories && d in s.categories && c != d :: s.categories[c].name != s.categories[d].name)
    && (forall p | p in s.selections :: p.job in s.jobs && p.worker in s.workers)
    && (forall v | v in s.verified :: v.0 in s.workers)
  }

  // A backup: the category's row, its jobs in the order read, and the selections of those jobs.
  datatype Snapshot = Snapshot(
    id: string,
    category: Category,
    order: seq<string>,
    jobs: map<string, Job>,
    selections: map<Pick, bool>)

  ghost predicate SnapshotOf(b: Snapshot, s: State) {
    && b.id in s.categories && b.category == s.categories[b.id]
    && b.jobs == (map j | j in s.jobs && s.jobs[j].category == b.id :: s.jobs[j])
    && b.selections == (map p | p in s.selections && p.job in b.jobs :: s.selections[p])
    && WellOrdered(b)
  }

  // The jobs are listed once each, and selections are of listed jobs.
  ghost predicate WellOrdered(b: Snapshot) {
    && (forall j :: j in b.jobs <==> j in b.order)
    && Distinct(b.order)
    && (forall p | p in b.selections :: p.job in b.jobs)
  }

  // What restoring writes over a row.

  function RestoredCategory(row: Category, was: Category): Category {
    row.(name := was.name, description := was.description, basePrice := was.basePrice, icon := was.icon,
         requiresCertification := was.requiresCertification)
  }

  function RestoredJob(row: Job, was: Job): Job {
    row.(name := was.name, description := was.description, basePrice := was.basePrice, pricing := was.pricing,
         minPrice := was.minPrice, maxPrice := was.maxPrice, unitLabel := was.unitLabel,
         minQuantity := was.minQuantity, maxQuantity := was.maxQuantity, durationHours := was.durationHours,
         isActive := was.isActive, sortOrder := was.sortOrder)
  }

  // A job of the category that the backup does not have.
  predicate Added(s: State, b: Snapshot, j: string) {
    j in s.jobs && s.jobs[j].category == b.id && j !in b.jobs
  }

  // The state after a restore that goes through.
  function Restored(s: State, b: Snapshot): State
    requires b.id in s.categories
  {
    s.(categories := s.categories[b.id := RestoredCategory(s.categories[b.id], b.category)],
       jobs := map j | j in s.jobs :: if j in b.jobs then RestoredJob(s.jobs[j], b.jobs[j])
                                      else if s.jobs[j].category == b.id then s.jobs[j].(isActive := false)
                                      else s.jobs[j],
       selections := (map p | p in s.selections && p.job !in b.jobs :: s.selections[p] && !Added(s, b, p.job))
                   + (map p | p in b.selections && p.worker in s.workers :: b.selections[p]))
  }

  // The restore goes through exactly when its category and jobs are still there and the name is not another's.
  predicate Restorable(s: State, b: Snapshot) {
    && b.id in s.categories
    && (forall c | c in s.categories && c != b.id :: s.categories[c].name != b.category.name)
    && (forall j | j in b.jobs :: j in s.jobs)
  }

  // What a category's rows show of each other once restored.
  ghost predicate BroughtBack(s: State, b: Snapshot) {
    && b.id in s.categories && RestoredCategory(s.categories[b.id], b.category) == s.categories[b.id]
    && (forall j | j in b.jobs :: j in s.jobs && RestoredJob(s.jobs[j], b.jobs[j]) == s.jobs[j])
    && (forall p: Pick | p.job in b.jobs :: p in s.selections <==> p in b.selections && p.worker in s.workers)
    && (forall p | p in s.selections && p.job in b.jobs :: s.selections[p] == b.selections[p])
    && (forall j | Added(s, b, j) :: !s.jobs[j].isActive)
    && (forall p | p in s.selections && Added(s, b, p.job) :: !s.selections[p])
  }

  // Nothing of another category differs.
  ghost predicate OthersSame(s: State, t: State, id: string) {
    && (forall c | c != id :: c in s.categories <==> c in t.categories)
    && (forall c | c in s.categories && c != id :: t.categories[c] == s.categories[c])
    && s.jobs.Keys == t.jobs.Keys && s.workers == t.workers && s.verified == t.verified
    && (forall j | j in s.jobs && s.jobs[j].category != id :: t.jobs[j] == s.jobs[j])
    && (forall p: Pick | p.job in s.jobs && s.jobs[p.job].category != id :: p in s.selections <==> p in t.selections)
    && (forall p | p in s.selections && p.job in s.jobs && s.jobs[p.job].category != id :: t.selections[p] == s.selections[p])
  }

  predicate SameCategories(s: State, b: Snapshot) {
    forall j | j in b.jobs && j in s.jobs :: s.jobs[j].category == b.id && b.jobs[j].category == b.id
  }

  // From any state where the restore goes through, everything the backup lists is brought back,
  // added jobs and their selections are off, and other categories are as they were.
  lemma RestoreBringsBack(s: State, b: Snapshot)
    requires WellOrdered(b) && Restorable(s, b) && SameCategories(s, b)
    ensures BroughtBack(Restored(s, b), b) && OthersSame(s, Restored(s, b), b.id)
  {
    var r := Restored(s, b);
    forall j ensures Added(r, b, j) <==> Added(s, b, j) {}
    ListedSelections(s, b);
    OtherSelections(s, b);
  }

  lemma ListedSelections(s: State, b: Snapshot)
    requires WellOrdered(b) && Restorable(s, b)
    ensures var r := Restored(s, b);
      && (forall p: Pick | p.job in b.jobs :: p in r.selections <==> p in b.selections && p.worker in s.workers)
      && (forall p | p in r.selections && p.job in b.jobs :: r.selections[p] == b.selections[p])
  {
  }

  lemma OtherSelections(s: State, b: Snapshot)
    requires WellOrdered(b) && Restorable(s, b)
    ensures var r := Restored(s, b);
      && (forall p: Pick | p.job !in b.jobs :: p in r.selections <==> p in s.selections)
      && (forall p | p in r.selections && p.job !in b.jobs :: r.selections[p] == (s.selections[p] && !Added(s, b, p.job)))
  {
  }

  // The restored rows still fit the database's keys, and restoring again changes nothing.
  lemma RestoreIsIdempotent(s: State, b: Snapshot)
    requires Keyed(s) && WellOrdered(b) && Restorable(s, b) && SameCategories(s, b)
    ensures Keyed(Restored(s, b)) && Restorable(Restored(s, b), b)
    ensures Restored(Restored(s, b), b) == Restored(s, b)
  {
    RestoredIsKeyed(s, b);
    JobsStay(s, b);
    SelectionsStay(s, b);
  }

  lemma JobsStay(s: State, b: Snapshot)
    requires WellOrdered(b) && Restorable(s, b)
    ensures Restored(Restored(s, b), b).jobs == Restored(s, b).jobs
  {
  }

  lemma SelectionsStay(s: State, b: Snapshot)
    requires WellOrdered(b) && Restorable(s, b) && Restorable(Restored(s, b), b)
    ensures Restored(Restored(s, b), b).selections == Restored(s, b).selections
  {
    var r := Restored(s, b);
    var again := Restored(r, b);
    hide Restored, Added, Restorable;
    forall p: Pick ensures p in again.selections <==> p in r.selections { SelectionStays(s, b, p); }
    forall p: Pick | p in r.selections ensures again.selections[p] == r.selections[p] { SelectionStays(s, b, p); }
  }

  lemma SelectionStays(s: State, b: Snapshot, p: Pick)
    requires WellOrdered(b) && Restorable(s, b) && Restorable(Restored(s, b), b)
    ensures var r := Restored(s, b); var again := Restored(r, b);
      (p in again.selections <==> p in r.selections) && (p in r.selections ==> again.selections[p] == r.selections[p])
  {
    var r := Restored(s, b);
    assert Added(r, b, p.job) == Added(s, b, p.job);
    if p.job in b.jobs {
      ListedSelections(s, b);
      ListedSelections(r, b);
    } else {
      OtherSelections(s, b);
      OtherSelections(r, b);
    }
  }

  lemma RestoredIsKeyed(s: State, b: Snapshot)
    requires Keyed(s) && WellOrdered(b) && Restorable(s, b) && SameCategories(s, b)
    ensures Keyed(Restored(s, b)) && Restorable(Restored(s, b), b)
  {
    ListedSelections(s, b);
    OtherSelections(s, b);
  }

  // Applying.

  // The state after writeCatalog has written a list of jobs over a category and workers were signed up for
  // some of them: no selection is lost, and none changes but for a written job.
  ghost predicate Applied(s: State, t: State, id: string, body: CatalogBody, tasks: seq<JobInput>, ids: seq<string>)
    requires id in s.categories && body.name.Some? && body.basePrice.Of? && |tasks| <= |ids| && Checked(tasks, s.jobs)
  {
    && t.categories == s.categories[id := HeadFields(body, s.categories[id])]
    && Wrote(s.jobs, t.jobs, Targets(tasks, ids), Rows(s.jobs, id, tasks))
    && t.workers == s.workers && t.verified == s.verified
    && (forall p | p in s.selections :: p in t.selections)
    && (forall p | p in t.selections && !(p in s.selections && t.selections[p] == s.selections[p]) ::
          p.job in Targets(tasks, ids))
  }

  // Applied to a category as its backup shows it, from a list that was checked against it.
  ghost predicate AppliedFrom(s: State, t: State, b: Snapshot, body: CatalogBody, tasks: seq<JobInput>, ids: seq<string>) {
    && SnapshotOf(b, s) && body.name.Some? && body.basePrice.Of? && |tasks| <= |ids|
    && Accepted(tasks, JobsOf(s.jobs, b.id)) && FreshIds(s.jobs, ids) && Checked(tasks, s.jobs)
    && Applied(s, t, b.id, body, tasks, ids)
  }

  // The rows of s are there again, and rows that are new are switched off and of the category.
  ghost predicate Undone(s: State, r: State, id: string) {
    && r.categories == s.categories
    && (forall j | j in s.jobs :: j in r.jobs && r.jobs[j] == s.jobs[j])
    && (forall j | j in r.jobs && j !in s.jobs :: r.jobs[j].category == id && !r.jobs[j].isActive)
    && (forall p | p in s.selections :: p in r.selections && r.selections[p] == s.selections[p])
    && (forall p | p in r.selections && p !in s.selections :: p.job !in s.jobs && !r.selections[p])
  }

  // The body leaves alone what a restore does not write.
  predicate LeavesUnlisted(s: State, id: string, body: CatalogBody, tasks: seq<JobInput>)
    requires id in s.categories && body.name.Some? && body.basePrice.Of? && Checked(tasks, s.jobs)
  {
    && HeadFields(body, s.categories[id]).backgroundImageUrl == s.categories[id].backgroundImageUrl
    && LeavesFollowUps(s, tasks)
  }

  predicate LeavesFollowUps(s: State, tasks: seq<JobInput>)
    requires Checked(tasks, s.jobs)
  {
    forall k | 0 <= k < |tasks| && tasks[k].id.Some? ::
      var was := s.jobs[tasks[k].id.value].allowsFollowUp;
      Or(tasks[k].task.allowsFollowUp, was) == was
  }

  lemma UndoesJob(s: State, t: State, b: Snapshot, body: CatalogBody, tasks: seq<JobInput>, ids: seq<string>, j: string)
    requires AppliedFrom(s, t, b, body, tasks, ids) && j in s.jobs
    ensures j in t.jobs && Restored(t, b).jobs[j] == s.jobs[j].(allowsFollowUp := t.jobs[j].allowsFollowUp)
    ensures s.jobs[j].category != b.id ==> t.jobs[j] == s.jobs[j]
  {
    AcceptedIsChecked(s.jobs, tasks, JobsOf(s.jobs, b.id), ids);
    if j in Targets(tasks, ids) {
      var k :| 0 <= k < |tasks| && Targets(tasks, ids)[k] == j;
      assert t.jobs[j] == RowAt(s.jobs, b.id, tasks, k);
    }
  }

  lemma UndoesNewJob(s: State, t: State, b: Snapshot, body: CatalogBody, tasks: seq<JobInput>, ids: seq<string>, j: string)
    requires AppliedFrom(s, t, b, body, tasks, ids) && j in t.jobs && j !in s.jobs
    ensures t.jobs[j].category == Restored(t, b).jobs[j].category == b.id && !Restored(t, b).jobs[j].isActive
  {
    var k :| 0 <= k < |tasks| && Targets(tasks, ids)[k] == j;
    assert t.jobs[j] == RowAt(s.jobs, b.id, tasks, k);
  }

  lemma FollowUpKept(s: State, t: State, b: Snapshot, body: CatalogBody, tasks: seq<JobInput>, ids: seq<string>)
    requires AppliedFrom(s, t, b, body, tasks, ids)
    ensures (forall j | j in s.jobs :: j in t.jobs && t.jobs[j].allowsFollowUp == s.jobs[j].allowsFollowUp)
      <==> LeavesFollowUps(s, tasks)
  {
    var targets := Targets(tasks, ids);
    forall k | 0 <= k < |tasks| && tasks[k].id.Some?
      ensures targets[k] == tasks[k].id.value && t.jobs[targets[k]].allowsFollowUp ==
        Or(tasks[k].task.allowsFollowUp, s.jobs[tasks[k].id.value].allowsFollowUp)
    {
      assert t.jobs[targets[k]] == RowAt(s.jobs, b.id, tasks, k);
    }
    forall j | j in s.jobs && j in targets ensures exists k :: 0 <= k < |tasks| && tasks[k].id == Some(j) {
      var k :| 0 <= k < |tasks| && targets[k] == j;
    }
  }

  lemma UndoesSelection(s: State, t: State, b: Snapshot, body: CatalogBody, tasks: seq<JobInput>, ids: seq<string>, p: Pick)
    requires Keyed(s) && AppliedFrom(s, t, b, body, tasks, ids) && p in s.selections
    ensures var r := Restored(t, b); p in r.selections && r.selections[p] == s.selections[p]
  {
    AcceptedIsChecked(s.jobs, tasks, JobsOf(s.jobs, b.id), ids);
    if p.job !in b.jobs {
      assert p.job !in Targets(tasks, ids);
      assert t.jobs[p.job] == s.jobs[p.job];
    }
  }

  lemma UndoesNewSelection(s: State, t: State, b: Snapshot, body: CatalogBody, tasks: seq<JobInput>, ids: seq<string>, p: Pick)
    requires AppliedFrom(s, t, b, body, tasks, ids) && p in Restored(t, b).selections && p !in s.selections
    ensures p.job !in s.jobs && !Restored(t, b).selections[p]
  {
    AcceptedIsChecked(s.jobs, tasks, JobsOf(s.jobs, b.id), ids);
    assert p.job !in b.jobs && p in t.selections;
    assert p.job in Targets(tasks, ids) && p.job !in s.jobs;
    UndoesNewJob(s, t, b, body, tasks, ids, p.job);
  }

  lemma UndoesSelections(s: State, t: State, b: Snapshot, body: CatalogBody, tasks: seq<JobInput>, ids: seq<string>)
    requires Keyed(s) && AppliedFrom(s, t, b, body, tasks, ids)
    ensures var r := Restored(t, b);
      && (forall p | p in s.selections :: p in r.selections && r.selections[p] == s.selections[p])
      && (forall p | p in r.selections && p !in s.selections :: p.job !in s.jobs && !r.selections[p])
  {
    var r := Restored(t, b);
    hide Restored, AppliedFrom, Keyed;
    forall p | p in s.selections ensures p in r.selections && r.selections[p] == s.selections[p] {
      UndoesSelection(s, t, b, body, tasks, ids, p);
    }
    forall p | p in r.selections && p !in s.selections ensures p.job !in s.jobs && !r.selections[p] {
      UndoesNewSelection(s, t, b, body, tasks, ids, p);
    }
  }

  // Restoring the backup after applying gives back every row there was, and leaves what was added switched off,
  // exactly when the applied body left alone the two columns that a restore does not write.
  lemma RestoreUndoesApplyIff(s: State, t: State, b: Snapshot, body: CatalogBody, tasks: seq<JobInput>, ids: seq<string>)
    requires Keyed(s) && AppliedFrom(s, t, b, body, tasks, ids)
    ensures Restorable(t, b)
    ensures Undone(s, Restored(t, b), b.id) <==> LeavesUnlisted(s, b.id, body, tasks)
  {
    assert Restorable(t, b);
    JobsUndoneIff(s, t, b, body, tasks, ids);
    UndoesSelections(s, t, b, body, tasks, ids);
    CategoriesUndoneIff(s, t, b, body, tasks, ids);
    hide Keyed, Restored, Applied, Accepted, FreshIds, SnapshotOf, HeadFields;
  }

  // A matrix payload sets neither column, so it is undone.
  lemma RestoreUndoesMatrix(s: State, t: State, b: Snapshot, body: CatalogBody, tasks: seq<JobInput>, ids: seq<string>)
    requires Keyed(s) && AppliedFrom(s, t, b, body, tasks, ids)
    requires body.backgroundImageUrl.Keep? && forall k | 0 <= k < |tasks| :: tasks[k].task.allowsFollowUp.Unset?
    ensures Undone(s, Restored(t, b), b.id)
  {
    RestoreUndoesApplyIff(s, t, b, body, tasks, ids);
    hide Undone, Restored, Keyed, Applied, SnapshotOf;
    assert LeavesUnlisted(s, b.id, body, tasks);
  }

  lemma JobsUndoneIff(s: State, t: State, b: Snapshot, body: CatalogBody, tasks: seq<JobInput>, ids: seq<string>)
    requires AppliedFrom(s, t, b, body, tasks, ids)
    ensures var r := Restored(t, b);
      && (forall j | j in s.jobs :: j in r.jobs)
      && (forall j | j in r.jobs && j !in s.jobs :: r.jobs[j].category == b.id && !r.jobs[j].isActive)
      && ((forall j | j in s.jobs :: r.jobs[j] == s.jobs[j]) <==> LeavesFollowUps(s, tasks))
  {
    var r := Restored(t, b);
    assert r.jobs.Keys == t.jobs.Keys;
    FollowUpKept(s, t, b, body, tasks, ids);
    hide Restored, Applied, Accepted, FreshIds, SnapshotOf, HeadFields;
    forall j | j in s.jobs
      ensures j in t.jobs && r.jobs[j] == s.jobs[j].(allowsFollowUp := t.jobs[j].allowsFollowUp)
    {
      UndoesJob(s, t, b, body, tasks, ids, j);
    }
    forall j | j in r.jobs && j !in s.jobs ensures r.jobs[j].category == b.id && !r.jobs[j].isActive {
      UndoesNewJob(s, t, b, body, tasks, ids, j);
    }
  }

  lemma CategoriesUndoneIff(s: State, t: State, b: Snapshot, body: CatalogBody, tasks: seq<JobInput>, ids: seq<string>)
    requires AppliedFrom(s, t, b, body, tasks, ids)
    ensures Restored(t, b).categories == s.categories <==>
      HeadFields(body, s.categories[b.id]).backgroundImageUrl == s.categories[b.id].backgroundImageUrl
  {
    assert Restored(t, b).categories.Keys == s.categories.Keys;
  }

  // The script.

  // What the matrix asks of a category: the body to write, the live jobs no row of it matches,
  // and for each row the live job it replaces. The jobs of the rows come first in the body.
  datatype Payload = Payload(body: CatalogBody, unmatched: set<string>, live: seq<Option<string>>)

  predicate FitsRows(p: Payload) {
    p.body.tasks.Some? && |p.live| <= |p.body.tasks.value|
  }

  // The workers signed up for a row: those with the replaced job active, or all verified ones for a new job.
  function WorkersFor(b: Snapshot, verified: set<(string, string)>, live: Option<string>): set<string> {
    if live.Some? then set p | p in b.selections && p.job == live.value && b.selections[p] :: p.worker
    else set v | v in verified && v.1 == b.id :: v.0
  }

  function SignUps(b: Snapshot, verified: set<(string, string)>, live: seq<Option<string>>, targets: seq<string>): set<Pick>
    requires |live| <= |targets|
  {
    set i, w | 0 <= i < |live| && w in WorkersFor(b, verified, live[i]) :: Pick(w, targets[i])
  }

  lemma SignUpsAreTargets(b: Snapshot, verified: set<(string, string)>, live: seq<Option<string>>, targets: seq<string>)
    requires |live| <= |targets|
    ensures forall p | p in SignUps(b, verified, live, targets) :: p.job in targets
  {
  }

  function Active(picks: set<Pick>): map<Pick, bool> {
    map p | p in picks :: true
  }

  // Whom a payload signs up for what: a worker for the job of a row, if the row replaces a job that the worker had
  // switched on, or, where it replaces none, if the worker is verified in the category.
  predicate Due(s: State, b: Snapshot, live: Option<string>, w: string) {
    match live
    case Some(j) => j in s.jobs && s.jobs[j].category == b.id && Pick(w, j) in s.selections && s.selections[Pick(w, j)]
    case None => (w, b.id) in s.verified
  }

  // After the sign-ups a selection is there exactly when it was or is due, and on exactly when it was on or is due.
  lemma SignedUpIff(s: State, b: Snapshot, live: seq<Option<string>>, targets: seq<string>, p: Pick)
    requires SnapshotOf(b, s) && |live| <= |targets|
    ensures var after := s.selections + Active(SignUps(b, s.verified, live, targets));
      var due := exists i | 0 <= i < |live| :: targets[i] == p.job && Due(s, b, live[i], p.worker);
      && (p in after <==> p in s.selections || due)
      && (p in after && after[p] <==> (p in s.selections && s.selections[p]) || due)
  {
    forall l: Option<string>, w ensures w in WorkersFor(b, s.verified, l) <==> Due(s, b, l, w) {
      if l.Some? && Due(s, b, l, w) { assert Pick(w, l.value) in b.selections && b.selections[Pick(w, l.value)]; }
      if l.None? && Due(s, b, l, w) { assert (w, b.id) in s.verified; }
    }
    hide WorkersFor, Due, SnapshotOf;
    if exists i | 0 <= i < |live| :: targets[i] == p.job && Due(s, b, live[i], p.worker) {
      var i :| 0 <= i < |live| && targets[i] == p.job && Due(s, b, live[i], p.worker);
      assert p == Pick(p.worker, targets[i]) && p.worker in WorkersFor(b, s.verified, live[i]);
    }
  }

  function PicksOf(workers: set<string>, job: string): set<Pick> {
    set w | w in workers :: Pick(w, job)
  }

  lemma ActiveUnion(selections: map<Pick, bool>, some: set<Pick>, more: set<Pick>)
    ensures selections + Active(some) + Active(more) == selections + Active(some + more)
  {
  }

  lemma OneMoreRow(b: Snapshot, verified: set<(string, string)>, live: seq<Option<string>>, targets: seq<string>, k: nat)
    requires k < |live| <= |targets|
    ensures SignUps(b, verified, live[..k + 1], targets) ==
      SignUps(b, verified, live[..k], targets) + PicksOf(WorkersFor(b, verified, live[k]), targets[k])
  {
    assert live[..k + 1] == live[..k] + [live[k]];
    forall p | p in SignUps(b, verified, live[..k], targets) ensures p in SignUps(b, verified, live[..k + 1], targets) {
      var i :| 0 <= i < k && p.worker in WorkersFor(b, verified, live[..k][i]) && p == Pick(p.worker, targets[i]);
      assert live[..k + 1][i] == live[..k][i];
    }
    forall w | w in WorkersFor(b, verified, live[k])
      ensures Pick(w, targets[k]) in SignUps(b, verified, live[..k + 1], targets)
    {
      assert live[..k + 1][k] == live[k];
    }
  }

  method Listed(ids: set<string>) returns (order: seq<string>)
    ensures Distinct(order) && forall j :: j in ids <==> j in order
  {
    order := [];
    var rest := ids;
    while rest != {}
      invariant Distinct(order) && rest <= ids && forall j :: j in ids <==> j in order || j in rest
      invariant forall j | j in rest :: j !in order
      decreases |rest|
    {
      var j :| j in rest;
      order, rest := order + [j], rest - {j};
    }
  }

  function SwitchedOff(jobs: map<string, Job>, created: set<string>): map<string, Job> {
    map j | j in jobs :: if j in created then jobs[j].(isActive := false) else jobs[j]
  }

  function Refilled(jobs: map<string, Job>, b: Snapshot): map<string, Job> {
    map j | j in jobs :: if j in b.jobs then RestoredJob(jobs[j], b.jobs[j]) else jobs[j]
  }

  function RefilledFirst(jobs: map<string, Job>, b: Snapshot, k: nat): map<string, Job>
    requires k <= |b.order| && forall j | j in b.order :: j in b.jobs
  {
    map j | j in jobs :: if j in b.order[..k] then RestoredJob(jobs[j], b.jobs[j]) else jobs[j]
  }

  lemma RefillOneMore(jobs: map<string, Job>, b: Snapshot, k: nat)
    requires WellOrdered(b) && k < |b.order| && b.order[k] in jobs
    ensures var id, some := b.order[k], RefilledFirst(jobs, b, k);
      RefilledFirst(jobs, b, k + 1) == some[id := RestoredJob(some[id], b.jobs[id])]
  {
    var id := b.order[k];
    assert b.order[..k + 1] == b.order[..k] + [id] && id !in b.order[..k];
    hide RestoredJob, Distinct;
  }

  lemma RefilledAll(jobs: map<string, Job>, b: Snapshot)
    requires WellOrdered(b)
    ensures RefilledFirst(jobs, b, |b.order|) == Refilled(jobs, b)
  {
    assert b.order[..|b.order|] == b.order;
    hide RestoredJob;
  }

  lemma JobSteps(s: State, b: Snapshot, created: set<string>)
    requires b.id in s.categories && forall j :: j in created <==> Added(s, b, j)
    ensures Refilled(SwitchedOff(s.jobs, created), b) == Restored(s, b).jobs
  {
  }

  function SwitchedOffPicks(selections: map<Pick, bool>, created: set<string>): map<Pick, bool> {
    map p | p in selections :: selections[p] && p.job !in created
  }

  // The selections of the backup's jobs are deleted and created anew for the workers there are.
  function Repicked(selections: map<Pick, bool>, b: Snapshot, workers: set<string>): map<Pick, bool> {
    (map p | p in selections && p.job !in b.jobs :: selections[p])
    + (map p | p in b.selections && p.worker in workers :: b.selections[p])
  }

  lemma SelectionSteps(s: State, b: Snapshot, created: set<string>)
    requires b.id in s.categories && forall j :: j in created <==> Added(s, b, j)
    ensures Repicked(SwitchedOffPicks(s.selections, created), b, s.workers) == Restored(s, b).selections
  {
    var x, y := Repicked(SwitchedOffPicks(s.selections, created), b, s.workers), Restored(s, b).selections;
    forall p: Pick ensures p in x <==> p in y { SelectionStep(s, b, created, p); }
    forall p: Pick | p in x ensures x[p] == y[p] { SelectionStep(s, b, created, p); }
    hide Repicked, SwitchedOffPicks, Restored;
  }

  lemma SelectionStep(s: State, b: Snapshot, created: set<string>, p: Pick)
    requires b.id in s.categories && forall j :: j in created <==> Added(s, b, j)
    ensures var x, y := Repicked(SwitchedOffPicks(s.selections, created), b, s.workers), Restored(s, b).selections;
      (p in x <==> p in y) && (p in x ==> x[p] == y[p])
  {
    hide Added;
  }

  lemma WritingApplies(s: State, t: State, b: Snapshot, body: CatalogBody, tasks: seq<JobInput>, ids: seq<string>, picks: set<Pick>)
    requires SnapshotOf(b, s) && body.name.Some? && body.basePrice.Of? && |tasks| <= |ids|
    requires Accepted(tasks, JobsOf(s.jobs, b.id)) && FreshIds(s.jobs, ids) && Checked(tasks, s.jobs)
    requires t.categories == s.categories[b.id := HeadFields(body, s.categories[b.id])]
    requires Wrote(s.jobs, t.jobs, Targets(tasks, ids), Rows(s.jobs, b.id, tasks))
    requires t.workers == s.workers && t.verified == s.verified && t.selections == s.selections + Active(picks)
    requires forall p | p in picks :: p.job in Targets(tasks, ids)
    ensures AppliedFrom(s, t, b, body, tasks, ids)
  {
    hide Wrote, Rows, FreshIds, Accepted, Checked, SnapshotOf, HeadFields;
  }

  class Script {
    const tables: Tables
    var selections: map<Pick, bool>
    var workers: set<string>
    var verified: set<(string, string)>

    constructor (tables: Tables, workers: set<string>, verified: set<(string, string)>)
      ensures Contents() == State(tables.categories, tables.jobs, map[], workers, verified)
    {
      this.tables, this.workers, this.verified, selections := tables, workers, verified, map[];
    }

    function Contents(): State
      reads this, tables
    {
      State(tables.categories, tables.jobs, selections, workers, verified)
    }

    method LoadCategory(name: string) returns (r: Option<Snapshot>)
      requires Keyed(Contents())
      ensures r.Some? ==> SnapshotOf(r.value, Contents()) && r.value.category.name == name
      ensures r.None? ==> forall c | c in tables.categories :: tables.categories[c].name != name
    {
      if !(exists c :: c in tables.categories && tables.categories[c].name == name) { return None; }
      var id :| id in tables.categories && tables.categories[id].name == name;
      var jobs := map j | j in tables.jobs && tables.jobs[j].category == id :: tables.jobs[j];
      var order := Listed(jobs.Keys);
      r := Some(Snapshot(id, tables.categories[id], order, jobs, map p | p in selections && p.job in jobs :: selections[p]));
    }

    // applyCategory; a fault is thrown and rolls everything back. The backup is what was loaded first.
    method ApplyCategory(name: string, build: Snapshot -> Payload, ids: seq<string>, icons: set<string>,
                         blocks: TaskInput -> bool) returns (r: Result<Snapshot, Fault>)
      requires Keyed(Contents()) && FreshIds(tables.jobs, ids)
      requires forall b :: FitsRows(build(b)) && |build(b).body.tasks.value| <= |ids|
      modifies this, tables
      ensures r.Err? ==> Contents() == old(Contents())
      ensures r.Ok? ==>
        var b, p := r.value, build(r.value);
        && b.category.name == name && FitsRows(p)
        && AppliedFrom(old(Contents()), Contents(), b, p.body, p.body.tasks.value, ids)
        && selections == old(selections) + Active(SignUps(b, old(verified), p.live, Targets(p.body.tasks.value, ids)))
    {
      var loaded := LoadCategory(name);
      if loaded.None? { return Err(NotFound); }
      var b := loaded.value;
      var p := build(b);
      var fault := Refusal(b, p, icons, blocks);
      if fault.Some? { return Err(fault.value); }
      r := WritePayload(b, p, ids, icons);
    }

    // The checks before anything is written: none fails exactly when every counted job has a row, the body is
    // accepted and no active job is blocked.
    method Refusal(b: Snapshot, p: Payload, icons: set<string>, blocks: TaskInput -> bool) returns (fault: Option<Fault>)
      requires FitsRows(p)
      ensures var tasks := p.body.tasks.value;
        fault.None? <==>
          && (forall j | j in p.unmatched && j in b.jobs :: b.jobs[j].pricing !in {PER_UNIT, TIERED})
          && HeadFault(p.body, icons).None? && Accepted(tasks, JobsOf(tables.jobs, b.id))
          && (forall k | 0 <= k < |tasks| && blocks(tasks[k].task) :: tasks[k].task.isActive == Set(false))
    {
      var tasks, existing := p.body.tasks.value, JobsOf(tables.jobs, b.id);
      if exists j :: j in p.unmatched && j in b.jobs && b.jobs[j].pricing in {PER_UNIT, TIERED} {
        return Some(BadPricingModel);
      }
      fault := ValidateCatalog(p.body, existing, icons);
      AcceptedIff(tasks, existing, 0);
      hide HeadFault, JobFault, RefOf;
      if fault.Some? { return; }
      if exists k :: 0 <= k < |tasks| && tasks[k].task.isActive != Set(false) && blocks(tasks[k].task) {
        return Some(BelowWageFloor);
      }
    }

    method WritePayload(b: Snapshot, p: Payload, ids: seq<string>, ghost icons: set<string>)
        returns (r: Result<Snapshot, Fault>)
      requires Keyed(Contents()) && FreshIds(tables.jobs, ids) && SnapshotOf(b, Contents())
      requires FitsRows(p) && |p.body.tasks.value| <= |ids| && HeadFault(p.body, icons).None?
      requires Accepted(p.body.tasks.value, JobsOf(tables.jobs, b.id))
      modifies this, tables
      ensures r.Err? ==> Contents() == old(Contents())
      ensures r.Ok? ==>
        && r.value == b && AppliedFrom(old(Contents()), Contents(), b, p.body, p.body.tasks.value, ids)
        && selections == old(selections) + Active(SignUps(b, old(verified), p.live, Targets(p.body.tasks.value, ids)))
    {
      var body, tasks := p.body, p.body.tasks.value;
      ghost var before, targets := Contents(), Targets(tasks, ids);
      AcceptedIsChecked(tables.jobs, tasks, JobsOf(tables.jobs, b.id), ids);
      assert tables.Valid() && b.id in tables.categories && body.name.Some? && body.basePrice.Of?;
      hide Wrote, Rows, Faithful, FreshIds, Accepted, Checked, Keyed, SnapshotOf, HeadFields, SignUps, WellFormed, Distinct;
      var written := tables.WriteCatalog(Some(b.id), body, "", ids, icons);
      if written.Err? { return Err(written.error); }
      SignUp(b, p.live, Refs(tasks), written.value, targets);
      SignUpsAreTargets(b, verified, p.live, targets);
      WritingApplies(before, Contents(), b, body, tasks, ids, SignUps(b, verified, p.live, targets));
      r := Ok(b);
    }

    method SignUp(b: Snapshot, live: seq<Option<string>>, refs: seq<string>, taskIdByRef: map<string, string>,
                  ghost targets: seq<string>)
      requires |live| <= |refs| && Faithful(taskIdByRef, refs, targets)
      modifies `selections
      ensures selections == old(selections) + Active(SignUps(b, verified, live, targets))
    {
      for k := 0 to |live|
        invariant selections == old(selections) + Active(SignUps(b, verified, live[..k], targets))
      {
        assert refs[k] in taskIdByRef;
        var picks := PicksOf(WorkersFor(b, verified, live[k]), taskIdByRef[refs[k]]);
        OneMoreRow(b, verified, live, targets, k);
        ActiveUnion(old(selections), SignUps(b, verified, live[..k], targets), picks);
        selections := selections + Active(picks);
      }
      assert live[..|live|] == live;
    }

    // restoreCategory; a fault is thrown and rolls everything back.
    method RestoreCategory(b: Snapshot) returns (r: Result<(), Fault>)
      requires WellOrdered(b)
      modifies this, tables
      ensures r.Ok? <==> Restorable(old(Contents()), b)
      ensures r.Ok? ==> Contents() == Restored(old(Contents()), b)
      ensures r.Err? ==> Contents() == old(Contents())
    {
      if b.id !in tables.categories { return Err(NotFound); }
      if tables.Taken(b.id, b.category.name) { return Err(NameTaken); }
      var before := Contents();
      tables.categories := tables.categories[b.id := RestoredCategory(tables.categories[b.id], b.category)];
      var created := set j | j in tables.jobs && tables.jobs[j].category == b.id && j !in b.jobs;
      tables.jobs := SwitchedOff(tables.jobs, created);
      selections := SwitchedOffPicks(selections, created);
      var found := RestoreJobs(b);
      if !found {
        tables.categories, tables.jobs, selections := before.categories, before.jobs, before.selections;
        return Err(NotFound);
      }
      selections := Repicked(selections, b, workers);
      JobSteps(before, b, created);
      SelectionSteps(before, b, created);
      hide SwitchedOff, SwitchedOffPicks, Refilled, Repicked;
      r := Ok(());
    }

    method RestoreJobs(b: Snapshot) returns (found: bool)
      requires WellOrdered(b)
      modifies tables`jobs
      ensures found <==> forall j | j in b.jobs :: j in old(tables.jobs)
      ensures found ==> tables.jobs == Refilled(old(tables.jobs), b)
    {
      ghost var was := tables.jobs;
      for k := 0 to |b.order|
        invariant tables.jobs == RefilledFirst(was, b, k) && forall i | 0 <= i < k :: b.order[i] in was
      {
        var id := b.order[k];
        if id !in tables.jobs { return false; }
        RefillOneMore(was, b, k);
        tables.jobs := tables.jobs[id := RestoredJob(tables.jobs[id], b.jobs[id])];
      }
      RefilledAll(was, b);
      found := true;
    }
  }
}
