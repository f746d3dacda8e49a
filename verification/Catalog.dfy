// The service catalog: checking and writing a category with its jobs, and editing one job.
module Catalog {
  import opened Wrappers

  // Rows.

  datatype Pricing = FIXED | PER_UNIT | TIERED | CUSTOM_QUOTE

  datatype Category = Category(
    name: string,
    description: Option<string>,
    basePrice: real,
    icon: Option<string>,
    backgroundImageUrl: Option<string>,
    requiresCertification: bool,
    isActive: bool)

  datatype Job = Job(
    category: string,
    name: string,
    description: Option<string>,
    sortOrder: int,
    basePrice: real,
    pricing: Pricing,
    minPrice: Option<real>,
    maxPrice: Option<real>,
    unitLabel: Option<string>,
    minQuantity: Option<real>,
    maxQuantity: Option<real>,
    durationHours: Option<real>,
    isActive: bool,
    allowsFollowUp: bool)

  // What every job of the two pricing models in use satisfies.
  predicate WellFormed(job: Job) {
    && (job.isActive ==> job.basePrice > 0.0)
    && (job.pricing == PER_UNIT ==>
          && job.unitLabel.Some? && job.unitLabel.value != ""
          && (job.minQuantity.Some? ==> job.minQuantity.value >= 1.0)
          && (job.maxQuantity.Some? ==> job.maxQuantity.value >= 1.0)
          && (job.minQuantity.Some? && job.maxQuantity.Some? ==> job.minQuantity.value <= job.maxQuantity.value))
    && (job.pricing == FIXED ==> job.minQuantity.None? && job.maxQuantity.None?)
  }

  // Request bodies. But for ids, Nothing and None stand for both null and an absent value, Wrong for a value of
  // another type.

  datatype Number = Nothing | Of(n: real) | WrongNumber
  datatype Flag = Unset | Set(b: bool) | WrongFlag

  datatype TaskInput = TaskInput(
    name: Option<string>,
    description: Option<string>,
    basePrice: Number,
    pricingModel: Option<string>,
    unitLabel: Option<string>,
    minQuantity: Number,
    maxQuantity: Number,
    durationHours: Number,
    isActive: Flag,
    allowsFollowUp: Flag)

  // No id is an absent one. An id that is null or not text is no job's, as is the text standing for it here.
  datatype JobInput = JobInput(task: TaskInput, id: Option<string>, key: Option<string>)

  // The background image may be left out, cleared or given.
  datatype Image = Keep | Change(url: Option<string>)

  datatype CatalogBody = CatalogBody(
    name: Option<string>,
    description: Option<string>,
    basePrice: Number,
    icon: Option<string>,
    backgroundImageUrl: Image,
    requiresCertification: Flag,
    tasks: Option<seq<JobInput>>)

  datatype Fault =
    | NameRequired | BadPrice | BadPricingModel | BadDuration | BadFollowUp | PriceNotAboveZero
    | UnitRequired | BadQuantity | QuantityOrder | QuantityNotAllowed
    | BadIcon | BadImage | BadCertification | NoJobList
    | ForeignJob | KeyRequired | SharedReference(ref: string) | BadActive | InJob(name: string, fault: Fault)
    | NotFound | NameTaken | BelowWageFloor | NotPriced

  // String.prototype.trim.

  predicate IsSpace(c: char) {
    var n := c as int;
    9 <= n <= 13 || n == 32 || n == 160 || n == 0x1680 || 0x2000 <= n <= 0x200A
    || n == 0x2028 || n == 0x2029 || n == 0x202F || n == 0x205F || n == 0x3000 || n == 0xFEFF
  }

  function Trim(s: string): string {
    if s == "" then ""
    else if IsSpace(s[0]) then Trim(s[1..])
    else if IsSpace(s[|s| - 1]) then Trim(s[..|s| - 1])
    else s
  }

  predicate Blank(s: Option<string>) {
    s.None? || Trim(s.value) == ""
  }

  // s?.trim() || null.
  function Trimmed(s: Option<string>): Option<string> {
    if Blank(s) then None else Some(Trim(s.value))
  }

  function Given(n: Number): Option<real> {
    if n.Of? then Some(n.n) else None
  }

  function Or(flag: Flag, b: bool): bool {
    if flag.Set? then flag.b else b
  }

  // Checking.

  predicate BadCount(n: Number) {
    n.WrongNumber? || (n.Of? && n.n < 1.0)
  }

  function ValidateTaskInput(body: TaskInput): Option<Fault> {
    if Blank(body.name) then Some(NameRequired)
    else if !body.basePrice.Of? || body.basePrice.n < 0.0 then Some(BadPrice)
    else if body.pricingModel !in {Some("FIXED"), Some("PER_UNIT")} then Some(BadPricingModel)
    else if body.durationHours.WrongNumber? || (body.durationHours.Of? && body.durationHours.n <= 0.0) then Some(BadDuration)
    else if body.allowsFollowUp.WrongFlag? then Some(BadFollowUp)
    else if body.isActive != Set(false) && body.basePrice.n <= 0.0 then Some(PriceNotAboveZero)
    else if body.pricingModel == Some("PER_UNIT") then
      if Blank(body.unitLabel) then Some(UnitRequired)
      else if BadCount(body.minQuantity) || BadCount(body.maxQuantity) then Some(BadQuantity)
      else if body.minQuantity.Of? && body.maxQuantity.Of? && body.minQuantity.n > body.maxQuantity.n then
        Some(QuantityOrder)
      else None
    else if !body.minQuantity.Nothing? || !body.maxQuantity.Nothing? then Some(QuantityNotAllowed)
    else None
  }

  function RefOf(job: JobInput): string {
    if job.id.Some? then job.id.value else if job.key.Some? then job.key.value else ""
  }

  function HeadFault(body: CatalogBody, icons: set<string>): Option<Fault> {
    if Blank(body.name) then Some(NameRequired)
    else if !body.basePrice.Of? || body.basePrice.n < 0.0 then Some(BadPrice)
    else if body.icon.Some? && body.icon.value !in icons then Some(BadIcon)
    else if body.backgroundImageUrl.Change? && body.backgroundImageUrl.url.Some?
         && !("https://" <= body.backgroundImageUrl.url.value) then Some(BadImage)
    else if body.requiresCertification.WrongFlag? then Some(BadCertification)
    else if body.tasks.None? then Some(NoJobList)
    else None
  }

  // The fault of one job, given the references before it.
  function JobFault(job: JobInput, existing: set<string>, refs: set<string>): Option<Fault> {
    if job.id.Some? && job.id.value !in existing then Some(ForeignJob)
    else if job.id.None? && (job.key.None? || job.key.value == "") then Some(KeyRequired)
    else if RefOf(job) in refs then Some(SharedReference(RefOf(job)))
    else
      var fault, name := ValidateTaskInput(job.task), if Blank(job.task.name) then "Untitled" else Trim(job.task.name.value);
      if fault.Some? then Some(InJob(name, fault.value))
      else if job.task.isActive.WrongFlag? then Some(InJob(name, BadActive))
      else None
  }

  function RefsOf(tasks: seq<JobInput>): set<string> {
    set i | 0 <= i < |tasks| :: RefOf(tasks[i])
  }

  // The fault of the first faulty job from the k-th on.
  function FirstFault(tasks: seq<JobInput>, existing: set<string>, k: nat): Option<Fault>
    requires k <= |tasks|
    decreases |tasks| - k
  {
    if k == |tasks| then None
    else
      var fault := JobFault(tasks[k], existing, RefsOf(tasks[..k]));
      if fault.Some? then fault else FirstFault(tasks, existing, k + 1)
  }

  lemma RefsOneMore(tasks: seq<JobInput>, k: nat)
    requires k < |tasks|
    ensures RefsOf(tasks[..k + 1]) == RefsOf(tasks[..k]) + {RefOf(tasks[k])}
  {
    hide RefOf;
    var some, more := tasks[..k], tasks[..k + 1];
    forall r | r in RefsOf(more) ensures r in RefsOf(some) + {RefOf(tasks[k])} {
      var i :| 0 <= i < k + 1 && RefOf(more[i]) == r;
      if i < k { assert some[i] == more[i]; }
    }
    forall r | r in RefsOf(some) ensures r in RefsOf(more) {
      var i :| 0 <= i < k && RefOf(some[i]) == r;
      assert more[i] == some[i];
    }
    assert more[k] == tasks[k];
  }

  method ValidateCatalog(body: CatalogBody, existing: set<string>, icons: set<string>) returns (fault: Option<Fault>)
    ensures fault == if HeadFault(body, icons).Some? then HeadFault(body, icons)
                     else FirstFault(body.tasks.value, existing, 0)
  {
    fault := HeadFault(body, icons);
    if fault.Some? { return; }
    var tasks, refs := body.tasks.value, {};
    assert RefsOf(tasks[..0]) == {};
    hide HeadFault, JobFault, RefOf, RefsOf;
    for k := 0 to |tasks|
      invariant refs == RefsOf(tasks[..k])
      invariant FirstFault(tasks, existing, 0) == FirstFault(tasks, existing, k)
    {
      fault := JobFault(tasks[k], existing, refs);
      if fault.Some? { return; }
      RefsOneMore(tasks, k);
      refs := refs + {RefOf(tasks[k])};
    }
    fault := None;
  }

  // What an accepted list of jobs is.
  predicate Accepted(tasks: seq<JobInput>, existing: set<string>) {
    && (forall i | 0 <= i < |tasks| :: JobFault(tasks[i], existing, {}).None?)
    && (forall i, j | 0 <= i < j < |tasks| :: RefOf(tasks[i]) != RefOf(tasks[j]))
  }

  // No fault is found exactly when every job is right by itself and no two share a reference.
  lemma {:induction false} AcceptedIff(tasks: seq<JobInput>, existing: set<string>, k: nat)
    requires k <= |tasks|
    ensures FirstFault(tasks, existing, k).None? <==>
      && (forall i | k <= i < |tasks| :: JobFault(tasks[i], existing, {}).None?)
      && (forall i, j | 0 <= i < j < |tasks| && k <= j :: RefOf(tasks[i]) != RefOf(tasks[j]))
    decreases |tasks| - k
  {
    hide JobFault, RefOf;
    if k < |tasks| {
      AcceptedIff(tasks, existing, k + 1);
      FaultOrShared(tasks[k], existing, RefsOf(tasks[..k]));
      assert RefOf(tasks[k]) in RefsOf(tasks[..k]) <==> exists i | 0 <= i < k :: RefOf(tasks[..k][i]) == RefOf(tasks[k]);
    }
  }

  lemma FaultOrShared(job: JobInput, existing: set<string>, refs: set<string>)
    ensures JobFault(job, existing, refs).None? <==> JobFault(job, existing, {}).None? && RefOf(job) !in refs
  {
  }

  // Writing.

  function PricingOf(body: TaskInput): Pricing {
    if body.pricingModel == Some("PER_UNIT") then PER_UNIT else FIXED
  }

  // The listed fields of a job over the row it updates or starts from.
  function Filled(body: TaskInput, row: Job): Job
    requires ValidateTaskInput(body).None?
  {
    row.(name := Trim(body.name.value),
         description := Trimmed(body.description),
         basePrice := body.basePrice.n,
         pricing := PricingOf(body),
         minPrice := None,
         maxPrice := None,
         unitLabel := Trimmed(body.unitLabel),
         minQuantity := if PricingOf(body) == PER_UNIT then Given(body.minQuantity) else None,
         maxQuantity := if PricingOf(body) == PER_UNIT then Given(body.maxQuantity) else None,
         durationHours := Given(body.durationHours),
         allowsFollowUp := Or(body.allowsFollowUp, row.allowsFollowUp))
  }

  function NewJob(category: string): Job {
    Job(category, "", None, 0, 0.0, FIXED, None, None, None, None, None, None, true, false)
  }

  // A checked body makes a well-formed job of any row, if the job's flag is the one that was checked.
  lemma FilledIsWellFormed(body: TaskInput, row: Job, active: bool)
    requires ValidateTaskInput(body).None? && (active ==> body.isActive != Set(false))
    ensures WellFormed(Filled(body, row).(isActive := active))
  {
  }

  function HeadFields(body: CatalogBody, row: Category): Category
    requires body.name.Some? && body.basePrice.Of?
  {
    row.(name := Trim(body.name.value),
         description := Trimmed(body.description),
         basePrice := body.basePrice.n,
         icon := if body.icon == Some("") then None else body.icon,
         backgroundImageUrl := match body.backgroundImageUrl
           case Keep => row.backgroundImageUrl
           case Change(url) => if url == Some("") then None else url,
         requiresCertification := Or(body.requiresCertification, false))
  }

  function NewCategory(): Category {
    Category("", None, 0.0, None, None, false, true)
  }

  // The jobs of a list are checked, and those with an id have a row.
  predicate Checked(tasks: seq<JobInput>, jobs: map<string, Job>) {
    forall k | 0 <= k < |tasks| ::
      ValidateTaskInput(tasks[k].task).None? && (tasks[k].id.Some? ==> tasks[k].id.value in jobs)
  }

  // The ids the jobs are written under: their own, or those the database makes for them.
  function Targets(tasks: seq<JobInput>, ids: seq<string>): seq<string>
    requires |tasks| <= |ids|
  {
    seq(|tasks|, k requires 0 <= k < |tasks| => if tasks[k].id.Some? then tasks[k].id.value else ids[k])
  }

  // The row that job k becomes.
  function RowAt(jobs: map<string, Job>, category: string, tasks: seq<JobInput>, k: nat): Job
    requires k < |tasks| && Checked(tasks, jobs)
  {
    RowOf(tasks[k].task, if tasks[k].id.Some? then jobs[tasks[k].id.value] else NewJob(category), k)
  }

  function RowOf(body: TaskInput, row: Job, k: nat): Job
    requires ValidateTaskInput(body).None?
  {
    Filled(body, row).(sortOrder := k, isActive := Or(body.isActive, row.isActive))
  }

  function Rows(jobs: map<string, Job>, category: string, tasks: seq<JobInput>): seq<Job>
    requires Checked(tasks, jobs)
  {
    seq(|tasks|, k requires 0 <= k < |tasks| => RowAt(jobs, category, tasks, k))
  }

  function JobsOf(jobs: map<string, Job>, category: string): set<string> {
    set j | j in jobs && jobs[j].category == category
  }

  // New ids are non-empty, distinct and unused.
  predicate FreshIds(jobs: map<string, Job>, ids: seq<string>) {
    && (forall i | 0 <= i < |ids| :: ids[i] !in jobs && ids[i] != "")
    && (forall i, j | 0 <= i < j < |ids| :: ids[i] != ids[j])
  }

  predicate Distinct(s: seq<string>) {
    forall i, j | 0 <= i < j < |s| :: s[i] != s[j]
  }

  function Refs(tasks: seq<JobInput>): seq<string> {
    seq(|tasks|, k requires 0 <= k < |tasks| => RefOf(tasks[k]))
  }

  lemma AcceptedIsChecked(jobs: map<string, Job>, tasks: seq<JobInput>, existing: set<string>, ids: seq<string>)
    requires Accepted(tasks, existing) && existing <= jobs.Keys && FreshIds(jobs, ids) && |tasks| <= |ids|
    ensures Checked(tasks, jobs) && Distinct(Refs(tasks)) && Distinct(Targets(tasks, ids))
    ensures forall j | j in jobs && j !in existing :: j !in Targets(tasks, ids)
  {
    forall k | 0 <= k < |tasks|
      ensures ValidateTaskInput(tasks[k].task).None? && (tasks[k].id.Some? ==> tasks[k].id.value in existing)
    {
      assert JobFault(tasks[k], existing, {}).None?;
    }
    var targets := Targets(tasks, ids);
    forall i, j | 0 <= i < j < |tasks| ensures targets[i] != targets[j] {
      assert RefOf(tasks[i]) != RefOf(tasks[j]);
    }
  }

  // These rows are written, each under its own id, and no other row changed.
  ghost predicate Wrote(before: map<string, Job>, after: map<string, Job>, targets: seq<string>, rows: seq<Job>) {
    && |targets| == |rows|
    && (forall j :: j in after <==> j in before || j in targets)
    && (forall i | 0 <= i < |targets| :: after[targets[i]] == rows[i])
    && (forall j | j in before && j !in targets :: after[j] == before[j])
  }

  lemma WriteOneMore(before: map<string, Job>, after: map<string, Job>, targets: seq<string>, rows: seq<Job>,
                     id: string, row: Job)
    requires Wrote(before, after, targets, rows) && id !in targets
    ensures Wrote(before, after[id := row], targets + [id], rows + [row])
  {
  }

  // A map of exactly these references to these ids, and no two references share an id.
  ghost predicate Faithful(taskIdByRef: map<string, string>, refs: seq<string>, targets: seq<string>) {
    && |refs| == |targets|
    && (forall r :: r in taskIdByRef <==> r in refs)
    && (forall i | 0 <= i < |refs| :: taskIdByRef[refs[i]] == targets[i])
    && (forall r, s | r in taskIdByRef && s in taskIdByRef && r != s :: taskIdByRef[r] != taskIdByRef[s])
  }

  lemma RefOneMore(taskIdByRef: map<string, string>, refs: seq<string>, targets: seq<string>, ref: string, id: string)
    requires Faithful(taskIdByRef, refs, targets) && ref !in refs && id !in targets
    ensures Faithful(taskIdByRef[ref := id], refs + [ref], targets + [id])
  {
    forall r | r in taskIdByRef ensures taskIdByRef[r] != id {
      var i :| 0 <= i < |refs| && refs[i] == r;
      assert taskIdByRef[r] == targets[i];
    }
  }

  lemma RowsAreWellFormed(jobs: map<string, Job>, category: string, tasks: seq<JobInput>, k: nat)
    requires k < |tasks| && Checked(tasks, jobs)
    ensures WellFormed(RowAt(jobs, category, tasks, k))
  {
  }

  lemma WroteWellFormed(before: map<string, Job>, after: map<string, Job>, category: string,
                        tasks: seq<JobInput>, targets: seq<string>)
    requires Checked(tasks, before) && Wrote(before, after, targets, Rows(before, category, tasks))
    requires forall j | j in before :: WellFormed(before[j])
    ensures forall j | j in after :: WellFormed(after[j])
  {
    forall j | j in after ensures WellFormed(after[j]) {
      if j in targets {
        var i :| 0 <= i < |targets| && targets[i] == j;
        RowsAreWellFormed(before, category, tasks, i);
      }
    }
  }

  lemma WroteNothing(jobs: map<string, Job>)
    ensures Wrote(jobs, jobs, [], []) && Faithful(map[], [], [])
  {
  }

  lemma WroteKeeps(before: map<string, Job>, after: map<string, Job>, targets: seq<string>, rows: seq<Job>, id: string)
    requires Wrote(before, after, targets, rows) && id !in targets
    ensures id in after <==> id in before
    ensures id in before ==> after[id] == before[id]
  {
  }

  // The catalog's tables.
  class Tables {
    var categories: map<string, Category>
    var jobs: map<string, Job>

    predicate Valid()
      reads this
    {
      && "" !in jobs
      && (forall c, d | c in categories && d in categories && c != d :: categories[c].name != categories[d].name)
    }

    predicate AllWellFormed()
      reads this
    {
      forall j | j in jobs :: WellFormed(jobs[j])
    }

    // Another category has the name: the database's unique-name error.
    predicate Taken(id: string, name: string)
      reads this
    {
      exists c :: c in categories && c != id && categories[c].name == name
    }

    // writeCatalog on a checked body: the category row and, one after the other, the rows of its jobs.
    // A taken name rolls everything back.
    method WriteCatalog(existing: Option<string>, body: CatalogBody, newId: string, ids: seq<string>, ghost icons: set<string>)
        returns (r: Result<map<string, string>, Fault>)
      requires Valid() && FreshIds(jobs, ids)
      requires if existing.Some? then existing.value in categories else newId !in categories
      requires HeadFault(body, icons).None? && |body.tasks.value| <= |ids|
      requires Accepted(body.tasks.value, if existing.Some? then JobsOf(jobs, existing.value) else {})
      modifies this
      ensures Valid() && (old(AllWellFormed()) ==> AllWellFormed())
      ensures var id := if existing.Some? then existing.value else newId;
        r.Err? <==> old(Taken(id, Trim(body.name.value)))
      ensures r.Err? ==> r.error == NameTaken && categories == old(categories) && jobs == old(jobs)
      ensures r.Ok? ==>
        var id, tasks := if existing.Some? then existing.value else newId, body.tasks.value;
        && categories == old(categories)[id := HeadFields(body, if existing.Some? then old(categories)[id] else NewCategory())]
        && Checked(tasks, old(jobs)) && Wrote(old(jobs), jobs, Targets(tasks, ids), Rows(old(jobs), id, tasks))
        && Faithful(r.value, Refs(tasks), Targets(tasks, ids)) && Distinct(Targets(tasks, ids))
      ensures r.Ok? ==> forall k | 0 <= k < |body.tasks.value| :: jobs[Targets(body.tasks.value, ids)[k]].sortOrder == k
      ensures var id := if existing.Some? then existing.value else newId;
        forall j | j in old(jobs) && old(jobs)[j].category != id :: j in jobs && jobs[j] == old(jobs)[j]
    {
      var id, tasks := if existing.Some? then existing.value else newId, body.tasks.value;
      if Taken(id, Trim(body.name.value)) { return Err(NameTaken); }
      AcceptedIsChecked(jobs, tasks, if existing.Some? then JobsOf(jobs, existing.value) else {}, ids);
      categories := categories[id := HeadFields(body, if existing.Some? then categories[id] else NewCategory())];
      var taskIdByRef := WriteJobs(id, tasks, ids);
      if old(AllWellFormed()) { WroteWellFormed(old(jobs), jobs, id, tasks, Targets(tasks, ids)); }
      r := Ok(taskIdByRef);
    }

    method WriteJobs(category: string, tasks: seq<JobInput>, ids: seq<string>) returns (taskIdByRef: map<string, string>)
      requires "" !in jobs && |tasks| <= |ids| && Checked(tasks, jobs) && FreshIds(jobs, ids)
      requires Distinct(Refs(tasks)) && Distinct(Targets(tasks, ids))
      requires forall k | 0 <= k < |tasks| && tasks[k].id.None? :: tasks[k].key.Some?
      modifies `jobs
      ensures "" !in jobs
      ensures Wrote(old(jobs), jobs, Targets(tasks, ids), Rows(old(jobs), category, tasks))
      ensures Faithful(taskIdByRef, Refs(tasks), Targets(tasks, ids))
    {
      hide Filled, ValidateTaskInput, RowOf, RefOf, NewJob, Wrote, Faithful;
      ghost var targets, rows, refs := Targets(tasks, ids), Rows(jobs, category, tasks), Refs(tasks);
      WroteNothing(jobs);
      assert "" !in targets;
      taskIdByRef := map[];
      for k := 0 to |tasks|
        invariant "" !in jobs && Wrote(old(jobs), jobs, targets[..k], rows[..k])
        invariant Faithful(taskIdByRef, refs[..k], targets[..k])
      {
        assert targets[k] !in targets[..k] && refs[k] !in refs[..k];
        assert targets[..k + 1] == targets[..k] + [targets[k]];
        assert rows[..k + 1] == rows[..k] + [rows[k]] && refs[..k + 1] == refs[..k] + [refs[k]];
        WroteKeeps(old(jobs), jobs, targets[..k], rows[..k], targets[k]);
        WriteOneMore(old(jobs), jobs, targets[..k], rows[..k], targets[k], rows[k]);
        RefOneMore(taskIdByRef, refs[..k], targets[..k], refs[k], targets[k]);
        var ref, id := WriteJob(category, tasks[k], k, ids[k]);
        taskIdByRef := taskIdByRef[ref := id];
      }
      assert targets[..|tasks|] == targets && rows[..|tasks|] == rows && refs[..|tasks|] == refs;
    }

    // One turn of the loop: the job's own row is updated or a new one created.
    method WriteJob(category: string, job: JobInput, k: nat, newId: string) returns (ref: string, id: string)
      requires "" !in jobs && ValidateTaskInput(job.task).None?
      requires if job.id.Some? then job.id.value in jobs else job.key.Some?
      modifies `jobs
      ensures ref == RefOf(job) && id == if job.id.Some? then job.id.value else newId
      ensures jobs == old(jobs)[id := RowOf(job.task, if job.id.Some? then old(jobs)[id] else NewJob(category), k)]
    {
      var task := job.task;
      if job.id.Some? && job.id.value != "" {
        var row := jobs[job.id.value];
        jobs := jobs[job.id.value := Filled(task, row).(sortOrder := k, isActive := Or(task.isActive, row.isActive))];
        ref, id := job.id.value, job.id.value;
      } else {
        jobs := jobs[newId := Filled(task, NewJob(category)).(sortOrder := k, isActive := Or(task.isActive, true))];
        ref, id := job.key.value, newId;
      }
    }

    // saveCatalog; blocks stands for the wage floor check of a job's price and reason.
    method SaveCatalog(id: Option<string>, body: CatalogBody, newId: string, ids: seq<string>, icons: set<string>,
                       blocks: TaskInput -> bool) returns (r: Result<map<string, string>, Fault>)
      requires Valid() && newId !in categories && FreshIds(jobs, ids)
      requires body.tasks.Some? ==> |body.tasks.value| <= |ids|
      modifies this
      ensures Valid() && (old(AllWellFormed()) ==> AllWellFormed())
      ensures r.Err? ==> categories == old(categories) && jobs == old(jobs)
      ensures r.Ok? <==>
        && (id.Some? ==> id.value in old(categories)) && HeadFault(body, icons).None?
        && Accepted(body.tasks.value, if id.Some? then JobsOf(old(jobs), id.value) else {})
        && (forall k | 0 <= k < |body.tasks.value| && blocks(body.tasks.value[k].task) ::
              body.tasks.value[k].task.isActive == Set(false))
        && !old(Taken(if id.Some? then id.value else newId, Trim(body.name.value)))
      ensures r.Ok? ==>
        var category, tasks := if id.Some? then id.value else newId, body.tasks.value;
        && Checked(tasks, old(jobs)) && Wrote(old(jobs), jobs, Targets(tasks, ids), Rows(old(jobs), category, tasks))
    {
      if id.Some? && id.value !in categories { return Err(NotFound); }
      var existing := if id.Some? then JobsOf(jobs, id.value) else {};
      var fault := ValidateCatalog(body, existing, icons);
      if body.tasks.Some? { AcceptedIff(body.tasks.value, existing, 0); }
      if fault.Some? { return Err(fault.value); }
      var tasks := body.tasks.value;
      for k := 0 to |tasks|
        invariant forall i | 0 <= i < k && blocks(tasks[i].task) :: tasks[i].task.isActive == Set(false)
      {
        if tasks[k].task.isActive != Set(false) && blocks(tasks[k].task) {
          return Err(InJob(Trim(tasks[k].task.name.value), BelowWageFloor));
        }
      }
      r := WriteCatalog(id, body, newId, ids, icons);
    }

    // createTask: the new job is active whatever the body says.
    method CreateTask(category: string, newId: string, body: TaskInput, blocked: bool) returns (r: Result<string, Fault>)
      requires Valid() && newId !in jobs && newId != ""
      modifies this
      ensures Valid() && categories == old(categories)
      ensures r.Ok? <==> category in categories && ValidateTaskInput(body).None? && !blocked
      ensures r.Err? ==> jobs == old(jobs)
      ensures r.Ok? ==> r.value == newId && jobs == old(jobs)[newId := Filled(body, NewJob(category))]
      ensures r.Ok? && old(AllWellFormed()) ==> (AllWellFormed() <==> body.basePrice.n > 0.0)
    {
      if category !in categories { return Err(NotFound); }
      var fault := ValidateTaskInput(body);
      if fault.Some? { return Err(fault.value); }
      if blocked { return Err(BelowWageFloor); }
      jobs := jobs[newId := Filled(body, NewJob(category))];
      assert jobs[newId].isActive && jobs[newId].basePrice == body.basePrice.n;
      r := Ok(newId);
    }

    method UpdateTask(category: string, id: string, body: TaskInput, blocked: bool) returns (r: Result<string, Fault>)
      requires Valid()
      modifies this
      ensures Valid() && categories == old(categories) && (old(AllWellFormed()) ==> AllWellFormed())
      ensures r.Err? ==> jobs == old(jobs)
      ensures r.Ok? <==>
        && id in old(jobs) && old(jobs)[id].category == category && !body.isActive.WrongFlag?
        && var active := Or(body.isActive, old(jobs)[id].isActive);
           ValidateTaskInput(body.(isActive := Set(active))).None? && !(active && blocked)
      ensures r.Ok? ==>
        var active := Or(body.isActive, old(jobs)[id].isActive);
        jobs == old(jobs)[id := Filled(body.(isActive := Set(active)), old(jobs)[id]).(isActive := active)]
    {
      if id !in jobs || jobs[id].category != category { return Err(NotFound); }
      if body.isActive.WrongFlag? { return Err(BadActive); }
      var active := Or(body.isActive, jobs[id].isActive);
      var checked := body.(isActive := Set(active));
      var fault := ValidateTaskInput(checked);
      if fault.Some? { return Err(fault.value); }
      if active && blocked { return Err(BelowWageFloor); }
      FilledIsWellFormed(checked, jobs[id], active);
      jobs := jobs[id := Filled(checked, jobs[id]).(isActive := active)];
      r := Ok(id);
    }

    method ToggleTaskActive(category: string, id: string, isActive: Flag) returns (r: Result<string, Fault>)
      requires Valid()
      modifies this
      ensures Valid() && categories == old(categories) && (old(AllWellFormed()) ==> AllWellFormed())
      ensures r.Err? ==> jobs == old(jobs)
      ensures r.Ok? <==>
        && isActive.Set? && id in old(jobs) && old(jobs)[id].category == category
        && (isActive.b ==> old(jobs)[id].basePrice > 0.0)
      ensures r.Ok? ==> jobs == old(jobs)[id := old(jobs)[id].(isActive := isActive.b)]
    {
      if !isActive.Set? { return Err(BadActive); }
      if id !in jobs || jobs[id].category != category { return Err(NotFound); }
      if isActive.b && !(jobs[id].basePrice > 0.0) { return Err(NotPriced); }
      jobs := jobs[id := jobs[id].(isActive := isActive.b)];
      r := Ok(id);
    }
  }

  // What is accepted, whatever the order of the checks; and the fault told is one there is.

  predicate CountFits(n: Number) {
    n.Nothing? || (n.Of? && n.n >= 1.0)
  }

  predicate QuantitiesFit(body: TaskInput) {
    if body.pricingModel == Some("FIXED") then body.minQuantity.Nothing? && body.maxQuantity.Nothing?
    else
      && !Blank(body.unitLabel) && CountFits(body.minQuantity) && CountFits(body.maxQuantity)
      && (body.minQuantity.Of? && body.maxQuantity.Of? ==> body.minQuantity.n <= body.maxQuantity.n)
  }

  lemma TaskAcceptedIff(body: TaskInput)
    ensures ValidateTaskInput(body).None? <==>
      && !Blank(body.name)
      && body.basePrice.Of? && body.basePrice.n >= 0.0 && (body.isActive == Set(false) || body.basePrice.n > 0.0)
      && (body.pricingModel == Some("FIXED") || body.pricingModel == Some("PER_UNIT"))
      && (body.durationHours.Nothing? || (body.durationHours.Of? && body.durationHours.n > 0.0))
      && !body.allowsFollowUp.WrongFlag?
      && QuantitiesFit(body)
  {
  }

  lemma JobAcceptedIff(job: JobInput, existing: set<string>)
    ensures JobFault(job, existing, {}).None? <==>
      && (if job.id.Some? then job.id.value in existing else job.key.Some? && job.key.value != "")
      && ValidateTaskInput(job.task).None? && !job.task.isActive.WrongFlag?
  {
    hide ValidateTaskInput;
  }

  // Of a list: jobs with an id are rows of the category, the others have a key, and no two share a reference.
  lemma ListAcceptedIff(tasks: seq<JobInput>, jobs: map<string, Job>, category: string)
    ensures Accepted(tasks, JobsOf(jobs, category)) <==>
      && (forall k | 0 <= k < |tasks| ::
            && (if tasks[k].id.Some? then tasks[k].id.value in jobs && jobs[tasks[k].id.value].category == category
                else tasks[k].key.Some? && tasks[k].key.value != "")
            && ValidateTaskInput(tasks[k].task).None? && !tasks[k].task.isActive.WrongFlag?)
      && (forall i, j | 0 <= i < j < |tasks| :: RefOf(tasks[i]) != RefOf(tasks[j]))
  {
    forall k | 0 <= k < |tasks| { JobAcceptedIff(tasks[k], JobsOf(jobs, category)); }
    hide ValidateTaskInput, JobFault, RefOf;
  }

  lemma HeadAcceptedIff(body: CatalogBody, icons: set<string>)
    ensures HeadFault(body, icons).None? <==>
      && !Blank(body.name) && body.basePrice.Of? && body.basePrice.n >= 0.0
      && (body.icon.Some? ==> body.icon.value in icons)
      && (body.backgroundImageUrl.Keep? || body.backgroundImageUrl.url.None?
          || "https://" <= body.backgroundImageUrl.url.value)
      && !body.requiresCertification.WrongFlag?
      && body.tasks.Some?
  {
  }

  // The white space and line terminators of ECMA-262 sections 12.2 and 12.3, the space separators of Unicode included.
  const WHITE_SPACE := ['\t', '\U{000B}', '\U{000C}', ' ', '\U{00A0}', '\U{FEFF}']
  const LINE_TERMINATORS := ['\n', '\r', '\U{2028}', '\U{2029}']
  const OTHER_SEPARATORS := ['\U{1680}', '\U{2000}', '\U{2001}', '\U{2002}', '\U{2003}', '\U{2004}', '\U{2005}',
                             '\U{2006}', '\U{2007}', '\U{2008}', '\U{2009}', '\U{200A}', '\U{202F}', '\U{205F}',
                             '\U{3000}']

  lemma SpacesAre(c: char)
    ensures IsSpace(c) <==> c in WHITE_SPACE || c in LINE_TERMINATORS || c in OTHER_SEPARATORS
  {
  }

  // Trimming takes the white space off both ends and nothing else.

  predicate Spaces(s: string) {
    forall c <- s :: IsSpace(c)
  }

  predicate IsTrimmed(s: string) {
    s == "" || (!IsSpace(s[0]) && !IsSpace(s[|s| - 1]))
  }

  predicate Padded(s: string, a: string, t: string, b: string) {
    s == a + t + b && Spaces(a) && Spaces(b)
  }

  lemma {:induction false} TrimIsTrimmed(s: string)
    ensures IsTrimmed(Trim(s))
    decreases |s|
  {
    hide IsSpace;
    if s != "" && IsSpace(s[0]) {
      TrimIsTrimmed(s[1..]);
    } else if s != "" && IsSpace(s[|s| - 1]) {
      TrimIsTrimmed(s[..|s| - 1]);
    }
  }

  lemma TrimIs(s: string)
    ensures IsTrimmed(Trim(s)) && exists a, b :: Padded(s, a, Trim(s), b)
  {
    TrimIsTrimmed(s);
    var a, b := TrimmedOff(s);
    hide Trim, IsTrimmed, Padded;
  }

  lemma {:induction false} TrimmedOff(s: string) returns (a: string, b: string)
    ensures Padded(s, a, Trim(s), b)
    decreases |s|
  {
    hide IsSpace, Padded;
    if s == "" || (!IsSpace(s[0]) && !IsSpace(s[|s| - 1])) {
      a, b := "", "";
      NothingPadded(s);
    } else if IsSpace(s[0]) {
      a, b := TrimmedOff(s[1..]);
      PaddedMore(s, s[..1], s[1..], [], a, Trim(s[1..]), b);
      a, b := s[..1] + a, b + [];
    } else {
      a, b := TrimmedOff(s[..|s| - 1]);
      PaddedMore(s, [], s[..|s| - 1], s[|s| - 1..], a, Trim(s[..|s| - 1]), b);
      a, b := [] + a, b + s[|s| - 1..];
    }
  }

  lemma NothingPadded(s: string)
    ensures Padded(s, "", s, "")
  {
  }

  lemma PaddedMore(s: string, left: string, middle: string, right: string, a: string, t: string, b: string)
    requires s == left + middle + right && Spaces(left) && Spaces(right) && Padded(middle, a, t, b)
    ensures Padded(s, left + a, t, b + right)
  {
    hide IsSpace;
    assert s == (left + a) + t + (b + right);
  }

  lemma {:induction false} TrimKeeps(s: string)
    requires IsTrimmed(s)
    ensures Trim(s) == s
  {
  }

  // Reading a job into a form and writing the form.

  function NumberOf(n: Option<real>): Number {
    if n.Some? then Of(n.value) else Nothing
  }

  predicate TextFits(s: Option<string>) {
    s.Some? ==> s.value != "" && IsTrimmed(s.value)
  }

  // A job as the two forms leave it.
  predicate Canonical(job: Job) {
    && job.name != "" && IsTrimmed(job.name) && TextFits(job.description) && TextFits(job.unitLabel)
    && job.basePrice >= 0.0 && (job.pricing == FIXED || job.pricing == PER_UNIT) && WellFormed(job)
    && job.minPrice.None? && job.maxPrice.None?
    && (job.durationHours.Some? ==> job.durationHours.value > 0.0)
  }

  function FormOf(job: Job): TaskInput {
    TaskInput(Some(job.name), job.description, Of(job.basePrice),
              Some(if job.pricing == PER_UNIT then "PER_UNIT" else "FIXED"), job.unitLabel,
              NumberOf(job.minQuantity), NumberOf(job.maxQuantity), NumberOf(job.durationHours),
              Set(job.isActive), Set(job.allowsFollowUp))
  }

  lemma TextIsGivenBack(s: Option<string>)
    requires TextFits(s)
    ensures Trimmed(s) == s
  {
    if s.Some? { TrimKeeps(s.value); }
  }

  // The form of any such job is accepted, and writing it over any row makes that row the job.
  lemma FormGivesTheJob(job: Job, row: Job)
    requires Canonical(job)
    ensures ValidateTaskInput(FormOf(job)).None?
    ensures Filled(FormOf(job), row) ==
      job.(category := row.category, sortOrder := row.sortOrder, isActive := row.isActive)
  {
    hide Trim, IsTrimmed;
    TextIsGivenBack(Some(job.name));
    TextIsGivenBack(job.description);
    TextIsGivenBack(job.unitLabel);
    TaskAcceptedIff(FormOf(job));
  }

  // Every accepted form makes such a job, of what it says.
  lemma FilledIsCanonical(body: TaskInput, row: Job, active: bool)
    requires ValidateTaskInput(body).None? && (active ==> body.isActive != Set(false))
    ensures var job := Filled(body, row).(isActive := active);
      && Canonical(job)
      && FormOf(job) == body.(name := Some(Trim(body.name.value)), description := Trimmed(body.description),
                              unitLabel := Trimmed(body.unitLabel), isActive := Set(active),
                              allowsFollowUp := Set(Or(body.allowsFollowUp, row.allowsFollowUp)))
  {
    FilledFits(body, row, active);
    hide Trim, Canonical, QuantitiesFit;
  }

  lemma FilledFits(body: TaskInput, row: Job, active: bool)
    requires ValidateTaskInput(body).None? && (active ==> body.isActive != Set(false))
    ensures Canonical(Filled(body, row).(isActive := active))
  {
    FilledIsWellFormed(body, row, active);
    TextIsTrimmed(body.name);
    TextIsTrimmed(body.description);
    TextIsTrimmed(body.unitLabel);
    hide Trim, IsTrimmed, WellFormed;
  }

  lemma TextIsTrimmed(s: Option<string>)
    ensures TextFits(Trimmed(s))
  {
    if s.Some? { TrimIs(s.value); }
  }

  // A flag that a form leaves out is what it was.
  predicate Says(flag: Flag, b: bool) {
    flag.Unset? || flag == Set(b)
  }

  predicate IsFormOf(body: TaskInput, job: Job) {
    && Says(body.isActive, job.isActive) && Says(body.allowsFollowUp, job.allowsFollowUp)
    && body == FormOf(job).(isActive := body.isActive, allowsFollowUp := body.allowsFollowUp)
  }

  // Saving a category's jobs as they are, in their order, changes none of them.
  lemma SavingAsIsKeepsJobs(jobs: map<string, Job>, category: string, tasks: seq<JobInput>, k: nat)
    requires k < |tasks| && Checked(tasks, jobs) && tasks[k].id.Some?
    requires var job := jobs[tasks[k].id.value];
      Canonical(job) && IsFormOf(tasks[k].task, job) && job.sortOrder == k
    ensures RowAt(jobs, category, tasks, k) == jobs[tasks[k].id.value]
  {
    hide Trim, IsTrimmed, WellFormed;
    var job := jobs[tasks[k].id.value];
    TextIsGivenBack(Some(job.name));
    TextIsGivenBack(job.description);
    TextIsGivenBack(job.unitLabel);
  }

  // A job without a row starts in the category, switched on and without follow-ups, but for what the form says.
  lemma NewJobStarts(jobs: map<string, Job>, category: string, tasks: seq<JobInput>, k: nat)
    requires k < |tasks| && Checked(tasks, jobs) && tasks[k].id.None?
    ensures var job := RowAt(jobs, category, tasks, k);
      && job.category == category && job.sortOrder == k
      && (job.isActive <==> tasks[k].task.isActive != Set(false))
      && (job.allowsFollowUp <==> tasks[k].task.allowsFollowUp == Set(true))
  {
  }

  // The head of a category written over any row makes that row the category, but for the background image it keeps
  // and the certification it does not ask for.
  predicate IsHeadOf(body: CatalogBody, c: Category) {
    && c.name != "" && IsTrimmed(c.name) && TextFits(c.description) && c.icon != Some("") && c.backgroundImageUrl != Some("")
    && body.name == Some(c.name) && body.description == c.description && body.basePrice == Of(c.basePrice)
    && body.icon == c.icon
    && (body.backgroundImageUrl.Keep? || body.backgroundImageUrl == Change(c.backgroundImageUrl))
    && (body.requiresCertification == Set(c.requiresCertification)
        || (body.requiresCertification.Unset? && !c.requiresCertification))
  }

  lemma HeadGivesTheCategory(body: CatalogBody, c: Category, row: Category)
    requires IsHeadOf(body, c)
    ensures HeadFields(body, row) ==
      c.(isActive := row.isActive,
         backgroundImageUrl := if body.backgroundImageUrl.Keep? then row.backgroundImageUrl else c.backgroundImageUrl)
  {
    TextIsGivenBack(Some(c.name));
    TextIsGivenBack(c.description);
  }

  lemma NewCategoryStarts(body: CatalogBody)
    requires body.name.Some? && body.basePrice.Of? && body.backgroundImageUrl.Keep?
    ensures var c := HeadFields(body, NewCategory()); c.isActive && c.backgroundImageUrl.None?
  {
  }

  // A checked new job is well formed exactly when it has a price: a body that switches it off may leave
  // the price at 0, and it is created active.
  lemma CreatedWellFormedIff(category: string, body: TaskInput)
    requires ValidateTaskInput(body).None?
    ensures WellFormed(Filled(body, NewJob(category))) <==> body.basePrice.n > 0.0
    ensures body.isActive != Set(false) ==> body.basePrice.n > 0.0
  {
    if body.basePrice.n > 0.0 { FilledIsWellFormed(body.(isActive := Set(true)), NewJob(category), true); }
  }

  // Such a body: switched off and free, and accepted.
  lemma FreeJobIsAccepted()
    ensures exists body :: ValidateTaskInput(body).None? && !WellFormed(Filled(body, NewJob("")))
  {
    var body := TaskInput(Some("x"), None, Of(0.0), Some("FIXED"), None, Nothing, Nothing, Nothing, Set(false), Unset);
    assert Trim("x") == "x";
    assert ValidateTaskInput(body).None? && Filled(body, NewJob("")).isActive;
  }
}
