// The booking draft: how patches are merged, what they invalidate, and when one idempotency key can stand for two
// different submissions.
module DraftStore {
  // JavaScript values as far as the draft uses them. Lists hold strings; an object is its JSON text.
  datatype Val =
    | Undefined | Null | NaN
    | Str(s: string) | Num(n: real) | Bool(b: bool) | List(items: seq<string>) | Obj(json: string)

  datatype Field =
    | Category | Address | City | Date | Time | Lat | Lng
    | WorkerId | IsAutoMatched | ServiceTaskId | Description | Quantity | IssuePhotoUrls | SelectedPackageIds
    | AddOnToggles | Priorities | Tip | PaymentMethod | PaymentAccountIdentifier
    | IdempotencyKey | WorkerLocked | WorkerName | WorkerEstimatedTotal | WorkerPriceBreakdown | WorkerUnitPrice
    | HoldStartedAt | LastInvalidationReason
    | Other(name: string)

  // A missing property and one that is undefined read alike; only f in patch tells them apart.
  type Draft = map<Field, Val>

  // SUBMITTED_FIELDS
  predicate Submitted(f: Field) {
    match f
    case WorkerId | IsAutoMatched | ServiceTaskId | Description | Quantity | IssuePhotoUrls | SelectedPackageIds
       | AddOnToggles | Priorities | Tip | PaymentMethod | PaymentAccountIdentifier => true
    case _ => false
  }

  const SCHEDULE_CLEARED := Str("Your service or address changed, so we cleared your date/time.")
  const WORKER_CLEARED_FOR_DATE :=
    Str("Your worker isn't confirmed for the new date/time, so we cleared your selection.")
  const WORKER_CLEARED_FOR_SCOPE := Str("Your job details changed, so please pick your worker again.")

  function Get(d: Draft, f: Field): Val {
    if f in d then d[f] else Undefined
  }

  function Put(d: Draft, f: Field, v: Val): (r: Draft)
    ensures forall g :: Get(r, g) == if g == f then v else Get(d, g)
  {
    d[f := v]
  }

  function Merged(prev: Draft, patch: Draft, f: Field): Val {
    if f in patch then patch[f] else Get(prev, f)
  }

  predicate Truthy(v: Val) {
    match v
    case Undefined | Null | NaN => false
    case Str(s) => s != ""
    case Num(n) => n != 0.0
    case Bool(b) => b
    case List(_) | Obj(_) => true
  }

  predicate StrictlyDiffers(a: Val, b: Val) {
    a.NaN? || b.NaN? || a != b
  }

  predicate Nullish(v: Val) {
    v.Undefined? || v.Null?
  }

  // JSON.stringify: NaN prints as null, undefined as nothing; otherwise distinct values print apart.
  function Json(v: Val): Val {
    if v.NaN? then Null else v
  }

  predicate NewValue(prev: Draft, patch: Draft, f: Field) {
    Truthy(Get(patch, f)) && StrictlyDiffers(Get(patch, f), Get(prev, f))
  }

  predicate Changes(prev: Draft, patch: Draft, f: Field) {
    Get(patch, f) != Undefined && StrictlyDiffers(Get(patch, f), Get(prev, f))
  }

  predicate PlaceChanges(prev: Draft, patch: Draft) {
    NewValue(prev, patch, Category) || NewValue(prev, patch, Address) || NewValue(prev, patch, City)
  }

  predicate ClearsSchedule(prev: Draft, patch: Draft) {
    && PlaceChanges(prev, patch)
    && (Truthy(Get(prev, Date)) || Truthy(Get(prev, Time)) || Truthy(Get(prev, WorkerId)))
    && Get(patch, Date).Undefined? && Get(patch, Time).Undefined? && Get(patch, WorkerId).Undefined?
  }

  predicate ScopeChanges(prev: Draft, patch: Draft) {
    Changes(prev, patch, ServiceTaskId) || Changes(prev, patch, Quantity)
  }

  predicate ClearsWorker(prev: Draft, patch: Draft) {
    && (Changes(prev, patch, Date) || ScopeChanges(prev, patch))
    && !Truthy(Merged(prev, patch, WorkerLocked))
    && !Nullish(Get(prev, WorkerId))
    && Get(patch, WorkerId).Undefined?
  }

  predicate PayloadChanges(prev: Draft, patch: Draft) {
    exists f | f in patch :: Submitted(f) && Json(patch[f]) != Json(Get(prev, f))
  }

  predicate DropsKey(prev: Draft, patch: Draft) {
    && (PlaceChanges(prev, patch) || Changes(prev, patch, Date) || Changes(prev, patch, Time)
        || PayloadChanges(prev, patch))
    && Truthy(Get(prev, IdempotencyKey))
    && Get(patch, IdempotencyKey).Undefined?
  }

  // What a worker pick carries, and what each of its fields falls back to.
  predicate Pick(f: Field) {
    match f
    case WorkerId | WorkerEstimatedTotal | WorkerPriceBreakdown | WorkerUnitPrice | IsAutoMatched | HoldStartedAt => true
    case _ => false
  }

  function Unpicked(f: Field): Val {
    if f.IsAutoMatched? then Bool(false) else Null
  }

  // The value of one field after a patch, branch by branch of the reducer.

  function PickCleared(d: Draft, f: Field): Val {
    if Pick(f) then Unpicked(f) else Get(d, f)
  }

  function ScheduleCleared(d: Draft, f: Field): Val {
    if f.LastInvalidationReason? then SCHEDULE_CLEARED
    else if f.Date? || f.Time? then Null
    else if Pick(f) && !Truthy(Get(d, WorkerLocked)) then Unpicked(f)
    else Get(d, f)
  }

  function WorkerCleared(d: Draft, f: Field, reason: Val): Val {
    if f.LastInvalidationReason? then reason
    else if Pick(f) || f.WorkerName? then Unpicked(f)
    else Get(d, f)
  }

  function AfterSchedule(prev: Draft, patch: Draft, f: Field): Val {
    if !ClearsSchedule(prev, patch) then Merged(prev, patch, f)
    else if f.LastInvalidationReason? then SCHEDULE_CLEARED
    else if f.Date? || f.Time? then Null
    else if Pick(f) && !Truthy(Merged(prev, patch, WorkerLocked)) then Unpicked(f)
    else Merged(prev, patch, f)
  }

  function AfterWorker(prev: Draft, patch: Draft, f: Field): Val {
    if !ClearsWorker(prev, patch) then AfterSchedule(prev, patch, f)
    else if f.LastInvalidationReason? then
      if Changes(prev, patch, Date) then WORKER_CLEARED_FOR_DATE else WORKER_CLEARED_FOR_SCOPE
    else if Pick(f) || f.WorkerName? then Unpicked(f)
    else AfterSchedule(prev, patch, f)
  }

  function FieldAfter(prev: Draft, patch: Draft, f: Field): Val {
    if f.IdempotencyKey? && DropsKey(prev, patch) then Null else AfterWorker(prev, patch, f)
  }

  const DERIVED_FIELDS: set<Field> :=
    {WorkerId, WorkerEstimatedTotal, WorkerPriceBreakdown, WorkerUnitPrice, IsAutoMatched, HoldStartedAt,
     WorkerName, LastInvalidationReason, Date, Time, IdempotencyKey}

  function Reduced(prev: Draft, patch: Draft): Draft {
    map f | f in prev.Keys + patch.Keys + DERIVED_FIELDS :: FieldAfter(prev, patch, f)
  }

  lemma ReducedField(prev: Draft, patch: Draft, f: Field)
    ensures Get(Reduced(prev, patch), f) == FieldAfter(prev, patch, f)
  {
  }

  lemma MergedField(prev: Draft, patch: Draft, f: Field)
    requires !ClearsSchedule(prev, patch) && !ClearsWorker(prev, patch) && (f.IdempotencyKey? ==> !DropsKey(prev, patch))
    ensures Get(Reduced(prev, patch), f) == Merged(prev, patch, f)
  {
    hide Reduced, ClearsSchedule, ClearsWorker, DropsKey;
    ReducedField(prev, patch, f);
  }

  ghost predicate Alike(a: Draft, b: Draft) {
    forall f :: Get(a, f) == Get(b, f)
  }

  function WithoutWorker(d: Draft, reason: Val): Draft {
    (if Truthy(Get(d, WorkerLocked)) then d else d[WorkerId := Null])[LastInvalidationReason := reason]
  }

  predicate Submittable(d: Draft) {
    && Truthy(Get(d, Category)) && Truthy(Get(d, Address))
    && !Nullish(Get(d, Lat)) && !Nullish(Get(d, Lng))
    && Truthy(Get(d, Date)) && Truthy(Get(d, Time))
    && (Truthy(Get(d, WorkerId)) || Truthy(Get(d, IsAutoMatched)))
    && Truthy(Get(d, PaymentMethod))
  }

  // What is missing for a submission, as validateDraftForSubmit words it.
  datatype Message =
    | SelectCategory | EnterAddress | LocateAddress | SelectDate | SelectTime | SelectWorker | SelectPayment

  function Noted(errors: seq<Message>, missing: bool, m: Message): (noted: seq<Message>)
    ensures forall x :: x in noted <==> x in errors || (missing && x == m)
    ensures noted == [] <==> errors == [] && !missing
  {
    if missing then errors + [m] else errors
  }

  // The store actions, which edit a copy of the draft in place.
  class BookingStore {
    var draft: Draft

    constructor (initial: Draft)
      ensures draft == initial
    {
      draft := initial;
    }

    method ClearPick(d: Draft) returns (updated: Draft)
      ensures forall f :: Get(updated, f) == PickCleared(d, f)
    {
      updated := Put(Put(Put(d, WorkerId, Null), WorkerEstimatedTotal, Null), WorkerPriceBreakdown, Null);
      updated := Put(Put(Put(updated, WorkerUnitPrice, Null), IsAutoMatched, Bool(false)), HoldStartedAt, Null);
    }

    method ClearSchedule(d: Draft) returns (updated: Draft)
      ensures forall f :: Get(updated, f) == ScheduleCleared(d, f)
    {
      updated := Put(Put(d, Date, Null), Time, Null);
      if !Truthy(Get(updated, WorkerLocked)) { updated := ClearPick(updated); }
      updated := Put(updated, LastInvalidationReason, SCHEDULE_CLEARED);
    }

    method ClearWorker(d: Draft, reason: Val) returns (updated: Draft)
      ensures forall f :: Get(updated, f) == WorkerCleared(d, f, reason)
    {
      updated := ClearPick(d);
      updated := Put(Put(updated, WorkerName, Null), LastInvalidationReason, reason);
    }

    method SetDraft(patch: Draft)
      modifies this
      ensures Alike(draft, Reduced(old(draft), patch))
    {
      var prev, updated := draft, draft + patch;
      assert forall f :: Get(updated, f) == Merged(prev, patch, f);
      var placeChanged := PlaceChanges(prev, patch);
      if placeChanged
         && (Truthy(Get(prev, Date)) || Truthy(Get(prev, Time)) || Truthy(Get(prev, WorkerId)))
         && Get(patch, Date).Undefined? && Get(patch, Time).Undefined? && Get(patch, WorkerId).Undefined? {
        updated := ClearSchedule(updated);
      }
      assert forall f :: Get(updated, f) == AfterSchedule(prev, patch, f);
      var dateChanged, timeChanged := Changes(prev, patch, Date), Changes(prev, patch, Time);
      if (dateChanged || ScopeChanges(prev, patch))
         && !Truthy(Get(updated, WorkerLocked)) && !Nullish(Get(prev, WorkerId)) && Get(patch, WorkerId).Undefined? {
        updated := ClearWorker(updated, if dateChanged then WORKER_CLEARED_FOR_DATE else WORKER_CLEARED_FOR_SCOPE);
      }
      assert forall f :: Get(updated, f) == AfterWorker(prev, patch, f);
      if (placeChanged || dateChanged || timeChanged || PayloadChanges(prev, patch))
         && Truthy(Get(prev, IdempotencyKey)) && Get(patch, IdempotencyKey).Undefined? {
        updated := Put(updated, IdempotencyKey, Null);
      }
      forall f ensures Get(updated, f) == Get(Reduced(prev, patch), f) { ReducedField(prev, patch, f); }
      draft := updated;
    }

    method InvalidateSchedule(reason: Val)
      modifies this
      ensures draft == WithoutWorker(old(draft)[Date := Null], reason)
    {
      var copy := draft[Date := Null];
      if !Truthy(Get(copy, WorkerLocked)) { copy := copy[WorkerId := Null]; }
      draft := copy[LastInvalidationReason := reason];
    }

    method InvalidateWorker(reason: Val)
      modifies this
      ensures draft == WithoutWorker(old(draft), reason)
    {
      var copy := draft;
      if !Truthy(Get(copy, WorkerLocked)) { copy := copy[WorkerId := Null]; }
      draft := copy[LastInvalidationReason := reason];
    }

    // One message for each thing missing; none exactly when the draft can be submitted.
    method ValidateDraftForSubmit() returns (errors: seq<Message>)
      ensures errors == [] <==> Submittable(draft)
      ensures SelectCategory in errors <==> !Truthy(Get(draft, Category))
      ensures EnterAddress in errors <==> !Truthy(Get(draft, Address))
      ensures LocateAddress in errors <==> Nullish(Get(draft, Lat)) || Nullish(Get(draft, Lng))
      ensures SelectDate in errors <==> !Truthy(Get(draft, Date))
      ensures SelectTime in errors <==> !Truthy(Get(draft, Time))
      ensures SelectWorker in errors <==> !Truthy(Get(draft, WorkerId)) && !Truthy(Get(draft, IsAutoMatched))
      ensures SelectPayment in errors <==> !Truthy(Get(draft, PaymentMethod))
    {
      hide Noted, Truthy, Nullish, Get;
      errors := [];
      errors := Noted(errors, !Truthy(Get(draft, Category)), SelectCategory);
      errors := Noted(errors, !Truthy(Get(draft, Address)), EnterAddress);
      errors := Noted(errors, Nullish(Get(draft, Lat)) || Nullish(Get(draft, Lng)), LocateAddress);
      errors := Noted(errors, !Truthy(Get(draft, Date)), SelectDate);
      errors := Noted(errors, !Truthy(Get(draft, Time)), SelectTime);
      errors := Noted(errors, !Truthy(Get(draft, WorkerId)) && !Truthy(Get(draft, IsAutoMatched)), SelectWorker);
      errors := Noted(errors, !Truthy(Get(draft, PaymentMethod)), SelectPayment);
    }
  }

  // Runs of store actions.

  datatype Action = SetDraft(patch: Draft) | InvalidateSchedule(reason: Val) | InvalidateWorker(reason: Val)

  // A patch at which the reducer sees nothing to drop a key for.
  predicate Quiet(d: Draft, patch: Draft) {
    && !PlaceChanges(d, patch) && !Changes(d, patch, Date) && !Changes(d, patch, Time)
    && !PayloadChanges(d, patch)
  }

  // A patch carries a given key only where the draft holds that key already, and then changes nothing, as when a
  // failed submission is sent again. Any other key, or none, may come with any changes.
  predicate Honest(d: Draft, a: Action, key: Val) {
    a.SetDraft? && Get(a.patch, IdempotencyKey) == key ==> Get(d, IdempotencyKey) == key && Quiet(d, a.patch)
  }

  predicate AllHonest(d: Draft, actions: seq<Action>, key: Val)
    decreases |actions|
  {
    actions != [] ==> Honest(d, actions[0], key) && AllHonest(After(d, actions[0]), actions[1..], key)
  }

  function After(d: Draft, a: Action): Draft {
    match a
    case SetDraft(patch) => Reduced(d, patch)
    case InvalidateSchedule(reason) => WithoutWorker(d[Date := Null], reason)
    case InvalidateWorker(reason) => WithoutWorker(d, reason)
  }

  function Run(d: Draft, actions: seq<Action>): Draft
    decreases |actions|
  {
    if actions == [] then d else Run(After(d, actions[0]), actions[1..])
  }

  predicate SameKey(a: Draft, b: Draft) {
    Truthy(Get(a, IdempotencyKey)) && Get(b, IdempotencyKey) == Get(a, IdempotencyKey)
  }

  // While the key lives, a guarded field is as it was or has become empty, and an emptied one stays so.

  predicate Guarded(f: Field) {
    f.Category? || f.Address? || f.City? || f.Date? || f.Time?
  }

  predicate SameOrEmpty(a: Draft, b: Draft, f: Field) {
    Get(b, f) == Get(a, f) || !Truthy(Get(b, f))
  }

  predicate SameJson(a: Draft, b: Draft, f: Field) {
    Json(Get(a, f)) == Json(Get(b, f))
  }

  predicate FieldHeld(a: Draft, b: Draft, f: Field) {
    && (Guarded(f) ==> SameOrEmpty(a, b, f))
    && (Submitted(f) && !f.WorkerId? && !f.IsAutoMatched? ==> SameJson(a, b, f))
  }

  predicate WorkerHeld(a: Draft, b: Draft) {
    || (SameJson(a, b, WorkerId) && SameJson(a, b, IsAutoMatched))
    || (Nullish(Json(Get(b, WorkerId))) && (SameJson(a, b, IsAutoMatched) || !Truthy(Get(b, IsAutoMatched))))
  }

  // The worker is gone only together with the date or with automatic matching.
  predicate WorkerKept(a: Draft, b: Draft) {
    SameJson(a, b, WorkerId) || !Truthy(Get(b, Date)) || (!Truthy(Get(b, WorkerId)) && !Truthy(Get(b, IsAutoMatched)))
  }

  ghost predicate Held(a: Draft, b: Draft) {
    WorkerHeld(a, b) && forall f :: FieldHeld(a, b, f)
  }

  lemma KeyComesFromBefore(d: Draft, a: Action, key: Val)
    requires Truthy(key) && Honest(d, a, key) && Get(After(d, a), IdempotencyKey) == key
    ensures Get(d, IdempotencyKey) == key && (a.SetDraft? ==> Quiet(d, a.patch))
  {
    if a.SetDraft? { ReducedField(d, a.patch, IdempotencyKey); }
  }

  lemma QuietKeepsSchedule(d: Draft, patch: Draft)
    requires Quiet(d, patch)
    ensures !ClearsSchedule(d, patch)
  {
  }

  lemma KeptScheduleMerges(d: Draft, patch: Draft, f: Field)
    requires !ClearsSchedule(d, patch)
    requires !Pick(f) && !f.WorkerName? && !f.LastInvalidationReason? && !f.IdempotencyKey?
    ensures Get(Reduced(d, patch), f) == Merged(d, patch, f)
  {
    hide Reduced, ClearsSchedule, ClearsWorker, DropsKey, Pick, Get, Merged;
    ReducedField(d, patch, f);
  }

  lemma QuietPatchHoldsField(d: Draft, patch: Draft, f: Field)
    requires Quiet(d, patch)
    ensures FieldHeld(d, Reduced(d, patch), f)
  {
    QuietKeepsSchedule(d, patch);
    hide Reduced, ClearsSchedule;
    if Guarded(f) || (Submitted(f) && !f.WorkerId? && !f.IsAutoMatched?) {
      KeptScheduleMerges(d, patch, f);
      if Submitted(f) && f in patch { assert Json(patch[f]) == Json(Get(d, f)); }
    }
  }

  lemma QuietPatchHoldsWorker(d: Draft, patch: Draft)
    requires Quiet(d, patch)
    ensures var d' := Reduced(d, patch);
      || (SameJson(d, d', WorkerId) && SameJson(d, d', IsAutoMatched))
      || (Get(d', WorkerId).Null? && Get(d', IsAutoMatched) == Bool(false))
  {
    ReducedField(d, patch, WorkerId);
    ReducedField(d, patch, IsAutoMatched);
    assert WorkerId in patch ==> Json(patch[WorkerId]) == Json(Get(d, WorkerId));
    assert IsAutoMatched in patch ==> Json(patch[IsAutoMatched]) == Json(Get(d, IsAutoMatched));
  }

  lemma PatchHolds(a: Draft, d: Draft, patch: Draft)
    requires Quiet(d, patch) && Held(a, d)
    ensures Held(a, Reduced(d, patch)) && (WorkerKept(a, d) ==> WorkerKept(a, Reduced(d, patch)))
  {
    var e := Reduced(d, patch);
    forall f ensures FieldHeld(a, e, f) {
      QuietPatchHoldsField(d, patch, f);
      assert FieldHeld(a, d, f);
    }
    QuietPatchHoldsWorker(d, patch);
    QuietPatchHoldsField(d, patch, Date);
  }

  lemma StepHolds(a: Draft, d: Draft, action: Action)
    requires SameKey(a, After(d, action)) && Honest(d, action, Get(a, IdempotencyKey)) && Held(a, d)
    ensures Held(a, After(d, action))
    ensures WorkerKept(a, d) && !action.InvalidateWorker? ==> WorkerKept(a, After(d, action))
  {
    KeyComesFromBefore(d, action, Get(a, IdempotencyKey));
    if action.SetDraft? {
      PatchHolds(a, d, action.patch);
    } else {
      var e := After(d, action);
      forall f ensures FieldHeld(a, e, f) { assert FieldHeld(a, d, f); }
    }
  }

  lemma {:induction false} RunHolds(a: Draft, d: Draft, actions: seq<Action>)
    requires Held(a, d) && SameKey(a, Run(d, actions)) && AllHonest(d, actions, Get(a, IdempotencyKey))
    ensures Held(a, Run(d, actions)) && SameKey(a, d)
    ensures WorkerKept(a, d) && (forall i | 0 <= i < |actions| :: !actions[i].InvalidateWorker?) ==>
              WorkerKept(a, Run(d, actions))
    decreases |actions|
  {
    if actions != [] {
      KeyWasAlways(After(d, actions[0]), actions[1..], Get(a, IdempotencyKey));
      KeyComesFromBefore(d, actions[0], Get(a, IdempotencyKey));
      StepHolds(a, d, actions[0]);
      RunHolds(a, After(d, actions[0]), actions[1..]);
    }
  }

  lemma {:induction false} KeyWasAlways(d: Draft, actions: seq<Action>, key: Val)
    requires Truthy(key) && AllHonest(d, actions, key) && Get(Run(d, actions), IdempotencyKey) == key
    ensures Get(d, IdempotencyKey) == key
    decreases |actions|
  {
    if actions != [] {
      KeyWasAlways(After(d, actions[0]), actions[1..], key);
      KeyComesFromBefore(d, actions[0], key);
    }
  }

  // The worker that a submission posts.
  function PostedWorker(d: Draft): Val {
    if Truthy(Get(d, IsAutoMatched)) then Null else Get(d, WorkerId)
  }

  ghost predicate SamePayload(a: Draft, b: Draft) {
    && (forall f | Guarded(f) && !f.City? :: Get(a, f) == Get(b, f))
    && (forall f | Submitted(f) && !f.WorkerId? :: SameJson(a, b, f))
    && Json(PostedWorker(a)) == Json(PostedWorker(b))
  }

  lemma HeldAndSubmittable(a: Draft, b: Draft)
    requires Held(a, b) && Submittable(a) && Submittable(b)
    ensures SamePayload(a, b) && SameOrEmpty(a, b, City) && (WorkerKept(a, b) ==> SameJson(a, b, WorkerId))
  {
    forall f ensures Guarded(f) && !f.City? ==> Get(a, f) == Get(b, f) { assert FieldHeld(a, b, f); }
    forall f ensures Submitted(f) && !f.WorkerId? ==> SameJson(a, b, f) { assert FieldHeld(a, b, f); }
    assert FieldHeld(a, b, City);
  }

  // What a submission posts of the guarded and submitted fields, as the request's JSON has it.
  datatype Post = Post(
    worker: Val, category: Val, task: Val, description: Val, address: Val, date: Val, time: Val,
    packages: Val, priorities: Val, tip: Val, payment: Val, account: Val, quantity: Val, photos: Val)

  function PostOf(d: Draft): Post {
    Post(Json(PostedWorker(d)), Json(Get(d, Category)), Json(Get(d, ServiceTaskId)), Json(Get(d, Description)),
         Json(Get(d, Address)), Json(Get(d, Date)), Json(Get(d, Time)), Json(Get(d, SelectedPackageIds)),
         Json(Get(d, Priorities)), Json(Get(d, Tip)), Json(Get(d, PaymentMethod)),
         Json(Get(d, PaymentAccountIdentifier)), Json(Get(d, Quantity)), Json(Get(d, IssuePhotoUrls)))
  }

  lemma SamePayloadPosts(a: Draft, b: Draft)
    requires SamePayload(a, b)
    ensures PostOf(a) == PostOf(b)
  {
    assert forall f | f in {Category, Address, Date, Time} :: Guarded(f) && !f.City?;
    assert SameJson(a, b, ServiceTaskId) && SameJson(a, b, Description) && SameJson(a, b, SelectedPackageIds);
    assert SameJson(a, b, Priorities) && SameJson(a, b, Tip) && SameJson(a, b, PaymentMethod);
    assert SameJson(a, b, PaymentAccountIdentifier) && SameJson(a, b, Quantity) && SameJson(a, b, IssuePhotoUrls);
  }

  // Two submittable drafts of one run that hold the same key post the same thing, but that the city may be gone.
  lemma OneKeyOnePayload(d: Draft, actions: seq<Action>)
    requires Submittable(d) && Submittable(Run(d, actions)) && SameKey(d, Run(d, actions))
    requires AllHonest(d, actions, Get(d, IdempotencyKey))
    ensures SamePayload(d, Run(d, actions)) && SameOrEmpty(d, Run(d, actions), City)
    ensures PostOf(d) == PostOf(Run(d, actions))
    ensures (forall i | 0 <= i < |actions| :: !actions[i].InvalidateWorker?) ==> SameJson(d, Run(d, actions), WorkerId)
  {
    assert Held(d, d);
    RunHolds(d, d, actions);
    HeldAndSubmittable(d, Run(d, actions));
    hide SamePayload;
    SamePayloadPosts(d, Run(d, actions));
  }

  const SUBMIT_FIELDS: set<Field> :=
    {PaymentMethod, PaymentAccountIdentifier, Priorities, AddOnToggles, SelectedPackageIds, Tip, IdempotencyKey}

  lemma SubmitPatchMerges(d: Draft, patch: Draft)
    requires patch.Keys <= SUBMIT_FIELDS
    ensures forall f: Field | f in patch && !f.IdempotencyKey? :: Get(Reduced(d, patch), f) == patch[f]
  {
    hide Reduced;
    assert !PlaceChanges(d, patch) && !ClearsWorker(d, patch);
    forall f: Field | f in patch && !f.IdempotencyKey? ensures Get(Reduced(d, patch), f) == patch[f] {
      MergedField(d, patch, f);
    }
  }

  // The patch that a submission makes, key and all, may be made again.
  lemma ResentSubmitIsHonest(d: Draft, patch: Draft, key: Val)
    requires patch.Keys <= SUBMIT_FIELDS && Get(patch, IdempotencyKey) == key && Truthy(key)
    ensures Honest(After(d, SetDraft(patch)), SetDraft(patch), key)
  {
    hide Reduced;
    var e := Reduced(d, patch);
    SubmitPatchMerges(d, patch);
    assert !PlaceChanges(d, patch) && !ClearsWorker(d, patch);
    MergedField(d, patch, IdempotencyKey);
    assert !PlaceChanges(e, patch) && Get(patch, Date).Undefined? && Get(patch, Time).Undefined?;
  }

  // Submitted fields that clear nothing else.
  predicate Plain(f: Field, v: Val) {
    && Submitted(f) && !f.WorkerId? && !f.IsAutoMatched? && !f.ServiceTaskId? && !f.Quantity?
    && (f.PaymentMethod? ==> Truthy(v))
  }

  // A patch that carries the key keeps it whatever else it changes, and then the key stands for two payloads.
  lemma CarriedKeyHidesChange(d: Draft, f: Field, v: Val)
    requires Submittable(d) && Truthy(Get(d, IdempotencyKey)) && Plain(f, v)
    ensures var e := After(d, SetDraft(map[f := v, IdempotencyKey := Get(d, IdempotencyKey)]));
      && Submittable(e) && SameKey(d, e)
      && (SamePayload(d, e) <==> Json(v) == Json(Get(d, f)))
  {
    var patch := map[f := v, IdempotencyKey := Get(d, IdempotencyKey)];
    var e := Reduced(d, patch);
    assert !ClearsSchedule(d, patch) && !ClearsWorker(d, patch) && !DropsKey(d, patch);
    hide Reduced, ClearsSchedule, ClearsWorker, DropsKey;
    forall g ensures Get(e, g) == if g == f then v else Get(d, g) { MergedField(d, patch, g); }
    OneFieldSubmittable(d, e, f, v);
    OneFieldPosted(d, e, f, v);
    hide Submittable, Plain, SamePayload;
  }

  lemma OneFieldPosted(d: Draft, e: Draft, f: Field, v: Val)
    requires Plain(f, v) && forall g :: Get(e, g) == if g == f then v else Get(d, g)
    ensures SamePayload(d, e) <==> Json(v) == Json(Get(d, f))
  {
    hide Json;
    assert SameJson(d, e, f) <==> Json(v) == Json(Get(d, f));
  }

  predicate Harmless(f: Field, v: Val) {
    match f
    case Lat | Lng => !Nullish(v)
    case PaymentMethod => Truthy(v)
    case Category | Address | Date | Time | WorkerId | IsAutoMatched => false
    case _ => true
  }

  lemma OneFieldSubmittable(d: Draft, e: Draft, f: Field, v: Val)
    requires Submittable(d) && Harmless(f, v) && forall g :: Get(e, g) == if g == f then v else Get(d, g)
    ensures Submittable(e)
  {
    hide Get, Nullish, Truthy;
  }

  // invalidateWorker keeps the key of an auto-matched draft: the drafts differ, what they post does not.
  lemma InvalidateWorkerKeepsKey(d: Draft, reason: Val)
    requires Submittable(d) && Truthy(Get(d, IdempotencyKey))
    requires Truthy(Get(d, IsAutoMatched)) && Truthy(Get(d, WorkerId)) && !Truthy(Get(d, WorkerLocked))
    ensures var e := After(d, InvalidateWorker(reason));
      Submittable(e) && SameKey(d, e) && !SameJson(d, e, WorkerId)
  {
  }

  predicate Unguarded(f: Field, v: Val) {
    ((f.Lat? || f.Lng?) && !Nullish(v)) || f.Other? || (f.City? && !Truthy(v))
  }

  lemma UnguardedPatch(d: Draft, f: Field, v: Val)
    requires Unguarded(f, v)
    ensures forall g :: Get(Reduced(d, map[f := v]), g) == if g == f then v else Get(d, g)
  {
    var patch := map[f := v];
    assert !DropsKey(d, patch) && !ClearsSchedule(d, patch) && !ClearsWorker(d, patch);
    forall g ensures Get(Reduced(d, patch), g) == if g == f then v else Get(d, g) { ReducedField(d, patch, g); }
  }

  lemma UnguardedIsHarmless(f: Field, v: Val)
    requires Unguarded(f, v)
    ensures Harmless(f, v) && !f.IdempotencyKey?
  {
  }

  // What else is posted is not guarded: coordinates, the service name, the parent booking, an emptied city.
  lemma UnguardedFieldKeepsKey(d: Draft, f: Field, v: Val)
    requires Submittable(d) && Truthy(Get(d, IdempotencyKey)) && v != Get(d, f)
    requires Unguarded(f, v)
    ensures var e := After(d, SetDraft(map[f := v]));
      Submittable(e) && SameKey(d, e) && Get(e, f) == v
  {
    hide Reduced, Submittable, Truthy, Submitted;
    UnguardedIsHarmless(f, v);
    hide Unguarded, Harmless;
    UnguardedPatch(d, f, v);
    OneFieldSubmittable(d, Reduced(d, map[f := v]), f, v);
  }

  // Between submittable drafts, a patch that carries no key leaves the key exactly when no guarded field has another
  // value and every submitted field prints as before.
  lemma KeySurvivesIff(d: Draft, patch: Draft)
    requires Submittable(d) && Truthy(Get(d, IdempotencyKey))
    requires IdempotencyKey !in patch && Submittable(Reduced(d, patch))
    ensures var e := Reduced(d, patch);
      SameKey(d, e) <==> forall f :: (Guarded(f) ==> SameOrEmpty(d, e, f)) && (Submitted(f) ==> SameJson(d, e, f))
  {
    var e := Reduced(d, patch);
    ReducedField(d, patch, IdempotencyKey);
    if Quiet(d, patch) {
      QuietPatchHoldsWorker(d, patch);
      forall f ensures (Guarded(f) ==> SameOrEmpty(d, e, f)) && (Submitted(f) ==> SameJson(d, e, f)) {
        QuietPatchHoldsField(d, patch, f);
      }
    } else {
      assert !SameKey(d, e);
      LoudPatchShows(d, patch);
    }
  }

  lemma SubmittableMerges(d: Draft, patch: Draft, f: Field)
    requires Submittable(Reduced(d, patch)) && !f.IdempotencyKey?
    ensures Get(Reduced(d, patch), f) == Merged(d, patch, f)
  {
    hide Reduced, ClearsSchedule, ClearsWorker, DropsKey;
    ReducedField(d, patch, Date);
    ReducedField(d, patch, WorkerId);
    ReducedField(d, patch, IsAutoMatched);
    ReducedField(d, patch, f);
  }

  lemma NewValueShows(d: Draft, patch: Draft, f: Field)
    requires Submittable(d) && Submittable(Reduced(d, patch)) && Guarded(f)
    requires if f.Date? || f.Time? then Changes(d, patch, f) else NewValue(d, patch, f)
    ensures !SameOrEmpty(d, Reduced(d, patch), f)
  {
    hide Reduced;
    SubmittableMerges(d, patch, f);
  }

  lemma LoudPatchShows(d: Draft, patch: Draft)
    requires Submittable(d) && Submittable(Reduced(d, patch)) && !Quiet(d, patch)
    ensures exists f :: (Guarded(f) && !SameOrEmpty(d, Reduced(d, patch), f))
                     || (Submitted(f) && !SameJson(d, Reduced(d, patch), f))
  {
    hide Reduced, Submittable, SameOrEmpty, NewValue, Changes;
    if PayloadChanges(d, patch) {
      var f :| f in patch && Submitted(f) && Json(patch[f]) != Json(Get(d, f));
      SubmittableMerges(d, patch, f);
      assert !SameJson(d, Reduced(d, patch), f);
    } else {
      var f := if NewValue(d, patch, Category) then Category else if NewValue(d, patch, Address) then Address
        else if NewValue(d, patch, City) then City else if Changes(d, patch, Date) then Date else Time;
      NewValueShows(d, patch, f);
    }
  }

  // What a patch invalidates, told from the draft before, the patch and the draft after.

  predicate Given(patch: Draft, f: Field) {
    f in patch && !patch[f].Undefined?
  }

  // JavaScript's !==, for which NaN is not even itself.
  predicate GivesOther(prev: Draft, patch: Draft, f: Field) {
    Given(patch, f) && (patch[f].NaN? || patch[f] != Get(prev, f))
  }

  predicate MovesPlace(prev: Draft, patch: Draft) {
    exists f | f in {Category, Address, City} :: Truthy(Get(patch, f)) && GivesOther(prev, patch, f)
  }

  predicate ChangesJob(prev: Draft, patch: Draft) {
    GivesOther(prev, patch, Date) || GivesOther(prev, patch, ServiceTaskId) || GivesOther(prev, patch, Quantity)
  }

  lemma ClearingIs(prev: Draft, patch: Draft)
    ensures MovesPlace(prev, patch) <==> PlaceChanges(prev, patch)
    ensures ChangesJob(prev, patch) <==> Changes(prev, patch, Date) || ScopeChanges(prev, patch)
  {
    assert Category in {Category, Address, City} && Address in {Category, Address, City} && City in {Category, Address, City};
  }

  // A selected worker outlives a patch that does not name one exactly when it is locked, or date, task and quantity
  // get no other value and no new place cleared the schedule.
  lemma WorkerOutlivesIff(prev: Draft, patch: Draft)
    requires Truthy(Get(prev, WorkerId)) && WorkerId !in patch
    ensures var e := Reduced(prev, patch);
      Get(e, WorkerId) == Get(prev, WorkerId) <==>
        || Truthy(Get(e, WorkerLocked))
        || (!ChangesJob(prev, patch) && (MovesPlace(prev, patch) ==> Given(patch, Date) || Given(patch, Time)))
  {
    ClearingIs(prev, patch);
    ReducedField(prev, patch, WorkerId);
    ReducedField(prev, patch, WorkerLocked);
    hide Reduced, MovesPlace, PlaceChanges, ChangesJob, Changes, ScopeChanges;
  }

  predicate LosesWorker(prev: Draft, patch: Draft) {
    Truthy(Get(prev, WorkerId)) && WorkerId !in patch && Get(Reduced(prev, patch), WorkerId) != Get(prev, WorkerId)
  }

  lemma LosingClears(prev: Draft, patch: Draft)
    requires LosesWorker(prev, patch)
    ensures ClearsWorker(prev, patch) || (ClearsSchedule(prev, patch) && !Truthy(Merged(prev, patch, WorkerLocked)))
    ensures ClearsWorker(prev, patch) <==> ChangesJob(prev, patch)
  {
    ClearingIs(prev, patch);
    ReducedField(prev, patch, WorkerId);
    hide Reduced, PlaceChanges, ChangesJob, Changes, ScopeChanges;
  }

  // One that does not takes its prices, its hold and the matching along.
  lemma LostWorkerIsCleared(prev: Draft, patch: Draft, f: Field)
    requires LosesWorker(prev, patch)
    requires f in {WorkerId, WorkerEstimatedTotal, WorkerPriceBreakdown, WorkerUnitPrice, HoldStartedAt, IsAutoMatched}
    ensures Get(Reduced(prev, patch), f) == if f == IsAutoMatched then Bool(false) else Null
  {
    LosingClears(prev, patch);
    hide Reduced, ClearsSchedule, ClearsWorker, DropsKey, ChangesJob;
    ReducedField(prev, patch, f);
  }

  // And the reason is told; the name goes only if the job changed.
  lemma LostWorkerIsTold(prev: Draft, patch: Draft)
    requires LosesWorker(prev, patch)
    ensures var e := Reduced(prev, patch);
      && Get(e, LastInvalidationReason) == (
           if GivesOther(prev, patch, Date) then WORKER_CLEARED_FOR_DATE
           else if ChangesJob(prev, patch) then WORKER_CLEARED_FOR_SCOPE
           else SCHEDULE_CLEARED)
      && Get(e, WorkerName) == if ChangesJob(prev, patch) then Null else Merged(prev, patch, WorkerName)
  {
    LosingClears(prev, patch);
    assert GivesOther(prev, patch, Date) <==> Changes(prev, patch, Date);
    assert GivesOther(prev, patch, Date) ==> ChangesJob(prev, patch);
    hide Reduced, ClearsSchedule, ClearsWorker, DropsKey, ChangesJob, GivesOther, Changes;
    ReducedField(prev, patch, LastInvalidationReason);
    ReducedField(prev, patch, WorkerName);
  }

  // A date or time that is set outlives a patch that does not name it exactly when the place stays, or the patch
  // gives a date, a time or a worker for the new one; otherwise date and time both go, and the reason is told.
  lemma ScheduleOutlivesIff(prev: Draft, patch: Draft, f: Field)
    requires (f.Date? || f.Time?) && Truthy(Get(prev, f)) && f !in patch
    ensures var e := Reduced(prev, patch);
      if MovesPlace(prev, patch) && !Given(patch, Date) && !Given(patch, Time) && !Given(patch, WorkerId) then
        Get(e, Date).Null? && Get(e, Time).Null? && Get(e, LastInvalidationReason) in {SCHEDULE_CLEARED, WORKER_CLEARED_FOR_SCOPE}
      else Get(e, f) == Get(prev, f)
  {
    ClearingIs(prev, patch);
    hide Reduced, MovesPlace, PlaceChanges, ChangesJob, ScopeChanges, DropsKey;
    ReducedField(prev, patch, f);
    ReducedField(prev, patch, Date);
    ReducedField(prev, patch, Time);
    ReducedField(prev, patch, LastInvalidationReason);
  }

  // Every other field is as patched.
  lemma OtherFieldsMerge(prev: Draft, patch: Draft, f: Field)
    requires f !in {Date, Time, WorkerId, WorkerName, WorkerEstimatedTotal, WorkerPriceBreakdown, WorkerUnitPrice,
                    IsAutoMatched, HoldStartedAt, LastInvalidationReason, IdempotencyKey}
    ensures Get(Reduced(prev, patch), f) == if f in patch then patch[f] else Get(prev, f)
  {
    hide Reduced, ClearsSchedule, ClearsWorker, DropsKey;
    ReducedField(prev, patch, f);
  }

  // Nor is there anything to clear in a draft without date, time and worker, whatever place or job it is given.
  lemma NothingToClear(prev: Draft, patch: Draft, f: Field)
    requires !Truthy(Get(prev, Date)) && !Truthy(Get(prev, Time)) && Nullish(Get(prev, WorkerId)) && !f.IdempotencyKey?
    ensures Get(Reduced(prev, patch), f) == if f in patch then patch[f] else Get(prev, f)
  {
    hide Reduced, DropsKey;
    ReducedField(prev, patch, f);
    hide PlaceChanges, Changes, ScopeChanges;
  }

  // And a worker that the patch names is the one it names, with what the patch says of it.
  lemma NamedWorkerStays(prev: Draft, patch: Draft, f: Field)
    requires Given(patch, WorkerId) && !f.IdempotencyKey?
    ensures Get(Reduced(prev, patch), f) == if f in patch then patch[f] else Get(prev, f)
  {
    hide Reduced, DropsKey;
    ReducedField(prev, patch, f);
    hide PlaceChanges, Changes, ScopeChanges;
  }

  // ToBoolean of ECMA-262 section 7.1.2, over the values there are.
  lemma FalsyIff(v: Val)
    ensures !Truthy(v) <==> v == Undefined || v == Null || v == NaN || v == Str("") || v == Num(0.0) || v == Bool(false)
  {
  }

  // Exactly when a key outlives a patch of one other field.
  lemma KeyNoticesIff(prev: Draft, f: Field, v: Val)
    requires !f.IdempotencyKey?
    ensures var e := Reduced(prev, map[f := v]);
      Get(e, IdempotencyKey) ==
        if !Truthy(Get(prev, IdempotencyKey)) then Get(prev, IdempotencyKey)
        else if
          || (f in {Category, Address, City} && Truthy(v) && v != Get(prev, f))
          || (f in {Date, Time} && !v.Undefined? && (v.NaN? || v != Get(prev, f)))
          || (f in {WorkerId, IsAutoMatched, ServiceTaskId, Description, Quantity, IssuePhotoUrls, SelectedPackageIds,
                    AddOnToggles, Priorities, Tip, PaymentMethod, PaymentAccountIdentifier}
              && Json(v) != Json(Get(prev, f)))
        then Null
        else Get(prev, IdempotencyKey)
  {
    var patch := map[f := v];
    ReducedField(prev, patch, IdempotencyKey);
    hide Reduced;
    OneFieldChanges(prev, f, v);
  }

  lemma OneFieldChanges(prev: Draft, f: Field, v: Val)
    ensures var patch := map[f := v];
      && (PlaceChanges(prev, patch) <==> f in {Category, Address, City} && Truthy(v) && v != Get(prev, f))
      && (Changes(prev, patch, Date) || Changes(prev, patch, Time) <==>
            f in {Date, Time} && !v.Undefined? && (v.NaN? || v != Get(prev, f)))
      && (PayloadChanges(prev, patch) <==>
            f in {WorkerId, IsAutoMatched, ServiceTaskId, Description, Quantity, IssuePhotoUrls, SelectedPackageIds,
                  AddOnToggles, Priorities, Tip, PaymentMethod, PaymentAccountIdentifier}
            && Json(v) != Json(Get(prev, f)))
  {
    var patch := map[f := v];
    assert patch[f] == v;
  }

  // Over runs: what a selected worker was picked for.

  datatype Basis = Basis(date: Val, task: Val, quantity: Val)

  function BasisOf(d: Draft): Basis {
    Basis(Get(d, Date), Get(d, ServiceTaskId), Get(d, Quantity))
  }

  // A pick is for the draft it is made in; a locked worker is for whatever the draft becomes.
  function Rebased(basis: Basis, d: Draft, a: Action): Basis {
    if Truthy(Get(After(d, a), WorkerLocked)) || (a.SetDraft? && WorkerId in a.patch) then BasisOf(After(d, a))
    else basis
  }

  function LastBasis(basis: Basis, d: Draft, actions: seq<Action>): Basis
    decreases |actions|
  {
    if actions == [] then basis else LastBasis(Rebased(basis, d, actions[0]), After(d, actions[0]), actions[1..])
  }

  predicate SameOrUnset(now: Val, was: Val) {
    now == was || now.Undefined?
  }

  predicate PickedFor(d: Draft, basis: Basis) {
    Truthy(Get(d, WorkerId)) ==>
      && SameOrUnset(Get(d, Date), basis.date)
      && SameOrUnset(Get(d, ServiceTaskId), basis.task)
      && SameOrUnset(Get(d, Quantity), basis.quantity)
  }

  lemma PatchKeepsPickedFor(d: Draft, patch: Draft, basis: Basis)
    requires PickedFor(d, basis) && WorkerId !in patch && !Truthy(Get(Reduced(d, patch), WorkerLocked))
    ensures PickedFor(Reduced(d, patch), basis)
  {
    var e := Reduced(d, patch);
    ReducedField(d, patch, WorkerId);
    ReducedField(d, patch, Date);
    OtherFieldsMerge(d, patch, ServiceTaskId);
    OtherFieldsMerge(d, patch, Quantity);
    hide Reduced, MovesPlace, PlaceChanges, DropsKey;
    if Truthy(Get(e, WorkerId)) {
      WorkerOutlivesIff(d, patch);
    }
  }

  // In every run a selected worker was named, or locked, in a draft with the date, the task and the quantity that the
  // draft now holds, but for those a patch has unset since.
  lemma {:induction false} WorkerFitsDraft(d: Draft, basis: Basis, actions: seq<Action>)
    requires PickedFor(d, basis)
    ensures PickedFor(Run(d, actions), LastBasis(basis, d, actions))
    decreases |actions|
  {
    if actions != [] {
      var a := actions[0];
      if Rebased(basis, d, a) == basis && a.SetDraft? && WorkerId !in a.patch && !Truthy(Get(After(d, a), WorkerLocked)) {
        PatchKeepsPickedFor(d, a.patch, basis);
      }
      hide Reduced;
      WorkerFitsDraft(After(d, a), Rebased(basis, d, a), actions[1..]);
    }
  }
}
