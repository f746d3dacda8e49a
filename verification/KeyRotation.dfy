// Re-encrypting stored fields under a new key while the application keeps editing the same rows.
module KeyRotation {
  import opened Wrappers

  // Old is the *_PREVIOUS key of the run; Stranger is any key the run was not given.
  datatype Key = New | Old | Stranger

  // AES-GCM taken as given: a payload opens under its own key and under no other.
  datatype Payload = Sealed(key: Key, nonce: nat, plain: Str) | Malformed

  // Strings, told apart as far as the code tells them apart: Enc carries the field prefix, Raw is a bare
  // payload as stored for MFA secrets, Text is anything else.
  datatype Str = Text(chars: string) | Enc(payload: Payload) | Raw(payload: Payload)

  datatype Table = WorkerProfile | Payout | MfaSecret

  datatype RowId = RowId(table: Table, id: string)

  datatype Row = Row(owner: string, stored: Option<Str>)

  type Rows = map<RowId, Row>

  // decryptField and decrypt with both keys at hand; None is an exception.

  function Open(p: Payload): Option<Str> {
    if p.Sealed? && !p.key.Stranger? then Some(p.plain) else None
  }

  function DecryptField(s: Str): Option<Str> {
    if s.Enc? then Open(s.payload) else Some(s)
  }

  function DecryptSecret(s: Str): Option<Str> {
    if s.Raw? then Open(s.payload) else None
  }

  // What the application reads from a column; a null column reads as null.
  function Reads(table: Table, stored: Option<Str>): Option<Option<Str>> {
    match stored
    case None => Some(None)
    case Some(s) =>
      var plain := if table.MfaSecret? then DecryptSecret(s) else DecryptField(s);
      if plain.Some? then Some(plain) else None
  }

  // encryptField leaves alone what already looks encrypted; encrypt does not look.
  function EncryptField(plain: Str, nonce: nat): Str {
    if plain.Enc? then plain else Enc(Sealed(New, nonce, plain))
  }

  function Reencrypted(table: Table, plain: Str, nonce: nat): Str {
    if table.MfaSecret? then Raw(Sealed(New, nonce, plain)) else EncryptField(plain, nonce)
  }

  // The payload a column holds, where its kind of column has one.
  function PayloadOf(table: Table, stored: Option<Str>): Option<Payload> {
    if stored.None? then None
    else if table.MfaSecret? then (if stored.value.Raw? then Some(stored.value.payload) else Some(Malformed))
    else if stored.value.Enc? then Some(stored.value.payload)
    else None
  }

  predicate UnderOld(table: Table, stored: Option<Str>) {
    var p := PayloadOf(table, stored);
    p.Some? && p.value.Sealed? && p.value.key.Old?
  }

  predicate Unreadable(table: Table, stored: Option<Str>) {
    var p := PayloadOf(table, stored);
    p.Some? && Open(p.value).None?
  }

  function PlainOf(table: Table, stored: Option<Str>): Str
    requires UnderOld(table, stored)
  {
    PayloadOf(table, stored).value.plain
  }

  // A field whose plaintext is not itself an encrypted field; encryptField never makes any other.
  predicate SingleLayer(table: Table, stored: Option<Str>) {
    UnderOld(table, stored) && !table.MfaSecret? ==> !PlainOf(table, stored).Enc?
  }

  // What is stored reads back as what was given exactly when that did not look encrypted already; and storing
  // adds no second layer to a value.
  lemma EncryptedReadsBackIff(plain: Str, nonce: nat)
    ensures DecryptField(EncryptField(plain, nonce)) == Some(plain) <==> !plain.Enc?
    ensures SingleLayer(WorkerProfile, Some(EncryptField(plain, nonce))) <==> SingleLayer(WorkerProfile, Some(plain))
  {
    if plain.Enc? && Open(plain.payload).Some? { NoSelfContainment(plain); }
  }

  // Re-encryption keeps what a row reads as exactly when the row holds a single layer; a second layer would
  // be read in its place, and the row might still be under the old key.
  lemma ReencryptionKeepsMeaningIff(table: Table, stored: Option<Str>, nonce: nat)
    requires UnderOld(table, stored)
    ensures Reads(table, Some(Reencrypted(table, PlainOf(table, stored), nonce))) == Reads(table, stored)
       <==> SingleLayer(table, stored)
    ensures SingleLayer(table, stored) ==> !UnderOld(table, Some(Reencrypted(table, PlainOf(table, stored), nonce)))
  {
    var plain := PlainOf(table, stored);
    if !table.MfaSecret? && plain.Enc? && Open(plain.payload).Some? {
      NoSelfContainment(plain);
    }
  }

  // Such a row: encrypted twice, it reads as its inner layer before, and as what that decrypts to after.
  lemma DoubleLayerLosesMeaning()
    ensures
      var inner := Enc(Sealed(New, 0, Text("0917")));
      var stored := Some(Enc(Sealed(Old, 0, inner)));
      && UnderOld(Payout, stored) && Reads(Payout, stored) == Some(Some(inner))
      && Reads(Payout, Some(Reencrypted(Payout, inner, 1))) == Some(Some(Text("0917")))
  {
  }

  // A string is never its own decryption.
  lemma NoSelfContainment(s: Str)
    requires s.Enc? && Open(s.payload).Some?
    ensures Open(s.payload) != Some(s)
  {
    assert s.payload.plain < s;
  }

  // One planned update and its compare-and-set.

  datatype Planned = Planned(id: RowId, expected: Option<Str>, data: Str)

  predicate Hits(rows: Rows, u: Planned) {
    u.id in rows && rows[u.id].stored == u.expected
  }

  function Applied(rows: Rows, u: Planned): Rows {
    if Hits(rows, u) then rows[u.id := rows[u.id].(stored := Some(u.data))] else rows
  }

  ghost predicate WellPlanned(u: Planned) {
    && UnderOld(u.id.table, u.expected) && SingleLayer(u.id.table, u.expected)
    && exists nonce :: u.data == Reencrypted(u.id.table, PlainOf(u.id.table, u.expected), nonce)
  }

  // The application's writes.

  datatype Edit = Put(id: RowId, row: Row) | Delete(id: RowId)

  function Edited(rows: Rows, e: Edit): Rows {
    match e
    case Put(id, row) => rows[id := row]
    case Delete(id) => rows - {id}
  }

  function EditedAll(rows: Rows, edits: seq<Edit>): Rows
    decreases |edits|
  {
    if edits == [] then rows else EditedAll(Edited(rows, edits[0]), edits[1..])
  }

  // The application never writes under the old key. What it writes may well be unreadable.
  predicate Clean(e: Edit) {
    e.Put? ==> !UnderOld(e.id.table, e.row.stored)
  }

  predicate AllClean(edits: seq<Edit>) {
    forall e <- edits :: Clean(e)
  }

  // What one run covers.

  datatype Scope = Scope(users: set<string>, data: bool, mfa: bool)

  predicate Covers(s: Scope, id: RowId, row: Row) {
    && (if id.table.MfaSecret? then s.mfa else s.data)
    && (s.users == {} || row.owner in s.users)
  }

  ghost function OldRows(rows: Rows, s: Scope): set<RowId> {
    set id | id in rows && Covers(s, id, rows[id]) && UnderOld(id.table, rows[id].stored)
  }

  // Each successful update takes exactly one row off the old key; a failed one changes nothing.
  lemma ApplyingCountsDown(rows: Rows, s: Scope, u: Planned)
    requires WellPlanned(u) && (u.id in rows ==> Covers(s, u.id, rows[u.id]))
    ensures |OldRows(Applied(rows, u), s)| == |OldRows(rows, s)| - if Hits(rows, u) then 1 else 0
    ensures !Hits(rows, u) ==> Applied(rows, u) == rows
  {
    if Hits(rows, u) {
      var nonce :| u.data == Reencrypted(u.id.table, PlainOf(u.id.table, u.expected), nonce);
      ReencryptionKeepsMeaningIff(u.id.table, u.expected, nonce);
      assert OldRows(Applied(rows, u), s) == OldRows(rows, s) - {u.id};
    }
  }

  // After clean edits a row is either as it was or off the old key.
  lemma {:induction false} EditsLeaveOrClean(rows: Rows, edits: seq<Edit>, id: RowId)
    requires AllClean(edits) && id in EditedAll(rows, edits)
    ensures var after := EditedAll(rows, edits)[id];
      (id in rows && after == rows[id]) || !UnderOld(id.table, after.stored)
    decreases |edits|
  {
    if edits != [] {
      assert Clean(edits[0]) by { assert edits[0] in edits; }
      EditsLeaveOrClean(Edited(rows, edits[0]), edits[1..], id);
    }
  }

  lemma {:induction false} EditsNeverAddOldRows(rows: Rows, edits: seq<Edit>, s: Scope)
    requires AllClean(edits)
    ensures OldRows(EditedAll(rows, edits), s) <= OldRows(rows, s)
    decreases |edits|
  {
    if edits != [] {
      assert Clean(edits[0]) by { assert edits[0] in edits; }
      assert OldRows(Edited(rows, edits[0]), s) <= OldRows(rows, s);
      EditsNeverAddOldRows(Edited(rows, edits[0]), edits[1..], s);
    }
  }

  // The rows as rotated, beside the rows as they would be had the rotation never run.

  ghost predicate Tracks(id: RowId, row: Row, shadow: Row) {
    || row == shadow
    || (&& row.owner == shadow.owner
        && UnderOld(id.table, shadow.stored) && SingleLayer(id.table, shadow.stored)
        && exists nonce :: row.stored == Some(Reencrypted(id.table, PlainOf(id.table, shadow.stored), nonce)))
  }

  ghost predicate AllTrack(rows: Rows, shadow: Rows) {
    rows.Keys == shadow.Keys && forall id <- rows :: Tracks(id, rows[id], shadow[id])
  }

  lemma TrackingReadsAlike(rows: Rows, shadow: Rows, id: RowId)
    requires AllTrack(rows, shadow) && id in rows
    ensures Reads(id.table, rows[id].stored) == Reads(id.table, shadow[id].stored)
  {
    if rows[id] != shadow[id] {
      var nonce :| rows[id].stored == Some(Reencrypted(id.table, PlainOf(id.table, shadow[id].stored), nonce));
      ReencryptionKeepsMeaningIff(id.table, shadow[id].stored, nonce);
    }
  }

  lemma {:induction false} EditsKeepTracking(rows: Rows, shadow: Rows, edits: seq<Edit>)
    requires AllTrack(rows, shadow)
    ensures AllTrack(EditedAll(rows, edits), EditedAll(shadow, edits))
    decreases |edits|
  {
    if edits != [] {
      EditsKeepTracking(Edited(rows, edits[0]), Edited(shadow, edits[0]), edits[1..]);
    }
  }

  // An update that hits a row finds the very value it was planned from.
  lemma ApplyingKeepsTracking(rows: Rows, shadow: Rows, u: Planned)
    requires AllTrack(rows, shadow) && WellPlanned(u)
    ensures AllTrack(Applied(rows, u), shadow)
  {
    if Hits(rows, u) {
      var row, was := rows[u.id], shadow[u.id];
      if row != was {
        var nonce :| row.stored == Some(Reencrypted(u.id.table, PlainOf(u.id.table, was.stored), nonce));
        ReencryptionKeepsMeaningIff(u.id.table, was.stored, nonce);
      }
      assert row == was;
    }
  }

  // Batches of edits, one before each database call of a run.

  function Batch(schedule: seq<seq<Edit>>, k: nat): seq<Edit> {
    if k < |schedule| then schedule[k] else []
  }

  function Played(rows: Rows, schedule: seq<seq<Edit>>, calls: nat): Rows {
    if calls == 0 then rows else EditedAll(Played(rows, schedule, calls - 1), Batch(schedule, calls - 1))
  }

  predicate EditsSingleLayer(edits: seq<Edit>) {
    forall e <- edits :: e.Put? ==> SingleLayer(e.id.table, e.row.stored)
  }

  ghost predicate AllSingleLayer(rows: Rows) {
    forall id <- rows :: SingleLayer(id.table, rows[id].stored)
  }

  lemma {:induction false} EditsKeepSingleLayer(rows: Rows, edits: seq<Edit>)
    requires AllSingleLayer(rows) && EditsSingleLayer(edits)
    ensures AllSingleLayer(EditedAll(rows, edits))
    decreases |edits|
  {
    if edits != [] {
      assert edits[0] in edits;
      EditsKeepSingleLayer(Edited(rows, edits[0]), edits[1..]);
    }
  }

  lemma ApplyingKeepsSingleLayer(rows: Rows, u: Planned)
    requires AllSingleLayer(rows) && WellPlanned(u)
    ensures AllSingleLayer(Applied(rows, u))
  {
    var nonce :| u.data == Reencrypted(u.id.table, PlainOf(u.id.table, u.expected), nonce);
    ReencryptionKeepsMeaningIff(u.id.table, u.expected, nonce);
  }

  // What is left to do once the tables in done have been read: every row still under the old key awaits an
  // update planned from its present value.

  ghost predicate Awaits(rows: Rows, id: RowId, updates: seq<Planned>)
    requires id in rows
  {
    exists u <- updates :: u.id == id && u.expected == rows[id].stored
  }

  ghost predicate OnTrack(rows: Rows, s: Scope, done: set<Table>, updates: seq<Planned>) {
    forall id <- rows :: id.table in done && Covers(s, id, rows[id]) && UnderOld(id.table, rows[id].stored) ==>
      Awaits(rows, id, updates)
  }

  ghost predicate AllReadable(rows: Rows, s: Scope, table: Table) {
    forall id <- rows :: id.table == table && Covers(s, id, rows[id]) ==> !Unreadable(table, rows[id].stored)
  }

  // A run over such rows would plan nothing.
  ghost predicate NothingToDo(rows: Rows, s: Scope) {
    forall id <- rows :: Covers(s, id, rows[id]) ==> !UnderOld(id.table, rows[id].stored)
  }

  // A run over such rows would neither plan nor find anything unreadable.
  ghost predicate Quiet(rows: Rows, s: Scope) {
    NothingToDo(rows, s) && forall table :: AllReadable(rows, s, table)
  }

  // Rows that track a rotation-free copy and are off the old key leave the next run nothing at all exactly when
  // everything in scope reads in that copy, so exactly when neither the original nor an edit is unreadable.
  lemma QuietIff(rows: Rows, shadow: Rows, s: Scope)
    requires AllTrack(rows, shadow) && NothingToDo(rows, s)
    ensures Quiet(rows, s) <==> forall id <- shadow :: Covers(s, id, shadow[id]) ==> Reads(id.table, shadow[id].stored).Some?
  {
    forall id | id in rows
      ensures Covers(s, id, rows[id]) <==> Covers(s, id, shadow[id])
      ensures Unreadable(id.table, rows[id].stored) <==> Reads(id.table, shadow[id].stored).None?
    {
      assert Tracks(id, rows[id], shadow[id]);
      TrackingReadsAlike(rows, shadow, id);
      UnreadableIff(id.table, rows[id].stored);
    }
    if Quiet(rows, s) {
      forall id | id in shadow && Covers(s, id, shadow[id]) ensures Reads(id.table, shadow[id].stored).Some? {
        assert AllReadable(rows, s, id.table);
      }
    }
  }

  // What cannot be read is what is malformed, sealed by a stranger, or no payload where an MFA secret should be.
  lemma UnreadableIff(table: Table, stored: Option<Str>)
    ensures Unreadable(table, stored) <==> Reads(table, stored).None?
    ensures Reads(table, stored).None? <==>
      && stored.Some?
      && match stored.value
         case Text(_) => table.MfaSecret?
         case Enc(p) => table.MfaSecret? || p.Malformed? || p.key == Stranger
         case Raw(p) => table.MfaSecret? && (p.Malformed? || p.key == Stranger)
  {
  }

  // An account number typed as the field prefix and no payload is stored as it is: a clean edit after which a
  // rotation finds an unreadable row in scope, and so writes nothing.
  lemma UnreadableEditBlocksRotation(rows: Rows, id: string, owner: string)
    ensures
      var e := Put(RowId(WorkerProfile, id), Row(owner, Some(EncryptField(Enc(Malformed), 0))));
      && Clean(e) && EditsSingleLayer([e])
      && !AllReadable(Edited(rows, e), Scope({}, true, false), WorkerProfile)
  {
    var e := Put(RowId(WorkerProfile, id), Row(owner, Some(EncryptField(Enc(Malformed), 0))));
    assert RowId(WorkerProfile, id) in Edited(rows, e);
  }

  lemma EditsKeepOnTrack(rows: Rows, edits: seq<Edit>, s: Scope, done: set<Table>, updates: seq<Planned>)
    requires AllClean(edits) && OnTrack(rows, s, done, updates)
    ensures OnTrack(EditedAll(rows, edits), s, done, updates)
  {
    var after := EditedAll(rows, edits);
    forall id | id in after && id.table in done && Covers(s, id, after[id]) && UnderOld(id.table, after[id].stored)
      ensures Awaits(after, id, updates)
    {
      EditsLeaveOrClean(rows, edits, id);
    }
  }

  lemma ApplyingKeepsOnTrack(rows: Rows, s: Scope, done: set<Table>, updates: seq<Planned>)
    requires updates != [] && WellPlanned(updates[0]) && OnTrack(rows, s, done, updates)
    ensures OnTrack(Applied(rows, updates[0]), s, done, updates[1..])
  {
    var u := updates[0];
    var after := Applied(rows, u);
    var nonce :| u.data == Reencrypted(u.id.table, PlainOf(u.id.table, u.expected), nonce);
    ReencryptionKeepsMeaningIff(u.id.table, u.expected, nonce);
    forall id | id in after && id.table in done && Covers(s, id, after[id]) && UnderOld(id.table, after[id].stored)
      ensures Awaits(after, id, updates[1..])
    {
      assert after[id] == rows[id];
      var v :| v in updates && v.id == id && v.expected == rows[id].stored;
      assert v != u;
      assert v in updates[1..];
    }
  }

  // Each table reads without fault at the moment it is planned.
  ghost predicate PlannedReadable(start: Rows, schedule: seq<seq<Edit>>, s: Scope) {
    && AllReadable(Played(start, schedule, 1), s, WorkerProfile)
    && AllReadable(Played(start, schedule, 2), s, Payout)
    && AllReadable(Played(start, schedule, 3), s, MfaSecret)
  }

  // Which of the script's calls reads a table.
  function PlanCall(table: Table): nat {
    match table
    case WorkerProfile => 1
    case Payout => 2
    case MfaSecret => 3
  }

  // The rows that the plan can name: those in scope when their table is read.
  ghost predicate Named(start: Rows, schedule: seq<seq<Edit>>, s: Scope, id: RowId) {
    var was := Played(start, schedule, PlanCall(id.table));
    id in was && Covers(s, id, was[id])
  }

  // Rows that no update names are those the run never touched.
  ghost predicate OnlyPlannedDiffer(rows: Rows, shadow: Rows, planned: seq<Planned>) {
    rows.Keys == shadow.Keys && forall id <- rows :: rows[id] == shadow[id] || exists u <- planned :: u.id == id
  }

  lemma {:induction false} EditsKeepOthers(rows: Rows, shadow: Rows, planned: seq<Planned>, edits: seq<Edit>)
    requires OnlyPlannedDiffer(rows, shadow, planned)
    ensures OnlyPlannedDiffer(EditedAll(rows, edits), EditedAll(shadow, edits), planned)
    decreases |edits|
  {
    if edits != [] {
      EditsKeepOthers(Edited(rows, edits[0]), Edited(shadow, edits[0]), planned, edits[1..]);
    }
  }

  // The script itself. Before each of its database calls the application may have made any number of edits.
  class Rotation {
    var rows: Rows
    ghost var shadow: Rows            // the rows had the rotation never run
    var planned: seq<Planned>
    var unreadable: seq<RowId>
    var changedMidRun: seq<RowId>
    const scope: Scope

    constructor (start: Rows, scope: Scope)
      ensures rows == shadow == start && this.scope == scope
      ensures planned == [] && unreadable == [] && changedMidRun == []
    {
      rows, shadow, this.scope := start, start, scope;
      planned, unreadable, changedMidRun := [], [], [];
    }

    method AppEdits(edits: seq<Edit>)
      modifies this`rows, this`shadow
      ensures rows == EditedAll(old(rows), edits) && shadow == EditedAll(old(shadow), edits)
    {
      for i := 0 to |edits|
        invariant EditedAll(rows, edits[i..]) == EditedAll(old(rows), edits)
        invariant EditedAll(shadow, edits[i..]) == EditedAll(old(shadow), edits)
      {
        assert edits[i..][1..] == edits[i + 1..] && edits[i..][0] == edits[i];
        rows, shadow := Edited(rows, edits[i]), Edited(shadow, edits[i]);
      }
      assert edits[|edits|..] == [];
    }

    // findMany: the rows in scope at one instant, in whatever order the database gives them.
    method Select(table: Table) returns (ids: seq<RowId>)
      ensures forall id :: id in ids <==> id in rows && id.table == table && Covers(scope, id, rows[id])
      ensures forall i, j :: 0 <= i < j < |ids| ==> ids[i] != ids[j]
    {
      ids := [];
      var left := rows.Keys;
      while left != {}
        invariant left <= rows.Keys
        invariant forall id :: id in ids <==> id in rows && id !in left && id.table == table && Covers(scope, id, rows[id])
        invariant forall i, j :: 0 <= i < j < |ids| ==> ids[i] != ids[j]
        decreases left
      {
        var id :| id in left;
        left := left - {id};
        if id.table == table && Covers(scope, id, rows[id]) { ids := ids + [id]; }
      }
    }

    // Planning a table reads it once and keeps what it read: a row needs an update, is fine, or is unreadable.
    method PlanTable(table: Table, nonce: nat)
      modifies this`planned, this`unreadable
      ensures |planned| >= |old(planned)| && planned[..|old(planned)|] == old(planned)
      ensures forall u <- planned[|old(planned)|..] ::
                u.id in rows && u.id.table == table && Covers(scope, u.id, rows[u.id]) && u.expected == rows[u.id].stored
                && UnderOld(table, u.expected) && u.data == Reencrypted(table, PlainOf(table, u.expected), nonce)
      ensures forall id <- OldRows(rows, scope) :: id.table == table ==>
                exists u <- planned[|old(planned)|..] :: u.id == id
      ensures old(unreadable) <= unreadable
      ensures forall id :: id in unreadable <==>
                id in old(unreadable)
                || (id in rows && id.table == table && Covers(scope, id, rows[id]) && Unreadable(table, rows[id].stored))
    {
      var ids := Select(table);
      ghost var p0 := |planned|;
      for i := 0 to |ids|
        invariant |planned| >= p0 && planned[..p0] == old(planned)
        invariant forall u <- planned[p0..] ::
                    u.id in rows && u.id.table == table && Covers(scope, u.id, rows[u.id])
                    && u.expected == rows[u.id].stored
                    && UnderOld(table, u.expected) && u.data == Reencrypted(table, PlainOf(table, u.expected), nonce)
        invariant forall id <- ids[..i] :: UnderOld(table, rows[id].stored) ==> exists u <- planned[p0..] :: u.id == id
        invariant old(unreadable) <= unreadable
        invariant forall id :: id in unreadable <==>
                    id in old(unreadable) || (id in ids[..i] && Unreadable(table, rows[id].stored))
      {
        var id := ids[i];
        assert ids[..i + 1] == ids[..i] + [id];
        var stored := rows[id].stored;
        if Unreadable(table, stored) {
          unreadable := unreadable + [id];
        } else if UnderOld(table, stored) {
          var u := Planned(id, stored, Reencrypted(table, PlainOf(table, stored), nonce));
          assert (planned + [u])[p0..] == planned[p0..] + [u];
          planned := planned + [u];
        }
      }
      assert ids[..|ids|] == ids;
    }

    method Apply(u: Planned) returns (updated: bool)
      modifies this`rows
      ensures rows == Applied(old(rows), u) && updated == Hits(old(rows), u)
    {
      updated := u.id in rows && rows[u.id].stored == u.expected;
      if updated { rows := rows[u.id := rows[u.id].(stored := Some(u.data))]; }
    }

    method PlanAfterEdits(table: Table, edits: seq<Edit>, nonce: nat, ghost done: set<Table>)
      requires AllSingleLayer(rows) && EditsSingleLayer(edits) && AllTrack(rows, shadow)
      requires rows == shadow
      requires forall u <- planned :: WellPlanned(u)
      modifies this`rows, this`shadow, this`planned, this`unreadable
      ensures rows == shadow == EditedAll(old(shadow), edits) && AllSingleLayer(rows)
      ensures forall u <- planned :: WellPlanned(u)
      ensures forall u <- planned ::
                u in old(planned) || (u.id.table == table && u.id in rows && Covers(scope, u.id, rows[u.id]))
      ensures unreadable == [] <==> old(unreadable) == [] && AllReadable(rows, scope, table)
      ensures (AllClean(edits) && unreadable == [] && OnTrack(old(rows), scope, done, old(planned))) ==>
                OnTrack(rows, scope, done + {table}, planned)
    {
      AppEdits(edits);
      EditsKeepSingleLayer(old(rows), edits);
      if AllClean(edits) && OnTrack(old(rows), scope, done, old(planned)) {
        EditsKeepOnTrack(old(rows), edits, scope, done, old(planned));
      }
      if (if table.MfaSecret? then scope.mfa else scope.data) {
        PlanTable(table, nonce);
        assert planned == old(planned) + planned[|old(planned)|..];
        if unreadable != [] { assert unreadable[0] in unreadable; }
      }
    }

    method ApplyAfterEdits(u: Planned, edits: seq<Edit>, ghost clean: bool, ghost all: set<Table>, ghost updates: seq<Planned>)
      requires AllTrack(rows, shadow) && AllSingleLayer(rows)
      requires WellPlanned(u) && EditsSingleLayer(edits) && (clean ==> AllClean(edits))
      requires updates != [] && updates[0] == u && (clean ==> OnTrack(rows, scope, all, updates))
      requires u in planned && OnlyPlannedDiffer(rows, shadow, planned)
      modifies this`rows, this`shadow, this`changedMidRun
      ensures shadow == EditedAll(old(shadow), edits)
      ensures AllTrack(rows, shadow) && AllSingleLayer(rows) && OnlyPlannedDiffer(rows, shadow, planned)
      ensures clean ==> OnTrack(rows, scope, all, updates[1..])
      ensures changedMidRun == old(changedMidRun) + if Hits(EditedAll(old(rows), edits), u) then [] else [u.id]
    {
      EditsKeepTracking(rows, shadow, edits);
      EditsKeepSingleLayer(rows, edits);
      EditsKeepOthers(rows, shadow, planned, edits);
      if clean { EditsKeepOnTrack(rows, edits, scope, all, updates); }
      AppEdits(edits);
      ApplyingKeepsTracking(rows, shadow, u);
      ApplyingKeepsSingleLayer(rows, u);
      if clean { ApplyingKeepsOnTrack(rows, scope, all, updates); }
      var updated := Apply(u);
      if !updated { changedMidRun := changedMidRun + [u.id]; }
    }

    method PlanAll(schedule: seq<seq<Edit>>, nonce: nat)
      requires rows == shadow && AllSingleLayer(rows) && planned == [] && unreadable == []
      requires forall edits <- schedule :: EditsSingleLayer(edits)
      modifies this`rows, this`shadow, this`planned, this`unreadable
      ensures rows == shadow == Played(old(shadow), schedule, 3) && AllSingleLayer(rows)
      ensures forall u <- planned :: WellPlanned(u)
      ensures forall u <- planned :: Named(old(shadow), schedule, scope, u.id)
      ensures unreadable == [] <==> PlannedReadable(old(shadow), schedule, scope)
      ensures (unreadable == [] && forall edits <- schedule :: AllClean(edits)) ==>
                OnTrack(rows, scope, {WorkerProfile, Payout, MfaSecret}, planned)
    {
      PlanAfterEdits(WorkerProfile, Batch(schedule, 0), nonce, {});
      assert shadow == Played(old(shadow), schedule, 1);
      PlanAfterEdits(Payout, Batch(schedule, 1), nonce, {WorkerProfile});
      assert shadow == Played(old(shadow), schedule, 2);
      assert {WorkerProfile} + {Payout} == {WorkerProfile, Payout};
      PlanAfterEdits(MfaSecret, Batch(schedule, 2), nonce, {WorkerProfile, Payout});
      assert {WorkerProfile, Payout} + {MfaSecret} == {WorkerProfile, Payout, MfaSecret};
    }

    method RunRotation(dry: bool, schedule: seq<seq<Edit>>, nonce: nat) returns (exitCode: int)
      requires rows == shadow && AllSingleLayer(rows)
      requires planned == [] && unreadable == [] && changedMidRun == []
      requires forall edits <- schedule :: EditsSingleLayer(edits)
      modifies this
      ensures unreadable == [] <==> PlannedReadable(old(shadow), schedule, scope)
      ensures dry || unreadable != [] ==> rows == shadow == Played(old(shadow), schedule, 3)
      ensures !dry && unreadable == [] ==> shadow == Played(old(shadow), schedule, 3 + |planned|)
      ensures AllTrack(rows, shadow)
      ensures forall id <- rows ::
                var was := Played(old(shadow), schedule, PlanCall(id.table));
                (|| !(if id.table.MfaSecret? then scope.mfa else scope.data)
                 || (scope.users != {} && (id in was ==> was[id].owner !in scope.users)))
                ==> rows[id] == shadow[id]
      ensures (!dry && unreadable == [] && forall edits <- schedule :: AllClean(edits)) ==>
                forall id <- rows ::
                  (&& (if id.table.MfaSecret? then scope.mfa else scope.data)
                   && (scope.users == {} || rows[id].owner in scope.users))
                  ==> !UnderOld(id.table, rows[id].stored)
      ensures exitCode == if unreadable != [] || (!dry && changedMidRun != []) then 1 else 0
      ensures (!dry && unreadable == [] && forall edits <- schedule :: AllClean(edits)) ==>
                && NothingToDo(rows, scope)
                && (Quiet(rows, scope) <==>
                      forall id <- shadow :: Covers(scope, id, shadow[id]) ==> Reads(id.table, shadow[id].stored).Some?)
    {
      PlanAll(schedule, nonce);
      if unreadable != [] { return 1; }
      if dry { return 0; }
      ghost var clean := forall edits <- schedule :: AllClean(edits);
      ghost var all := {WorkerProfile, Payout, MfaSecret};
      ghost var updates := planned;
      for i := 0 to |planned|
        invariant planned == updates && unreadable == [] && PlannedReadable(old(shadow), schedule, scope)
        invariant shadow == Played(old(shadow), schedule, 3 + i)
        invariant AllTrack(rows, shadow) && AllSingleLayer(rows) && OnlyPlannedDiffer(rows, shadow, planned)
        invariant clean ==> OnTrack(rows, scope, all, updates[i..])
      {
        ApplyAfterEdits(planned[i], Batch(schedule, 3 + i), clean, all, updates[i..]);
        assert updates[i..][1..] == updates[i + 1..];
      }
      if clean { QuietIff(rows, shadow, scope); }
      exitCode := if changedMidRun == [] then 0 else 1;
    }
  }
}
