/**
  Admin transactions: the working copy, deferred edits, and what gets uploaded.

  Each transaction runs under the admin lock. The drop may answer a fetch with any earlier
  upload, with nothing, or with a failure.
 */
module AdminEdits {
  import opened Options
  import opened Directory
  import opened StateDir
  import opened Publishing

  datatype Admin = Admin(disk: Disk, uploads: seq<Directory>)

  // ---- The transactions as functions ----------------------------------------------------

  /** fetchAdminDirectory. */
  function FetchedAdmin(a: Admin, fetch: Fetch): Option<Directory> {
    if a.disk.source.Holds? && (fetch.Fetched? ==> a.disk.source.value.serial >= fetch.dir.serial)
    then Some(a.disk.source.value)
    else if a.disk.source.Unreadable? then None
    else if fetch.Fetched? then Some(fetch.dir)
    else if a.disk.cache.Holds? then Some(a.disk.cache.value)
    else None
  }

  /** pendingAdminChanges; the compared payloads are the directories themselves. */
  predicate PendingChanges(source: Directory, remote: Directory) {
    source.serial >= remote.serial && source != remote
  }

  /** How far publishing gets: where the first error occurs, if any. */
  datatype Upload =
    | SealFails
    | PutFails
    /** The drop took the blob, and its answer was lost. */
    | PutUnreported
    /** cache.Write failed after so many of its files. */
    | CacheFails(files: nat)
    | SourceFails
    /** The bootstrap file, written last, failed. */
    | BootstrapFails
    | Arrives
  {
    /** The upload is out, and the working copy does not know. */
    predicate Tears() { PutUnreported? || (CacheFails? && files < 3) || SourceFails? }
  }

  datatype Outcome =
    /** An error, and nothing of the edit is left. */
    | Refused
    /** An error between the upload and the working copy. */
    | Torn
    /** An error after all that matters was in place. */
    | DoneWithError
    | Done

  /** publishDirectory with writeSource. */
  function Published(a: Admin, dir: Directory, up: Upload): (Admin, Outcome) {
    if up.SealFails? || !MayReserve(a.disk, dir.serial) then (a, Refused) else
    var d := a.disk.(publish := Holds(dir.serial));
    if up.PutFails? then (Admin(d, a.uploads), Refused) else
    var uploads := a.uploads + [dir];
    if up.PutUnreported? || !MayWrite(d, dir) then (Admin(d, uploads), Torn) else
    if up.CacheFails? && up.files < 3 then (Admin(WrittenUpTo(d, dir, up.files), uploads), Torn) else
    if up.SourceFails? then (Admin(Written(d, dir), uploads), Torn) else
    (Admin(Written(d, dir).(source := Holds(dir)), uploads), if up.BootstrapFails? then DoneWithError else Done)
  }

  function PreparedAndPublished(
    a: Admin, dir: Directory, fetch: Fetch, force: bool, up: Upload, now: Time): (Admin, Outcome)
  {
    match Prepared(a.disk, dir, fetch, force, now)
    case None => (a, Refused)
    case Some(next) => Published(a, next, up)
  }

  /** saveAdminDirectory. */
  function Saved(a: Admin, dir: Directory, noPublish: bool, fetch: Fetch, up: Upload, now: Time): (Admin, Outcome) {
    if noPublish then if up.SourceFails? then (a, Refused) else (a.(disk := a.disk.(source := Holds(dir))), Done)
    else PreparedAndPublished(a, dir, fetch, false, up, now)
  }

  /** PublishCmd.Run. */
  function PublishRun(a: Admin, force: bool, fetch: Fetch, up: Upload, now: Time): (Admin, Outcome) {
    if !a.disk.source.Holds? then (a, Refused)
    else PreparedAndPublished(a, a.disk.source.value, fetch, force, up, now)
  }

  /** runAdminObservation; `merge` is MergeObservations on the snapshot it took. */
  function Observed(
    a: Admin, merge: Content -> (Content, bool), synced: Serial, fetch: Fetch, up: Upload, now: Time): (Admin, Outcome)
  {
    if !fetch.Fetched? || fetch.dir.serial < synced || !a.disk.source.Holds? then (a, Refused)
    else if PendingChanges(a.disk.source.value, fetch.dir) then (a, Refused)
    else
      var (updated, changed) := merge(fetch.dir.content);
      if !changed then (a, Refused)
      else PreparedAndPublished(a, fetch.dir.(content := updated), fetch, false, up, now)
  }

  // ---- The transactions as the code performs them ---------------------------------------

  class AdminHost {
    const st: StateDirectory
    /** What has been put to the drop. */
    var uploads: seq<Directory>

    constructor (st: StateDirectory)
      ensures this.st == st && uploads == []
    {
      this.st := st;
      uploads := [];
    }

    ghost function View(): Admin
      reads this, st
    {
      Admin(st.OnDisk(), uploads)
    }

    method PublishDirectory(dir: Directory, up: Upload) returns (r: Outcome)
      modifies this`uploads, st
      ensures (View(), r) == Published(old(View()), dir, up)
    {
      if up.SealFails? {
        return Refused;
      }
      var reserved := st.ReservePublishSerial(dir.serial);
      if !reserved || up.PutFails? {
        return Refused;
      }
      uploads := uploads + [dir];
      if up.PutUnreported? {
        return Torn;
      }
      var written := st.WriteFiles(dir, if up.CacheFails? then up.files else 3);
      if !written || up.SourceFails? {
        return Torn;
      }
      st.WriteSource(dir);
      return if up.BootstrapFails? then DoneWithError else Done;
    }

    method SaveAdminDirectory(dir: Directory, noPublish: bool, fetch: Fetch, up: Upload, now: Time) returns (r: Outcome)
      modifies this`uploads, st
      ensures (View(), r) == Saved(old(View()), dir, noPublish, fetch, up, now)
    {
      if noPublish {
        if up.SourceFails? {
          return Refused;
        }
        st.WriteSource(dir);
        return Done;
      }
      var next := PreparePublishSerial(st, dir, fetch, false, now);
      if next.None? {
        return Refused;
      }
      r := PublishDirectory(next.value, up);
    }

    /** add-node, remove-node and set-domain: fetch, edit, save. */
    method Mutate(edit: Content -> Option<Content>, noPublish: bool, fetch: Fetch, again: Fetch, up: Upload, now: Time)
      returns (r: Outcome)
      modifies this`uploads, st
      ensures (View(), r) == Mutated(old(View()), edit, noPublish, fetch, again, up, now)
    {
      hide Saved, FetchedAdmin;
      var dir := FetchAdminDirectory(fetch);
      if dir.None? {
        return Refused;
      }
      var edited := edit(dir.value.content);
      if edited.None? {
        return Refused;
      }
      r := SaveAdminDirectory(dir.value.(content := edited.value), noPublish, again, up, now);
    }

    /** The newest of working copy and drop, or the cache. */
    method FetchAdminDirectory(fetch: Fetch) returns (dir: Option<Directory>)
      ensures dir == FetchedAdmin(View(), fetch)
      ensures st.source.Holds? && (fetch.Fetched? ==> fetch.dir.serial <= st.source.value.serial) ==>
        dir == Some(st.source.value)
      ensures st.source.Holds? && fetch.Fetched? && fetch.dir.serial > st.source.value.serial ==> dir == Some(fetch.dir)
      ensures st.source.Unreadable? ==> dir == None
      ensures st.source.Missing? && fetch.Fetched? ==> dir == Some(fetch.dir)
      ensures st.source.Missing? && !fetch.Fetched? ==>
        dir == if st.cache.Holds? then Some(st.cache.value) else None
    {
      match st.source {
        case Holds(source) =>
          return Some(if fetch.Fetched? && source.serial < fetch.dir.serial then fetch.dir else source);
        case Unreadable =>
          return None;
        case Missing =>
          if fetch.Fetched? {
            return Some(fetch.dir);
          }
          return if st.cache.Holds? then Some(st.cache.value) else None;
      }
    }

    method Publish(force: bool, fetch: Fetch, up: Upload, now: Time) returns (r: Outcome)
      modifies this`uploads, st
      ensures (View(), r) == PublishRun(old(View()), force, fetch, up, now)
    {
      if !st.source.Holds? {
        return Refused;
      }
      var next := PreparePublishSerial(st, st.source.value, fetch, force, now);
      if next.None? {
        return Refused;
      }
      r := PublishDirectory(next.value, up);
    }

    method RunAdminObservation(merge: Content -> (Content, bool), synced: Serial, fetch: Fetch, up: Upload, now: Time)
      returns (r: Outcome)
      modifies this`uploads, st
      ensures (View(), r) == Observed(old(View()), merge, synced, fetch, up, now)
    {
      if !fetch.Fetched? || fetch.dir.serial < synced || !st.source.Holds? {
        return Refused;
      }
      if PendingChanges(st.source.value, fetch.dir) {
        return Refused;
      }
      var (updated, changed) := merge(fetch.dir.content);
      if !changed {
        return Refused;
      }
      var next := PreparePublishSerial(st, fetch.dir.(content := updated), fetch, false, now);
      if next.None? {
        return Refused;
      }
      r := PublishDirectory(next.value, up);
    }
  }

  function Mutated(
    a: Admin, edit: Content -> Option<Content>, noPublish: bool, fetch: Fetch, again: Fetch, up: Upload, now: Time)
    : (Admin, Outcome)
  {
    match FetchedAdmin(a, fetch)
    case None => (a, Refused)
    case Some(dir) =>
      match edit(dir.content)
      case None => (a, Refused)
      case Some(content) => Saved(a, dir.(content := content), noPublish, again, up, now)
  }

  // ---- Runs -----------------------------------------------------------------------------

  datatype Op =
    | Mutate(edit: Content -> Option<Content>, noPublish: bool, fetch: Fetch, again: Fetch, up: Upload, now: Time)
    | Publish(force: bool, fetch: Fetch, up: Upload, now: Time)
    | Observe(merge: Content -> (Content, bool), synced: Serial, fetch: Fetch, up: Upload, now: Time)
    /** The daemon's sync, which shares the state directory. */
    | Sync(fetch: Fetch)

  /** The drop serves nothing that was not uploaded. */
  ghost predicate Honest(a: Admin, op: Op) {
    && (op.fetch.Fetched? ==> op.fetch.dir in a.uploads)
    && (op.Mutate? && op.again.Fetched? ==> op.again.dir in a.uploads)
  }

  /** The operation means to upload. */
  predicate Publishes(op: Op) { op.Publish? || op.Observe? || (op.Mutate? && !op.noPublish) }

  /** No acknowledgement is lost, and no write fails between the upload and the working copy. */
  predicate Clean(op: Op) { Publishes(op) ==> !op.up.Tears() }

  function Applied(a: Admin, op: Op): (Admin, Outcome) {
    match op
    case Mutate(edit, noPublish, fetch, again, up, now) => Mutated(a, edit, noPublish, fetch, again, up, now)
    case Publish(force, fetch, up, now) => PublishRun(a, force, fetch, up, now)
    case Observe(merge, synced, fetch, up, now) => Observed(a, merge, synced, fetch, up, now)
    case Sync(fetch) =>
      match SyncChoice(a.disk, fetch)
      case Some(choice) =>
        if MayWrite(a.disk, choice.0) then (a.(disk := Written(a.disk, choice.0)), Done) else (a, Refused)
      case None => (a, Refused)
  }

  /** What an operation that took effect does to the content, with no regard to files or serials. */
  function Intended(c: Content, op: Op, r: Outcome): Content {
    if r.Refused? || r.Torn? then c else
    match op
    case Mutate(edit, _, _, _, _, _) => if edit(c).Some? then edit(c).value else c
    case Observe(merge, _, _, _, _) => merge(c).0
    case _ => c
  }

  ghost function Final(a: Admin, ops: seq<Op>): Admin {
    if ops == [] then a else Applied(Final(a, ops[..|ops| - 1]), ops[|ops| - 1]).0
  }

  /** The fold of all edits that took effect, deferred or published. */
  ghost function Fold(a: Admin, c: Content, ops: seq<Op>): Content {
    if ops == [] then c else
      var front, op := ops[..|ops| - 1], ops[|ops| - 1];
      Intended(Fold(a, c, front), op, Applied(Final(a, front), op).1)
  }

  ghost predicate CleanRun(a: Admin, ops: seq<Op>) {
    forall k :: 0 <= k < |ops| ==> Honest(Final(a, ops[..k]), ops[k]) && Clean(ops[k])
  }

  /** The working copy exists and is at least as new as everything uploaded. */
  ghost predicate SourceLeads(a: Admin) {
    && a.disk.source.Holds?
    && (forall u :: u in a.uploads ==> u.serial <= a.disk.source.value.serial)
    && (a.disk.cache.Holds? ==> a.disk.cache.value in a.uploads)
  }

  /** One directory more is out, with this content. */
  ghost predicate Uploads(a: Admin, a': Admin, content: Content) {
    exists u :: a'.uploads == a.uploads + [u] && u.content == content
  }

  lemma PublishedLeads(a: Admin, dir: Directory, fetch: Fetch, force: bool, up: Upload, now: Time)
    requires SourceLeads(a) && dir.serial >= a.disk.source.value.serial
    ensures var (a', r) := PreparedAndPublished(a, dir, fetch, force, up, now);
      && (SourceLeads(a') <==> !r.Torn?)
      && (r.Torn? ==> up.Tears())
      && (r.Refused? ==> a'.uploads == a.uploads)
      && (r.Refused? || r.Torn? ==> a'.disk.source == a.disk.source)
      && (r.DoneWithError? || r.Done? ==> a'.disk.source.Holds? && a'.disk.source.value.content == dir.content)
      && (r.DoneWithError? || r.Done? ==> a'.uploads == a.uploads + [a'.disk.source.value])
      && (r.Torn? ==> Uploads(a, a', dir.content))
      && (r.Torn? <==> up.Tears() && PreparedAndPublished(a, dir, fetch, force, Arrives, now).1.Done?)
  {
    if Prepared(a.disk, dir, fetch, force, now).Some? {
      PreparedIsFresh(a.disk, dir, fetch, force, now);
      var next := Prepared(a.disk, dir, fetch, force, now).value;
      hide Prepared;
      var (a', r) := Published(a, next, up);
      if !r.Refused? {
        assert a'.uploads == a.uploads + [next];
        assert next in a'.uploads;
      }
    }
  }

  /** One operation takes the working copy where it is meant to go, and uploads just that. */
  lemma OneOperation(a: Admin, op: Op)
    requires SourceLeads(a) && Honest(a, op) && Clean(op)
    ensures var (a', r) := Applied(a, op);
      && SourceLeads(a') && !r.Torn?
      && a'.disk.source.value.content == Intended(a.disk.source.value.content, op, r)
      && (a'.uploads == a.uploads || a'.uploads == a.uploads + [a'.disk.source.value])
      && (!r.Refused? && Publishes(op) ==> a'.uploads == a.uploads + [a'.disk.source.value])
      && (r.Refused? ==> a'.uploads == a.uploads && a'.disk.source == a.disk.source)
  {
    PublishingOperation(a, op);
    if Draft(a, op).Some? {
      var (dir, fetch, force) := Draft(a, op).value;
      PublishedLeads(a, dir, fetch, force, op.up, op.now);
    }
    hide PreparedAndPublished, Applied, Honest, Uploads, Draft;
  }

  /** What an operation would publish: the draft, and the answers it is reconciled with. */
  function Draft(a: Admin, op: Op): Option<(Directory, Fetch, bool)>
    requires a.disk.source.Holds?
  {
    var source := a.disk.source.value;
    match op
    case Mutate(edit, noPublish, _, again, _, _) =>
      if noPublish || edit(source.content).None? then None
      else Some((source.(content := edit(source.content).value), again, false))
    case Publish(force, fetch, _, _) => Some((source, fetch, force))
    case Observe(merge, synced, fetch, _, _) =>
      if !fetch.Fetched? || fetch.dir.serial < synced || fetch.dir != source || !merge(source.content).1 then None
      else Some((source.(content := merge(source.content).0), fetch, false))
    case Sync(_) => None
  }

  /** An operation publishes its draft, or leaves uploads and, unless it is a deferred edit, the working copy. */
  lemma PublishingOperation(a: Admin, op: Op)
    requires SourceLeads(a) && Honest(a, op)
    ensures Draft(a, op).Some? ==>
      var (dir, fetch, force) := Draft(a, op).value;
      && Publishes(op) && dir.serial == a.disk.source.value.serial
      && dir.content == Intended(a.disk.source.value.content, op, Done)
      && Applied(a, op) == PreparedAndPublished(a, dir, fetch, force, op.up, op.now)
    ensures Draft(a, op).None? ==>
      var (a', r) := Applied(a, op);
      && SourceLeads(a') && a'.uploads == a.uploads && (r.Refused? || (r.Done? && !Publishes(op)))
      && a'.disk.source.value.content == Intended(a.disk.source.value.content, op, r)
      && (r.Refused? ==> a'.disk.source == a.disk.source)
  {
    hide PreparedAndPublished;
  }

  /**
    Exactly when an operation leaves an upload that the working copy does not know of: it
    publishes, it would have succeeded, and an error strikes between the two.
   */
  lemma TornExactly(a: Admin, op: Op)
    requires SourceLeads(a) && Honest(a, op)
    ensures var (a', r) := Applied(a, op);
      && (SourceLeads(a') <==> !r.Torn?)
      && (r.Torn? <==> Publishes(op) && op.up.Tears() && Applied(a, op.(up := Arrives)).1.Done?)
      && (r.Torn? ==> a'.disk.source == a.disk.source)
      && (r.Torn? ==> Uploads(a, a', Intended(a.disk.source.value.content, op, Done)))
  {
    PublishingOperation(a, op);
    if !op.Sync? {
      PublishingOperation(a, op.(up := Arrives));
    }
    if Draft(a, op).Some? {
      DraftedLeads(a, op);
    }
    hide PreparedAndPublished, SourceLeads, Applied, Intended, Honest, Uploads;
  }

  lemma DraftedLeads(a: Admin, op: Op)
    requires SourceLeads(a) && Draft(a, op).Some?
    ensures var (dir, fetch, force) := Draft(a, op).value;
      var (a', r) := PreparedAndPublished(a, dir, fetch, force, op.up, op.now);
      && (SourceLeads(a') <==> !r.Torn?)
      && (r.Torn? ==> a'.disk.source == a.disk.source && Uploads(a, a', dir.content))
      && (r.Torn? <==> op.up.Tears() && PreparedAndPublished(a, dir, fetch, force, Arrives, op.now).1.Done?)
  {
    var (dir, fetch, force) := Draft(a, op).value;
    hide PreparedAndPublished, SourceLeads;
    PublishedLeads(a, dir, fetch, force, op.up, op.now);
  }

  /**
    Exactly when an operation reports an error although it took full effect: it publishes, it
    would have succeeded, and the bootstrap file fails. The state is then that of a success.
   */
  lemma DoneWithErrorExactly(a: Admin, op: Op)
    ensures Applied(a, op).1.DoneWithError? <==>
      Publishes(op) && op.up.BootstrapFails? && Applied(a, op.(up := Arrives)).1.Done?
    ensures Publishes(op) && op.up.BootstrapFails? ==> Applied(a, op).0 == Applied(a, op.(up := Arrives)).0
  {
  }

  /** Such an operation: the first publish of a new network. */
  lemma FirstPublishReportsError(content: Content, now: Time) returns (a: Admin, op: Op)
    ensures SourceLeads(a) && Honest(a, op) && Clean(op)
    ensures Applied(a, op).1 == DoneWithError && Applied(a, op).0.uploads != a.uploads
  {
    a := Admin(Disk(Missing, Missing, Missing, Holds(Directory(0, ZERO_TIME, content)), Missing), []);
    op := Publish(false, NotFound, BootstrapFails, now);
    assert Prepared(a.disk, a.disk.source.value, NotFound, false, now) == Some(Directory(1, now, content));
  }

  lemma CleanPrefix(a: Admin, ops: seq<Op>)
    requires CleanRun(a, ops) && ops != []
    ensures CleanRun(a, ops[..|ops| - 1])
  {
    var front := ops[..|ops| - 1];
    forall k | 0 <= k < |front|
      ensures Honest(Final(a, front[..k]), front[k]) && Clean(front[k])
    {
      assert front[..k] == ops[..k];
    }
  }

  /**
    Over every run with no lost acknowledgement and no failure between an upload and the
    working-copy write, the working copy is the fold of the edits that took effect.
   */
  lemma {:induction false} WorkingCopyIsFold(a: Admin, ops: seq<Op>)
    requires SourceLeads(a) && CleanRun(a, ops)
    ensures SourceLeads(Final(a, ops))
    ensures Final(a, ops).disk.source.value.content == Fold(a, a.disk.source.value.content, ops)
    ensures a.uploads <= Final(a, ops).uploads
    decreases |ops|
  {
    if ops != [] {
      var front := ops[..|ops| - 1];
      CleanPrefix(a, ops);
      WorkingCopyIsFold(a, front);
      OneOperation(Final(a, front), ops[|ops| - 1]);
    }
  }

  /** Upload n was made by operation k - 1 and carries the fold up to and including it. */
  ghost predicate UploadedAt(a: Admin, ops: seq<Op>, n: nat, k: nat)
    requires a.disk.source.Holds? && n < |Final(a, ops).uploads| && 0 < k <= |ops|
  {
    && |Final(a, ops[..k - 1]).uploads| == n < |Final(a, ops[..k]).uploads|
    && Final(a, ops).uploads[n].content == Fold(a, a.disk.source.value.content, ops[..k])
  }

  /** Every upload of a run carries exactly the fold at the moment it was made. */
  lemma {:induction false} UploadsAreFolds(a: Admin, ops: seq<Op>, n: nat)
    requires SourceLeads(a) && CleanRun(a, ops)
    requires |a.uploads| <= n < |Final(a, ops).uploads|
    ensures exists k :: 0 < k <= |ops| && UploadedAt(a, ops, n, k)
    decreases |ops|
  {
    assert a.disk.source.Holds?;
    hide Applied, Intended, Honest, SourceLeads, UploadedAt, Fold;
    var front := ops[..|ops| - 1];
    CleanPrefix(a, ops);
    WorkingCopyIsFold(a, front);
    OneOperation(Final(a, front), ops[|ops| - 1]);
    hide CleanRun, Final;
    if n < |Final(a, front).uploads| {
      UploadsAreFolds(a, front, n);
      var k :| 0 < k <= |front| && UploadedAt(a, front, n, k);
      StillUploadedAt(a, ops, n, k);
    } else {
      WorkingCopyIsFold(a, ops);
      JustUploaded(a, ops, n);
    }
  }

  lemma StillUploadedAt(a: Admin, ops: seq<Op>, n: nat, k: nat)
    requires a.disk.source.Holds? && 0 < k < |ops|
    requires n < |Final(a, ops[..|ops| - 1]).uploads| <= |Final(a, ops).uploads|
    requires Final(a, ops).uploads[n] == Final(a, ops[..|ops| - 1]).uploads[n]
    requires UploadedAt(a, ops[..|ops| - 1], n, k)
    ensures UploadedAt(a, ops, n, k)
  {
    hide Final, Fold;
    var front := ops[..|ops| - 1];
    assert front[..k] == ops[..k] && front[..k - 1] == ops[..k - 1];
  }

  lemma JustUploaded(a: Admin, ops: seq<Op>, n: nat)
    requires a.disk.source.Holds? && ops != [] && |Final(a, ops[..|ops| - 1]).uploads| == n < |Final(a, ops).uploads|
    requires Final(a, ops).uploads[n].content == Fold(a, a.disk.source.value.content, ops)
    ensures UploadedAt(a, ops, n, |ops|)
  {
    hide Final, Fold;
    assert ops[..|ops|] == ops;
  }

  /** Observation does nothing at all while an edit is staged. */
  lemma ObservationLeavesStagedEdits(a: Admin, op: Op)
    requires SourceLeads(a) && op.Observe? && Honest(a, op)
    requires a.disk.source.value !in a.uploads
    ensures Applied(a, op) == (a, Refused)
  {
  }

  /** Why torn uploads are excluded: the edit that "failed" is then taken or dropped by the next
      transaction according to what the drop answers. */
  lemma LostAcknowledgement(a: Admin, edited: Content, fetch: Fetch, now: Time)
    requires SourceLeads(a) && edited != a.disk.source.value.content
    requires Prepared(a.disk, a.disk.source.value.(content := edited), fetch, false, now).Some?
    ensures var dir := Prepared(a.disk, a.disk.source.value.(content := edited), fetch, false, now).value;
      var (lost, r) := Published(a, dir, PutUnreported);
      && r.Torn? && !SourceLeads(lost)
      && FetchedAdmin(lost, Fetched(dir)) == Some(dir) && dir.content == edited
      && FetchedAdmin(lost, Failed) == Some(a.disk.source.value)
  {
    var source := a.disk.source.value;
    PreparedIsFresh(a.disk, source.(content := edited), fetch, false, now);
    var dir := Prepared(a.disk, source.(content := edited), fetch, false, now).value;
    assert dir in a.uploads + [dir];
  }

  // ---- When each transaction succeeds ---------------------------------------------------

  /** Nothing stands in the way of an upload but its serial. */
  predicate GoesThrough(up: Upload) { up.Arrives? || (up.CacheFails? && up.files >= 3) }

  lemma PreparedSucceeds(a: Admin, dir: Directory, fetch: Fetch, force: bool, up: Upload, now: Time)
    ensures var (a', r) := PreparedAndPublished(a, dir, fetch, force, up, now);
      && (r.Done? <==> GoesThrough(up) && Prepared(a.disk, dir, fetch, force, now).Some?)
      && (r.Done? ==>
            var next := Prepared(a.disk, dir, fetch, force, now).value;
            && a'.uploads == a.uploads + [next] && a'.disk.source == a'.disk.cache == Holds(next)
            && a'.disk.serial == a'.disk.state == a'.disk.publish == Holds(next.serial))
  {
    if Prepared(a.disk, dir, fetch, force, now).Some? {
      PreparedIsFresh(a.disk, dir, fetch, force, now);
      hide Prepared;
    }
  }

  /** An explicit publish succeeds exactly when there is a working copy and a serial for it, and uploads that copy. */
  lemma PublishSucceeds(a: Admin, force: bool, fetch: Fetch, up: Upload, now: Time)
    ensures var (a', r) := Applied(a, Publish(force, fetch, up, now));
      && (r.Done? <==>
            && a.disk.source.Holds? && GoesThrough(up)
            && Prepared(a.disk, a.disk.source.value, fetch, force, now).Some?)
      && (r.Done? ==>
            a'.uploads == a.uploads + [Prepared(a.disk, a.disk.source.value, fetch, force, now).value])
  {
    if a.disk.source.Holds? {
      PreparedSucceeds(a, a.disk.source.value, fetch, force, up, now);
    }
    hide PreparedAndPublished, Prepared;
  }

  /** A deferred edit changes the content of the newest directory, keeps its serial, and uploads nothing. */
  lemma DeferredEdit(a: Admin, edit: Content -> Option<Content>, fetch: Fetch, again: Fetch, up: Upload, now: Time)
    ensures var (a', r) := Applied(a, Mutate(edit, true, fetch, again, up, now));
      var dir := FetchedAdmin(a, fetch);
      && (r.Done? <==> dir.Some? && edit(dir.value.content).Some? && !up.SourceFails?)
      && (!r.Done? ==> a' == a && r.Refused?)
      && (r.Done? ==>
            && a'.uploads == a.uploads
            && a'.disk == a.disk.(source := Holds(dir.value.(content := edit(dir.value.content).value))))
  {
  }

  /** A published edit succeeds exactly when there is a directory, the edit applies, and there is a serial. */
  lemma EditSucceeds(a: Admin, edit: Content -> Option<Content>, fetch: Fetch, again: Fetch, up: Upload, now: Time)
    ensures var (a', r) := Applied(a, Mutate(edit, false, fetch, again, up, now));
      var dir := FetchedAdmin(a, fetch);
      && (r.Done? <==>
            && dir.Some? && edit(dir.value.content).Some? && GoesThrough(up)
            && Prepared(a.disk, dir.value.(content := edit(dir.value.content).value), again, false, now).Some?)
      && (r.Done? ==>
            |a'.uploads| == |a.uploads| + 1 && a'.uploads[|a.uploads|].content == edit(dir.value.content).value)
  {
    var dir := FetchedAdmin(a, fetch);
    if dir.Some? && edit(dir.value.content).Some? {
      var draft := dir.value.(content := edit(dir.value.content).value);
      PreparedSucceeds(a, draft, again, false, up, now);
      if Prepared(a.disk, draft, again, false, now).Some? {
        PreparedIsFresh(a.disk, draft, again, false, now);
      }
    }
    hide PreparedAndPublished, Prepared, FetchedAdmin;
  }

  /**
    Observation publishes exactly when the drop's directory is no older than the synced one, no
    edit is staged against it, and the merge changed something; it uploads the merged content.
   */
  lemma ObservationPublishes(
    a: Admin, merge: Content -> (Content, bool), synced: Serial, fetch: Fetch, up: Upload, now: Time)
    ensures var (a', r) := Applied(a, Observe(merge, synced, fetch, up, now));
      && (r.Done? <==>
            && fetch.Fetched? && fetch.dir.serial >= synced && a.disk.source.Holds?
            && (a.disk.source.value == fetch.dir || a.disk.source.value.serial < fetch.dir.serial)
            && merge(fetch.dir.content).1 && GoesThrough(up)
            && Prepared(a.disk, fetch.dir.(content := merge(fetch.dir.content).0), fetch, false, now).Some?)
      && (r.Done? ==>
            |a'.uploads| == |a.uploads| + 1 && a'.uploads[|a.uploads|].content == merge(fetch.dir.content).0)
  {
    if fetch.Fetched? {
      var draft := fetch.dir.(content := merge(fetch.dir.content).0);
      PreparedSucceeds(a, draft, fetch, false, up, now);
      if Prepared(a.disk, draft, fetch, false, now).Some? {
        PreparedIsFresh(a.disk, draft, fetch, false, now);
      }
    }
    hide PreparedAndPublished, Prepared;
  }
}
