/**
  The directory serial protocol as a step system: one publishing machine, any number of
  syncing processes on any number of machines, crashes between any two file writes, uploads
  whose outcome is unknown, and a drop that may serve any blob ever uploaded.
 */
module SerialProtocol {
  import opened Options
  import opened Directory
  import opened StateDir
  import opened Publishing

  type Pid = nat
  /** Machines are indices; machine 0 publishes. */
  type Machine = nat

  datatype Proc =
    /** A sync that opened a blob, before its own high-water check. */
    | Opened(m: Machine, dir: Directory)
    /** A sync about to call cache.Write. */
    | Chosen(m: Machine, dir: Directory)
    /** A publish transaction holding the admin lock. */
    | Drafting(draft: Directory, fetch: Fetch, force: bool)
    | Numbered(dir: Directory)
    | Reserved(dir: Directory)
    | Uploaded(dir: Directory)
    /** Inside cache.Write, holding the state lock: `done` of its three files are written. */
    | Writing(m: Machine, dir: Directory, done: nat, publishing: bool)
    /** A publish that still has to write the working copy. */
    | Cached(dir: Directory)
  {
    predicate Publishes() {
      Drafting? || Numbered? || Reserved? || Uploaded? || Cached? || (Writing? && publishing)
    }

    predicate LocksState(machine: Machine) { Writing? && m == machine }
  }

  datatype World = World(
    disks: seq<Disk>,
    uploads: set<Directory>,
    procs: map<Pid, Proc>,
    /** Per machine, every directory installed in the cache, in order. */
    accepted: seq<seq<Directory>>)

  datatype Step =
    | SyncOpen(p: Pid, m: Machine, dir: Directory)
    | SyncOffline(p: Pid, m: Machine)
    | SyncCheck(p: Pid)
    | Enter(p: Pid)
    | NextFile(p: Pid)
    | StageEdit(p: Pid, dir: Directory)
    | Begin(p: Pid, draft: Directory, fetch: Fetch, force: bool)
    | Number(p: Pid, now: Time)
    | Reserve(p: Pid)
    | Upload(p: Pid, reached: bool, acknowledged: bool)
    | SaveSource(p: Pid)
    | RaiseFloor(m: Machine, serial: Serial)
    | Crash(p: Pid)

  ghost predicate StateLockFree(w: World, m: Machine) {
    forall p :: p in w.procs ==> !w.procs[p].LocksState(m)
  }

  ghost predicate AdminLockFree(w: World) {
    forall p :: p in w.procs ==> !w.procs[p].Publishes()
  }

  function Ended(w: World, p: Pid): World { w.(procs := w.procs - {p}) }

  function Moved(w: World, p: Pid, proc: Proc): World { w.(procs := w.procs[p := proc]) }

  function OnDisk(w: World, m: Machine, d: Disk): World
    requires m < |w.disks|
  {
    w.(disks := w.disks[m := d])
  }

  /** The effect of one step; a step that is not enabled changes nothing. */
  ghost function Do(w: World, step: Step): World
    requires |w.disks| == |w.accepted| > 0
  {
    match step
    case SyncOpen(p, m, dir) =>
      if p !in w.procs && m < |w.disks| && dir in w.uploads then Moved(w, p, Opened(m, dir)) else w
    case SyncOffline(p, m) =>
      if p !in w.procs && m < |w.disks| && w.disks[m].cache.Holds?
      then Moved(w, p, Chosen(m, w.disks[m].cache.value)) else w
    case SyncCheck(p) =>
      if p in w.procs && w.procs[p].Opened? && w.procs[p].m < |w.disks| then
        var Opened(m, dir) := w.procs[p];
        if SyncChoice(w.disks[m], Fetched(dir)).Some? then Moved(w, p, Chosen(m, dir)) else Ended(w, p)
      else w
    case Enter(p) => if p in w.procs then DoEnter(w, p) else w
    case NextFile(p) => if p in w.procs then DoNextFile(w, p) else w
    case StageEdit(p, dir) =>
      if p !in w.procs && AdminLockFree(w) && StateLockFree(w, 0)
      then OnDisk(w, 0, w.disks[0].(source := Holds(dir))) else w
    case Begin(p, draft, fetch, force) =>
      if p !in w.procs && AdminLockFree(w) && (fetch.Fetched? ==> fetch.dir in w.uploads)
      then Moved(w, p, Drafting(draft, fetch, force)) else w
    case Number(p, now) =>
      if p in w.procs && w.procs[p].Drafting? then
        var Drafting(draft, fetch, force) := w.procs[p];
        match Prepared(w.disks[0], draft, fetch, force, now)
        case Some(dir) => Moved(w, p, Numbered(dir))
        case None => Ended(w, p)
      else w
    case Reserve(p) =>
      if p in w.procs && w.procs[p].Numbered? && StateLockFree(w, 0) then
        var dir := w.procs[p].dir;
        if MayReserve(w.disks[0], dir.serial)
        then OnDisk(Moved(w, p, Reserved(dir)), 0, w.disks[0].(publish := Holds(dir.serial)))
        else Ended(w, p)
      else w
    case Upload(p, reached, acknowledged) =>
      if p in w.procs && w.procs[p].Reserved? && (acknowledged ==> reached) then
        var dir := w.procs[p].dir;
        var w' := if reached then w.(uploads := w.uploads + {dir}) else w;
        if acknowledged then Moved(w', p, Uploaded(dir)) else Ended(w', p)
      else w
    case SaveSource(p) =>
      if p in w.procs && w.procs[p].Cached? && StateLockFree(w, 0)
      then OnDisk(Ended(w, p), 0, w.disks[0].(source := Holds(w.procs[p].dir))) else w
    case RaiseFloor(m, serial) =>
      if m < |w.disks| && StateLockFree(w, m) then OnDisk(w, m, FloorRaised(w.disks[m], serial)) else w
    case Crash(p) => Ended(w, p)
  }

  /** Taking the state lock for cache.Write and passing its check, or being refused. */
  ghost function DoEnter(w: World, p: Pid): World
    requires p in w.procs && |w.disks| > 0
  {
    match w.procs[p]
    case Chosen(m, dir) =>
      if m < |w.disks| && StateLockFree(w, m) then
        if MayWrite(w.disks[m], dir) then Moved(w, p, Writing(m, dir, 0, false)) else Ended(w, p)
      else w
    case Uploaded(dir) =>
      if StateLockFree(w, 0) then
        if MayWrite(w.disks[0], dir) then Moved(w, p, Writing(0, dir, 0, true)) else Ended(w, p)
      else w
    case _ => w
  }

  /** The next of cache.Write's three file writes; the last one releases the lock. */
  ghost function DoNextFile(w: World, p: Pid): World
    requires p in w.procs && |w.disks| == |w.accepted| > 0
  {
    match w.procs[p]
    case Writing(m, dir, done, publishing) =>
      if m >= |w.disks| then w else
      var d := w.disks[m];
      if done == 0 then
        OnDisk(Moved(w, p, Writing(m, dir, 1, publishing)), m, d.(serial := Holds(dir.serial)))
      else if done == 1 then
        OnDisk(Moved(w, p, Writing(m, dir, 2, publishing)), m, d.(cache := Holds(dir)))
          .(accepted := w.accepted[m := w.accepted[m] + [dir]])
      else
        OnDisk(if publishing then Moved(w, p, Cached(dir)) else Ended(w, p), m, d.(state := Holds(dir.serial)))
    case _ => w
  }

  // ---- Invariants -----------------------------------------------------------------------

  /** A directory is determined by its serial among everything uploaded. */
  ghost predicate SerialsUnique(uploads: set<Directory>) {
    forall a, b :: a in uploads && b in uploads && a.serial == b.serial ==> a == b
  }

  /** Every serial ever uploaded, or reserved for an upload, is covered by publish.serial. */
  ghost predicate Covered(w: World)
    requires |w.disks| > 0
  {
    && (forall d :: d in w.uploads ==> w.disks[0].publish.Holds? && d.serial <= w.disks[0].publish.value)
    && (forall p :: p in w.procs && w.procs[p].Reserved? ==>
          w.disks[0].publish == Holds(w.procs[p].dir.serial))
    && (forall p, d :: p in w.procs && w.procs[p].Reserved? && d in w.uploads ==> d.serial < w.procs[p].dir.serial)
  }

  /** At most one publish transaction, and at most one writer per machine. */
  ghost predicate LocksHeld(w: World) {
    && (forall p, q :: p in w.procs && q in w.procs && w.procs[p].Publishes() && w.procs[q].Publishes() ==> p == q)
    && (forall p, q, m ::
          p in w.procs && q in w.procs && w.procs[p].LocksState(m) && w.procs[q].LocksState(m) ==> p == q)
  }

  ghost predicate ProcOk(w: World, proc: Proc) {
    match proc
    case Opened(m, dir) => m < |w.disks| && dir in w.uploads
    case Chosen(m, dir) => m < |w.disks| && dir in w.uploads
    case Uploaded(dir) => dir in w.uploads
    case Cached(dir) => dir in w.uploads
    case Writing(m, dir, done, _) =>
      && m < |w.disks| && dir in w.uploads && done <= 2
      && (if done == 0 then MayWrite(w.disks[m], dir) else w.disks[m].serial == Holds(dir.serial))
      && (done == 2 ==> w.disks[m].cache == Holds(dir))
    case _ => true
  }

  ghost predicate DiskOk(w: World, m: Machine)
    requires m < |w.disks| == |w.accepted|
  {
    && Ordered(w.disks[m])
    && (w.disks[m].cache.Holds? ==> w.disks[m].cache.value in w.uploads)
    && (forall d :: d in w.accepted[m] ==>
          d in w.uploads && w.disks[m].serial.Holds? && d.serial <= w.disks[m].serial.value)
    && NeverBack(w.accepted[m])
  }

  /** Later entries repeat an earlier one or exceed its serial. */
  ghost predicate NeverBack(s: seq<Directory>) {
    forall i, j :: 0 <= i < j < |s| ==> s[i] == s[j] || s[i].serial < s[j].serial
  }

  ghost predicate Inv(w: World) {
    && |w.disks| == |w.accepted| > 0
    && SerialsUnique(w.uploads)
    && Covered(w)
    && LocksHeld(w)
    && ProcsOk(w)
    && DisksOk(w)
  }

  ghost predicate ProcsOk(w: World) {
    forall p :: p in w.procs ==> ProcOk(w, w.procs[p])
  }

  ghost predicate DisksOk(w: World)
    requires |w.disks| == |w.accepted|
  {
    forall m :: 0 <= m < |w.disks| ==> DiskOk(w, m)
  }

  /** Nothing uploaded, no process, every file absent (a working copy may exist). */
  ghost predicate Init(w: World) {
    && |w.disks| == |w.accepted| > 0
    && w.uploads == {} && w.procs == map[]
    && (forall m :: 0 <= m < |w.disks| ==>
          w.disks[m].serial.Missing? && w.disks[m].cache.Missing? && w.disks[m].state.Missing?
          && w.disks[m].publish.Missing? && w.accepted[m] == [])
  }

  // ---- Changes that keep the invariant --------------------------------------------------

  /** Disks and logs untouched, uploads at most added to. */
  lemma DisksCarryOver(w: World, w': World)
    requires |w.disks| == |w.accepted| && DisksOk(w)
    requires w'.disks == w.disks && w'.accepted == w.accepted && w.uploads <= w'.uploads
    ensures DisksOk(w') && forall x :: ProcOk(w, x) ==> ProcOk(w', x)
  {
    forall m | 0 <= m < |w.disks|
      ensures DiskOk(w', m)
    {
      assert DiskOk(w, m);
    }
  }

  lemma LocksMove(w: World, p: Pid, proc: Proc)
    requires LocksHeld(w)
    requires proc.Publishes() ==> AdminLockFree(w) || (p in w.procs && w.procs[p].Publishes())
    requires proc.Writing? ==> StateLockFree(w, proc.m) || (p in w.procs && w.procs[p].LocksState(proc.m))
    ensures LocksHeld(Moved(w, p, proc))
  {
  }

  lemma EndKeeps(w: World, p: Pid)
    requires Inv(w)
    ensures Inv(Ended(w, p))
  {
    var w' := Ended(w, p);
    DisksCarryOver(w, w');
    hide DisksOk;
    assert forall q :: q in w'.procs ==> q in w.procs && w'.procs[q] == w.procs[q];
  }

  ghost predicate MayMove(w: World, p: Pid, proc: Proc) {
    && ProcOk(w, proc) && !proc.Reserved?
    && (proc.Publishes() ==> AdminLockFree(w) || (p in w.procs && w.procs[p].Publishes()))
    && (proc.Writing? ==> StateLockFree(w, proc.m) || (p in w.procs && w.procs[p].LocksState(proc.m)))
  }

  lemma MoveKeeps(w: World, p: Pid, proc: Proc)
    requires Inv(w) && MayMove(w, p, proc)
    ensures Inv(Moved(w, p, proc))
  {
    var w' := Moved(w, p, proc);
    LocksMove(w, p, proc);
    DisksCarryOver(w, w');
    hide LocksHeld, DisksOk;
    assert forall q :: q in w'.procs ==> w'.procs[q] == if q == p then proc else w.procs[q];
  }

  /** A new disk whose serial, cache and publish files differ only as the locks allow. */
  ghost predicate MayReplace(w: World, m: Machine, d: Disk)
    requires m < |w.disks|
  {
    && Ordered(d) && Advances(w.disks[m], d)
    && d.publish == w.disks[m].publish
    && (d.cache.Holds? ==> d.cache.value in w.uploads)
    && (forall p :: p in w.procs && w.procs[p].LocksState(m) ==>
          ProcOk(w.(disks := w.disks[m := d]), w.procs[p]))
  }

  lemma ReplaceKeeps(w: World, m: Machine, d: Disk)
    requires Inv(w) && m < |w.disks| && MayReplace(w, m, d)
    ensures Inv(OnDisk(w, m, d))
  {
    var w' := OnDisk(w, m, d);
    assert forall k :: 0 <= k < |w.disks| && k != m ==> w'.disks[k] == w.disks[k];
    assert forall p :: p in w.procs ==> ProcOk(w', w.procs[p]);
    assert forall k :: 0 <= k < |w.disks| && DiskOk(w, k) ==> DiskOk(w', k);
  }

  lemma ReserveKeeps(w: World, p: Pid, dir: Directory)
    requires Inv(w) && p in w.procs && w.procs[p] == Numbered(dir) && MayReserve(w.disks[0], dir.serial)
    ensures Inv(OnDisk(Moved(w, p, Reserved(dir)), 0, w.disks[0].(publish := Holds(dir.serial))))
  {
    EndKeeps(w, p);
    var w0 := Ended(w, p);
    assert AdminLockFree(w0);
    RaisePublish(w0, dir.serial);
    var w1 := OnDisk(w0, 0, w.disks[0].(publish := Holds(dir.serial)));
    assert AdminLockFree(w1);
    HoldReservation(w1, p, dir);
    assert w1.procs[p := Reserved(dir)] == w.procs[p := Reserved(dir)];
  }

  lemma RaisePublish(w: World, serial: Serial)
    requires Inv(w) && AdminLockFree(w) && MayReserve(w.disks[0], serial)
    ensures var w' := OnDisk(w, 0, w.disks[0].(publish := Holds(serial)));
      Inv(w') && forall d :: d in w'.uploads ==> d.serial < serial
  {
    var w' := OnDisk(w, 0, w.disks[0].(publish := Holds(serial)));
    assert forall x :: ProcOk(w, x) ==> ProcOk(w', x);
    assert forall m :: 0 <= m < |w.disks| && DiskOk(w, m) ==> DiskOk(w', m);
  }

  lemma HoldReservation(w: World, p: Pid, dir: Directory)
    requires Inv(w) && AdminLockFree(w) && p !in w.procs
    requires w.disks[0].publish == Holds(dir.serial)
    requires forall d :: d in w.uploads ==> d.serial < dir.serial
    ensures Inv(Moved(w, p, Reserved(dir)))
  {
    var w' := Moved(w, p, Reserved(dir));
    LocksMove(w, p, Reserved(dir));
    DisksCarryOver(w, w');
    hide LocksHeld, DisksOk;
    assert forall q :: q in w'.procs ==> w'.procs[q] == if q == p then Reserved(dir) else w.procs[q];
  }

  lemma AddUpload(w: World, dir: Directory)
    requires Inv(w) && AdminLockFree(w)
    requires w.disks[0].publish == Holds(dir.serial)
    requires forall d :: d in w.uploads ==> d.serial < dir.serial
    ensures Inv(w.(uploads := w.uploads + {dir}))
  {
    var w' := w.(uploads := w.uploads + {dir});
    DisksCarryOver(w, w');
    hide DisksOk;
  }

  lemma UploadKeeps(w: World, p: Pid, dir: Directory, reached: bool, acknowledged: bool)
    requires Inv(w) && p in w.procs && w.procs[p] == Reserved(dir) && (acknowledged ==> reached)
    ensures Inv(Do(w, Upload(p, reached, acknowledged)))
  {
    var w0 := Ended(w, p);
    EndKeeps(w, p);
    assert AdminLockFree(w0);
    if reached {
      AddUpload(w0, dir);
      var w1 := w0.(uploads := w0.uploads + {dir});
      if acknowledged {
        assert AdminLockFree(w1);
        hide Inv;
        MoveKeeps(w1, p, Uploaded(dir));
        assert w1.procs[p := Uploaded(dir)] == w.procs[p := Uploaded(dir)];
      }
    }
  }

  /** Installing a directory whose serial is the high-water mark never goes back. */
  lemma AcceptKeeps(w: World, m: Machine, dir: Directory)
    requires Inv(w) && m < |w.disks| && dir in w.uploads && w.disks[m].serial == Holds(dir.serial)
    ensures Inv(w.(accepted := w.accepted[m := w.accepted[m] + [dir]]))
  {
    var w' := w.(accepted := w.accepted[m := w.accepted[m] + [dir]]);
    AcceptDisks(w, m, dir);
    hide DisksOk;
    assert forall x :: ProcOk(w, x) ==> ProcOk(w', x);
  }

  lemma AcceptDisks(w: World, m: Machine, dir: Directory)
    requires |w.disks| == |w.accepted| && SerialsUnique(w.uploads) && DisksOk(w)
    requires m < |w.disks| && dir in w.uploads && w.disks[m].serial == Holds(dir.serial)
    ensures DisksOk(w.(accepted := w.accepted[m := w.accepted[m] + [dir]]))
  {
    var w' := w.(accepted := w.accepted[m := w.accepted[m] + [dir]]);
    assert DiskOk(w, m);
    NeverBackAppend(w.accepted[m], dir, w.uploads);
    hide NeverBack, SerialsUnique;
    forall k | 0 <= k < |w.disks|
      ensures DiskOk(w', k)
    {
      assert DiskOk(w, k);
    }
  }

  lemma NeverBackAppend(s: seq<Directory>, dir: Directory, uploads: set<Directory>)
    requires NeverBack(s) && SerialsUnique(uploads) && dir in uploads
    requires forall d :: d in s ==> d in uploads && d.serial <= dir.serial
    ensures NeverBack(s + [dir])
  {
    forall i, j | 0 <= i < j < |s + [dir]|
      ensures (s + [dir])[i] == (s + [dir])[j] || (s + [dir])[i].serial < (s + [dir])[j].serial
    {
      if j == |s| {
        assert s[i] in s;
      }
    }
  }

  // ---- Every step keeps the invariant ---------------------------------------------------

  lemma EnterKeeps(w: World, p: Pid)
    requires Inv(w) && p in w.procs
    ensures Inv(DoEnter(w, p))
  {
    assert ProcOk(w, w.procs[p]);
    EndKeeps(w, p);
    match w.procs[p]
    case Chosen(m, dir) =>
      if StateLockFree(w, m) && MayWrite(w.disks[m], dir) {
        hide Inv;
        MoveKeeps(w, p, Writing(m, dir, 0, false));
      }
    case Uploaded(dir) =>
      if StateLockFree(w, 0) && MayWrite(w.disks[0], dir) {
        hide Inv;
        MoveKeeps(w, p, Writing(0, dir, 0, true));
      }
    case _ =>
  }

  lemma NextFileKeeps(w: World, p: Pid)
    requires Inv(w) && p in w.procs
    ensures Inv(DoNextFile(w, p))
  {
    if w.procs[p].Writing? {
      var Writing(m, dir, done, publishing) := w.procs[p];
      assert ProcOk(w, w.procs[p]) && DiskOk(w, m);
      assert forall q :: q in w.procs && w.procs[q].LocksState(m) ==> q == p;
      var d := w.disks[m];
      if done == 0 {
        FileKeeps(w, p, m, d.(serial := Holds(dir.serial)), Writing(m, dir, 1, publishing));
      } else if done == 1 {
        var w1 := OnDisk(Moved(w, p, Writing(m, dir, 2, publishing)), m, d.(cache := Holds(dir)));
        FileKeeps(w, p, m, d.(cache := Holds(dir)), Writing(m, dir, 2, publishing));
        AcceptKeeps(w1, m, dir);
        assert DoNextFile(w, p) == w1.(accepted := w1.accepted[m := w1.accepted[m] + [dir]]);
      } else {
        var d' := d.(state := Holds(dir.serial));
        FileKeeps(w, p, m, d', Cached(dir));
        if !publishing {
          FileEnds(w, p, m, d');
        }
      }
    }
  }

  /** The lock holder replaces a file and moves on. */
  lemma FileKeeps(w: World, p: Pid, m: Machine, d: Disk, proc: Proc)
    requires Inv(w) && p in w.procs && w.procs[p].LocksState(m) && m < |w.disks|
    requires Ordered(d) && Advances(w.disks[m], d) && d.publish == w.disks[m].publish
    requires d.cache.Holds? ==> d.cache.value in w.uploads
    requires proc.Cached? || (proc.Writing? && proc.m == m && proc.publishing == w.procs[p].publishing)
    requires ProcOk(w.(disks := w.disks[m := d]), proc)
    ensures (proc.Cached? && !w.procs[p].publishing) || Inv(OnDisk(Moved(w, p, proc), m, d))
  {
    if proc.Writing? || w.procs[p].publishing {
      var w1 := OnDisk(Moved(w, p, proc), m, d);
      FileEnds(w, p, m, d);
      var w0 := OnDisk(Ended(w, p), m, d);
      assert AdminLockFree(w0) || !proc.Publishes();
      assert StateLockFree(w0, m);
      hide Inv;
      MoveKeeps(w0, p, proc);
      assert Moved(w0, p, proc) == w1 by {
        assert w0.procs[p := proc] == w.procs[p := proc];
      }
    }
  }

  lemma FileEnds(w: World, p: Pid, m: Machine, d: Disk)
    requires Inv(w) && p in w.procs && w.procs[p].LocksState(m) && m < |w.disks|
    requires Ordered(d) && Advances(w.disks[m], d) && d.publish == w.disks[m].publish
    requires d.cache.Holds? ==> d.cache.value in w.uploads
    ensures Inv(OnDisk(Ended(w, p), m, d))
  {
    EndKeeps(w, p);
    var w0 := Ended(w, p);
    assert StateLockFree(w0, m);
    hide Inv;
    ReplaceKeeps(w0, m, d);
  }

  lemma SyncKeeps(w: World, step: Step)
    requires Inv(w) && (step.SyncOpen? || step.SyncOffline? || step.SyncCheck?)
    ensures Inv(Do(w, step))
  {
    match step
    case SyncOpen(p, m, dir) =>
      if p !in w.procs && m < |w.disks| && dir in w.uploads {
        MoveKeeps(w, p, Opened(m, dir));
      }
    case SyncOffline(p, m) =>
      if p !in w.procs && m < |w.disks| && w.disks[m].cache.Holds? {
        assert DiskOk(w, m);
        MoveKeeps(w, p, Chosen(m, w.disks[m].cache.value));
      }
    case SyncCheck(p) =>
      if p in w.procs && w.procs[p].Opened? {
        assert ProcOk(w, w.procs[p]);
        EndKeeps(w, p);
        MoveKeeps(w, p, Chosen(w.procs[p].m, w.procs[p].dir));
      }
  }

  lemma AdminKeeps(w: World, step: Step)
    requires Inv(w) && (step.Begin? || step.Number? || step.Reserve?)
    ensures Inv(Do(w, step))
  {
    match step
    case Begin(p, draft, fetch, force) =>
      if p !in w.procs && AdminLockFree(w) {
        MoveKeeps(w, p, Drafting(draft, fetch, force));
      }
    case Number(p, now) =>
      if p in w.procs && w.procs[p].Drafting? {
        EndKeeps(w, p);
        var Drafting(draft, fetch, force) := w.procs[p];
        var next := Prepared(w.disks[0], draft, fetch, force, now);
        if next.Some? {
          MoveKeeps(w, p, Numbered(next.value));
        }
      }
    case Reserve(p) =>
      if p in w.procs && w.procs[p].Numbered? {
        EndKeeps(w, p);
        if MayReserve(w.disks[0], w.procs[p].dir.serial) {
          ReserveKeeps(w, p, w.procs[p].dir);
        }
      }
  }

  lemma SourceKeeps(w: World, dir: Directory)
    requires Inv(w)
    ensures Inv(OnDisk(w, 0, w.disks[0].(source := Holds(dir))))
  {
    assert DiskOk(w, 0);
    var d := w.disks[0].(source := Holds(dir));
    assert forall p :: p in w.procs ==> ProcOk(w, w.procs[p]) ==> ProcOk(w.(disks := w.disks[0 := d]), w.procs[p]);
    ReplaceKeeps(w, 0, d);
  }

  lemma FloorKeeps(w: World, m: Machine, serial: Serial)
    requires Inv(w) && m < |w.disks| && StateLockFree(w, m)
    ensures Inv(OnDisk(w, m, FloorRaised(w.disks[m], serial)))
  {
    assert DiskOk(w, m);
    ReplaceKeeps(w, m, FloorRaised(w.disks[m], serial));
  }

  lemma StepKeeps(w: World, step: Step)
    requires Inv(w)
    ensures Inv(Do(w, step))
  {
    match step
    case SyncOpen(_, _, _) => SyncKeeps(w, step);
    case SyncOffline(_, _) => SyncKeeps(w, step);
    case SyncCheck(_) => SyncKeeps(w, step);
    case Begin(_, _, _, _) => AdminKeeps(w, step);
    case Number(_, _) => AdminKeeps(w, step);
    case Reserve(_) => AdminKeeps(w, step);
    case Enter(p) => if p in w.procs { EnterKeeps(w, p); }
    case NextFile(p) => if p in w.procs { NextFileKeeps(w, p); }
    case StageEdit(_, dir) => SourceKeeps(w, dir);
    case Upload(p, reached, acknowledged) =>
      if p in w.procs && w.procs[p].Reserved? && (acknowledged ==> reached) {
        UploadKeeps(w, p, w.procs[p].dir, reached, acknowledged);
      }
    case SaveSource(p) =>
      if p in w.procs && w.procs[p].Cached? {
        EndKeeps(w, p);
        SourceKeeps(Ended(w, p), w.procs[p].dir);
      }
    case RaiseFloor(m, serial) =>
      if m < |w.disks| && StateLockFree(w, m) {
        FloorKeeps(w, m, serial);
      }
    case Crash(p) => EndKeeps(w, p);
  }

  // ---- Whole runs -----------------------------------------------------------------------

  ghost function Run(w: World, steps: seq<Step>): World
    requires Inv(w)
    ensures Inv(Run(w, steps))
  {
    if steps == [] then w else
      var before := Run(w, steps[..|steps| - 1]);
      StepKeeps(before, steps[|steps| - 1]);
      Do(before, steps[|steps| - 1])
  }

  lemma InitOk(w: World)
    requires Init(w)
    ensures Inv(w)
  {
  }

  /**
    Rollback safety. In every run, with forced publishes, republishes, lost acknowledgements,
    crashes and concurrent syncs, and whatever earlier upload the drop serves: once a machine
    has accepted a directory, each later acceptance is that very directory or has a higher serial.
   */
  lemma NeverRollsBack(w: World, steps: seq<Step>, m: Machine, i: nat, j: nat)
    requires Init(w)
    ensures Inv(w)
    ensures m < |Run(w, steps).accepted| && i < j < |Run(w, steps).accepted[m]| ==>
      var log := Run(w, steps).accepted[m];
      log[i] == log[j] || log[i].serial < log[j].serial
  {
    InitOk(w);
    var last := Run(w, steps);
    if m < |last.accepted| {
      assert DiskOk(last, m);
    }
  }

  /** No two different directories are ever uploaded under one serial. */
  lemma SerialsNeverReused(w: World, steps: seq<Step>, a: Directory, b: Directory)
    requires Init(w)
    ensures Inv(w)
    ensures a in Run(w, steps).uploads && b in Run(w, steps).uploads && a != b ==> a.serial != b.serial
  {
    InitOk(w);
  }

  /** At every point of every run, crash points included, the three files are in order. */
  lemma FilesStayOrdered(w: World, steps: seq<Step>, m: Machine)
    requires Init(w)
    ensures Inv(w)
    ensures m < |Run(w, steps).disks| ==> Ordered(Run(w, steps).disks[m])
  {
    InitOk(w);
    var last := Run(w, steps);
    if m < |last.disks| {
      assert DiskOk(last, m);
    }
  }

  lemma StepAdvances(w: World, step: Step, m: Machine)
    requires Inv(w) && m < |w.disks|
    ensures |Do(w, step).disks| == |w.disks|
    ensures Advances(w.disks[m], Do(w, step).disks[m])
    ensures w.accepted[m] <= Do(w, step).accepted[m]
  {
    assert ProcsOk(w);
  }

  /** Over any stretch of a run no serial file is lowered, and no acceptance is forgotten. */
  lemma {:induction false} MarksOnlyRise(w: World, steps: seq<Step>, m: Machine)
    requires Inv(w) && m < |w.disks|
    ensures |Run(w, steps).disks| == |w.disks|
    ensures Advances(w.disks[m], Run(w, steps).disks[m])
    ensures w.accepted[m] <= Run(w, steps).accepted[m]
    decreases |steps|
  {
    if steps != [] {
      var front, last := steps[..|steps| - 1], steps[|steps| - 1];
      MarksOnlyRise(w, front, m);
      StepAdvances(Run(w, front), last, m);
    }
  }

  /** Reserving a serial and failing to upload it leave offline syncing as it was. */
  lemma FailedUploadHarmless(w: World, p: Pid, reached: bool, m: Machine)
    requires Inv(w) && m < |w.disks|
    ensures var w' := Do(Do(w, Reserve(p)), Upload(p, reached, false));
      && |w'.disks| == |w.disks|
      && w'.disks[m].(publish := w.disks[m].publish) == w.disks[m]
      && (OfflineWorks(w.disks[m]) <==> OfflineWorks(w'.disks[m]))
  {
    StepKeeps(w, Reserve(p));
  }

  /** Run alone, the steps of one write take the disk through cache.Write's own trail. */
  lemma StepsAreWrite(w: World, p: Pid)
    requires Inv(w) && p in w.procs && w.procs[p].Chosen?
    requires StateLockFree(w, w.procs[p].m) && MayWrite(w.disks[w.procs[p].m], w.procs[p].dir)
    ensures var Chosen(m, dir) := w.procs[p];
      var w1 := DoNextFile(DoEnter(w, p), p);
      var w2 := DoNextFile(w1, p);
      var w3 := DoNextFile(w2, p);
      && [w1.disks[m], w2.disks[m], w3.disks[m]] == WriteTrail(w.disks[m], dir)
      && w3.accepted[m] == w.accepted[m] + [dir] && p !in w3.procs
  {
    EnterKeeps(w, p);
    NextFileKeeps(DoEnter(w, p), p);
    NextFileKeeps(DoNextFile(DoEnter(w, p), p), p);
    assert ProcOk(w, w.procs[p]);
  }
}
