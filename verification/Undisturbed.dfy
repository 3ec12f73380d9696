/** Undisturbed, the step system does what the code's own transactions do. */
module Undisturbed {
  import opened Options
  import opened Directory
  import opened StateDir
  import opened Publishing
  import opened SerialProtocol
  import A = AdminEdits

  /** The world when a publish of `next` by p has come so far, and nothing else happened. */
  ghost function Midway(w: World, p: Pid, next: Directory, proc: Proc, d: Disk, out: bool, logged: bool): World
    requires |w.disks| == |w.accepted| > 0
  {
    World(
      w.disks[0 := d],
      if out then w.uploads + {next} else w.uploads,
      w.procs[p := proc],
      if logged then w.accepted[0 := w.accepted[0] + [next]] else w.accepted)
  }

  /** Nobody else holds a lock that a publish needs. */
  ghost predicate Quiet(w: World, p: Pid) {
    |w.disks| == |w.accepted| > 0 && p !in w.procs && AdminLockFree(w) && StateLockFree(w, 0)
  }

  lemma MidwayFree(w: World, p: Pid, next: Directory, proc: Proc, d: Disk, out: bool, logged: bool)
    requires Quiet(w, p) && !proc.Writing?
    ensures StateLockFree(Midway(w, p, next, proc, d, out, logged), 0)
  {
  }

  // ---- The steps, one at a time ---------------------------------------------------------

  lemma Begins(w: World, p: Pid, draft: Directory, fetch: Fetch, force: bool, next: Directory)
    requires Quiet(w, p) && (fetch.Fetched? ==> fetch.dir in w.uploads)
    ensures Do(w, Begin(p, draft, fetch, force))
         == Midway(w, p, next, Drafting(draft, fetch, force), w.disks[0], false, false)
  {
    assert w.disks[0 := w.disks[0]] == w.disks;
  }

  lemma Numbers(w: World, p: Pid, draft: Directory, fetch: Fetch, force: bool, now: Time, next: Directory)
    requires Quiet(w, p) && Prepared(w.disks[0], draft, fetch, force, now) == Some(next)
    ensures Do(Midway(w, p, next, Drafting(draft, fetch, force), w.disks[0], false, false), Number(p, now))
         == Midway(w, p, next, Numbered(next), w.disks[0], false, false)
  {
    hide Prepared, AdminLockFree, StateLockFree;
    var procs := w.procs[p := Drafting(draft, fetch, force)];
    assert procs[p := Numbered(next)] == w.procs[p := Numbered(next)];
  }

  lemma Reserves(w: World, p: Pid, next: Directory)
    requires Quiet(w, p) && MayReserve(w.disks[0], next.serial)
    ensures var d := w.disks[0].(publish := Holds(next.serial));
      Do(Midway(w, p, next, Numbered(next), w.disks[0], false, false), Reserve(p))
        == Midway(w, p, next, Reserved(next), d, false, false)
  {
    MidwayFree(w, p, next, Numbered(next), w.disks[0], false, false);
    hide AdminLockFree, StateLockFree;
    var d := w.disks[0].(publish := Holds(next.serial));
    assert w.disks[0 := w.disks[0]][0 := d] == w.disks[0 := d];
    assert w.procs[p := Numbered(next)][p := Reserved(next)] == w.procs[p := Reserved(next)];
  }

  lemma Sends(w: World, p: Pid, next: Directory, d: Disk)
    requires Quiet(w, p)
    ensures Do(Midway(w, p, next, Reserved(next), d, false, false), Upload(p, true, true))
         == Midway(w, p, next, Uploaded(next), d, true, false)
  {
    hide AdminLockFree, StateLockFree;
    assert w.procs[p := Reserved(next)][p := Uploaded(next)] == w.procs[p := Uploaded(next)];
  }

  lemma Enters(w: World, p: Pid, next: Directory, d: Disk)
    requires Quiet(w, p) && MayWrite(d, next)
    ensures Do(Midway(w, p, next, Uploaded(next), d, true, false), Enter(p))
         == Midway(w, p, next, Writing(0, next, 0, true), d, true, false)
  {
    MidwayFree(w, p, next, Uploaded(next), d, true, false);
    hide AdminLockFree, StateLockFree;
    var proc := Writing(0, next, 0, true);
    assert w.procs[p := Uploaded(next)][p := proc] == w.procs[p := proc];
  }

  /** What the k-th file write of cache.Write does. */
  lemma WritesFile(w: World, p: Pid, next: Directory, d: Disk, k: nat)
    requires Quiet(w, p) && k < 3 && MayWrite(d, next)
    ensures var before := Midway(w, p, next, Writing(0, next, k, true), WrittenUpTo(d, next, k), true, k > 1);
      var proc := if k == 2 then Cached(next) else Writing(0, next, k + 1, true);
      Do(before, NextFile(p)) == Midway(w, p, next, proc, WrittenUpTo(d, next, k + 1), true, k > 0)
  {
    hide AdminLockFree, StateLockFree;
    var proc := if k == 2 then Cached(next) else Writing(0, next, k + 1, true);
    var d0, d1 := WrittenUpTo(d, next, k), WrittenUpTo(d, next, k + 1);
    assert w.procs[p := Writing(0, next, k, true)][p := proc] == w.procs[p := proc];
    assert w.disks[0 := d0][0 := d1] == w.disks[0 := d1];
  }

  lemma SavesSource(w: World, p: Pid, next: Directory, d: Disk)
    requires Quiet(w, p)
    ensures var after := Do(Midway(w, p, next, Cached(next), d, true, true), SaveSource(p));
      && after.disks == w.disks[0 := d.(source := Holds(next))] && after.procs == w.procs
      && after.uploads == w.uploads + {next} && after.accepted == w.accepted[0 := w.accepted[0] + [next]]
  {
    MidwayFree(w, p, next, Cached(next), d, true, true);
    hide AdminLockFree, StateLockFree;
    assert w.procs[p := Cached(next)] - {p} == w.procs;
  }

  // ---- The whole publish ----------------------------------------------------------------

  lemma RunOneMore(w: World, steps: seq<Step>, step: Step)
    requires Inv(w)
    ensures Run(w, steps + [step]) == Do(Run(w, steps), step)
  {
    hide Inv, Do;
    assert (steps + [step])[..|steps|] == steps;
  }

  function FirstSteps(p: Pid, draft: Directory, fetch: Fetch, force: bool, now: Time): seq<Step> {
    [] + [Begin(p, draft, fetch, force)] + [Number(p, now)] + [Reserve(p)] + [Upload(p, true, true)]
  }

  function PublishSteps(p: Pid, draft: Directory, fetch: Fetch, force: bool, now: Time): seq<Step> {
    FirstSteps(p, draft, fetch, force, now)
    + [Enter(p)] + [NextFile(p)] + [NextFile(p)] + [NextFile(p)] + [SaveSource(p)]
  }

  lemma PublishStarts(w: World, p: Pid, draft: Directory, fetch: Fetch, force: bool, now: Time, next: Directory)
    requires Inv(w) && Quiet(w, p) && (fetch.Fetched? ==> fetch.dir in w.uploads)
    requires Prepared(w.disks[0], draft, fetch, force, now) == Some(next)
    ensures var d := w.disks[0].(publish := Holds(next.serial));
      && Run(w, FirstSteps(p, draft, fetch, force, now)) == Midway(w, p, next, Uploaded(next), d, true, false)
      && MayWrite(d, next)
  {
    PreparedIsFresh(w.disks[0], draft, fetch, force, now);
    assert Run(w, []) == w;
    hide Inv, Prepared, Run, Do, Midway, AdminLockFree, StateLockFree;
    var d := w.disks[0].(publish := Holds(next.serial));
    var steps: seq<Step> := [];
    RunOneMore(w, steps, Begin(p, draft, fetch, force));
    steps := steps + [Begin(p, draft, fetch, force)];
    Begins(w, p, draft, fetch, force, next);
    RunOneMore(w, steps, Number(p, now));
    steps := steps + [Number(p, now)];
    Numbers(w, p, draft, fetch, force, now, next);
    RunOneMore(w, steps, Reserve(p));
    steps := steps + [Reserve(p)];
    Reserves(w, p, next);
    RunOneMore(w, steps, Upload(p, true, true));
    Sends(w, p, next, d);
  }

  lemma PublishEnds(w: World, p: Pid, next: Directory, d: Disk, w': World, steps: seq<Step>)
    requires Inv(w') && Quiet(w, p) && MayWrite(d, next)
    requires Run(w', steps) == Midway(w, p, next, Uploaded(next), d, true, false)
    ensures var after := Run(w', steps + [Enter(p)] + [NextFile(p)] + [NextFile(p)] + [NextFile(p)] + [SaveSource(p)]);
      && after.disks == w.disks[0 := Written(d, next).(source := Holds(next))] && after.procs == w.procs
      && after.uploads == w.uploads + {next} && after.accepted == w.accepted[0 := w.accepted[0] + [next]]
  {
    hide Inv, Run, Do, Midway, AdminLockFree, StateLockFree;
    RunOneMore(w', steps, Enter(p));
    Enters(w, p, next, d);
    var s1 := steps + [Enter(p)];
    RunOneMore(w', s1, NextFile(p));
    WritesFile(w, p, next, d, 0);
    var s2 := s1 + [NextFile(p)];
    RunOneMore(w', s2, NextFile(p));
    WritesFile(w, p, next, d, 1);
    var s3 := s2 + [NextFile(p)];
    RunOneMore(w', s3, NextFile(p));
    WritesFile(w, p, next, d, 2);
    RunOneMore(w', s3 + [NextFile(p)], SaveSource(p));
    SavesSource(w, p, next, Written(d, next));
  }

  lemma QuietWorld(w: World, p: Pid)
    requires Quiet(w, p)
    ensures |w.disks| > 0
  {
  }

  lemma PublishedArrives(disk: Disk, past: seq<Directory>, next: Directory)
    requires MayReserve(disk, next.serial) && MayWrite(disk, next)
    ensures var d := disk.(publish := Holds(next.serial));
      A.Published(A.Admin(disk, past), next, A.Arrives)
        == (A.Admin(Written(d, next).(source := Holds(next)), past + [next]), A.Done)
  {
  }

  /** Undisturbed, the steps of a publish do to the disk and the drop what publishDirectory does. */
  lemma StepsArePublish(
    w: World, p: Pid, draft: Directory, fetch: Fetch, force: bool, now: Time, next: Directory, past: seq<Directory>)
    requires Inv(w) && Quiet(w, p) && (fetch.Fetched? ==> fetch.dir in w.uploads)
    requires Prepared(w.disks[0], draft, fetch, force, now) == Some(next)
    ensures var after := Run(w, PublishSteps(p, draft, fetch, force, now));
      var (admin, outcome) := A.Published(A.Admin(w.disks[0], past), next, A.Arrives);
      && outcome.Done? && after.disks == w.disks[0 := admin.disk] && admin.uploads == past + [next]
      && after.uploads == w.uploads + {next} && after.procs == w.procs
      && after.accepted == w.accepted[0 := w.accepted[0] + [next]]
  {
    hide Inv, Run, Prepared, Midway, Quiet, FirstSteps, A.Published, MayWrite, Written;
    assert |w.disks| > 0 by { QuietWorld(w, p); }
    PreparedIsFresh(w.disks[0], draft, fetch, force, now);
    PublishedArrives(w.disks[0], past, next);
    PublishStarts(w, p, draft, fetch, force, now, next);
    var d := w.disks[0].(publish := Holds(next.serial));
    PublishEnds(w, p, next, d, w, FirstSteps(p, draft, fetch, force, now));
  }

  // ---- A whole sync ---------------------------------------------------------------------

  /** The world when a sync of dir on machine m has come so far, and nothing else happened. */
  ghost function Midsync(w: World, p: Pid, m: Machine, dir: Directory, proc: Proc, d: Disk, logged: bool): World
    requires m < |w.disks| == |w.accepted|
  {
    World(
      w.disks[m := d], w.uploads, w.procs[p := proc],
      if logged then w.accepted[m := w.accepted[m] + [dir]] else w.accepted)
  }

  ghost predicate Idle(w: World, p: Pid, m: Machine) {
    m < |w.disks| == |w.accepted| && p !in w.procs && StateLockFree(w, m)
  }

  lemma Opens(w: World, p: Pid, m: Machine, dir: Directory)
    requires Idle(w, p, m) && dir in w.uploads
    ensures Do(w, SyncOpen(p, m, dir)) == Midsync(w, p, m, dir, Opened(m, dir), w.disks[m], false)
  {
    hide StateLockFree;
    assert w.disks[m := w.disks[m]] == w.disks;
  }

  lemma Checks(w: World, p: Pid, m: Machine, dir: Directory)
    requires Idle(w, p, m) && AtMost(w.disks[m].serial, dir.serial)
    ensures Do(Midsync(w, p, m, dir, Opened(m, dir), w.disks[m], false), SyncCheck(p))
         == Midsync(w, p, m, dir, Chosen(m, dir), w.disks[m], false)
  {
    hide StateLockFree;
    assert w.procs[p := Opened(m, dir)][p := Chosen(m, dir)] == w.procs[p := Chosen(m, dir)];
  }

  lemma SyncEnters(w: World, p: Pid, m: Machine, dir: Directory)
    requires Idle(w, p, m) && AtMost(w.disks[m].serial, dir.serial)
    ensures Do(Midsync(w, p, m, dir, Chosen(m, dir), w.disks[m], false), Enter(p))
         == Midsync(w, p, m, dir, Writing(m, dir, 0, false), w.disks[m], false)
  {
    var before := Midsync(w, p, m, dir, Chosen(m, dir), w.disks[m], false);
    assert StateLockFree(before, m);
    hide StateLockFree;
    var proc := Writing(m, dir, 0, false);
    assert w.procs[p := Chosen(m, dir)][p := proc] == w.procs[p := proc];
  }

  lemma SyncWrites(w: World, p: Pid, m: Machine, dir: Directory, k: nat)
    requires Idle(w, p, m) && k < 2
    ensures var d := w.disks[m];
      Do(Midsync(w, p, m, dir, Writing(m, dir, k, false), WrittenUpTo(d, dir, k), false), NextFile(p))
        == Midsync(w, p, m, dir, Writing(m, dir, k + 1, false), WrittenUpTo(d, dir, k + 1), k == 1)
  {
    hide StateLockFree;
    var d0, d1 := WrittenUpTo(w.disks[m], dir, k), WrittenUpTo(w.disks[m], dir, k + 1);
    var proc := Writing(m, dir, k + 1, false);
    assert w.procs[p := Writing(m, dir, k, false)][p := proc] == w.procs[p := proc];
    assert w.disks[m := d0][m := d1] == w.disks[m := d1];
  }

  lemma SyncEnds(w: World, p: Pid, m: Machine, dir: Directory)
    requires Idle(w, p, m)
    ensures var d := w.disks[m];
      Do(Midsync(w, p, m, dir, Writing(m, dir, 2, false), WrittenUpTo(d, dir, 2), true), NextFile(p))
        == World(w.disks[m := Written(d, dir)], w.uploads, w.procs, w.accepted[m := w.accepted[m] + [dir]])
  {
    hide StateLockFree;
    var d0, d1 := WrittenUpTo(w.disks[m], dir, 2), Written(w.disks[m], dir);
    assert w.procs[p := Writing(m, dir, 2, false)] - {p} == w.procs;
    assert w.disks[m := d0][m := d1] == w.disks[m := d1];
  }

  function SyncSteps(p: Pid, m: Machine, dir: Directory): seq<Step> {
    EntrySteps(p, m, dir) + [NextFile(p)] + [NextFile(p)] + [NextFile(p)]
  }

  function EntrySteps(p: Pid, m: Machine, dir: Directory): seq<Step> {
    [] + [SyncOpen(p, m, dir)] + [SyncCheck(p)] + [Enter(p)]
  }

  lemma SyncStarts(w: World, p: Pid, m: Machine, dir: Directory)
    requires Inv(w) && Idle(w, p, m) && dir in w.uploads && AtMost(w.disks[m].serial, dir.serial)
    ensures Run(w, EntrySteps(p, m, dir))
         == Midsync(w, p, m, dir, Writing(m, dir, 0, false), WrittenUpTo(w.disks[m], dir, 0), false)
  {
    assert Run(w, []) == w;
    hide Inv, Run, Do, Midsync, StateLockFree, AtMost;
    var steps: seq<Step> := [];
    RunOneMore(w, steps, SyncOpen(p, m, dir));
    Opens(w, p, m, dir);
    steps := steps + [SyncOpen(p, m, dir)];
    RunOneMore(w, steps, SyncCheck(p));
    Checks(w, p, m, dir);
    steps := steps + [SyncCheck(p)];
    RunOneMore(w, steps, Enter(p));
    SyncEnters(w, p, m, dir);
  }

  lemma SyncFinishes(w: World, p: Pid, m: Machine, dir: Directory, steps: seq<Step>)
    requires Inv(w) && Idle(w, p, m)
    requires Run(w, steps) == Midsync(w, p, m, dir, Writing(m, dir, 0, false), WrittenUpTo(w.disks[m], dir, 0), false)
    ensures Run(w, steps + [NextFile(p)] + [NextFile(p)] + [NextFile(p)])
         == World(w.disks[m := Written(w.disks[m], dir)], w.uploads, w.procs, w.accepted[m := w.accepted[m] + [dir]])
  {
    hide Inv, Run, Do, Midsync, StateLockFree, WrittenUpTo, Written;
    RunOneMore(w, steps, NextFile(p));
    SyncWrites(w, p, m, dir, 0);
    var more := steps + [NextFile(p)];
    RunOneMore(w, more, NextFile(p));
    SyncWrites(w, p, m, dir, 1);
    RunOneMore(w, more + [NextFile(p)], NextFile(p));
    SyncEnds(w, p, m, dir);
  }

  /** Undisturbed, a sync installs what the drop served whenever the mark allows it. */
  lemma StepsAreSync(w: World, p: Pid, m: Machine, dir: Directory)
    requires Inv(w) && Idle(w, p, m) && dir in w.uploads && AtMost(w.disks[m].serial, dir.serial)
    ensures Run(w, SyncSteps(p, m, dir))
         == World(w.disks[m := Written(w.disks[m], dir)], w.uploads, w.procs, w.accepted[m := w.accepted[m] + [dir]])
  {
    hide Inv, Run, Do, Midsync, StateLockFree, AtMost, WrittenUpTo, Written, EntrySteps;
    SyncStarts(w, p, m, dir);
    SyncFinishes(w, p, m, dir, EntrySteps(p, m, dir));
  }
}
