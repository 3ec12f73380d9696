/**
  The state directory: five files, each replaced atomically, and the locked sections that
  write them.
 */
module StateDir {
  import opened Options
  import opened Directory

  datatype File<+T> = Missing | Unreadable | Holds(value: T)

  /** cache.serial, the cached directory, state.json, the working copy, publish.serial. */
  datatype Disk = Disk(
    serial: File<Serial>, cache: File<Directory>, state: File<Serial>,
    source: File<Directory>, publish: File<Serial>)

  /** What a read of the drop yields; Garbled is a blob that does not open. */
  datatype Fetch = Fetched(dir: Directory) | NotFound | Failed | Garbled

  // ---- What each locked section decides -------------------------------------------------

  /** The mark is missing, or not above the serial. */
  predicate AtMost(mark: File<Serial>, serial: Serial) {
    mark.Missing? || (mark.Holds? && mark.value <= serial)
  }

  /** The check at the head of cache.Write. */
  predicate MayWrite(d: Disk, dir: Directory) {
    d.serial.Missing? || (d.serial.Holds? && d.serial.value <= dir.serial)
  }

  /** The disk after each of the three file writes of cache.Write. */
  function WriteTrail(d: Disk, dir: Directory): seq<Disk> {
    var d1 := d.(serial := Holds(dir.serial));
    var d2 := d1.(cache := Holds(dir));
    [d1, d2, d2.(state := Holds(dir.serial))]
  }

  function Written(d: Disk, dir: Directory): Disk {
    d.(serial := Holds(dir.serial), cache := Holds(dir), state := Holds(dir.serial))
  }

  /** The disk when cache.Write fails after so many of its three file writes. */
  function WrittenUpTo(d: Disk, dir: Directory, files: nat): Disk {
    if files == 0 then d else if files >= 3 then Written(d, dir) else WriteTrail(d, dir)[files - 1]
  }

  function FloorRaised(d: Disk, serial: Serial): Disk {
    if serial == 0 || d.serial.Unreadable? || (d.serial.Holds? && d.serial.value >= serial) then d
    else d.(serial := Holds(serial))
  }

  predicate MayReserve(d: Disk, serial: Serial) {
    d.publish.Missing? || (d.publish.Holds? && d.publish.value < serial)
  }

  /** fetchSyncDirectory: the directory to write, and whether it came from the cache. */
  function SyncChoice(d: Disk, fetch: Fetch): Option<(Directory, bool)> {
    match fetch
    case Fetched(dir) => if MayWrite(d, dir) then Some((dir, false)) else None
    case Garbled => None
    case _ => if d.cache.Holds? then Some((d.cache.value, true)) else None
  }

  // ---- The invariant --------------------------------------------------------------------

  /** state.json serial <= cache serial <= serial file. */
  ghost predicate Ordered(d: Disk) {
    && (d.cache.Holds? ==> d.serial.Holds? && d.cache.value.serial <= d.serial.value)
    && (d.state.Holds? ==> d.cache.Holds? && d.state.value <= d.cache.value.serial)
  }

  /** The serial file is not lowered, nor lost. */
  ghost predicate Advances(before: Disk, after: Disk) {
    before.serial.Holds? ==> after.serial.Holds? && before.serial.value <= after.serial.value
  }

  /** A crash can leave any disk of the trail; all keep the order and the high-water mark. */
  lemma WriteCrashSafe(d: Disk, dir: Directory)
    requires Ordered(d) && MayWrite(d, dir)
    ensures forall k :: 0 <= k < 3 ==> Ordered(WriteTrail(d, dir)[k]) && Advances(d, WriteTrail(d, dir)[k])
    ensures WriteTrail(d, dir)[2] == Written(d, dir)
  {
  }

  /** With the drop down, a sync succeeds exactly when the cache is at the high-water mark. */
  ghost predicate OfflineWorks(d: Disk) {
    SyncChoice(d, Failed).Some? && MayWrite(d, SyncChoice(d, Failed).value.0)
  }

  lemma OfflineExactly(d: Disk)
    requires Ordered(d)
    ensures OfflineWorks(d) <==> d.cache.Holds? && d.serial == Holds(d.cache.value.serial)
    ensures OfflineWorks(d) ==> Written(d, SyncChoice(d, Failed).value.0).(state := d.state) == d
  {
  }

  /** A crash right after the serial write: offline syncing survives only if that serial was cached already. */
  lemma OfflineAfterCrash(d: Disk, dir: Directory)
    requires Ordered(d) && MayWrite(d, dir)
    ensures OfflineWorks(WriteTrail(d, dir)[0]) <==> d.cache.Holds? && d.cache.value.serial == dir.serial
    ensures OfflineWorks(WriteTrail(d, dir)[1]) && OfflineWorks(WriteTrail(d, dir)[2])
  {
    WriteCrashSafe(d, dir);
    OfflineExactly(WriteTrail(d, dir)[0]);
    OfflineExactly(WriteTrail(d, dir)[1]);
    OfflineExactly(WriteTrail(d, dir)[2]);
  }

  /** Such a disk: everything at serial 1, and a crash in the write of serial 2. */
  lemma CrashStopsOfflineSync(content: Content) returns (d: Disk, dir: Directory)
    ensures Ordered(d) && MayWrite(d, dir) && OfflineWorks(d) && !OfflineWorks(WriteTrail(d, dir)[0])
  {
    var first := Directory(1, ZERO_TIME, content);
    d := Disk(Holds(1), Holds(first), Holds(1), Missing, Missing);
    dir := Directory(2, ZERO_TIME, content);
  }

  // ---- The directory as an object -------------------------------------------------------

  class StateDirectory {
    var serial: File<Serial>
    var cache: File<Directory>
    var state: File<Serial>
    var source: File<Directory>
    var publish: File<Serial>
    /** Every disk this object went through, one per file replaced. */
    ghost var trail: seq<Disk>

    ghost function OnDisk(): Disk
      reads this
    {
      Disk(serial, cache, state, source, publish)
    }

    constructor ()
      ensures OnDisk() == Disk(Missing, Missing, Missing, Missing, Missing) && trail == []
    {
      serial, cache, state, source, publish := Missing, Missing, Missing, Missing, Missing;
      trail := [];
    }

    /** cache.Write: serial before cache, so no crash re-opens a rollback window. */
    method Write(dir: Directory) returns (ok: bool)
      modifies this
      ensures ok <==> old(serial).Missing? || (old(serial).Holds? && old(serial).value <= dir.serial)
      ensures ok ==> serial == state == Holds(dir.serial) && cache == Holds(dir)
      ensures source == old(source) && publish == old(publish)
      ensures ok <==> MayWrite(old(OnDisk()), dir)
      ensures ok ==> trail == old(trail) + WriteTrail(old(OnDisk()), dir)
      ensures OnDisk() == if ok then Written(old(OnDisk()), dir) else old(OnDisk())
      ensures !ok ==> trail == old(trail)
    {
      ok := WriteFiles(dir, 3);
    }

    /** The same with a disk on which only the first `files` writes succeed. */
    method WriteFiles(dir: Directory, files: nat) returns (ok: bool)
      modifies this
      ensures ok <==> MayWrite(old(OnDisk()), dir) && files >= 3
      ensures OnDisk() == if MayWrite(old(OnDisk()), dir) then WrittenUpTo(old(OnDisk()), dir, files) else old(OnDisk())
      ensures ok ==> trail == old(trail) + WriteTrail(old(OnDisk()), dir)
      ensures !MayWrite(old(OnDisk()), dir) ==> trail == old(trail)
    {
      match serial {
        case Holds(prev) =>
          if dir.serial < prev {
            return false;
          }
        case Missing =>
        case Unreadable =>
          return false;
      }
      if files == 0 {
        return false;
      }
      serial := Holds(dir.serial);
      trail := trail + [OnDisk()];
      if files == 1 {
        return false;
      }
      cache := Holds(dir);
      trail := trail + [OnDisk()];
      if files == 2 {
        return false;
      }
      state := Holds(dir.serial);
      trail := trail + [OnDisk()];
      return true;
    }

    /** WriteSerialFloor: a machine that joins refuses everything older than its invitation. */
    method WriteSerialFloor(floor: Serial) returns (ok: bool)
      modifies this`serial, this`trail
      ensures OnDisk() == FloorRaised(old(OnDisk()), floor)
      ensures ok <==> floor == 0 || !old(serial).Unreadable?
      ensures ok && floor > 0 ==> serial.Holds? && serial.value >= floor
      ensures serial != old(serial) ==> serial == Holds(floor)
      ensures Advances(old(OnDisk()), OnDisk()) && (old(Ordered(OnDisk())) ==> Ordered(OnDisk()))
    {
      if floor == 0 {
        return true;
      }
      match serial {
        case Holds(prev) =>
          if prev >= floor {
            return true;
          }
        case Missing =>
        case Unreadable =>
          return false;
      }
      serial := Holds(floor);
      trail := trail + [OnDisk()];
      return true;
    }

    /** ReservePublishSerial: a serial is consumed before any upload under it. */
    method ReservePublishSerial(reserved: Serial) returns (ok: bool)
      modifies this`publish, this`trail
      ensures ok <==> old(publish).Missing? || (old(publish).Holds? && old(publish).value < reserved)
      ensures ok <==> MayReserve(old(OnDisk()), reserved)
      ensures OnDisk() == if ok then old(OnDisk()).(publish := Holds(reserved)) else old(OnDisk())
      ensures trail == if ok then old(trail) + [OnDisk()] else old(trail)
    {
      match publish {
        case Holds(previous) =>
          if reserved <= previous {
            return false;
          }
        case Missing =>
        case Unreadable =>
          return false;
      }
      publish := Holds(reserved);
      trail := trail + [OnDisk()];
      return true;
    }

    method WriteSource(dir: Directory)
      modifies this`source, this`trail
      ensures OnDisk() == old(OnDisk()).(source := Holds(dir))
      ensures trail == old(trail) + [OnDisk()]
    {
      source := Holds(dir);
      trail := trail + [OnDisk()];
    }

    /** runSyncOnce, given what the drop answered. */
    method RunSyncOnce(fetch: Fetch) returns (accepted: Option<Directory>)
      modifies this
      ensures var choice := SyncChoice(old(OnDisk()), fetch);
        if choice.Some? && MayWrite(old(OnDisk()), choice.value.0)
        then accepted == Some(choice.value.0) && OnDisk() == Written(old(OnDisk()), choice.value.0)
        else accepted == None && OnDisk() == old(OnDisk())
      ensures fetch.Fetched? && AtMost(old(serial), fetch.dir.serial) ==>
        && accepted == Some(fetch.dir) && cache == Holds(fetch.dir)
        && serial == state == Holds(fetch.dir.serial)
      ensures fetch.Fetched? && !AtMost(old(serial), fetch.dir.serial) ==> accepted == None && OnDisk() == old(OnDisk())
      ensures fetch.NotFound? || fetch.Failed? ==>
        if old(cache).Holds? && AtMost(old(serial), old(cache).value.serial) then
          && accepted == Some(old(cache).value) && cache == old(cache)
          && serial == state == Holds(old(cache).value.serial)
        else accepted == None && OnDisk() == old(OnDisk())
      ensures fetch.Garbled? ==> accepted == None && OnDisk() == old(OnDisk())
      ensures source == old(source) && publish == old(publish)
    {
      var dir: Directory;
      match fetch {
        case Garbled =>
          return None;
        case Fetched(remote) =>
          match serial {
            case Holds(mark) =>
              if remote.serial < mark {
                return None;
              }
            case Missing =>
            case Unreadable =>
              return None;
          }
          dir := remote;
        case _ =>
          if !cache.Holds? {
            return None;
          }
          dir := cache.value;
      }
      var ok := Write(dir);
      return if ok then Some(dir) else None;
    }
  }
}
