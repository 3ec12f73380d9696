/**
  How a serial is chosen for the next publish, shared by explicit publishes, mutations and
  observation.
 */
module Publishing {
  import opened Options
  import opened Directory
  import opened StateDir

  /** reconcilePublishSerial: None is a refusal. */
  function Reconciled(serial: Serial, fetch: Fetch, force: bool): Option<Serial> {
    match fetch
    case Fetched(remote) => Some(if remote.serial >= serial then remote.serial else serial)
    case NotFound => Some(serial)
    case _ => if force then Some(serial) else None
  }

  /** One step of the floor loop: None is an unreadable file. */
  function Floored(serial: Serial, file: File<Serial>): Option<Serial> {
    match file
    case Missing => Some(serial)
    case Unreadable => None
    case Holds(floor) => Some(if floor > serial then floor else serial)
  }

  function Bumped(dir: Directory, now: Time): Option<Directory> {
    if dir.serial == MAX_SERIAL then None else Some(dir.(serial := dir.serial + 1, createdAt := now))
  }

  function Prepared(d: Disk, dir: Directory, fetch: Fetch, force: bool, now: Time): Option<Directory> {
    match Reconciled(dir.serial, fetch, force)
    case None => None
    case Some(s0) =>
      match Floored(s0, d.serial)
      case None => None
      case Some(s1) =>
        match Floored(s1, d.publish)
        case None => None
        case Some(s2) => Bumped(dir.(serial := s2), now)
  }

  /** preparePublishSerial. */
  method PreparePublishSerial(st: StateDirectory, dir: Directory, fetch: Fetch, force: bool, now: Time)
    returns (prepared: Option<Directory>)
    ensures prepared == Prepared(st.OnDisk(), dir, fetch, force, now)
  {
    var next := dir;
    match fetch {
      case Fetched(remote) =>
        if remote.serial >= next.serial {
          next := next.(serial := remote.serial);
        }
      case NotFound =>
      case _ =>
        if !force {
          return None;
        }
    }
    ghost var start := next.serial;
    var floors := [st.serial, st.publish];
    for i := 0 to |floors|
      invariant next.content == dir.content && next.createdAt == dir.createdAt
      invariant i == 0 ==> next.serial == start
      invariant i == 1 ==> Floored(start, st.serial) == Some(next.serial)
      invariant i == 2 ==>
        && Floored(start, st.serial).Some?
        && Floored(Floored(start, st.serial).value, st.publish) == Some(next.serial)
    {
      match floors[i] {
        case Missing =>
        case Unreadable =>
          return None;
        case Holds(floor) =>
          if floor > next.serial {
            next := next.(serial := floor);
          }
      }
    }
    if next.serial == MAX_SERIAL {
      return None;
    }
    return Some(next.(serial := next.serial + 1, createdAt := now));
  }

  /** A prepared serial is above everything the publisher could know about. */
  lemma PreparedIsFresh(d: Disk, dir: Directory, fetch: Fetch, force: bool, now: Time)
    requires Prepared(d, dir, fetch, force, now).Some?
    ensures var p := Prepared(d, dir, fetch, force, now).value;
      && p.content == dir.content && dir.serial < p.serial
      && (fetch.Fetched? ==> fetch.dir.serial < p.serial)
      && (d.serial.Holds? ==> d.serial.value < p.serial)
      && MayReserve(d, p.serial) && MayWrite(d, p)
  {
  }

  /**
    Preparing fails exactly when the remote could not be read and nobody forced it, a local
    floor is unreadable, or every serial up to 2^64 - 1 may already be in use.
   */
  lemma PreparedExactly(d: Disk, dir: Directory, fetch: Fetch, force: bool, now: Time)
    ensures Prepared(d, dir, fetch, force, now).None? <==>
      || ((fetch.Failed? || fetch.Garbled?) && !force)
      || d.serial.Unreadable? || d.publish.Unreadable?
      || MAX_SERIAL == dir.serial
      || (fetch.Fetched? && fetch.dir.serial == MAX_SERIAL)
      || d.serial == Holds(MAX_SERIAL) || d.publish == Holds(MAX_SERIAL)
  {
  }

  /** The serials a publish must exceed: the draft's, the drop's, and those of the two files. */
  ghost predicate Known(d: Disk, dir: Directory, fetch: Fetch, serial: Serial) {
    || serial == dir.serial
    || (fetch.Fetched? && serial == fetch.dir.serial)
    || d.serial == Holds(serial)
    || d.publish == Holds(serial)
  }

  /** A prepared serial is one more than the largest of them: above each, and next to one. */
  lemma PreparedIsNext(d: Disk, dir: Directory, fetch: Fetch, force: bool, now: Time)
    requires Prepared(d, dir, fetch, force, now).Some?
    ensures var p := Prepared(d, dir, fetch, force, now).value;
      && (forall s: Serial :: Known(d, dir, fetch, s) ==> s + 1 <= p.serial)
      && (exists s: Serial :: Known(d, dir, fetch, s) && p.serial == s + 1)
      && p.createdAt == now && p.content == dir.content
  {
    var p := Prepared(d, dir, fetch, force, now).value;
    var s: Serial := p.serial - 1;
    assert Known(d, dir, fetch, s);
  }
}
