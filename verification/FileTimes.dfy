/** What a session knows about file times (file.cpp:57-152, file_storage.cpp). */
module FileTimes {
  import opened Bytes
  import opened Common

  /** What the file system answers for a path; a path it does not have is not found. */
  datatype Entry = Regular(time: Time) | Other

  type Disk = map<Path, Entry>

  datatype RefreshType = Unrefreshed | InProcess | NotChanged | Changed

  datatype Seen = Seen(time: Time, refreshed: RefreshType)

  const Unseen := Seen(MISSING, Unrefreshed)

  predicate IsRegular(disk: Disk, p: Path)
  {
    p in disk && disk[p].Regular?
  }

  function DiskTime(disk: Disk, p: Path): Time
  {
    if IsRegular(disk, p) then disk[p].time else MISSING
  }

  /** One refresh: only an unrefreshed time is looked up, and it never goes back
      unless the file is gone. */
  function Refreshed(seen: Seen, disk: Disk, p: Path): Seen
  {
    if !seen.refreshed.Unrefreshed? then seen
    else if !IsRegular(disk, p) then Seen(MISSING, Changed)
    else if disk[p].time > seen.time then Seen(disk[p].time, Changed)
    else Seen(seen.time, NotChanged)
  }

  type Times = map<Path, Seen>

  function SeenOf(v: Times, p: Path): Seen
  {
    if p in v then v[p] else Unseen
  }

  /** Registering a file refreshes it the first time. */
  function Registered(v: Times, disk: Disk, p: Path): Times
  {
    if p in v then v else v[p := Refreshed(Unseen, disk, p)]
  }

  /** Registering a file and asking whether it has changed. */
  function Looked(v: Times, disk: Disk, p: Path): Times
  {
    v[p := Refreshed(SeenOf(v, p), disk, p)]
  }

  /** Registering a file and looking at it again, whatever is known. */
  function Rechecked(v: Times, disk: Disk, p: Path): Times
  {
    v[p := Refreshed(SeenOf(Registered(v, disk, p), p).(refreshed := Unrefreshed), disk, p)]
  }

  /** Registering a file, and looking at it again if it is missing. */
  function FoundAgain(v: Times, disk: Disk, p: Path): Times
  {
    var w := Registered(v, disk, p);
    if w[p].time == MISSING then Rechecked(w, disk, p) else w
  }

  /** The answer of File::isChanged(in). */
  predicate Newer(time: Time, mtime: Time)
  {
    time == MISSING || time > mtime
  }

  /** A refresh of an unrefreshed time takes the later one of what is known and what is on
      the disk, and forgets the time of a file that is not there; it tells a change
      exactly if the file is not there or the time is another one. */
  lemma RefreshTells(seen: Seen, disk: Disk, p: Path)
    requires seen.refreshed.Unrefreshed?
    ensures var r := Refreshed(seen, disk, p);
            && r.time == (if !IsRegular(disk, p) then MISSING else if seen.time < disk[p].time then disk[p].time else seen.time)
            && (r.refreshed.Changed? <==> !IsRegular(disk, p) || r.time != seen.time)
            && (r.refreshed.NotChanged? <==> !r.refreshed.Changed?)
  {
  }

  /** Looking for a file again finds it if it was missing or unknown. */
  lemma FoundAgainFinds(v: Times, disk: Disk, p: Path)
    ensures var w := FoundAgain(v, disk, p);
            && p in w
            && w[p].time == (if p in v && v[p].time != MISSING then v[p].time else DiskTime(disk, p))
            && (forall q | q in v && q != p :: q in w && w[q] == v[q])
  {
  }

  /** The file exists as a regular file no newer than `m`. */
  predicate Current(disk: Disk, p: Path, m: Time)
  {
    IsRegular(disk, p) && MISSING < disk[p].time <= m
  }

  predicate AllCurrent(disk: Disk, ps: set<Path>, m: Time)
  {
    forall p | p in ps :: Current(disk, p, m)
  }

  lemma FirstLookIsDiskTime(disk: Disk, p: Path)
    ensures Refreshed(Unseen, disk, p).time == DiskTime(disk, p)
    ensures Refreshed(Refreshed(Unseen, disk, p), disk, p) == Refreshed(Unseen, disk, p)
  {
  }

  class FileData {
    var lastWriteTime: Time
    var refreshed: RefreshType

    ghost function Value(): Seen
      reads this
    {
      Seen(lastWriteTime, refreshed)
    }

    constructor ()
      ensures Value() == Unseen
    {
      lastWriteTime, refreshed := MISSING, Unrefreshed;
    }

    method Refresh(disk: Disk, file: Path)
      modifies this
      ensures Value() == Refreshed(old(Value()), disk, file)
    {
      if refreshed != Unrefreshed { return; }
      refreshed := InProcess;
      var changed := false;
      if !IsRegular(disk, file) {
        lastWriteTime := MISSING;
        changed := true;
      } else if disk[file].time > lastWriteTime {
        lastWriteTime := disk[file].time;
        changed := true;
      }
      refreshed := if changed then Changed else NotChanged;
    }

    /** File::isChanged: tries until the time is settled. */
    method IsChanged(disk: Disk, file: Path) returns (r: bool)
      requires refreshed != InProcess
      modifies this
      ensures Value() == Refreshed(old(Value()), disk, file) && refreshed != InProcess
      ensures r <==> refreshed == Changed
    {
      while refreshed == Unrefreshed || refreshed == InProcess
        invariant Value() == old(Value()) || Value() == Refreshed(old(Value()), disk, file)
        invariant refreshed != InProcess
        decreases if refreshed == Unrefreshed then 1 else 0
      {
        Refresh(disk, file);
      }
      r := refreshed == Changed;
    }
  }

  class FileStorage {
    var files: map<Path, FileData>
    /** The objects in the map. */
    ghost var data: set<FileData>

    ghost predicate Valid()
      reads this, data
    {
      && (forall p | p in files :: files[p] in data)
      && (forall p, q | p in files && q in files && p != q :: files[p] != files[q])
      && (forall p | p in files :: files[p].refreshed != InProcess)
    }

    ghost function View(): Times
      requires Valid()
      reads this, data
    {
      map p | p in files :: files[p].Value()
    }

    constructor ()
      ensures Valid() && files == map[]
    {
      files, data := map[], {};
    }

    method RegisterFile(disk: Disk, p: Path) returns (d: FileData)
      requires Valid()
      modifies this
      ensures Valid() && fresh(data - old(data))
      ensures p in files && files[p] == d
      ensures View() == Registered(old(View()), disk, p)
    {
      if p !in files {
        d := Add(disk, p);
      }
      d := files[p];
    }

    method Add(disk: Disk, p: Path) returns (d: FileData)
      requires Valid() && p !in files
      modifies this
      ensures Valid() && fresh(data - old(data))
      ensures files == old(files)[p := d] && d.Value() == Refreshed(Unseen, disk, p)
    {
      d := new FileData();
      d.Refresh(disk, p);
      files, data := files[p := d], data + {d};
    }

    /** File::isChanged for a registered file, which is first marked unrefreshed if `again`. */
    method Ask(disk: Disk, p: Path, again: bool) returns (t: Time)
      requires Valid() && p in files
      modifies files[p]
      ensures Valid() && t == files[p].lastWriteTime
      ensures var seen := old(files[p].Value());
              View() == old(View())[p := Refreshed(if again then seen.(refreshed := Unrefreshed) else seen, disk, p)]
    {
      var d := files[p];
      if again { d.refreshed := Unrefreshed; }
      var _ := d.IsChanged(disk, p);
      t := d.lastWriteTime;
    }

    /** File(p).isChanged(mtime). */
    method IsChangedSince(disk: Disk, p: Path, mtime: Time) returns (r: bool)
      requires Valid()
      modifies this, data
      ensures Valid() && fresh(data - old(data))
      ensures View() == Looked(old(View()), disk, p)
      ensures r <==> Newer(View()[p].time, mtime)
    {
      var _ := RegisterFile(disk, p);
      var t := Ask(disk, p, false);
      r := t == MISSING || t > mtime;
    }

    /** The last write time of a file as File(p) finds it. */
    method KnownTime(disk: Disk, p: Path) returns (t: Time)
      requires Valid()
      modifies this
      ensures Valid() && fresh(data - old(data))
      ensures View() == Registered(old(View()), disk, p) && t == View()[p].time
    {
      var d := RegisterFile(disk, p);
      t := d.lastWriteTime;
    }

    /** The last write time after marking the file unrefreshed and asking again. */
    method RecheckedTime(disk: Disk, p: Path) returns (t: Time)
      requires Valid()
      modifies this, data
      ensures Valid() && fresh(data - old(data))
      ensures View() == Rechecked(old(View()), disk, p) && t == View()[p].time
    {
      var _ := RegisterFile(disk, p);
      t := Ask(disk, p, true);
    }

    method FindAgain(disk: Disk, p: Path)
      requires Valid()
      modifies this, data
      ensures Valid() && fresh(data - old(data))
      ensures View() == FoundAgain(old(View()), disk, p)
    {
      var t := KnownTime(disk, p);
      if t == MISSING {
        t := RecheckedTime(disk, p);
      }
    }
  }
}
