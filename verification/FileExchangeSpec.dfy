/**
  Life of exchanged files: created, marked, archived by one cleanup sweep and deleted by a later
  one. Records hold paths as pathlib reads them; the files of the disk are known by their place in
  the tree of directories, so that two paths can lead to one file.
 */
module FileExchangeSpec {
  import opened Common
  import opened Decimals
  import opened Paths

  /** Where a path starts: at the root of the disk or at a directory of the exchange. */
  datatype Directory = Root | Requests | Responses | Data | Temp | Archive

  datatype Path = Path(dir: Directory, parts: seq<string>)

  /** The place of the exchange directory, and the directories that exist. */
  datatype Site = Site(base: seq<string>, folders: set<seq<string>>)

  datatype Status = Pending | Processing | Completed | Error | Archived

  datatype Record = Record(path: Path, status: Status, createdAt: real)

  /** `disk` is the set of files that exist. */
  datatype Exchange = Exchange(site: Site, tracked: map<string, Record>, disk: set<seq<string>>)

  /** A handler that has just been made, on a disk that may hold files of an earlier one. */
  function Started(site: Site, disk: set<seq<string>>): Exchange { Exchange(site, map[], disk) }

  predicate NoSeparator(id: string) { '/' !in id && '\\' !in id }

  // ---------- places ----------

  function DirectoryName(dir: Directory): string
    requires !dir.Root?
  {
    match dir
    case Requests => "requests"
    case Responses => "responses"
    case Data => "data"
    case Temp => "temp"
    case Archive => "archive"
  }

  function Start(site: Site, dir: Directory): seq<string> {
    if dir.Root? then [] else site.base + [DirectoryName(dir)]
  }

  function Descend(at: seq<string>, component: string): seq<string> {
    if component != ".." then at + [component] else if at == [] then [] else at[..|at| - 1]
  }

  function Walk(at: seq<string>, parts: seq<string>): seq<string> {
    if parts == [] then at else Descend(Walk(at, parts[..|parts| - 1]), parts[|parts| - 1])
  }

  /** The place a path leads to. */
  function At(site: Site, path: Path): seq<string> { Walk(Start(site, path.dir), path.parts) }

  /** A path leads through directories that exist to a place that is not one: open() can write there. */
  predicate Writable(site: Site, path: Path) {
    && (forall i | 0 <= i < |path.parts| :: Walk(Start(site, path.dir), path.parts[..i]) in site.folders)
    && At(site, path) !in site.folders
  }

  /** The directory `dir` joined with a relative or absolute path. */
  function Join(dir: Directory, path: string): Path { Path(if Absolute(path) then Root else dir, Parts(path)) }

  /** The directories the handler makes exist. */
  predicate Made(site: Site) {
    site.base in site.folders && forall dir: Directory | !dir.Root? :: Start(site, dir) in site.folders
  }

  // ---------- creating ----------

  function DataExtension(isDict: bool, compress: bool): string {
    if compress then (if isDict then ".json.gz" else ".dat.gz")
    else if isDict then ".json" else ".dat"
  }

  const EXTENSIONS: set<string> := {".json", ".json.gz", ".dat.gz", ".dat"}

  /** An id that leads to no writable place makes the create operation raise before it tracks anything. */
  function Create(x: Exchange, id: string, dir: Directory, extension: string, status: Status, now: real): Exchange {
    var path := Join(dir, id + extension);
    if !Writable(x.site, path) then x
    else x.(tracked := x.tracked[id := Record(path, status, now)], disk := x.disk + {At(x.site, path)})
  }

  function CreateRequest(x: Exchange, id: string, now: real): Exchange {
    Create(x, id, Requests, ".json", Pending, now)
  }

  function ResponseId(requestId: string, stamp: nat): string { "resp_" + requestId + "_" + Decimal(stamp) }

  function CreateResponse(x: Exchange, requestId: string, now: real, stamp: nat): Exchange {
    Create(x, ResponseId(requestId, stamp), Responses, ".json", Completed, now)
  }

  function CreateData(x: Exchange, id: string, isDict: bool, compress: bool, now: real): Exchange {
    Create(x, id, Data, DataExtension(isDict, compress), Completed, now)
  }

  function UpdateStatus(x: Exchange, id: string, status: Status): Exchange {
    if id in x.tracked then x.(tracked := x.tracked[id := x.tracked[id].(status := status)]) else x
  }

  // ---------- archiving and deleting one file ----------

  function ArchivePath(path: Path, stamp: nat): Path { Path(Archive, [Decimal(stamp) + "_" + Last(path.parts)]) }

  /** The place of a tracked file. */
  function FileOf(x: Exchange, id: string): seq<string>
    requires id in x.tracked
  {
    At(x.site, x.tracked[id].path)
  }

  /** The place archiving moves it to. */
  function ArchiveOf(x: Exchange, id: string, stamp: nat): seq<string>
    requires id in x.tracked
  {
    At(x.site, ArchivePath(x.tracked[id].path, stamp))
  }

  predicate OnDisk(x: Exchange, id: string) { id in x.tracked && FileOf(x, id) in x.disk }

  function Moved(r: Record, stamp: nat): Record { r.(path := ArchivePath(r.path, stamp), status := Archived) }

  function ArchiveFile(x: Exchange, id: string, stamp: nat): Exchange {
    if !OnDisk(x, id) then x
    else x.(tracked := x.tracked[id := Moved(x.tracked[id], stamp)],
            disk := x.disk - {FileOf(x, id)} + {ArchiveOf(x, id, stamp)})
  }

  function DeleteFile(x: Exchange, id: string): Exchange {
    if id !in x.tracked then x else x.(tracked := x.tracked - {id}, disk := x.disk - {FileOf(x, id)})
  }

  // ---------- a cleanup sweep, all at once ----------

  predicate Old(r: Record, now: real, maxAge: int) { now - r.createdAt > maxAge as real }

  function Due(x: Exchange, now: real, maxAge: int): set<string> {
    set id | id in x.tracked && Old(x.tracked[id], now, maxAge) && x.tracked[id].status in {Completed, Error}
  }

  function Doomed(x: Exchange, now: real, maxAge: int): set<string> {
    set id | id in x.tracked && Old(x.tracked[id], now, maxAge) && x.tracked[id].status == Archived
  }

  function Found(x: Exchange, ids: set<string>): set<string> { set id | id in ids && OnDisk(x, id) }

  function MoveRecords(tracked: map<string, Record>, ids: set<string>, stamps: string -> nat): map<string, Record> {
    map id | id in tracked :: if id in ids then Moved(tracked[id], stamps(id)) else tracked[id]
  }

  /** Moves every file of `ids` that is on disk; `stamps` gives the second of each move. */
  function ArchiveAll(x: Exchange, ids: set<string>, stamps: string -> nat): Exchange {
    x.(tracked := MoveRecords(x.tracked, Found(x, ids), stamps),
       disk := x.disk
               - (set id | id in ids && OnDisk(x, id) :: FileOf(x, id))
               + (set id | id in ids && OnDisk(x, id) :: ArchiveOf(x, id, stamps(id))))
  }

  function DeleteAll(x: Exchange, ids: set<string>): Exchange {
    x.(tracked := x.tracked - ids, disk := x.disk - (set id | id in ids && id in x.tracked :: FileOf(x, id)))
  }

  /** cleanup_old_files: both lists are drawn up before anything is moved. */
  function Sweep(x: Exchange, now: real, maxAge: int, stamps: string -> nat): Exchange {
    DeleteAll(ArchiveAll(x, Due(x, now, maxAge), stamps), Doomed(x, now, maxAge))
  }

  // ---------- names determine ids ----------

  lemma ExtensionShape(e: string)
    requires e in EXTENSIONS
    ensures |e| > 2 && Slashless(e)
  {
  }

  lemma ExtensionsAreSuffixFree(a: string, e: string, b: string, f: string)
    requires e in EXTENSIONS && f in EXTENSIONS && a + e == b + f
    ensures a == b && e == f
  {
    var s := a + e;
    assert s[|s| - 1] == e[|e| - 1] == f[|f| - 1];
    assert s[|s| - 4] == e[|e| - 4] == f[|f| - 4];
    assert e == f;
    assert s[..|a|] == a && s[..|b|] == b;
  }

  // ---------- the invariant ----------

  ghost predicate NamedAfter(path: Path, id: string) {
    exists e :: e in EXTENSIONS && path.parts == [id + e]
  }

  ghost predicate ArchivedAfter(path: Path, id: string) {
    exists stamp: nat, e :: e in EXTENSIONS && path.parts == [Decimal(stamp) + "_" + (id + e)]
  }

  /** A record's path tells its id, and the archive holds exactly the archived ones. */
  ghost predicate WellPlaced(id: string, r: Record) {
    NoSeparator(id) &&
    if r.status == Archived then r.path.dir == Archive && ArchivedAfter(r.path, id)
    else r.path.dir in {Requests, Responses, Data} && NamedAfter(r.path, id)
  }

  ghost predicate Inv(x: Exchange) { forall id | id in x.tracked :: WellPlaced(id, x.tracked[id]) }

  /** A file name below a directory of the exchange leads to itself. */
  lemma AtName(site: Site, dir: Directory, name: string)
    requires !dir.Root? && name != ".."
    ensures At(site, Path(dir, [name])) == site.base + [DirectoryName(dir), name]
  {
    assert [name][..0] == [];
    assert Walk(Start(site, dir), []) == Start(site, dir);
  }

  lemma DirectoryNamesDiffer(dir: Directory, other: Directory)
    requires !dir.Root? && !other.Root? && dir != other
    ensures DirectoryName(dir) != DirectoryName(other)
  {
    var s, t := DirectoryName(dir), DirectoryName(other);
    assert |s| == |t| ==> s[0] != t[0];
  }

  /** Places directly below directories of the exchange agree only if the paths do. */
  lemma PlaceTellsPath(site: Site, p: Path, q: Path)
    requires !p.dir.Root? && !q.dir.Root? && |p.parts| == |q.parts| == 1 && ".." !in [p.parts[0], q.parts[0]]
    requires At(site, p) == At(site, q)
    ensures p == q
  {
    var name, other := p.parts[0], q.parts[0];
    assert p == Path(p.dir, [name]) && q == Path(q.dir, [other]);
    AtName(site, p.dir, name);
    AtName(site, q.dir, other);
    var place := site.base + [DirectoryName(p.dir), name];
    assert place[|site.base|] == DirectoryName(p.dir) && place[|site.base| + 1] == name;
    assert place == site.base + [DirectoryName(q.dir), other];
    if p.dir != q.dir { DirectoryNamesDiffer(p.dir, q.dir); }
  }

  /** A well placed record lies directly below a directory of the exchange. */
  lemma OneComponent(id: string, r: Record)
    requires WellPlaced(id, r)
    ensures !r.path.dir.Root? && |r.path.parts| == 1 && |r.path.parts[0]| > 2
  {
    if r.status == Archived {
      var stamp: nat, e :| e in EXTENSIONS && r.path.parts == [Decimal(stamp) + "_" + (id + e)];
    } else {
      var e :| e in EXTENSIONS && r.path.parts == [id + e];
    }
  }

  /** Its path tells the id. */
  lemma PathTellsId(a: string, r: Record, b: string, s: Record)
    requires WellPlaced(a, r) && WellPlaced(b, s) && r.path == s.path
    ensures a == b
  {
    if r.status == Archived {
      var d: nat, e :| e in EXTENSIONS && r.path.parts == [Decimal(d) + "_" + (a + e)];
      var c: nat, f :| f in EXTENSIONS && s.path.parts == [Decimal(c) + "_" + (b + f)];
      assert r.path.parts[0] == s.path.parts[0];
      DigitsBeforeBar(Decimal(d), a + e, Decimal(c), b + f);
      ExtensionsAreSuffixFree(a, e, b, f);
    } else {
      var e :| e in EXTENSIONS && r.path.parts == [a + e];
      var f :| f in EXTENSIONS && s.path.parts == [b + f];
      assert r.path.parts[0] == s.path.parts[0];
      ExtensionsAreSuffixFree(a, e, b, f);
    }
  }

  /** No two tracked ids share a file. */
  lemma FilesAreDistinct(x: Exchange, a: string, b: string)
    requires Inv(x) && a in x.tracked && b in x.tracked && a != b
    ensures FileOf(x, a) != FileOf(x, b)
  {
    var r, s := x.tracked[a], x.tracked[b];
    assert WellPlaced(a, r) && WellPlaced(b, s);
    if FileOf(x, a) == FileOf(x, b) {
      OneComponent(a, r);
      OneComponent(b, s);
      PlaceTellsPath(x.site, r.path, s.path);
      PathTellsId(a, r, b, s);
    }
  }

  lemma ArchivedIsWellPlaced(id: string, r: Record, stamp: nat)
    requires WellPlaced(id, r) && r.status != Archived
    ensures WellPlaced(id, Moved(r, stamp))
  {
    var e :| e in EXTENSIONS && r.path.parts == [id + e];
    assert ArchivePath(r.path, stamp).parts == [Decimal(stamp) + "_" + (id + e)];
  }

  /** An id without separators names a file directly in its directory. */
  lemma PlainPath(id: string, dir: Directory, extension: string)
    requires NoSeparator(id) && extension in EXTENSIONS
    ensures Join(dir, id + extension) == Path(dir, [id + extension])
  {
    var name := id + extension;
    ExtensionShape(extension);
    SlashlessParts(name);
    assert !Absolute(name) && Kept(name) == [name];
  }

  /** So it can be written unless a directory has that name. */
  lemma PlainIdsAreWritable(site: Site, id: string, dir: Directory, extension: string)
    requires Made(site) && NoSeparator(id) && extension in EXTENSIONS && !dir.Root?
    ensures Writable(site, Join(dir, id + extension)) <==> site.base + [DirectoryName(dir), id + extension] !in site.folders
  {
    PlainPath(id, dir, extension);
    AtName(site, dir, id + extension);
    assert Path(dir, [id + extension]).parts[..0] == [];
    assert Walk(Start(site, dir), []) == Start(site, dir);
  }

  lemma CreateKeeps(x: Exchange, id: string, dir: Directory, extension: string, status: Status, now: real)
    requires Inv(x) && NoSeparator(id) && extension in EXTENSIONS && dir in {Requests, Responses, Data} && status != Archived
    ensures Inv(Create(x, id, dir, extension, status, now))
  {
    PlainPath(id, dir, extension);
    assert NamedAfter(Path(dir, [id + extension]), id);
  }

  lemma ArchiveAllKeeps(x: Exchange, ids: set<string>, stamps: string -> nat)
    requires Inv(x) && forall id | id in ids && id in x.tracked :: x.tracked[id].status != Archived
    ensures Inv(ArchiveAll(x, ids, stamps))
  {
    var r := ArchiveAll(x, ids, stamps);
    forall id | id in r.tracked ensures WellPlaced(id, r.tracked[id]) {
      assert WellPlaced(id, x.tracked[id]);
      if id in ids && OnDisk(x, id) { ArchivedIsWellPlaced(id, x.tracked[id], stamps(id)); }
    }
  }

  lemma SweepKeeps(x: Exchange, now: real, maxAge: int, stamps: string -> nat)
    requires Inv(x)
    ensures Inv(Sweep(x, now, maxAge, stamps))
  {
    ArchiveAllKeeps(x, Due(x, now, maxAge), stamps);
  }

  // ---------- one file after the other does the same ----------

  /** An unarchived file is not where the archive puts another. */
  lemma ArchiveIsElsewhere(x: Exchange, a: string, stamp: nat, b: string)
    requires Inv(x) && a in x.tracked && b in x.tracked && x.tracked[a].status != Archived && x.tracked[b].status != Archived
    ensures ArchiveOf(x, a, stamp) != FileOf(x, b)
  {
    var r, s := x.tracked[a], x.tracked[b];
    assert WellPlaced(a, r) && WellPlaced(b, s);
    ArchivedIsWellPlaced(a, r, stamp);
    OneComponent(a, Moved(r, stamp));
    OneComponent(b, s);
    if ArchiveOf(x, a, stamp) == FileOf(x, b) { PlaceTellsPath(x.site, Moved(r, stamp).path, s.path); }
  }

  lemma ArchiveOneMore(x: Exchange, ids: set<string>, id: string, stamps: string -> nat)
    requires Inv(x) && id !in ids && id in x.tracked && x.tracked[id].status != Archived
    requires forall i | i in ids && i in x.tracked :: x.tracked[i].status != Archived
    ensures ArchiveFile(ArchiveAll(x, ids, stamps), id, stamps(id)) == ArchiveAll(x, ids + {id}, stamps)
  {
    forall i | i in ids && OnDisk(x, i)
      ensures FileOf(x, i) !in {FileOf(x, id), ArchiveOf(x, id, stamps(id))}
      ensures ArchiveOf(x, i, stamps(i)) != FileOf(x, id)
    {
      FilesAreDistinct(x, i, id);
      ArchiveIsElsewhere(x, i, stamps(i), id);
      ArchiveIsElsewhere(x, id, stamps(id), i);
    }
    ArchiveIsElsewhere(x, id, stamps(id), id);
    StillThere(x, ids, id, stamps);
    MovedRecords(x, ids, id, stamps);
    if OnDisk(x, id) {
      MovedDisk(x, ids, id, stamps);
    } else {
      assert ArchiveAll(x, ids, stamps).disk == ArchiveAll(x, ids + {id}, stamps).disk;
    }
  }

  /** Moving other files leaves this one where it is. */
  lemma StillThere(x: Exchange, ids: set<string>, id: string, stamps: string -> nat)
    requires id !in ids && id in x.tracked
    requires forall i | i in ids && OnDisk(x, i) ::
      FileOf(x, i) != FileOf(x, id) && ArchiveOf(x, i, stamps(i)) != FileOf(x, id)
    ensures OnDisk(ArchiveAll(x, ids, stamps), id) == OnDisk(x, id)
  {
    assert FileOf(ArchiveAll(x, ids, stamps), id) == FileOf(x, id);
  }

  /** Its own move changes its record alone. */
  lemma MovedRecords(x: Exchange, ids: set<string>, id: string, stamps: string -> nat)
    requires id !in ids && id in x.tracked && OnDisk(ArchiveAll(x, ids, stamps), id) == OnDisk(x, id)
    ensures ArchiveFile(ArchiveAll(x, ids, stamps), id, stamps(id)).tracked == ArchiveAll(x, ids + {id}, stamps).tracked
  {
    var found := Found(x, ids);
    assert Found(x, ids + {id}) == if OnDisk(x, id) then found + {id} else found;
    MoveOneRecord(x.tracked, found, id, stamps);
  }

  lemma MoveOneRecord(tracked: map<string, Record>, ids: set<string>, id: string, stamps: string -> nat)
    requires id in tracked && id !in ids
    ensures MoveRecords(tracked, ids + {id}, stamps) == MoveRecords(tracked, ids, stamps)[id := Moved(tracked[id], stamps(id))]
    ensures MoveRecords(tracked, ids, stamps)[id] == tracked[id]
  {
  }

  lemma MovedDisk(x: Exchange, ids: set<string>, id: string, stamps: string -> nat)
    requires OnDisk(x, id) && FileOf(x, id) != ArchiveOf(x, id, stamps(id))
    requires forall i | i in ids && OnDisk(x, i) ::
      FileOf(x, i) != ArchiveOf(x, id, stamps(id)) && ArchiveOf(x, i, stamps(i)) != FileOf(x, id)
    ensures ArchiveAll(x, ids, stamps).disk - {FileOf(x, id)} + {ArchiveOf(x, id, stamps(id))}
      == ArchiveAll(x, ids + {id}, stamps).disk
  {
    var place, moved := FileOf(x, id), ArchiveOf(x, id, stamps(id));
    var from := set i | i in ids && OnDisk(x, i) :: FileOf(x, i);
    var to := set i | i in ids && OnDisk(x, i) :: ArchiveOf(x, i, stamps(i));
    assert (set i | i in ids + {id} && OnDisk(x, i) :: FileOf(x, i)) == from + {place};
    assert (set i | i in ids + {id} && OnDisk(x, i) :: ArchiveOf(x, i, stamps(i))) == to + {moved};
    assert x.disk - from + to - {place} + {moved} == x.disk - (from + {place}) + (to + {moved});
  }

  lemma ArchiveNone(x: Exchange, stamps: string -> nat)
    ensures ArchiveAll(x, {}, stamps) == x
  {
    assert ArchiveAll(x, {}, stamps).tracked == x.tracked;
  }

  lemma DeleteOneMore(x: Exchange, ids: set<string>, id: string)
    requires id !in ids
    ensures DeleteFile(DeleteAll(x, ids), id) == DeleteAll(x, ids + {id})
  {
    var y, z := DeleteAll(x, ids), DeleteAll(x, ids + {id});
    assert x.tracked - ids - {id} == x.tracked - (ids + {id});
    if id in x.tracked {
      assert y.disk - {FileOf(x, id)} == z.disk;
    } else {
      assert y.disk == z.disk;
    }
  }

  // ---------- runs ----------

  datatype Step =
    | Request(id: string, now: real)
    | Response(requestId: string, now: real, stamp: nat)
    | DataFile(id: string, isDict: bool, compress: bool, now: real)
    | Mark(id: string, status: Status)
    | Cleanup(now: real, stamps: string -> nat)

  /** Status updates name a working status and leave archived files alone. */
  predicate Allowed(x: Exchange, step: Step) {
    match step
    case Request(id, _) => NoSeparator(id)
    case Response(requestId, _, _) => NoSeparator(requestId)
    case DataFile(id, _, _, _) => NoSeparator(id)
    case Mark(id, status) => status != Archived && (id in x.tracked ==> x.tracked[id].status != Archived)
    case Cleanup(_, _) => true
  }

  function Apply(x: Exchange, step: Step, maxAge: int): Exchange {
    match step
    case Request(id, now) => CreateRequest(x, id, now)
    case Response(requestId, now, stamp) => CreateResponse(x, requestId, now, stamp)
    case DataFile(id, isDict, compress, now) => CreateData(x, id, isDict, compress, now)
    case Mark(id, status) => UpdateStatus(x, id, status)
    case Cleanup(now, stamps) => Sweep(x, now, maxAge, stamps)
  }

  /** A step that is not allowed is not taken. */
  function Advance(x: Exchange, step: Step, maxAge: int): Exchange {
    if Allowed(x, step) then Apply(x, step, maxAge) else x
  }

  function Run(x: Exchange, steps: seq<Step>, maxAge: int): Exchange
    decreases |steps|
  {
    if steps == [] then x else Run(Advance(x, steps[0], maxAge), steps[1..], maxAge)
  }

  lemma PlainResponseId(requestId: string, stamp: nat)
    requires NoSeparator(requestId)
    ensures NoSeparator(ResponseId(requestId, stamp))
  {
    assert forall c | c in Decimal(stamp) :: IsDigit(c);
  }

  lemma ApplyKeeps(x: Exchange, step: Step, maxAge: int)
    requires Inv(x) && Allowed(x, step)
    ensures Inv(Apply(x, step, maxAge))
  {
    match step
    case Request(id, now) => CreateKeeps(x, id, Requests, ".json", Pending, now);
    case Response(requestId, now, stamp) =>
      PlainResponseId(requestId, stamp);
      CreateKeeps(x, ResponseId(requestId, stamp), Responses, ".json", Completed, now);
    case DataFile(id, isDict, compress, now) => CreateKeeps(x, id, Data, DataExtension(isDict, compress), Completed, now);
    case Mark(id, status) =>
      if id in x.tracked { assert WellPlaced(id, x.tracked[id]); }
    case Cleanup(now, stamps) => SweepKeeps(x, now, maxAge, stamps);
  }

  lemma AdvanceKeeps(x: Exchange, step: Step, maxAge: int)
    requires Inv(x)
    ensures Inv(Advance(x, step, maxAge))
  {
    if Allowed(x, step) { ApplyKeeps(x, step, maxAge); }
  }

  lemma {:induction false} RunKeeps(x: Exchange, steps: seq<Step>, maxAge: int)
    requires Inv(x)
    ensures Inv(Run(x, steps, maxAge))
    decreases |steps|
  {
    if steps != [] {
      AdvanceKeeps(x, steps[0], maxAge);
      RunKeeps(Advance(x, steps[0], maxAge), steps[1..], maxAge);
    }
  }

  /** In every run no two tracked ids share a file, archived or not. */
  lemma TrackedFilesAreDistinct(site: Site, disk: set<seq<string>>, steps: seq<Step>, maxAge: int, a: string, b: string)
    requires var y := Run(Started(site, disk), steps, maxAge); a in y.tracked && b in y.tracked && a != b
    ensures var y := Run(Started(site, disk), steps, maxAge); FileOf(y, a) != FileOf(y, b)
  {
    RunKeeps(Started(site, disk), steps, maxAge);
    FilesAreDistinct(Run(Started(site, disk), steps, maxAge), a, b);
  }

  // ---------- what a sweep does to each file ----------

  /** Archiving files moves each of those on disk, and none of the others. */
  lemma ArchiveAllMoves(x: Exchange, ids: set<string>, stamps: string -> nat, id: string)
    requires Inv(x) && id in ids && OnDisk(x, id)
    requires forall i | i in ids && i in x.tracked :: x.tracked[i].status != Archived
    ensures var m := ArchiveAll(x, ids, stamps);
            m.tracked[id] == Moved(x.tracked[id], stamps(id)) && OnDisk(m, id) && FileOf(x, id) !in m.disk
  {
    var m := ArchiveAll(x, ids, stamps);
    forall i | i in ids && OnDisk(x, i) ensures ArchiveOf(x, i, stamps(i)) != FileOf(x, id) {
      ArchiveIsElsewhere(x, i, stamps(i), id);
    }
    assert FileOf(m, id) == ArchiveOf(x, id, stamps(id));
  }

  lemma ArchiveAllSpares(x: Exchange, ids: set<string>, stamps: string -> nat, id: string)
    requires Inv(x) && id in x.tracked && !(id in ids && OnDisk(x, id))
    requires forall i | i in ids && i in x.tracked :: x.tracked[i].status != Archived
    ensures var m := ArchiveAll(x, ids, stamps); m.tracked[id] == x.tracked[id] && OnDisk(m, id) == OnDisk(x, id)
  {
    var m := ArchiveAll(x, ids, stamps);
    ArchiveAllKeeps(x, ids, stamps);
    forall i | i in ids && OnDisk(x, i)
      ensures FileOf(x, i) != FileOf(x, id) && ArchiveOf(x, i, stamps(i)) != FileOf(x, id)
    {
      FilesAreDistinct(x, i, id);
      FilesAreDistinct(m, i, id);
      assert FileOf(m, i) == ArchiveOf(x, i, stamps(i)) && FileOf(m, id) == FileOf(x, id);
    }
  }

  /** Deleting files leaves the others where they are. */
  lemma DeleteAllOf(x: Exchange, ids: set<string>, id: string)
    requires Inv(x) && id in x.tracked
    ensures var y := DeleteAll(x, ids);
            if id in ids then id !in y.tracked && FileOf(x, id) !in y.disk
            else id in y.tracked && y.tracked[id] == x.tracked[id] && OnDisk(y, id) == OnDisk(x, id)
                 && forall place | place !in x.disk :: place !in y.disk
  {
    if id !in ids {
      forall i | i in ids && i in x.tracked ensures FileOf(x, i) != FileOf(x, id) { FilesAreDistinct(x, i, id); }
    }
  }

  /** Everything a sweep may do to one file: nothing, move it to the archive, or delete it. */
  lemma SweepOf(x: Exchange, now: real, maxAge: int, stamps: string -> nat, id: string)
    requires Inv(x) && id in x.tracked
    ensures var y := Sweep(x, now, maxAge, stamps);
            var r := x.tracked[id];
            if Old(r, now, maxAge) && r.status == Archived then
              id !in y.tracked && FileOf(x, id) !in y.disk
            else if Old(r, now, maxAge) && r.status in {Completed, Error} && OnDisk(x, id) then
              && id in y.tracked && y.tracked[id] == Moved(r, stamps(id))
              && OnDisk(y, id) && FileOf(x, id) !in y.disk
            else
              id in y.tracked && y.tracked[id] == r && (OnDisk(y, id) <==> OnDisk(x, id))
  {
    var due, doomed := Due(x, now, maxAge), Doomed(x, now, maxAge);
    ArchiveAllKeeps(x, due, stamps);
    if id in due && OnDisk(x, id) {
      ArchiveAllMoves(x, due, stamps, id);
    } else {
      ArchiveAllSpares(x, due, stamps, id);
    }
    DeleteAllOf(ArchiveAll(x, due, stamps), doomed, id);
  }

  /** Files still being worked on are neither moved nor removed by any sweep. */
  lemma WorkInProgressIsSafe(x: Exchange, now: real, maxAge: int, stamps: string -> nat, id: string)
    requires Inv(x) && id in x.tracked && x.tracked[id].status in {Pending, Processing}
    ensures var y := Sweep(x, now, maxAge, stamps);
            && id in y.tracked && y.tracked[id] == x.tracked[id]
            && (OnDisk(y, id) <==> OnDisk(x, id))
  {
    SweepOf(x, now, maxAge, stamps, id);
  }

  /** The sweep that archives a file does not delete it. */
  lemma FinishedFilesSurviveOneSweep(x: Exchange, now: real, maxAge: int, stamps: string -> nat, id: string)
    requires Inv(x) && OnDisk(x, id) && x.tracked[id].status in {Completed, Error}
    ensures OnDisk(Sweep(x, now, maxAge, stamps), id)
    ensures Sweep(x, now, maxAge, stamps).tracked[id].status in {x.tracked[id].status, Archived}
  {
    SweepOf(x, now, maxAge, stamps, id);
  }

  /** Two sweeps past the age limit remove a finished file exactly if it was still on disk: a
      record whose file has gone missing can never be archived and stays tracked. */
  lemma TwoSweepsRemoveIff(x: Exchange, now: real, later: real, maxAge: int, stamps: string -> nat, stamps': string -> nat, id: string)
    requires Inv(x) && id in x.tracked && x.tracked[id].status in {Completed, Error}
    requires Old(x.tracked[id], now, maxAge) && later >= now
    ensures var y := Sweep(x, now, maxAge, stamps);
            var z := Sweep(y, later, maxAge, stamps');
            && (id !in z.tracked <==> OnDisk(x, id))
            && (OnDisk(x, id) ==> FileOf(y, id) !in z.disk && FileOf(x, id) !in y.disk)
            && (!OnDisk(x, id) ==> z.tracked[id] == x.tracked[id])
  {
    var y := Sweep(x, now, maxAge, stamps);
    SweepOf(x, now, maxAge, stamps, id);
    SweepKeeps(x, now, maxAge, stamps);
    SweepOf(y, later, maxAge, stamps', id);
  }

  // ---------- whole runs ----------

  predicate InProgress(status: Status) { status.Pending? || status.Processing? }

  /** Whether a step creates the file `id`, or marks it as no longer worked on. */
  predicate Concerns(step: Step, id: string) {
    match step
    case Request(i, _) => i == id
    case Response(requestId, _, stamp) => ResponseId(requestId, stamp) == id
    case DataFile(i, _, _, _) => i == id
    case Mark(i, status) => i == id && !InProgress(status)
    case Cleanup(_, _) => false
  }

  function Sweeps(steps: seq<Step>): nat {
    if steps == [] then 0 else (if steps[0].Cleanup? then 1 else 0) + Sweeps(steps[1..])
  }

  lemma CreateElsewhere(x: Exchange, id: string, other: string, dir: Directory, extension: string, status: Status, now: real)
    requires Inv(x) && id in x.tracked && other != id
    requires NoSeparator(other) && extension in EXTENSIONS && dir in {Requests, Responses, Data} && status != Archived
    ensures var y := Create(x, other, dir, extension, status, now);
            && id in y.tracked && y.tracked[id] == x.tracked[id]
            && (OnDisk(y, id) <==> OnDisk(x, id))
  {
    var y := Create(x, other, dir, extension, status, now);
    CreateKeeps(x, other, dir, extension, status, now);
    if other in y.tracked { FilesAreDistinct(y, other, id); }
  }

  /** The file is where it was, and still worked on. */
  ghost predicate StaysInProgress(x: Exchange, y: Exchange, id: string)
    requires id in x.tracked
  {
    && id in y.tracked
    && y.tracked[id] == x.tracked[id].(status := y.tracked[id].status) && InProgress(y.tracked[id].status)
    && (OnDisk(y, id) <==> OnDisk(x, id))
  }

  lemma UnconcernedStep(x: Exchange, step: Step, maxAge: int, id: string)
    requires Inv(x) && id in x.tracked && InProgress(x.tracked[id].status) && !Concerns(step, id)
    ensures StaysInProgress(x, Advance(x, step, maxAge), id)
  {
    if Allowed(x, step) {
      match step
      case Request(i, now) => CreateElsewhere(x, id, i, Requests, ".json", Pending, now);
      case Response(requestId, now, stamp) =>
        PlainResponseId(requestId, stamp);
        CreateElsewhere(x, id, ResponseId(requestId, stamp), Responses, ".json", Completed, now);
      case DataFile(i, isDict, compress, now) => CreateElsewhere(x, id, i, Data, DataExtension(isDict, compress), Completed, now);
      case Mark(_, _) =>
      case Cleanup(now, stamps) => WorkInProgressIsSafe(x, now, maxAge, stamps, id);
    }
  }

  /** However many sweeps, other files' steps and marks between pending and processing go by, a
      file still being worked on stays tracked under its path and keeps its place on disk. */
  lemma {:induction false} WorkInProgressSurvivesRuns(x: Exchange, steps: seq<Step>, maxAge: int, id: string)
    requires Inv(x) && id in x.tracked && InProgress(x.tracked[id].status)
    requires forall step | step in steps :: !Concerns(step, id)
    ensures StaysInProgress(x, Run(x, steps, maxAge), id)
    decreases |steps|
  {
    if steps != [] {
      AdvanceKeeps(x, steps[0], maxAge);
      UnconcernedStep(x, steps[0], maxAge, id);
      WorkInProgressSurvivesRuns(Advance(x, steps[0], maxAge), steps[1..], maxAge, id);
    }
  }

  lemma RemovalIsByASweep(x: Exchange, step: Step, maxAge: int, id: string)
    requires Inv(x) && id in x.tracked
    ensures var y := Advance(x, step, maxAge);
            && (id !in y.tracked ==> step.Cleanup? && x.tracked[id].status == Archived)
            && (id in y.tracked && y.tracked[id].status == Archived && x.tracked[id].status != Archived ==> step.Cleanup?)
  {
    match step
    case Cleanup(now, stamps) => SweepOf(x, now, maxAge, stamps, id);
    case _ =>
  }

  /** A file leaves the exchange only by a sweep later than the one that archived it: losing an
      unarchived file takes at least two sweeps. */
  lemma {:induction false} RemovalTakesTwoSweeps(x: Exchange, steps: seq<Step>, maxAge: int, id: string)
    requires Inv(x) && id in x.tracked && id !in Run(x, steps, maxAge).tracked
    ensures Sweeps(steps) >= if x.tracked[id].status == Archived then 1 else 2
    decreases |steps|
  {
    var y := Advance(x, steps[0], maxAge);
    AdvanceKeeps(x, steps[0], maxAge);
    RemovalIsByASweep(x, steps[0], maxAge, id);
    if id in y.tracked { RemovalTakesTwoSweeps(y, steps[1..], maxAge, id); }
  }

  // ---------- ids with separators ----------

  /** The directory an id asks for. */
  function FolderAt(site: Site, dir: Directory, id: string): seq<string> { At(site, Join(dir, Folder(id))) }

  /** The file of an id is its last component with the extension, in the directory it asks for. */
  lemma FileInFolder(site: Site, dir: Directory, id: string, extension: string)
    requires extension in EXTENSIONS
    ensures At(site, Join(dir, id + extension)) == FolderAt(site, dir, id) + [FileName(id) + extension]
    ensures Last(Join(dir, id + extension).parts) == FileName(id) + extension
  {
    var name := FileName(id) + extension;
    ExtensionShape(extension);
    PartsOfFile(id, extension);
    var path := Join(dir, id + extension);
    assert path.parts[..|path.parts| - 1] == Parts(Folder(id));
  }

  /** Two paths lead to one file exactly if their ids ask for one directory and agree in their last
      component, and the kinds have the same extension. */
  lemma SameFileIff(site: Site, a: string, d: Directory, e: string, b: string, c: Directory, f: string)
    requires e in EXTENSIONS && f in EXTENSIONS
    ensures At(site, Join(d, a + e)) == At(site, Join(c, b + f))
      <==> (FolderAt(site, d, a) == FolderAt(site, c, b) && FileName(a) == FileName(b) && e == f)
  {
    FileInFolder(site, d, a, e);
    FileInFolder(site, c, b, f);
    var p, q := FolderAt(site, d, a), FolderAt(site, c, b);
    var s, t := FileName(a) + e, FileName(b) + f;
    assert (p + [s])[..|p|] == p && (q + [t])[..|q|] == q;
    assert (p + [s])[|p|] == s && (q + [t])[|q|] == t;
    if s == t { ExtensionsAreSuffixFree(FileName(a), e, FileName(b), f); }
  }

  lemma SameArchiveIff(site: Site, p: Path, s: nat, q: Path, t: nat)
    ensures At(site, ArchivePath(p, s)) == At(site, ArchivePath(q, t)) <==> s == t && Last(p.parts) == Last(q.parts)
  {
    var name, other := Decimal(s) + "_" + Last(p.parts), Decimal(t) + "_" + Last(q.parts);
    assert IsDigit(name[0]) && IsDigit(other[0]);
    if At(site, ArchivePath(p, s)) == At(site, ArchivePath(q, t)) {
      PlaceTellsPath(site, ArchivePath(p, s), ArchivePath(q, t));
      assert [name][0] == [other][0];
      DigitsBeforeBar(Decimal(s), Last(p.parts), Decimal(t), Last(q.parts));
      ValueOfDecimal(s);
      ValueOfDecimal(t);
    }
  }

  /** Two files of any kinds, just created. */
  ghost predicate Created(x: Exchange, a: string, d: Directory, e: string, b: string, c: Directory, f: string) {
    && a != b && a in x.tracked && b in x.tracked && e in EXTENSIONS && f in EXTENSIONS
    && x.tracked[a].path == Join(d, a + e) && x.tracked[b].path == Join(c, b + f)
    && OnDisk(x, a) && OnDisk(x, b)
  }

  /** Two created files that do not share a place come to share one when archived exactly if that
      happens in the same second, their ids end alike and their kinds have the same extension. */
  lemma ArchivedCollideIff(x: Exchange, a: string, d: Directory, e: string, b: string, c: Directory, f: string, s: nat, t: nat)
    requires Created(x, a, d, e, b, c, f) && FileOf(x, a) != FileOf(x, b)
    ensures var y := ArchiveFile(ArchiveFile(x, a, s), b, t);
            && y.tracked[a].status == y.tracked[b].status == Archived
            && (FileOf(y, a) == FileOf(y, b) <==> s == t && FileName(a) == FileName(b) && e == f)
  {
    FileInFolder(x.site, d, a, e);
    FileInFolder(x.site, c, b, f);
    SameArchiveIff(x.site, x.tracked[a].path, s, x.tracked[b].path, t);
    if FileName(a) + e == FileName(b) + f { ExtensionsAreSuffixFree(FileName(a), e, FileName(b), f); }
    BothMoved(x, a, s, b, t);
  }

  lemma BothMoved(x: Exchange, a: string, s: nat, b: string, t: nat)
    requires a != b && OnDisk(x, a) && OnDisk(x, b) && FileOf(x, a) != FileOf(x, b)
    ensures var y := ArchiveFile(ArchiveFile(x, a, s), b, t);
            && y.site == x.site && a in y.tracked && b in y.tracked
            && y.tracked[a] == Moved(x.tracked[a], s) && y.tracked[b] == Moved(x.tracked[b], t)
  {
    var m := ArchiveFile(x, a, s);
    assert m.tracked[b] == x.tracked[b] && FileOf(m, b) == FileOf(x, b);
    assert OnDisk(m, b);
  }

  /** Two requests one after the other, under ids that can be written. */
  function TwoRequests(site: Site, disk: set<seq<string>>, a: string, b: string, now: real): Exchange {
    CreateRequest(CreateRequest(Started(site, disk), a, now), b, now)
  }

  predicate BothWritable(site: Site, a: string, b: string) {
    Writable(site, Join(Requests, a + ".json")) && Writable(site, Join(Requests, b + ".json"))
  }

  /** They share a file from the start exactly if their ids ask for one directory and end alike, and
      otherwise once archived exactly if that is in the same second and their ids end alike. */
  lemma RequestsShareIff(site: Site, disk: set<seq<string>>, a: string, b: string, now: real, s: nat, t: nat)
    requires a != b && BothWritable(site, a, b)
    ensures var x := TwoRequests(site, disk, a, b, now);
            var y := ArchiveFile(ArchiveFile(x, a, s), b, t);
            && Created(x, a, Requests, ".json", b, Requests, ".json")
            && (FileOf(x, a) == FileOf(x, b) <==>
                FolderAt(site, Requests, a) == FolderAt(site, Requests, b) && FileName(a) == FileName(b))
            && (FileOf(x, a) != FileOf(x, b) ==>
                  (FileOf(y, a) == FileOf(y, b) <==> s == t && FileName(a) == FileName(b)))
  {
    var x := TwoRequests(site, disk, a, b, now);
    SameFileIff(site, a, Requests, ".json", b, Requests, ".json");
    if FileOf(x, a) != FileOf(x, b) { ArchivedCollideIff(x, a, Requests, ".json", b, Requests, ".json", s, t); }
  }

  /** An id that asks for a directory that does not exist makes creating raise. */
  lemma MissingFolderRaises(x: Exchange, id: string, dir: Directory, extension: string, status: Status, now: real)
    requires extension in EXTENSIONS && FolderAt(x.site, dir, id) !in x.site.folders
    ensures Create(x, id, dir, extension, status, now) == x
  {
    FileInFolder(x.site, dir, id, extension);
    ExtensionShape(extension);
    PartsOfFile(id, extension);
    var path := Join(dir, id + extension);
    assert Walk(Start(x.site, path.dir), path.parts[..|path.parts| - 1]) == FolderAt(x.site, dir, id);
  }

  /** A request whose id goes through some folder ends like the id without it. */
  lemma Below(folder: string, name: string)
    requires NoSeparator(name) && folder != "" && folder[|folder| - 1] == '/'
    ensures FileName(folder + name) == name && Folder(folder + name) == folder
  {
    assert Slashless(name);
    FileNameAppend(folder, name);
    assert FileName(folder) == "";
    assert (folder + name)[..|folder|] == folder;
  }

  /** Any plain id has another spelling under which a second request overwrites the first. */
  lemma SpellingsShareAFile(site: Site, disk: set<seq<string>>, id: string, now: real)
    requires Made(site) && NoSeparator(id) && site.base + ["requests", id + ".json"] !in site.folders
    ensures var x := TwoRequests(site, disk, id, "./" + id, now);
            Created(x, id, Requests, ".json", "./" + id, Requests, ".json") && FileOf(x, id) == FileOf(x, "./" + id)
  {
    var other := "./" + id;
    Below("./", id);
    DotFolder();
    PlainIdsAreWritable(site, id, Requests, ".json");
    PlainPath(id, Requests, ".json");
    ExtensionShape(".json");
    PartsOfFile(other, ".json");
    assert [] + [id + ".json"] == [id + ".json"];
    assert Join(Requests, other + ".json") == Join(Requests, id + ".json");
    assert |other| != |id|;
  }

  lemma DotFolder()
    ensures Parts("./") == [] && !Absolute("./")
  {
    assert "./"[..1] == ".";
    assert FileName(".") == FileName(".."[..1]) == "" + ".";
  }

  /** The id of a request that goes to a sibling directory. */
  function Beside(dir: Directory, id: string): string
    requires !dir.Root?
  {
    "../" + DirectoryName(dir) + "/" + id
  }

  lemma SiblingFolder(name: string)
    requires name != "" && name != "." && Slashless(name)
    ensures Parts("../" + name + "/") == ["..", name]
  {
    var up := "../";
    assert up[..2] == ".." && FileName(up) == "";
    SlashlessParts("..");
    assert Parts(up) == Parts(up[..2]) + Kept("");
    FileNameAppend(up, name);
    var sibling := up + name;
    assert FileName(sibling) == name && sibling[..|sibling| - |name| - 1] == "..";
    assert Parts(sibling) == Parts("..") + Kept(name);
    assert (sibling + "/")[..|sibling|] == sibling && FileName(sibling + "/") == "";
    assert Parts(sibling + "/") == Parts(sibling) + Kept("");
  }

  lemma SiblingPath(dir: Directory, id: string)
    requires !dir.Root? && NoSeparator(id)
    ensures Join(Requests, Beside(dir, id) + ".json") == Path(Requests, ["..", DirectoryName(dir), id + ".json"])
    ensures FileName(Beside(dir, id)) == id
  {
    var folder := "../" + DirectoryName(dir) + "/";
    SiblingFolder(DirectoryName(dir));
    Below(folder, id);
    assert Beside(dir, id) == folder + id;
    ExtensionShape(".json");
    PartsOfFile(Beside(dir, id), ".json");
    assert ["..", DirectoryName(dir)] + [id + ".json"] == ["..", DirectoryName(dir), id + ".json"];
    assert !Absolute(folder);
  }

  lemma WalkOn(at: seq<string>, front: seq<string>, component: string, whole: seq<string>)
    requires whole == front + [component]
    ensures Walk(at, whole) == Descend(Walk(at, front), component)
  {
    assert whole[..|whole| - 1] == front;
  }

  /** Up and down again: the places on the way to a file in a sibling directory. */
  lemma SiblingWalk(at: seq<string>, name: string, file: string, one: seq<string>, two: seq<string>, three: seq<string>)
    requires at != [] && name != ".." && file != ".."
    requires one == [".."] && two == one + [name] && three == two + [file]
    ensures var up := at[..|at| - 1];
            && Walk(at, []) == at && Walk(at, one) == up && Walk(at, two) == up + [name]
            && Walk(at, three) == up + [name, file]
  {
    WalkOn(at, [], "..", one);
    WalkOn(at, one, name, two);
    WalkOn(at, two, file, three);
    assert at[..|at| - 1] + [name] + [file] == at[..|at| - 1] + [name, file];
  }

  lemma PrefixesOfThree(a: string, b: string, c: string, i: int)
    requires 0 <= i < 3
    ensures [a, b, c][..i] == if i == 0 then [] else if i == 1 then [a] else [a, b]
  {
  }

  lemma SiblingWritable(site: Site, dir: Directory, id: string)
    requires Made(site) && !dir.Root? && NoSeparator(id) && site.base + [DirectoryName(dir), id + ".json"] !in site.folders
    ensures At(site, Join(Requests, Beside(dir, id) + ".json")) == site.base + [DirectoryName(dir), id + ".json"]
    ensures Writable(site, Join(Requests, Beside(dir, id) + ".json"))
  {
    var at, name, file := Start(site, Requests), DirectoryName(dir), id + ".json";
    SiblingPath(dir, id);
    SiblingWalk(at, name, file, [".."], ["..", name], ["..", name, file]);
    assert at[..|at| - 1] == site.base;
    assert site.base + [name] == Start(site, dir);
    var parts := Join(Requests, Beside(dir, id) + ".json").parts;
    forall i | 0 <= i < |parts| ensures Walk(at, parts[..i]) in site.folders { PrefixesOfThree("..", name, file, i); }
  }

  /** Two requests in different directories, both made by the handler, whose ids end alike. */
  lemma ArchivingMakesThemShare(site: Site, disk: set<seq<string>>, id: string, now: real, stamp: nat)
    requires Made(site) && NoSeparator(id)
    requires site.base + ["temp", id + ".json"] !in site.folders && site.base + ["data", id + ".json"] !in site.folders
    ensures var a, b := Beside(Temp, id), Beside(Data, id);
            var x := TwoRequests(site, disk, a, b, now);
            var y := ArchiveFile(ArchiveFile(x, a, stamp), b, stamp);
            && Created(x, a, Requests, ".json", b, Requests, ".json")
            && FileOf(x, a) == site.base + ["temp", id + ".json"] && FileOf(x, b) == site.base + ["data", id + ".json"]
            && FileOf(x, a) != FileOf(x, b) && FileOf(y, a) == FileOf(y, b)
  {
    var a, b := Beside(Temp, id), Beside(Data, id);
    assert a[3] != b[3];
    SiblingPath(Temp, id);
    SiblingPath(Data, id);
    SiblingWritable(site, Temp, id);
    SiblingWritable(site, Data, id);
    var p, q := site.base + ["temp", id + ".json"], site.base + ["data", id + ".json"];
    assert p[|site.base|] != q[|site.base|];
    RequestsShareIff(site, disk, a, b, now, stamp, stamp);
  }
}
