/**
  The file exchange: records that are mutated in place, a dictionary of them, and the files on
  disk. Every method is proved to do to `View()` what its specification says.
 */
module FileExchange {
  import opened Common
  import opened Decimals
  import opened Paths
  import opened FileExchangeSpec

  class ExchangeFile {
    var filePath: Path
    var status: Status
    const createdAt: real

    constructor (filePath: Path, status: Status, createdAt: real)
      ensures this.filePath == filePath && this.status == status && this.createdAt == createdAt
    {
      this.filePath := filePath;
      this.status := status;
      this.createdAt := createdAt;
    }

    ghost function View(): Record
      reads this
    {
      Record(filePath, status, createdAt)
    }
  }

  class FileExchangeHandler {
    const maxFileAge: int
    const site: Site
    var trackedFiles: map<string, ExchangeFile>
    var disk: set<seq<string>>

    /** Makes the directories of the exchange, and those above them, where they are missing. */
    constructor (maxFileAge: int, base: seq<string>, folders: set<seq<string>>, disk: set<seq<string>>)
      ensures Valid() && Made(site) && this.maxFileAge == maxFileAge && site.base == base && folders <= site.folders
      ensures View() == Started(site, disk)
    {
      this.maxFileAge := maxFileAge;
      this.site := Site(base, folders
                              + (set i | 0 <= i <= |base| :: base[..i])
                              + (set dir: Directory | !dir.Root? :: base + [DirectoryName(dir)]));
      this.trackedFiles := map[];
      this.disk := disk;
      new;
      assert base[..|base|] == base;
    }

    ghost function View(): Exchange
      reads this, trackedFiles.Values
    {
      Exchange(site, map id | id in trackedFiles :: trackedFiles[id].View(), disk)
    }

    /** No record is tracked under two ids. */
    ghost predicate Valid()
      reads this
    {
      forall a, b | a in trackedFiles && b in trackedFiles && a != b :: trackedFiles[a] != trackedFiles[b]
    }

    /** What the three create operations share: writes the file, which raises unless the path leads to
        a writable place, and tracks it. */
    method Track(id: string, path: Path, status: Status, now: real) returns (written: bool)
      requires Valid()
      modifies this
      ensures Valid() && written == Writable(site, path)
      ensures !written ==> View() == old(View())
      ensures written ==>
                View() == Exchange(site, old(View().tracked)[id := Record(path, status, now)], old(disk) + {At(site, path)})
    {
      written := Writable(site, path);
      if !written { return; }
      disk := disk + {At(site, path)};
      var file := new ExchangeFile(path, status, now);
      trackedFiles := trackedFiles[id := file];
    }

    /** None if it raises, as do the next two. */
    method CreateRequestFile(id: string, now: real) returns (created: Option<string>)
      requires Valid()
      modifies this
      ensures Valid()
      ensures created == if Writable(site, Join(Requests, id + ".json")) then Some(id) else None
      ensures View() == CreateRequest(old(View()), id, now)
    {
      var written := Track(id, Join(Requests, id + ".json"), Pending, now);
      return if written then Some(id) else None;
    }

    method CreateResponseFile(requestId: string, now: real, stamp: nat) returns (created: Option<string>)
      requires Valid()
      modifies this
      ensures Valid()
      ensures var id := ResponseId(requestId, stamp);
              created == if Writable(site, Join(Responses, id + ".json")) then Some(id) else None
      ensures View() == CreateResponse(old(View()), requestId, now, stamp)
    {
      var responseId := "resp_" + requestId + "_" + Decimal(stamp);
      var written := Track(responseId, Join(Responses, responseId + ".json"), Completed, now);
      return if written then Some(responseId) else None;
    }

    method CreateDataFile(id: string, isDict: bool, compress: bool, now: real) returns (created: Option<string>)
      requires Valid()
      modifies this
      ensures Valid()
      ensures created == if Writable(site, Join(Data, id + DataExtension(isDict, compress))) then Some(id) else None
      ensures View() == CreateData(old(View()), id, isDict, compress, now)
    {
      var extension;
      if compress {
        extension := if isDict then ".json.gz" else ".dat.gz";
      } else {
        extension := if isDict then ".json" else ".dat";
      }
      var written := Track(id, Join(Data, id + extension), Completed, now);
      return if written then Some(id) else None;
    }

    method UpdateFileStatus(id: string, status: Status)
      requires Valid()
      modifies trackedFiles.Values`status
      ensures Valid()
      ensures View() == UpdateStatus(old(View()), id, status)
    {
      if id in trackedFiles {
        var file := trackedFiles[id];
        file.status := status;
      }
    }

    method ArchiveFile(id: string, stamp: nat) returns (archived: bool)
      requires Valid()
      modifies this`disk, trackedFiles.Values
      ensures Valid()
      ensures archived == OnDisk(old(View()), id)
      ensures View() == FileExchangeSpec.ArchiveFile(old(View()), id, stamp)
    {
      if id !in trackedFiles { return false; }
      var file := trackedFiles[id];
      var source := At(site, file.filePath);
      if source !in disk { return false; }
      var archivePath := Path(Archive, [Decimal(stamp) + "_" + Last(file.filePath.parts)]);
      disk := disk - {source} + {At(site, archivePath)};
      file.filePath := archivePath;
      file.status := Archived;
      return true;
    }

    method DeleteFile(id: string) returns (deleted: bool)
      requires Valid()
      modifies this
      ensures Valid()
      ensures deleted == (id in old(trackedFiles))
      ensures View() == FileExchangeSpec.DeleteFile(old(View()), id)
      ensures trackedFiles == old(trackedFiles) - {id}
    {
      if id !in trackedFiles { return false; }
      var file := trackedFiles[id];
      var place := At(site, file.filePath);
      if place in disk { disk := disk - {place}; }
      trackedFiles := trackedFiles - {id};
      return true;
    }

    /** Both lists are drawn up first; their files are then taken in any order. */
    method CleanupOldFiles(now: real, stamps: string -> nat)
      requires Valid() && Inv(View())
      modifies this, trackedFiles.Values
      ensures Valid() && Inv(View())
      ensures View() == Sweep(old(View()), now, maxFileAge, stamps)
    {
      ghost var start := View();
      var toArchive := set id | id in trackedFiles
                                && now - trackedFiles[id].createdAt > maxFileAge as real
                                && trackedFiles[id].status in {Completed, Error};
      var toDelete := set id | id in trackedFiles
                               && now - trackedFiles[id].createdAt > maxFileAge as real
                               && trackedFiles[id].status == Archived;
      assert toArchive == Due(start, now, maxFileAge) && toDelete == Doomed(start, now, maxFileAge);
      ArchiveEach(toArchive, stamps);
      DeleteEach(toDelete);
      SweepKeeps(start, now, maxFileAge, stamps);
    }

    method ArchiveNext(ghost start: Exchange, ghost done: set<string>, id: string, stamps: string -> nat)
      requires Valid() && Inv(start) && View() == ArchiveAll(start, done, stamps)
      requires id !in done && id in start.tracked && start.tracked[id].status != Archived
      requires forall i | i in done && i in start.tracked :: start.tracked[i].status != Archived
      modifies this`disk, trackedFiles.Values
      ensures Valid() && View() == ArchiveAll(start, done + {id}, stamps)
    {
      ArchiveOneMore(start, done, id, stamps);
      var _ := ArchiveFile(id, stamps(id));
    }

    method ArchiveEach(ids: set<string>, stamps: string -> nat)
      requires Valid() && Inv(View())
      requires ids <= trackedFiles.Keys && forall id | id in ids :: trackedFiles[id].status != Archived
      modifies this`disk, trackedFiles.Values
      ensures Valid() && View() == ArchiveAll(old(View()), ids, stamps)
    {
      ghost var start, done: set<string> := View(), {};
      var left := ids;
      assert forall id | id in ids :: id in start.tracked && start.tracked[id].status != Archived;
      ArchiveNone(start, stamps);
      while left != {}
        invariant Valid() && ids == done + left && done !! left
        invariant View() == ArchiveAll(start, done, stamps)
      {
        var id :| id in left;
        ArchiveNext(start, done, id, stamps);
        left, done := left - {id}, done + {id};
      }
      assert done == ids;
    }

    method DeleteEach(ids: set<string>)
      requires Valid()
      modifies this
      ensures Valid() && View() == DeleteAll(old(View()), ids)
    {
      ghost var start, done: set<string> := View(), {};
      var left := ids;
      assert View() == DeleteAll(start, {});
      while left != {}
        invariant Valid() && ids == done + left && done !! left
        invariant View() == DeleteAll(start, done)
      {
        var id :| id in left;
        DeleteOneMore(start, done, id);
        var _ := DeleteFile(id);
        left, done := left - {id}, done + {id};
      }
      assert done == ids;
    }
  }
}
