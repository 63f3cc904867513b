/** The serializer's loops: batch mode collects a list, streaming mode writes text piece by piece. */
module ElementSerializer {
  import opened Common
  import opened Lists
  import opened Paths
  import opened Json
  import opened JsonRoundTrip
  import opened Bytes
  import opened ElementSerializerSpec
  import opened SerializerTheorems

  class Disk {
    var files: map<Location, seq<byte>>

    constructor ()
      ensures files == map[]
    {
      files := map[];
    }
  }

  datatype SerializeError = CannotOpen | BadBatchSize | MemoryLimit

  /** serialize_elements returns a dictionary, or the path of the file it wrote. */
  datatype Output = Data(data: Json) | Path(path: string)

  function ChosenPath(path: string, env: Readings): string {
    if path == "" then "/tmp/revitpy_bridge_streaming_" + PrintNumber(env.second) + ".json" else path
  }

  predicate MemoryHolds(env: Readings, batches: nat) {
    forall k: nat | k < batches :: !env.memoryExceeded(k)
  }

  class RevitElementSerializer {
    const config: Config
    const codec: Gzip
    const disk: Disk

    constructor (config: Config, codec: Gzip, disk: Disk)
      ensures this.config == config && this.codec == codec && this.disk == disk
    {
      this.config, this.codec, this.disk := config, codec, disk;
    }

    /** One pass over elements; those that raise are reported and skipped. */
    method SerializeEach(elements: seq<Element>) returns (serialized: seq<Json>)
      ensures serialized == Serialized(elements)
    {
      serialized := [];
      var j := 0;
      while j < |elements|
        invariant 0 <= j <= |elements|
        invariant serialized == Serialized(elements[..j])
      {
        assert elements[..j + 1] == elements[..j] + [elements[j]];
        SerializedConcat(elements[..j], [elements[j]]);
        OneSerialized(elements[j]);
        if elements[j].Some? {
          serialized := serialized + [elements[j].value];
        }
        j := j + 1;
      }
      assert elements[..j] == elements;
    }

    /** _serialize_batch; an empty path stands for None. */
    method SerializeBatch(elements: seq<Element>, path: string, env: Readings)
      returns (r: Result<Output, SerializeError>)
      modifies disk
      ensures path == "" ==> r == Ok(Data(BatchData(elements, config, env, codec))) && disk.files == old(disk.files)
      ensures path != "" && !Openable(path) ==> r == Err(CannotOpen) && disk.files == old(disk.files)
      ensures path != "" && Openable(path) ==>
                var text := Dumps(BatchData(elements, config, env, codec), FileStyle(config));
                IsAscii(text) && r == Ok(Path(path)) && disk.files == old(disk.files)[Locate(path) := Encode(text)]
    {
      var serialized := SerializeEach(elements);
      var data := Document(serialized, BatchMetadata(serialized, config, env));
      if config.compression && !env.gzipRaises {
        PrintIsAscii(data, Compact, 0);
        data := Compressed(data, codec);
      }
      assert data == BatchData(elements, config, env, codec);
      if path == "" { return Ok(Data(data)); }
      if !Openable(path) { return Err(CannotOpen); }
      PrintIsAscii(data, FileStyle(config), 0);
      disk.files := disk.files[Locate(path) := Encode(Dumps(data, FileStyle(config)))];
      r := Ok(Path(path));
    }

    /** _serialize_streaming, which makes up a path if it is given none. */
    method SerializeStreaming(elements: seq<Element>, path: string, env: Readings)
      returns (r: Result<string, SerializeError>)
      modifies disk
      ensures Streamed(elements, ChosenPath(path, env), env, old(disk.files), disk.files, r)
    {
      r := StreamTo(elements, ChosenPath(path, env), env);
    }

    /** What streaming to `out` leaves on disk and returns. */
    ghost predicate Streamed(elements: seq<Element>, out: string, env: Readings, before: map<Location, seq<byte>>,
                             after: map<Location, seq<byte>>, r: Result<string, SerializeError>)
    {
      var batches := Batches(elements, config.batchSize);
      if !Openable(out) then r == Err(CannotOpen) && after == before
      else if config.batchSize == 0 then r == Err(BadBatchSize) && after == before[Locate(out) := []]
      else if !MemoryHolds(env, |batches|) then r == Err(MemoryLimit) && after - {Locate(out)} == before - {Locate(out)}
      else
        var text := StreamText(batches, config, env);
        IsAscii(text) && Closed(out, Encode(text), before, after, r)
    }

    /** A written file is kept, or replaced by its compressed form. */
    ghost predicate Closed(out: string, content: seq<byte>, before: map<Location, seq<byte>>,
                           after: map<Location, seq<byte>>, r: Result<string, SerializeError>)
    {
      var written := before[Locate(out) := content];
      if !config.compression then r == Ok(out) && after == written
      else if !EndsWithName(out) then r == Err(CannotOpen) && after == written
      else
        && r == Ok(out + ".gz") && Locate(out + ".gz") in after
        && after == written[Locate(out + ".gz") := codec.compress(content)] - {Locate(out)}
    }

    method CloseFile(out: string, content: seq<byte>) returns (r: Result<string, SerializeError>)
      modifies disk
      ensures Closed(out, content, old(disk.files), disk.files, r)
    {
      disk.files := disk.files[Locate(out) := content];
      if !config.compression { return Ok(out); }
      if !EndsWithName(out) { return Err(CannotOpen); }
      CompressedElsewhere(out);
      CompressFile(out);
      r := Ok(out + ".gz");
    }

    method StreamTo(elements: seq<Element>, out: string, env: Readings) returns (r: Result<string, SerializeError>)
      modifies disk
      ensures Streamed(elements, out, env, old(disk.files), disk.files, r)
    {
      if !Openable(out) { return Err(CannotOpen); }
      disk.files := disk.files[Locate(out) := []];
      if config.batchSize == 0 { return Err(BadBatchSize); }
      var text := WriteBatches(elements, env);
      if text.None? {
        return Err(MemoryLimit);
      }
      StreamTextIsAscii(Batches(elements, config.batchSize), config, env);
      ghost var truncated := disk.files;
      r := CloseFile(out, Encode(text.value));
      assert truncated[Locate(out) := Encode(text.value)] == old(disk.files)[Locate(out) := Encode(text.value)];
    }

    /** Packs a written file next to it and removes the original. */
    method CompressFile(out: string)
      requires Locate(out) in disk.files
      modifies disk
      ensures disk.files == old(disk.files)[Locate(out + ".gz") := codec.compress(old(disk.files)[Locate(out)])] - {Locate(out)}
    {
      disk.files := disk.files[Locate(out + ".gz") := codec.compress(disk.files[Locate(out)])];
      disk.files := disk.files - {Locate(out)};
    }

    /** Everything written between opening and closing the file; None when the memory check raises. */
    method WriteBatches(elements: seq<Element>, env: Readings) returns (written: Option<string>)
      requires config.batchSize != 0
      ensures var batches := Batches(elements, config.batchSize);
              written == if MemoryHolds(env, |batches|) then Some(StreamText(batches, config, env)) else None
    {
      var text := OPENING;
      var firstBatch, totalElements := true, 0;
      ghost var done: seq<seq<Element>> := [];
      ghost var all := Batches(elements, config.batchSize);
      var i, k := 0, 0;
      while config.batchSize > 0 && i < |elements|
        invariant 0 <= i <= |elements| && k == |done|
        invariant config.batchSize > 0 ==> done + Batches(elements[i..], config.batchSize) == all
        invariant config.batchSize < 0 ==> done == [] == all
        invariant text == OPENING + Body(done)
        invariant totalElements == |Serialized(Flatten(done))|
        invariant firstBatch <==> Serialized(Flatten(done)) == []
        invariant MemoryHolds(env, k)
        decreases |elements| - i
      {
        var end := if i + config.batchSize <= |elements| then i + config.batchSize else |elements|;
        var batch := elements[i..end];
        BatchStep(elements, i, end, config.batchSize, done);
        var count;
        text, firstBatch, count := WriteBatch(text, firstBatch, batch, done);
        totalElements := totalElements + count;
        done := done + [batch];
        if env.memoryExceeded(k) {
          assert k < |all|;
          return None;
        }
        i, k := end, k + 1;
      }
      assert elements[i..] == [] || config.batchSize < 0;
      assert done == all;
      text := WriteMetadata(text, totalElements, env, done);
      written := Some(text);
    }

    method WriteMetadata(text: string, count: nat, env: Readings, ghost done: seq<seq<Element>>) returns (written: string)
      requires text == OPENING + Body(done) && count == |Serialized(Flatten(done))|
      ensures written == StreamText(done, config, env)
    {
      written := text + ("], \"metadata\": " + Dumps(StreamMetadata(count, config, env), Compact) + "}");
      StreamTextParts(done, config, env);
    }

    /** One batch: its elements without the brackets, after a comma unless nothing was written yet. */
    method WriteBatch(text: string, firstBatch: bool, batch: seq<Element>, ghost done: seq<seq<Element>>)
      returns (written: string, stillFirst: bool, count: nat)
      requires text == OPENING + Body(done)
      requires firstBatch <==> Serialized(Flatten(done)) == []
      ensures written == OPENING + Body(done + [batch])
      ensures stillFirst <==> Serialized(Flatten(done + [batch])) == []
      ensures |Serialized(Flatten(done + [batch]))| == |Serialized(Flatten(done))| + count
    {
      written, stillFirst := text, firstBatch;
      var serializedBatch := SerializeEach(batch);
      count := |serializedBatch|;
      BodySnoc(done, batch);
      if serializedBatch != [] {
        if !firstBatch {
          written := written + ",";
        }
        BodyStarts(done);
        written := written + Stripped(serializedBatch);
        stillFirst := false;
        Pieces(OPENING, Body(done), Stripped(serializedBatch));
      }
    }

    /** serialize_elements: large inputs are streamed. */
    method SerializeElements(elements: seq<Element>, path: string, streaming: bool, env: Readings)
      returns (r: Result<Output, SerializeError>)
      requires forall e | e in elements && e.Some? :: WellFormed(e.value)
      modifies disk
      ensures r.Ok? && r.value.Data? ==> Deserialize(r.value.data, codec) == Ok(Arr(Serialized(elements)))
      ensures r.Ok? && r.value.Path? && config.batchSize >= 1 ==>
                (DeserializeFile(disk.files, r.value.path, codec) == Ok(Arr(Serialized(elements)))
                 <==> Suffix(r.value.path) != ".gz"
                      || (config.compression && (streaming || |elements| >= config.streamingThreshold)))
    {
      if streaming || |elements| >= config.streamingThreshold {
        var streamed := SerializeStreaming(elements, path, env);
        match streamed
        case Err(e) => r := Err(e);
        case Ok(out) =>
          r := Ok(Path(out));
          if config.batchSize >= 1 {
            StreamFileReadsIff(elements, config, env, codec, old(disk.files), ChosenPath(path, env));
            LoadDependsOnFile(disk.files, old(disk.files)[Locate(out) := disk.files[Locate(out)]], out, codec);
          }
      } else {
        r := SerializeBatch(elements, path, env);
        BatchDataReads(elements, config, env, codec);
        if path != "" && Openable(path) {
          BatchFileReadsIff(elements, config, env, codec, old(disk.files), path);
        }
      }
    }
  }

  lemma Pieces(a: string, b: string, c: string)
    ensures a + b + "," + c == a + (b + "," + c)
    ensures b == "" ==> a + b + c == a + c
  {
  }

  lemma OneSerialized(e: Element)
    ensures Serialized([e]) == if e.Some? then [e.value] else []
  {
    assert Serialized([e][1..]) == [];
  }

  lemma BatchStep(elements: seq<Element>, i: nat, end: nat, size: int, done: seq<seq<Element>>)
    requires size > 0 && i < |elements| && end == if i + size <= |elements| then i + size else |elements|
    ensures done + Batches(elements[i..], size) == done + [elements[i..end]] + Batches(elements[end..], size)
  {
    var rest := elements[i..];
    if |rest| <= size {
      assert elements[i..end] == rest && elements[end..] == [];
    } else {
      assert rest[..size] == elements[i..end] && rest[size..] == elements[end..];
    }
  }

  lemma StreamTextParts(batches: seq<seq<Element>>, c: Config, env: Readings)
    ensures var metadata := Dumps(StreamMetadata(|Serialized(Flatten(batches))|, c, env), Compact);
            StreamText(batches, c, env) == (OPENING + Body(batches)) + ("], \"metadata\": " + metadata + "}")
  {
  }

  lemma LoadDependsOnFile(a: map<Location, seq<byte>>, b: map<Location, seq<byte>>, path: string, codec: Codec)
    requires Locate(path) in a && Locate(path) in b && a[Locate(path)] == b[Locate(path)]
    ensures DeserializeFile(a, path, codec) == DeserializeFile(b, path, codec)
  {
  }
}
