/** What the element serializer writes and reads back, as functions on values. */
module ElementSerializerSpec {
  import opened Common
  import opened Decimals
  import opened Lists
  import opened Paths
  import opened Json
  import opened JsonRoundTrip
  import opened Bytes

  /** Serializing one element gives a JSON value or raises. */
  type Element = Option<Json>

  function Serialized(elements: seq<Element>): seq<Json> {
    if elements == [] then []
    else (if elements[0].Some? then [elements[0].value] else []) + Serialized(elements[1..])
  }

  datatype Config = Config(batchSize: int, compression: bool, geometry: bool, streamingThreshold: int)

  /** Everything the serializer reads from its surroundings: `timestamp` is time.time() as printed,
      `second` its whole seconds, `memoryExceeded(k)` the check made after the k-th batch. */
  datatype Readings = Readings(
    timestamp: FloatText,
    second: nat,
    fileSize: nat,
    memoryExceeded: nat -> bool,
    gzipRaises: bool,
    md5: string -> string)

  const SERIALIZATION_VERSION := "1.0.0"

  function Metadata(timestamp: FloatText, count: nat, hash: string, compression: bool, size: nat, geometry: bool): Json {
    Obj([("timestamp", Float(timestamp)),
         ("element_count", Num(count)),
         ("serialization_version", Str(SERIALIZATION_VERSION)),
         ("data_hash", Str(hash)),
         ("compression_used", Bool(compression)),
         ("total_size_bytes", Num(size)),
         ("geometry_included", Bool(geometry)),
         ("parameters_included", Bool(true))])
  }

  function Document(items: seq<Json>, metadata: Json): Json {
    Obj([("elements", Arr(items)), ("metadata", metadata)])
  }

  // ---------- batch mode ----------

  function BatchMetadata(items: seq<Json>, c: Config, env: Readings): Json {
    var text := Dumps(Arr(items), Compact);
    Metadata(env.timestamp, |items|, env.md5(text), c.compression, |text|, c.geometry)
  }

  function Compressed(data: Json, codec: Codec): Json
    requires IsAscii(Dumps(data, Compact))
  {
    var text := Dumps(data, Compact);
    var packed := codec.compress(Encode(text));
    Obj([("compressed_data", Str(Hex(packed))),
         ("original_size", Num(|text|)),
         ("compressed_size", Num(|packed|)),
         ("compression_used", Bool(true))])
  }

  /** _compress_data, which falls back to the data itself when compression raises. */
  function Stored(data: Json, pack: bool, codec: Codec): Json {
    PrintIsAscii(data, Compact, 0);
    if pack then Compressed(data, codec) else data
  }

  /** The dictionary that batch mode returns or saves. */
  function BatchData(elements: seq<Element>, c: Config, env: Readings, codec: Codec): Json {
    var items := Serialized(elements);
    Stored(Document(items, BatchMetadata(items, c, env)), c.compression && !env.gzipRaises, codec)
  }

  function FileStyle(c: Config): Style { if c.compression then Compact else Indented }

  // ---------- streaming mode ----------

  /** elements[i : i + batch_size] for i in range(0, len(elements), batch_size) */
  function Batches(elements: seq<Element>, size: int): seq<seq<Element>>
    decreases |elements|
  {
    if elements == [] || size <= 0 then []
    else if |elements| <= size then [elements]
    else [elements[..size]] + Batches(elements[size..], size)
  }

  /** json.dumps(items)[1:-1] */
  function Stripped(items: seq<Json>): string {
    var text := Dumps(Arr(items), Compact);
    if |text| < 2 then "" else text[1..|text| - 1]
  }

  /** The text written for the batches: stripped, comma separated, empty ones skipped. */
  function Body(batches: seq<seq<Element>>): string {
    if batches == [] then ""
    else
      var front, items := batches[..|batches| - 1], Serialized(batches[|batches| - 1]);
      if items == [] then Body(front)
      else if Serialized(Flatten(front)) == [] then Stripped(items)
      else Body(front) + "," + Stripped(items)
  }

  function StreamMetadata(count: nat, c: Config, env: Readings): Json {
    Metadata(env.timestamp, count, "streaming_mode", false, env.fileSize, c.geometry)
  }

  const OPENING := "{\"elements\": ["

  function StreamText(batches: seq<seq<Element>>, c: Config, env: Readings): string {
    OPENING + Body(batches)
    + "], \"metadata\": " + Dumps(StreamMetadata(|Serialized(Flatten(batches))|, c, env), Compact) + "}"
  }

  // ---------- paths ----------

  /** Position of the last dot, or the length. */
  function LastDot(name: string): (k: nat)
    ensures k <= |name|
    ensures k < |name| ==> name[k] == '.' && forall i | k < i < |name| :: name[i] != '.'
    ensures k == |name| ==> forall i | 0 <= i < |name| :: name[i] != '.'
  {
    if name == "" then 0
    else if name[|name| - 1] == '.' then |name| - 1
    else
      var k := LastDot(name[..|name| - 1]);
      if k == |name| - 1 then |name| else k
  }

  /** pathlib's suffix: from the last dot on, unless that dot starts or ends the name. */
  function Suffix(path: string): string {
    var name := Name(path);
    var k := LastDot(name);
    if 0 < k < |name| - 1 then name[k..] else ""
  }

  /** A path that names a file rather than a directory. */
  predicate Openable(path: string) { Name(path) != "" && Name(path) != ".." }

  /** The text of the path ends with the file's name: the system's own open(), which does not go
      through pathlib, takes "name/" and "name/." for directories. */
  predicate EndsWithName(path: string) { Kept(FileName(path)) != [] }

  // ---------- reading back ----------

  datatype ReadError = NotFound | Malformed

  function Decompressed(data: Json, codec: Codec): Result<Json, ReadError>
    requires data.Obj?
  {
    match Get(data, "compressed_data")
    case Some(Str(hex)) =>
      var packed := FromHex(hex);
      if packed.None? then Err(Malformed)
      else
        var unpacked := codec.decompress(packed.value);
        if unpacked.None? then Err(Malformed) else LoadBytes(unpacked.value)
    case _ => Err(Malformed)
  }

  function LoadBytes(b: seq<byte>): Result<Json, ReadError> {
    var text := Decode(b);
    if text.None? then Err(Malformed)
    else
      var v := Loads(text.value);
      if v.None? then Err(Malformed) else Ok(v.value)
  }

  predicate ValidMetadata(metadata: Json) {
    metadata.Obj? && forall field | field in ["timestamp", "element_count", "serialization_version"] ::
      Get(metadata, field).Some?
  }

  function Or(v: Option<Json>, default: Json): Json { if v.Some? then v.value else default }

  /** deserialize_elements on data already loaded. */
  function Deserialize(data: Json, codec: Codec): Result<Json, ReadError> {
    if !data.Obj? then Err(Malformed)
    else
      var plain := if Get(data, "compressed_data").Some? then Decompressed(data, codec) else Ok(data);
      if plain.Err? then plain
      else if !plain.value.Obj? || !ValidMetadata(Or(Get(plain.value, "metadata"), Obj([]))) then Err(Malformed)
      else Ok(Or(Get(plain.value, "elements"), Arr([])))
  }

  function LoadFromFile(files: map<Location, seq<byte>>, path: string, codec: Codec): Result<Json, ReadError> {
    if Locate(path) !in files then Err(NotFound)
    else if Suffix(path) == ".gz" then
      var unpacked := codec.decompress(files[Locate(path)]);
      if unpacked.None? then Err(Malformed) else LoadBytes(unpacked.value)
    else LoadBytes(files[Locate(path)])
  }

  function DeserializeFile(files: map<Location, seq<byte>>, path: string, codec: Codec): Result<Json, ReadError> {
    var data := LoadFromFile(files, path, codec);
    if data.Err? then data else Deserialize(data.value, codec)
  }
}
