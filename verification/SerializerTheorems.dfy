/** The streamed text denotes the same document as batch mode, and reading recovers the elements. */
module SerializerTheorems {
  import opened Common
  import opened Lists
  import opened Paths
  import opened Json
  import opened JsonRoundTrip
  import opened Bytes
  import opened ElementSerializerSpec

  // ---------- batches ----------

  lemma {:induction false} SerializedConcat(a: seq<Element>, b: seq<Element>)
    ensures Serialized(a + b) == Serialized(a) + Serialized(b)
  {
    if a == [] {
      assert a + b == b;
    } else {
      assert (a + b)[1..] == a[1..] + b && (a + b)[0] == a[0];
      SerializedConcat(a[1..], b);
      var head := if a[0].Some? then [a[0].value] else [];
      assert head + (Serialized(a[1..]) + Serialized(b)) == (head + Serialized(a[1..])) + Serialized(b);
    }
  }

  /** The slices taken by the loop are the list again, if the step is positive; with a negative
      step the loop does not run at all. */
  lemma {:induction false} FlattenBatches(elements: seq<Element>, size: int)
    ensures Flatten(Batches(elements, size)) == if size >= 1 then elements else []
    decreases |elements|
  {
    if elements != [] && size >= 1 {
      if |elements| <= size {
        FlattenOne(elements);
      } else {
        FlattenBatches(elements[size..], size);
        FlattenCons(elements[..size], Batches(elements[size..], size));
      }
    }
  }

  // ---------- the array text ----------

  lemma StrippedIsItems(items: seq<Json>)
    requires items != []
    ensures Stripped(items) == PrintItems(items, Compact, 1)
  {
    var inner := PrintItems(items, Compact, 1);
    assert Dumps(Arr(items), Compact) == "[" + "" + inner + "" + "]";
    assert ("[" + "" + inner + "" + "]")[1..|inner| + 1] == inner;
  }

  lemma Assoc<T>(a: seq<T>, b: seq<T>, c: seq<T>)
    ensures (a + b) + c == a + (b + c)
  {
  }

  /** Items, a bare comma, and text that parses to more items. */
  lemma {:induction false} ItemsThenComma(items: seq<Json>, t: string, more: seq<Json>, rest: string)
    requires items != [] && forall x | x in items :: WellFormed(x)
    requires t != "" && !IsSpace(t[0]) && ParseItems(t) == Some((more, rest))
    ensures ParseItems(PrintItems(items, Compact, 1) + ("," + t)) == Some((items + more, rest))
    decreases |items|
  {
    if |items| == 1 {
      assert items == [items[0]];
      LastThenComma(items[0], t, more, rest);
    } else {
      var head, tail, text := items[0], items[1..], PrintItems(items[1..], Compact, 1);
      ItemsThenComma(tail, t, more, rest);
      ItemsStart(tail, Compact, 1);
      FirstThenItems(head, text, "," + t, tail + more, rest);
      PrintItemsCons(items);
      assert [head] + (tail + more) == items + more by {
        Assoc([head], tail, more);
        assert [head] + tail == items;
      }
    }
  }

  lemma PrintItemsCons(items: seq<Json>)
    requires |items| > 1
    ensures PrintItems(items, Compact, 1) == Print(items[0], Compact, 1) + "," + " " + PrintItems(items[1..], Compact, 1)
  {
  }

  lemma LastThenComma(v: Json, t: string, more: seq<Json>, rest: string)
    requires WellFormed(v) && t != "" && !IsSpace(t[0]) && ParseItems(t) == Some((more, rest))
    ensures ParseItems(PrintItems([v], Compact, 1) + ("," + t)) == Some(([v] + more, rest))
  {
    ParsePrinted(v, Compact, 1, "," + t);
    EmptyPrefix(t);
    NextItem(Print(v, Compact, 1) + ("," + t), v, "", t);
    assert PrintItems([v], Compact, 1) == Print(v, Compact, 1);
  }

  lemma EmptyPrefix(t: string)
    ensures "" + t == t
  {
  }

  lemma FirstThenItems(v: Json, text: string, tail: string, more: seq<Json>, rest: string)
    requires WellFormed(v) && text != "" && !IsSpace(text[0])
    requires ParseItems(text + tail) == Some((more, rest))
    ensures ParseItems((Print(v, Compact, 1) + "," + " " + text) + tail) == Some(([v] + more, rest))
  {
    assert AllSpace(" ");
    ParseMoreItems(v, Compact, 1, " ", text, tail);
  }

  ghost predicate AllWellFormed(elements: seq<Element>) {
    forall e | e in elements && e.Some? :: WellFormed(e.value)
  }

  lemma {:induction false} SerializedWellFormed(elements: seq<Element>)
    requires AllWellFormed(elements)
    ensures forall x | x in Serialized(elements) :: WellFormed(x)
  {
    if elements != [] {
      assert elements[0] in elements;
      SerializedWellFormed(elements[1..]);
    }
  }

  ghost predicate BatchesWellFormed(batches: seq<seq<Element>>) {
    forall b | b in batches :: AllWellFormed(b)
  }

  lemma BodySnoc(front: seq<seq<Element>>, last: seq<Element>)
    ensures Serialized(Flatten(front + [last])) == Serialized(Flatten(front)) + Serialized(last)
    ensures Body(front + [last]) ==
              (if Serialized(last) == [] then Body(front)
               else if Serialized(Flatten(front)) == [] then Stripped(Serialized(last))
               else Body(front) + "," + Stripped(Serialized(last)))
  {
    var all := front + [last];
    assert all[..|all| - 1] == front;
    SerializedConcat(Flatten(front), last);
  }

  lemma CommaJoin(a: string, b: string, t: string)
    ensures (a + "," + b) + t == a + ("," + (b + t))
  {
  }

  /** The last batch of a non-empty body, followed by `t`. */
  lemma LastBatch(front: seq<seq<Element>>, last: seq<Element>, t: string)
    requires Serialized(last) != []
    ensures Serialized(Flatten(front)) == [] ==>
              Body(front + [last]) + t == PrintItems(Serialized(last), Compact, 1) + t
    ensures Serialized(Flatten(front)) != [] ==>
              Body(front + [last]) + t == Body(front) + ("," + (PrintItems(Serialized(last), Compact, 1) + t))
  {
    BodySnoc(front, last);
    StrippedIsItems(Serialized(last));
    CommaJoin(Body(front), Stripped(Serialized(last)), t);
  }

  /** A body followed by text that, after items, goes on as `t` does. */
  lemma {:induction false} BodyThenComma(batches: seq<seq<Element>>, t: string, more: seq<Json>, rest: string)
    requires BatchesWellFormed(batches) && Serialized(Flatten(batches)) != []
    requires t != "" && !IsSpace(t[0]) && ParseItems(t) == Some((more, rest))
    ensures ParseItems(Body(batches) + ("," + t)) == Some((Serialized(Flatten(batches)) + more, rest))
    decreases |batches|
  {
    var front, last := batches[..|batches| - 1], batches[|batches| - 1];
    assert batches == front + [last] && last in batches;
    BodySnoc(front, last);
    var items, before := Serialized(last), Serialized(Flatten(front));
    if items == [] {
      assert before + items == before;
      BodyThenComma(front, t, more, rest);
    } else {
      SerializedWellFormed(last);
      var text := PrintItems(items, Compact, 1) + ("," + t);
      ItemsThenComma(items, t, more, rest);
      ItemsStart(items, Compact, 1);
      if before != [] { BodyThenComma(front, text, items + more, rest); }
      LastBatchThen(front, last, t, more, rest);
    }
  }

  /** The last batch with something in it, after the ones before. */
  lemma LastBatchThen(front: seq<seq<Element>>, last: seq<Element>, t: string, more: seq<Json>, rest: string)
    requires Serialized(last) != []
    requires var items, before := Serialized(last), Serialized(Flatten(front));
             var text := PrintItems(items, Compact, 1) + ("," + t);
             && ParseItems(text) == Some((items + more, rest))
             && (before != [] ==> ParseItems(Body(front) + ("," + text)) == Some((before + (items + more), rest)))
    ensures ParseItems(Body(front + [last]) + ("," + t)) == Some((Serialized(Flatten(front)) + Serialized(last) + more, rest))
  {
    var items, before := Serialized(last), Serialized(Flatten(front));
    LastBatch(front, last, "," + t);
    Assoc(before, items, more);
    if before == [] { assert before + items == items; }
  }

  /** The array between the brackets parses to the elements of all batches. */
  lemma BodyParses(batches: seq<seq<Element>>, rest: string)
    requires BatchesWellFormed(batches)
    ensures ParseValue("[" + (Body(batches) + ("]" + rest))) == Some((Arr(Serialized(Flatten(batches))), rest))
  {
    BodyStarts(batches);
    if Serialized(Flatten(batches)) == [] {
      assert Body(batches) + ("]" + rest) == "]" + rest;
      DropPrefix("[", "]" + rest);
      DropPrefix("]", rest);
    } else {
      BodyEnds(batches, rest);
      assert "" + (Body(batches) + ("]" + rest)) == Body(batches) + ("]" + rest);
      OpenArray("", Body(batches) + ("]" + rest));
    }
  }

  lemma {:induction false} BodyStarts(batches: seq<seq<Element>>)
    ensures if Serialized(Flatten(batches)) == [] then Body(batches) == ""
            else Body(batches) != "" && !IsSpace(Body(batches)[0]) && Body(batches)[0] != ']'
    decreases |batches|
  {
    if batches != [] {
      var front, last := batches[..|batches| - 1], batches[|batches| - 1];
      assert batches == front + [last];
      BodySnoc(front, last);
      BodyStarts(front);
      if Serialized(last) != [] {
        StrippedIsItems(Serialized(last));
        ItemsStart(Serialized(last), Compact, 1);
      }
    }
  }

  lemma {:induction false} BodyEnds(batches: seq<seq<Element>>, rest: string)
    requires BatchesWellFormed(batches) && Serialized(Flatten(batches)) != []
    ensures ParseItems(Body(batches) + ("]" + rest)) == Some((Serialized(Flatten(batches)), rest))
    decreases |batches|
  {
    var front, last := batches[..|batches| - 1], batches[|batches| - 1];
    assert batches == front + [last] && last in batches;
    BodySnoc(front, last);
    var items, before := Serialized(last), Serialized(Flatten(front));
    if items == [] {
      assert before + items == before;
      BodyEnds(front, rest);
    } else {
      SerializedWellFormed(last);
      ItemsStart(items, Compact, 1);
      ParsePrintedItems(items, Compact, 1, "", rest);
      assert "" + ("]" + rest) == "]" + rest;
      LastBatch(front, last, "]" + rest);
      if before != [] {
        BodyThenComma(front, PrintItems(items, Compact, 1) + ("]" + rest), items, rest);
      } else {
        assert before + items == items;
      }
    }
  }

  // ---------- the whole text ----------

  lemma {:induction false} EscapePlain(s: string)
    requires forall i | 0 <= i < |s| :: 'a' <= s[i] <= 'z' || s[i] == '_'
    ensures Escape(s) == s
  {
    if s != "" { EscapePlain(s[1..]); }
  }

  lemma MetadataWellFormed(timestamp: FloatText, count: nat, hash: string, compression: bool, size: nat, geometry: bool)
    ensures WellFormed(Metadata(timestamp, count, hash, compression, size, geometry))
    ensures ValidMetadata(Metadata(timestamp, count, hash, compression, size, geometry))
  {
    MetadataMembers(Metadata(timestamp, count, hash, compression, size, geometry).members);
  }

  lemma MetadataMembers(ms: seq<(string, Json)>)
    requires |ms| == 8
    requires ms[0].0 == "timestamp" && ms[1].0 == "element_count" && ms[2].0 == "serialization_version"
    requires ms[3].0 == "data_hash" && ms[4].0 == "compression_used" && ms[5].0 == "total_size_bytes"
    requires ms[6].0 == "geometry_included" && ms[7].0 == "parameters_included"
    requires forall i | 0 <= i < 8 :: !ms[i].1.Arr? && !ms[i].1.Obj?
    ensures WellFormed(Obj(ms)) && ValidMetadata(Obj(ms))
  {
    DifferentKeys(ms);
    FlatObject(ms);
    FirstThree(ms);
  }

  // The keys differ in their first letter or in their length.
  lemma DifferentKeys(ms: seq<(string, Json)>)
    requires |ms| == 8
    requires ms[0].0 == "timestamp" && ms[1].0 == "element_count" && ms[2].0 == "serialization_version"
    requires ms[3].0 == "data_hash" && ms[4].0 == "compression_used" && ms[5].0 == "total_size_bytes"
    requires ms[6].0 == "geometry_included" && ms[7].0 == "parameters_included"
    ensures DistinctKeys(ms)
  {
    var kinds := seq(8, i requires 0 <= i < 8 => (|ms[i].0|, ms[i].0[0]));
    assert kinds == [(9, 't'), (13, 'e'), (21, 's'), (9, 'd'), (16, 'c'), (16, 't'), (17, 'g'), (19, 'p')];
    forall i, j | 0 <= i < j < |ms| ensures ms[i].0 != ms[j].0 {
      assert kinds[i] != kinds[j];
    }
  }

  lemma FlatObject(ms: seq<(string, Json)>)
    requires DistinctKeys(ms) && forall i | 0 <= i < |ms| :: !ms[i].1.Arr? && !ms[i].1.Obj?
    ensures WellFormed(Obj(ms))
  {
  }

  lemma FirstThree(ms: seq<(string, Json)>)
    requires |ms| >= 3
    requires ms[0].0 == "timestamp" && ms[1].0 == "element_count" && ms[2].0 == "serialization_version"
    ensures ValidMetadata(Obj(ms))
  {
    assert GetMember(ms, "timestamp").Some?;
    assert ms[1..][0] == ms[1] && ms[1..][1..] == ms[2..] && ms[2..][0] == ms[2];
    assert "timestamp"[0] == 't' && "element_count"[0] == 'e' && "serialization_version"[0] == 's';
    assert GetMember(ms[1..], "element_count").Some?;
    assert GetMember(ms[2..], "serialization_version").Some?;
    assert GetMember(ms[1..], "serialization_version") == GetMember(ms[2..], "serialization_version");
  }

  lemma StreamShape(body: string, metadata: string)
    ensures (OPENING + body + "], \"metadata\": " + metadata + "}")
         == "{" + ("" + ("\"" + ("elements" + ("\"" + (":" + (" " + ("[" + (body + ("]"
            + ("," + (" " + ("\"" + "metadata" + "\"" + ": " + metadata + ("" + ("}" + ""))))))))))))))
  {
  }

  /** What streaming wrote reads as the document with all serialized elements, in order. */
  lemma StreamTextLoads(batches: seq<seq<Element>>, c: Config, env: Readings)
    requires BatchesWellFormed(batches)
    ensures var items := Serialized(Flatten(batches));
            Loads(StreamText(batches, c, env)) == Some(Document(items, StreamMetadata(|items|, c, env)))
  {
    var items := Serialized(Flatten(batches));
    MetadataWellFormed(env.timestamp, |items|, "streaming_mode", false, env.fileSize, c.geometry);
    DocumentLoads(batches, StreamMetadata(|items|, c, env));
  }

  lemma DocumentLoads(batches: seq<seq<Element>>, metadata: Json)
    requires BatchesWellFormed(batches) && WellFormed(metadata)
    ensures Loads(OPENING + Body(batches) + "], \"metadata\": " + Dumps(metadata, Compact) + "}")
         == Some(Document(Serialized(Flatten(batches)), metadata))
  {
    EscapePlain("elements");
    assert "elements"[0] != "metadata"[0];
    KeyedDocumentLoads("elements", batches, ("metadata", metadata));
    DocumentShape(Body(batches), metadata);
  }

  lemma KeyedDocumentLoads(key: string, batches: seq<seq<Element>>, member: (string, Json))
    requires BatchesWellFormed(batches) && WellFormed(member.1) && Escape(key) == key && key != member.0
    ensures Loads(DocumentText(key, Body(batches), PrintMembers([member], Compact, 0) + ("" + ("}" + ""))))
         == Some(Obj([(key, Arr(Serialized(Flatten(batches)))), member]))
  {
    var last := PrintMembers([member], Compact, 0) + ("" + ("}" + ""));
    ParsePrintedMembers([member], Compact, 0, "", "");
    MembersStart([member], Compact, 0);
    BodyParses(batches, "," + (" " + last));
    ReadDocument(key, Body(batches), Serialized(Flatten(batches)), member, last);
  }

  lemma DocumentShape(body: string, metadata: Json)
    ensures OPENING + body + "], \"metadata\": " + Dumps(metadata, Compact) + "}" ==
              DocumentText("elements", body, PrintMembers([("metadata", metadata)], Compact, 0) + ("" + ("}" + "")))
  {
    EscapePlain("metadata");
    StreamShape(body, Dumps(metadata, Compact));
    assert PrintMembers([("metadata", metadata)], Compact, 0) == "\"" + "metadata" + "\"" + ": " + Dumps(metadata, Compact);
  }

  /** The text, cut where the reader cuts it. */
  function DocumentText(key: string, body: string, last: string): string {
    "{" + ("" + ("\"" + (key + ("\"" + (":" + (" " + ("[" + (body + ("]" + ("," + (" " + last)))))))))))
  }

  lemma ReadDocument(key: string, body: string, items: seq<Json>, member: (string, Json), last: string)
    requires last != "" && !IsSpace(last[0]) && Escape(key) == key && key != member.0
    requires ParseMembers(last) == Some(([member], ""))
    requires ParseValue("[" + (body + ("]" + ("," + (" " + last))))) == Some((Arr(items), "," + (" " + last)))
    ensures Loads(DocumentText(key, body, last)) == Some(Obj([(key, Arr(items)), member]))
  {
    var value := "[" + (body + ("]" + ("," + (" " + last))));
    var first := "\"" + (key + ("\"" + (":" + (" " + value))));
    FirstMember(key, value, Arr(items), "," + (" " + last));
    assert AllSpace(" ");
    NextMember(first, (key, Arr(items)), " ", last);
    OpenObject("", first);
    TwoKeys((key, Arr(items)), member);
    LoadsExactly("{" + ("" + first), Obj([(key, Arr(items)), member]));
  }

  lemma FirstMember(key: string, value: string, v: Json, rest: string)
    requires Escape(key) == key
    requires value != "" && !IsSpace(value[0]) && ParseValue(value) == Some((v, rest))
    ensures ParseMember("\"" + (key + ("\"" + (":" + (" " + value))))) == Some(((key, v), rest))
  {
    ParseKey(key, value);
  }

  lemma LoadsExactly(s: string, v: Json)
    requires s != "" && !IsSpace(s[0]) && ParseValue(s) == Some((v, ""))
    ensures Loads(s) == Some(v)
  {
  }

  lemma TwoKeys(a: (string, Json), b: (string, Json))
    requires a.0 != b.0
    ensures DictOf([a] + [b]) == [a, b]
  {
    var pairs := [a, b];
    DictOfDistinct(pairs);
    assert [a] + [b] == pairs;
  }

  lemma {:induction false} BatchesAreWellFormed(elements: seq<Element>, size: int)
    requires AllWellFormed(elements)
    ensures BatchesWellFormed(Batches(elements, size))
    decreases |elements|
  {
    if elements != [] && 0 < size < |elements| {
      BatchesAreWellFormed(elements[size..], size);
    }
  }

  /** Streaming and batch mode denote the same elements, and the streamed metadata counts them,
      for every positive batch size. */
  lemma StreamingRefinesBatch(elements: seq<Element>, c: Config, env: Readings)
    requires AllWellFormed(elements) && c.batchSize >= 1
    ensures var items := Serialized(elements);
            Loads(StreamText(Batches(elements, c.batchSize), c, env)) == Some(Document(items, StreamMetadata(|items|, c, env)))
  {
    BatchesAreWellFormed(elements, c.batchSize);
    StreamTextLoads(Batches(elements, c.batchSize), c, env);
    FlattenBatches(elements, c.batchSize);
  }

  /** With a negative batch size streaming silently writes no element: it agrees with batch mode
      exactly when there is none to write. */
  lemma NegativeBatchSizeDropsAll(elements: seq<Element>, c: Config, env: Readings)
    requires AllWellFormed(elements) && c.batchSize < 0
    ensures Loads(StreamText(Batches(elements, c.batchSize), c, env)) == Some(Document([], StreamMetadata(0, c, env)))
    ensures Loads(StreamText(Batches(elements, c.batchSize), c, env)).value.members[0].1 == Arr(Serialized(elements))
        <==> Serialized(elements) == []
  {
    BatchesAreWellFormed(elements, c.batchSize);
    StreamTextLoads(Batches(elements, c.batchSize), c, env);
    FlattenBatches(elements, c.batchSize);
  }

  // ---------- recovering the elements ----------

  lemma LoadBytesOf(v: Json, style: Style)
    requires WellFormed(v)
    ensures IsAscii(Dumps(v, style)) && LoadBytes(Encode(Dumps(v, style))) == Ok(v)
  {
    PrintIsAscii(v, style, 0);
    DecodeEncode(Dumps(v, style));
    LoadsDumps(v, style);
  }

  ghost predicate HasNoKey(v: Json, key: string) { v.Obj? && Get(v, key).None? }

  lemma DocumentReads(items: seq<Json>, metadata: Json, codec: Codec)
    requires ValidMetadata(metadata)
    ensures Deserialize(Document(items, metadata), codec) == Ok(Arr(items))
    ensures HasNoKey(Document(items, metadata), "compressed_data")
  {
    var ms := [("elements", Arr(items)), ("metadata", metadata)];
    assert "elements"[0] == 'e' && "metadata"[0] == 'm' && "compressed_data"[0] == 'c';
    assert ms[1..] == [("metadata", metadata)];
    assert GetMember(ms, "elements") == Some(Arr(items));
    assert GetMember(ms[1..], "metadata") == Some(metadata);
    assert GetMember(ms[1..][1..], "compressed_data") == None;
    assert GetMember(ms[1..], "compressed_data") == None;
  }

  lemma DocumentWellFormed(items: seq<Json>, metadata: Json)
    requires WellFormed(metadata) && forall x | x in items :: WellFormed(x)
    ensures WellFormed(Document(items, metadata))
  {
    var ms := [("elements", Arr(items)), ("metadata", metadata)];
    assert "elements"[0] == 'e' && "metadata"[0] == 'm';
    assert WellFormed(Arr(items));
  }

  lemma CompressedReads(data: Json, codec: Gzip)
    requires WellFormed(data) && IsAscii(Dumps(data, Compact))
    ensures WellFormed(Compressed(data, codec))
    ensures Get(Compressed(data, codec), "compressed_data").Some?
    ensures Decompressed(Compressed(data, codec), codec) == Ok(data)
  {
    var packed := codec.compress(Encode(Dumps(data, Compact)));
    var stored := Compressed(data, codec);
    PackedWellFormed(stored.members);
    PackedDecompresses(stored, packed, Encode(Dumps(data, Compact)), codec);
    LoadBytesOf(data, Compact);
  }

  lemma PackedDecompresses(stored: Json, packed: seq<byte>, plain: seq<byte>, codec: Codec)
    requires stored.Obj?
    requires Get(stored, "compressed_data") == Some(Str(Hex(packed))) && codec.decompress(packed) == Some(plain)
    ensures Decompressed(stored, codec) == LoadBytes(plain)
  {
    FromHexHex(packed);
  }

  lemma PackedWellFormed(ms: seq<(string, Json)>)
    requires |ms| == 4 && forall i | 0 <= i < 4 :: !ms[i].1.Arr? && !ms[i].1.Obj?
    requires ms[0].0 == "compressed_data" && ms[1].0 == "original_size"
    requires ms[2].0 == "compressed_size" && ms[3].0 == "compression_used"
    ensures WellFormed(Obj(ms))
  {
    assert ms[0].0[11] == 'd' && ms[2].0[11] == 's';
    assert |ms[1].0| == 13 && |ms[0].0| == |ms[2].0| == 15 && |ms[3].0| == 16;
    assert DistinctKeys(ms);
    FlatObject(ms);
  }

  /** Batch mode without a file: the returned dictionary gives the elements back, compressed or
      not, and also when compression itself fails. */
  lemma BatchDataReads(elements: seq<Element>, c: Config, env: Readings, codec: Gzip)
    requires AllWellFormed(elements)
    ensures WellFormed(BatchData(elements, c, env, codec))
    ensures Deserialize(BatchData(elements, c, env, codec), codec) == Ok(Arr(Serialized(elements)))
  {
    var items := Serialized(elements);
    SerializedWellFormed(elements);
    MetadataWellFormed(env.timestamp, |items|, env.md5(Dumps(Arr(items), Compact)), c.compression,
                       |Dumps(Arr(items), Compact)|, c.geometry);
    StoredReads(items, BatchMetadata(items, c, env), c.compression && !env.gzipRaises, codec);
  }

  lemma StoredReads(items: seq<Json>, metadata: Json, pack: bool, codec: Gzip)
    requires WellFormed(metadata) && ValidMetadata(metadata) && forall x | x in items :: WellFormed(x)
    ensures WellFormed(Stored(Document(items, metadata), pack, codec))
    ensures Stored(Document(items, metadata), pack, codec).Obj?
    ensures Deserialize(Stored(Document(items, metadata), pack, codec), codec) == Ok(Arr(items))
  {
    var data := Document(items, metadata);
    DocumentWellFormed(items, metadata);
    DocumentReads(items, metadata, codec);
    if pack {
      PrintIsAscii(data, Compact, 0);
      CompressedReads(data, codec);
      UnpackThenRead(Compressed(data, codec), data, codec);
    }
  }

  lemma UnpackThenRead(packed: Json, data: Json, codec: Codec)
    requires packed.Obj? && Get(packed, "compressed_data").Some? && Decompressed(packed, codec) == Ok(data)
    requires HasNoKey(data, "compressed_data")
    ensures Deserialize(packed, codec) == Deserialize(data, codec)
  {
  }

  /** The text of a JSON object is never taken for gzip data. */
  lemma TextIsNotGzip(text: string, codec: Gzip)
    requires text != "" && text[0] == '{' && IsAscii(text)
    ensures codec.decompress(Encode(text)) == None
  {
    assert Encode(text)[0] == 0x7b;
  }

  lemma ObjectStarts(v: Json, style: Style)
    requires v.Obj?
    ensures Dumps(v, style) != "" && Dumps(v, style)[0] == '{'
  {
  }

  /** A saved batch file gives the elements back exactly if its name does not end in .gz: the
      reader unpacks every .gz file, but batch mode always saves text. */
  lemma BatchFileReadsIff(elements: seq<Element>, c: Config, env: Readings, codec: Gzip,
                          files: map<Location, seq<byte>>, path: string)
    requires AllWellFormed(elements)
    ensures var text := Dumps(BatchData(elements, c, env, codec), FileStyle(c));
            IsAscii(text)
            && (DeserializeFile(files[Locate(path) := Encode(text)], path, codec) == Ok(Arr(Serialized(elements)))
                <==> Suffix(path) != ".gz")
  {
    var data := BatchData(elements, c, env, codec);
    BatchDataReads(elements, c, env, codec);
    LoadBytesOf(data, FileStyle(c));
    ObjectStarts(data, FileStyle(c));
    TextIsNotGzip(Dumps(data, FileStyle(c)), codec);
  }

  lemma StreamTextIsAscii(batches: seq<seq<Element>>, c: Config, env: Readings)
    ensures IsAscii(StreamText(batches, c, env)) && StreamText(batches, c, env)[0] == '{'
  {
    var metadata := Dumps(StreamMetadata(|Serialized(Flatten(batches))|, c, env), Compact);
    PrintIsAscii(StreamMetadata(|Serialized(Flatten(batches))|, c, env), Compact, 0);
    BodyIsAscii(batches);
    assert OPENING[0] == '{';
    EnclosedIsAscii(OPENING, Body(batches), "], \"metadata\": ", metadata, "}");
  }

  lemma {:induction false} BodyIsAscii(batches: seq<seq<Element>>)
    ensures IsAscii(Body(batches))
    decreases |batches|
  {
    if batches != [] {
      var items := Serialized(batches[|batches| - 1]);
      BodyIsAscii(batches[..|batches| - 1]);
      PrintIsAscii(Arr(items), Compact, 0);
      AsciiConcat(Body(batches[..|batches| - 1]), ",");
      AsciiConcat(Body(batches[..|batches| - 1]) + ",", Stripped(items));
    }
  }

  /** A streamed file gives the elements back if it is compressed; uncompressed, exactly if its
      name does not end in .gz. */
  lemma StreamFileReadsIff(elements: seq<Element>, c: Config, env: Readings, codec: Gzip,
                           files: map<Location, seq<byte>>, path: string)
    requires AllWellFormed(elements) && c.batchSize >= 1
    ensures var text := StreamText(Batches(elements, c.batchSize), c, env);
            && IsAscii(text)
            && (EndsWithName(path) ==>
                  DeserializeFile(files[Locate(path + ".gz") := codec.compress(Encode(text))], path + ".gz", codec)
                    == Ok(Arr(Serialized(elements))))
            && (DeserializeFile(files[Locate(path) := Encode(text)], path, codec) == Ok(Arr(Serialized(elements)))
                <==> Suffix(path) != ".gz")
  {
    var batches := Batches(elements, c.batchSize);
    var text := StreamText(batches, c, env);
    var items := Serialized(elements);
    StreamTextIsAscii(batches, c, env);
    DecodeEncode(text);
    StreamingRefinesBatch(elements, c, env);
    MetadataWellFormed(env.timestamp, |items|, "streaming_mode", false, env.fileSize, c.geometry);
    DocumentReads(items, StreamMetadata(|items|, c, env), codec);
    assert LoadBytes(Encode(text)) == Ok(Document(items, StreamMetadata(|items|, c, env)));
    TextIsNotGzip(text, codec);
    if EndsWithName(path) { SuffixOfCompressed(path); }
  }

  lemma SuffixOfCompressed(path: string)
    requires EndsWithName(path)
    ensures Suffix(path + ".gz") == ".gz"
  {
    FileNameAppend(path, ".gz");
    var name := FileName(path) + ".gz";
    var k := LastDot(name);
    assert name[|name| - 3] == '.' && name[|name| - 2] == 'g' && name[|name| - 1] == 'z';
    assert k == |name| - 3;
    assert name[k..] == ".gz";
  }

  /** The failing family is not empty: any uncompressed output called out.gz. */
  lemma GzNamedOutputIsUnreadable(elements: seq<Element>, c: Config, env: Readings, codec: Gzip, files: map<Location, seq<byte>>)
    requires AllWellFormed(elements)
    ensures var text := Dumps(BatchData(elements, c, env, codec), FileStyle(c));
            IsAscii(text) && DeserializeFile(files[Locate("out.gz") := Encode(text)], "out.gz", codec).Err?
  {
    var data := BatchData(elements, c, env, codec);
    BatchDataReads(elements, c, env, codec);
    PrintIsAscii(data, FileStyle(c), 0);
    OutGzSuffix();
    ObjectStarts(data, FileStyle(c));
    TextAsGzip(Dumps(data, FileStyle(c)), codec, files, "out.gz");
  }

  lemma PlainGzSuffix(stem: string)
    requires stem != "" && stem != "." && forall i | 0 <= i < |stem| :: stem[i] != '/'
    ensures Suffix(stem + ".gz") == ".gz"
  {
    FileNameAppend("", stem);
    assert "" + stem == stem;
    SuffixOfCompressed(stem);
  }

  lemma OutGzSuffix()
    ensures Suffix("out.gz") == ".gz"
  {
    PlainGzSuffix("out");
    assert "out" + ".gz" == "out.gz";
  }

  /** Compressing writes to another file than the one it reads. */
  lemma CompressedElsewhere(path: string)
    requires EndsWithName(path)
    ensures Locate(path + ".gz") != Locate(path)
  {
    FileNameAppend(path, ".gz");
    assert Name(path + ".gz") == FileName(path) + ".gz";
    assert Name(path) == FileName(path);
  }

  /** A path with a slash after the name can be opened through pathlib but not through open(), so
      under compression streaming to it fails after the file is written. */
  lemma TrailingSlashFails(name: string)
    requires Slashless(name) && name != "" && name != "." && name != ".."
    ensures Openable(name) && Openable(name + "/") && Locate(name + "/") == Locate(name)
    ensures EndsWithName(name) && !EndsWithName(name + "/")
  {
    SlashlessParts(name);
    assert (name + "/")[..|name|] == name;
    assert FileName(name + "/") == "";
    assert Parts(name + "/") == Parts(name) + Kept("");
  }

  lemma TextAsGzip(text: string, codec: Gzip, files: map<Location, seq<byte>>, path: string)
    requires text != "" && text[0] == '{' && IsAscii(text) && Suffix(path) == ".gz"
    ensures DeserializeFile(files[Locate(path) := Encode(text)], path, codec) == Err(Malformed)
  {
    TextIsNotGzip(text, codec);
  }
}
