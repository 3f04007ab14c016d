/** Lossless splitting of an oversized artifact into checksummed Base64 parts, and back. */
module ArtifactParts {
  import opened Basics
  import opened Decimal
  import opened Json
  import opened Payload
  import Base64

  // SHA-256 as an uninterpreted function from bytes to its hexadecimal digest.
  type Digest = seq<byte> -> string

  // `json.loads`: None when it raises.
  type Loader = seq<byte> -> Option<Json>

  type Attachment = (string, Json)

  datatype SplitError = LimitTooSmall | NoRoomForHeader | PartHeaderTooLarge | IndexTooLarge

  datatype ReassembleError =
    | InvalidIndex
    | NoParts
    | InvalidEntry
    | DuplicatePart
    | MissingPart(name: string)
    | ChecksumMismatch(name: string)
    | NotJson(name: string)
    | NotADictionary(name: string)
    | IdentityMismatch(name: string)
    | InvalidEncoding(name: string)
    | ArtifactMismatch

  // ----- what a split is made of ------------------------------------------------

  // The byte limits a split accepts.
  type Limit = n: nat | n >= 1024 witness 1024

  function Ceiling(maxBytes: Limit): (c: nat)
    ensures c >= 768
  {
    maxBytes - Min(4096, maxBytes / 4)
  }

  // Every limit leaves room for a chunk, so the refusal NoRoomForHeader is never the answer.
  function ChunkSize(maxBytes: Limit): (c: nat)
    ensures 192 <= c <= Ceiling(maxBytes) - 512
  {
    (Ceiling(maxBytes) - 512) * 3 / 4
  }

  function ChunkCount(size: nat, chunk: nat): nat
    requires chunk > 0
  {
    (size + chunk - 1) / chunk
  }

  // `data[offset * chunk : (offset + 1) * chunk]`
  function Chunk(data: seq<byte>, chunk: nat, offset: nat): seq<byte> {
    Slice(data, Offset(offset, chunk), Offset(offset + 1, chunk))
  }

  function Offset(k: nat, chunk: nat): nat { k * chunk }

  // A Python slice: bounds past the end stop at the end.
  function Slice(data: seq<byte>, from: nat, to: nat): seq<byte> {
    if from <= Min(to, |data|) then data[from..Min(to, |data|)] else []
  }

  function Prefix(s: string, n: nat): string { if |s| <= n then s else s[..n] }

  function Stem(filename: string): string {
    if |filename| >= 5 && filename[|filename| - 5..] == ".json" then filename[..|filename| - 5] else filename
  }

  function PartName(checksum: string, stem: string, number: nat): string {
    "artifactpart_" + Prefix(checksum, 16) + "_" + stem + "_" + Padded4(number) + ".json"
  }

  function IndexName(checksum: string, stem: string): string {
    stem + "." + Prefix(checksum, 16) + ".parts.json"
  }

  function PartDocument(filename: string, checksum: string, number: nat, count: nat, data: string): (j: Json)
    ensures j.Dict?
  {
    Dict([Field("schema", Int(1)), Field("artifact", Str(filename)), Field("encoding", Str("base64")),
          Field("part", Int(number)), Field("part_count", Int(count)),
          Field("artifact_sha256", Str(checksum)), Field("data", Str(data))])
  }

  // `_metadata`
  function Metadata(name: string, data: seq<byte>, sha: Digest): (j: Json)
    ensures j.Dict?
  {
    Dict([Field("name", Str(name)), Field("bytes", Int(|data|)), Field("sha256", Str(sha(data)))])
  }

  function IndexDocument(filename: string, data: seq<byte>, entries: seq<Json>, sha: Digest): (j: Json)
    ensures j.Dict?
  {
    Dict([Field("schema", Int(1)), Field("artifact", Str(filename)), Field("encoding", Str("base64")),
          Field("bytes", Int(|data|)), Field("sha256", Str(sha(data))), Field("parts", List(entries))])
  }

  function Part(filename: string, data: seq<byte>, chunk: nat, offset: nat, sha: Digest): Attachment
    requires chunk > 0
  {
    (PartName(sha(data), Stem(filename), offset + 1),
     PartDocument(filename, sha(data), offset + 1, ChunkCount(|data|, chunk),
                  Base64.Encode(Chunk(data, chunk, offset))))
  }

  function Entry(filename: string, data: seq<byte>, chunk: nat, offset: nat, sha: Digest): Json
    requires chunk > 0
  {
    var part := Part(filename, data, chunk, offset, sha);
    Metadata(part.0, JsonBytes(part.1), sha)
  }

  function Parts(filename: string, data: seq<byte>, chunk: nat, n: nat, sha: Digest): seq<Attachment>
    requires chunk > 0
  {
    seq(n, offset requires 0 <= offset < n => Part(filename, data, chunk, offset, sha))
  }

  function Entries(filename: string, data: seq<byte>, chunk: nat, n: nat, sha: Digest): seq<Json>
    requires chunk > 0
  {
    seq(n, offset requires 0 <= offset < n => Entry(filename, data, chunk, offset, sha))
  }

  function Index(filename: string, data: seq<byte>, chunk: nat, sha: Digest): (j: Json)
    requires chunk > 0
    ensures j.Dict?
  {
    IndexDocument(filename, data, Entries(filename, data, chunk, ChunkCount(|data|, chunk), sha), sha)
  }

  predicate HeadersFit(filename: string, data: seq<byte>, maxBytes: Limit, sha: Digest)
  {
    var chunk := ChunkSize(maxBytes);
    forall offset :: 0 <= offset < ChunkCount(|data|, chunk) ==>
      PartSize(filename, data, chunk, offset, sha) <= Ceiling(maxBytes)
  }

  function PartSize(filename: string, data: seq<byte>, chunk: nat, offset: nat, sha: Digest): nat
    requires chunk > 0
  {
    |JsonBytes(Part(filename, data, chunk, offset, sha).1)|
  }

  // What a call returns: the artifact untouched, its parts and their index, or a refusal.
  function Split(filename: string, payload: Json, maxBytes: int, sha: Digest): Result<seq<Attachment>, SplitError> {
    if maxBytes < 1024 then Err(LimitTooSmall) else
    var data := JsonBytes(payload);
    var chunk := ChunkSize(maxBytes);
    if |data| <= Ceiling(maxBytes) then Ok([(filename, payload)])
    else if !HeadersFit(filename, data, maxBytes, sha) then Err(PartHeaderTooLarge)
    else if |JsonBytes(Index(filename, data, chunk, sha))| > Ceiling(maxBytes) then Err(IndexTooLarge)
    else Ok(Parts(filename, data, chunk, ChunkCount(|data|, chunk), sha)
            + [(IndexName(sha(data), Stem(filename)), Index(filename, data, chunk, sha))])
  }

  method ArtifactParts(filename: string, payload: Json, maxBytes: int, sha: Digest)
    returns (r: Result<seq<Attachment>, SplitError>)
    ensures r == Split(filename, payload, maxBytes, sha)
  {
    hide PartDocument, IndexDocument, Metadata, PartName, JsonBytes, Chunk;
    if maxBytes < 1024 {
      return Err(LimitTooSmall);
    }
    var data := JsonBytes(payload);
    var reserve := Min(4096, maxBytes / 4);
    var ceiling := maxBytes - reserve;
    if |data| <= ceiling {
      return Ok([(filename, payload)]);
    }
    var checksum := sha(data);
    var chunkSize := (ceiling - 512) * 3 / 4;
    var count := ChunkCount(|data|, chunkSize);
    hide ChunkCount;
    var stem := Stem(filename);
    var result, entries := [], [];
    for offset := 0 to count
      invariant result == Parts(filename, data, chunkSize, offset, sha)
      invariant entries == Entries(filename, data, chunkSize, offset, sha)
      invariant forall k :: 0 <= k < offset ==>
        PartSize(filename, data, chunkSize, k, sha) <= ceiling
    {
      var name := PartName(checksum, stem, offset + 1);
      var slice := Chunk(data, chunkSize, offset);
      var part := PartDocument(filename, checksum, offset + 1, count, Base64.Encode(slice));
      var encoded := JsonBytes(part);
      if |encoded| > ceiling {
        assert PartSize(filename, data, chunkSize, offset, sha) > Ceiling(maxBytes);
        return Err(PartHeaderTooLarge);
      }
      entries := entries + [Metadata(name, encoded, sha)];
      result := result + [(name, part)];
    }
    var index := IndexDocument(filename, data, entries, sha);
    if |JsonBytes(index)| > ceiling {
      return Err(IndexTooLarge);
    }
    return Ok(result + [(IndexName(checksum, stem), index)]);
  }

  // ----- chunk arithmetic --------------------------------------------------------

  lemma CountBounds(size: nat, chunk: nat)
    requires chunk > 0
    ensures var n := ChunkCount(size, chunk);
            size <= n * chunk < size + chunk
  {
    var n := ChunkCount(size, chunk);
    assert size + chunk - 1 == n * chunk + (size + chunk - 1) % chunk;
  }

  lemma MulMonotone(a: nat, b: nat, c: nat)
    requires a <= b
    ensures a * c <= b * c
  {
  }

  // There are as many chunks as it takes and no more: every one but the last is
  // full, none is empty, and none encodes past the room reserved for it.
  lemma ChunkShape(data: seq<byte>, maxBytes: Limit, offset: nat)
    requires offset < ChunkCount(|data|, ChunkSize(maxBytes))
    ensures var size := |Chunk(data, ChunkSize(maxBytes), offset)|;
            && 0 < size <= ChunkSize(maxBytes)
            && (offset + 1 < ChunkCount(|data|, ChunkSize(maxBytes)) ==> size == ChunkSize(maxBytes))
            && |Base64.Encode(Chunk(data, ChunkSize(maxBytes), offset))| <= Ceiling(maxBytes) - 510
  {
    var c := ChunkSize(maxBytes);
    var n := ChunkCount(|data|, c);
    CountBounds(|data|, c);
    MulMonotone(offset + 1, n, c);
    assert offset * c + c == (offset + 1) * c;
    assert (n - 1) * c + c == n * c;
    MulMonotone(offset, n - 1, c);
    if offset + 1 < n { MulMonotone(offset + 1, n - 1, c); }
  }

  // A part's text is the text of its header around an empty chunk, plus the chunk.
  lemma PartLength(filename: string, checksum: string, number: nat, count: nat, data: string)
    requires Base64.Plain(data)
    ensures |JsonBytes(PartDocument(filename, checksum, number, count, data))|
         == |JsonBytes(PartDocument(filename, checksum, number, count, ""))| + |data|
  {
    var full := PartDocument(filename, checksum, number, count, data);
    var bare := PartDocument(filename, checksum, number, count, "");
    DumpsLength(full);
    DumpsLength(bare);
    Base64.PlainEscape(data);
    LastFieldGrows(full.fields, bare.fields, 6, |data|);
  }

  lemma LastFieldGrows(fs: seq<Field>, gs: seq<Field>, n: nat, d: nat)
    requires |fs| == |gs| == n + 1 && fs[..n] == gs[..n] && fs[n].key == gs[n].key
    requires Len(fs[n].value, 1) == Len(gs[n].value, 1) + d
    ensures Len(Dict(fs), 0) == Len(Dict(gs), 0) + d
  {
    LastFieldLength(fs, n, 1);
    LastFieldLength(gs, n, 1);
  }

  lemma {:induction false} LastFieldLength(fs: seq<Field>, n: nat, level: nat)
    requires |fs| == n + 1
    ensures FieldsLen(fs, level) == FieldsLen(fs[..n], level) + FieldLen(fs[n].key, fs[n].value, level)
  {
    if n == 0 {
      assert FieldsLen(fs, level) == FieldLen(fs[0].key, fs[0].value, level) + FieldsLen(fs[1..], level);
    } else {
      LastFieldLength(fs[1..], n - 1, level);
      assert fs[1..][..n - 1] == fs[..n][1..];
    }
  }

  // A split refuses a part only when the part's header alone passes 510 bytes.
  lemma HeaderRefusal(filename: string, payload: Json, maxBytes: Limit, sha: Digest)
    requires Split(filename, payload, maxBytes, sha) == Err(PartHeaderTooLarge)
    ensures var data := JsonBytes(payload);
            exists number: nat :: 1 <= number
              && |JsonBytes(PartDocument(filename, sha(data), number,
                            ChunkCount(|data|, ChunkSize(maxBytes)), ""))| > 510
  {
    var data, c := JsonBytes(payload), ChunkSize(maxBytes);
    var offset :| 0 <= offset < ChunkCount(|data|, c)
      && PartSize(filename, data, c, offset, sha) > Ceiling(maxBytes);
    ChunkShape(data, maxBytes, offset);
    Base64.EncodeIsPlain(Chunk(data, c, offset));
    PartLength(filename, sha(data), offset + 1, ChunkCount(|data|, c), Base64.Encode(Chunk(data, c, offset)));
    assert |JsonBytes(PartDocument(filename, sha(data), offset + 1, ChunkCount(|data|, c), ""))| > 510;
  }

  // ----- reassembly --------------------------------------------------------------

  function Get(j: Json, key: string): Option<Json> {
    if j.Dict? then Find(j.fields, key) else None
  }

  // What `get` answers: a missing field reads as null.
  function OrNull(a: Option<Json>): Json { if a.Some? then a.value else Null }

  predicate Equal(a: Option<Json>, b: Option<Json>) { Meaning(OrNull(a)) == Meaning(OrNull(b)) }

  predicate WholeIndex(index: Json) {
    index.Dict? && Equal(Get(index, "schema"), Some(Int(1))) && Get(index, "encoding") == Some(Str("base64"))
  }

  predicate SameArtifact(index: Json, part: Json, number: nat, count: nat) {
    && Equal(Get(part, "artifact"), Get(index, "artifact"))
    && Equal(Get(part, "part"), Some(Int(number)))
    && Equal(Get(part, "part_count"), Some(Int(count)))
    && Get(part, "encoding") == Some(Str("base64"))
    && Equal(Get(part, "artifact_sha256"), Get(index, "sha256"))
  }

  // One turn of the loop: entry `number` names its part, and the part checks out.
  function ReadPart(index: Json, number: nat, count: nat, entry: Json, names: set<string>,
                    parts: map<string, seq<byte>>, sha: Digest, loads: Loader)
    : Result<(string, seq<byte>), ReassembleError>
  {
    match Get(entry, "name")
    case Some(Str(name)) =>
      if name in names then Err(DuplicatePart)
      else if name !in parts then Err(MissingPart(name))
      else
        var data := parts[name];
        if !Equal(Get(entry, "bytes"), Some(Int(|data|))) || Get(entry, "sha256") != Some(Str(sha(data))) then
          Err(ChecksumMismatch(name))
        else (
          match loads(data)
          case None => Err(NotJson(name))
          case Some(part) =>
            if !part.Dict? then Err(NotADictionary(name))
            else if !SameArtifact(index, part, number, count) then Err(IdentityMismatch(name))
            else (
              match Get(part, "data")
              case Some(Str(text)) =>
                (match Base64.Decode(text)
                 case Some(chunk) => Ok((name, chunk))
                 case None => Err(InvalidEncoding(name)))
              case _ => Err(InvalidEncoding(name))))
    case _ => Err(InvalidEntry)
  }

  // The first n entries, read in order: the names seen and the bytes so far.
  function ReadParts(index: Json, entries: seq<Json>, n: nat, parts: map<string, seq<byte>>, sha: Digest,
                     loads: Loader): Result<(set<string>, seq<byte>), ReassembleError>
    requires n <= |entries|
  {
    if n == 0 then Ok(({}, []))
    else
      match ReadParts(index, entries, n - 1, parts, sha, loads)
      case Err(e) => Err(e)
      case Ok((names, data)) =>
        match ReadPart(index, n, |entries|, entries[n - 1], names, parts, sha, loads)
        case Err(e) => Err(e)
        case Ok((name, chunk)) => Ok((names + {name}, data + chunk))
  }

  function Reassembled(index: Json, parts: map<string, seq<byte>>, sha: Digest, loads: Loader)
    : Result<seq<byte>, ReassembleError>
  {
    if !WholeIndex(index) then Err(InvalidIndex)
    else
      match Get(index, "parts")
      case Some(List(entries)) =>
        if entries == [] then Err(NoParts)
        else (
          match ReadParts(index, entries, |entries|, parts, sha, loads)
          case Err(e) => Err(e)
          case Ok((_, data)) =>
            if !Equal(Get(index, "bytes"), Some(Int(|data|))) || Get(index, "sha256") != Some(Str(sha(data))) then
              Err(ArtifactMismatch)
            else Ok(data))
      case _ => Err(NoParts)
  }

  lemma {:induction false} FirstErrorStays(index: Json, entries: seq<Json>, m: nat, n: nat,
                                           parts: map<string, seq<byte>>, sha: Digest, loads: Loader)
    requires m <= n <= |entries|
    requires ReadParts(index, entries, m, parts, sha, loads).Err?
    ensures ReadParts(index, entries, n, parts, sha, loads) == ReadParts(index, entries, m, parts, sha, loads)
  {
    if m < n { FirstErrorStays(index, entries, m, n - 1, parts, sha, loads); }
  }

  method Reassemble(index: Json, parts: map<string, seq<byte>>, sha: Digest, loads: Loader)
    returns (r: Result<seq<byte>, ReassembleError>)
    ensures r == Reassembled(index, parts, sha, loads)
  {
    hide Equal, ReadPart, WholeIndex, Get;
    if !WholeIndex(index) {
      return Err(InvalidIndex);
    }
    var listed := Get(index, "parts");
    if listed.None? || !listed.value.List? || listed.value.items == [] {
      return Err(NoParts);
    }
    var entries := listed.value.items;
    var data: seq<byte>, names: set<string> := [], {};
    for k := 0 to |entries|
      invariant ReadParts(index, entries, k, parts, sha, loads) == Ok((names, data))
    {
      var read := ReadPart(index, k + 1, |entries|, entries[k], names, parts, sha, loads);
      if read.Err? {
        FirstErrorStays(index, entries, k + 1, |entries|, parts, sha, loads);
        return Err(read.error);
      }
      names, data := names + {read.value.0}, data + read.value.1;
    }
    if !Equal(Get(index, "bytes"), Some(Int(|data|))) || Get(index, "sha256") != Some(Str(sha(data))) {
      return Err(ArtifactMismatch);
    }
    return Ok(data);
  }

  // ----- the two are inverse -----------------------------------------------------

  // `json.loads` reads back the dictionary `json.dumps` wrote.
  ghost predicate ReadsBack(loads: Loader, part: Json)
    requires part.Dict?
  {
    var r := loads(JsonBytes(part));
    r.Some? && r.value.Dict? && forall key :: Find(r.value.fields, key) == Find(part.fields, key)
  }

  lemma PartNamesDistinct(checksum: string, stem: string, m: nat, n: nat)
    requires PartName(checksum, stem, m) == PartName(checksum, stem, n)
    ensures m == n
  {
    var head := "artifactpart_" + Prefix(checksum, 16) + "_" + stem + "_";
    var a, b := PartName(checksum, stem, m), PartName(checksum, stem, n);
    assert a == head + Padded4(m) + ".json" && b == head + Padded4(n) + ".json";
    assert a[|head|..|a| - 5] == Padded4(m) && b[|head|..|b| - 5] == Padded4(n);
    Padded4Injective(m, n);
  }

  // The first n chunks laid end to end are the data they were cut from.
  lemma {:induction false} ChunksConcatenate(data: seq<byte>, chunk: nat, n: nat)
    requires chunk > 0
    ensures Slice(data, 0, Offset(n, chunk)) + Chunk(data, chunk, n) == Slice(data, 0, Offset(n + 1, chunk))
  {
    assert n * chunk + chunk == (n + 1) * chunk;
  }

  // The names of the first n parts.
  function Names(checksum: string, stem: string, n: nat): set<string> {
    if n == 0 then {} else Names(checksum, stem, n - 1) + {PartName(checksum, stem, n)}
  }

  lemma {:induction false} NewName(checksum: string, stem: string, n: nat, number: nat)
    requires n < number
    ensures PartName(checksum, stem, number) !in Names(checksum, stem, n)
  {
    if n > 0 {
      NewName(checksum, stem, n - 1, number);
      if PartName(checksum, stem, n) == PartName(checksum, stem, number) {
        PartNamesDistinct(checksum, stem, n, number);
      }
    }
  }

  // Every part of a split sits in the map under its own name, byte for byte.
  ghost predicate Holds(parts: map<string, seq<byte>>, filename: string, data: seq<byte>, chunk: nat, sha: Digest)
    requires chunk > 0
  {
    forall k :: 0 <= k < ChunkCount(|data|, chunk) ==> HoldsPart(parts, filename, data, chunk, k, sha)
  }

  ghost predicate HoldsPart(parts: map<string, seq<byte>>, filename: string, data: seq<byte>, chunk: nat, k: nat,
                            sha: Digest)
    requires chunk > 0
  {
    var part := Part(filename, data, chunk, k, sha);
    part.0 in parts && parts[part.0] == JsonBytes(part.1)
  }

  ghost predicate ReadsParts(loads: Loader, filename: string, data: seq<byte>, chunk: nat, sha: Digest)
    requires chunk > 0
  {
    forall k :: 0 <= k < ChunkCount(|data|, chunk) ==> ReadsBack(loads, Part(filename, data, chunk, k, sha).1)
  }

  lemma IndexFields(filename: string, data: seq<byte>, chunk: nat, sha: Digest)
    requires chunk > 0
    ensures var index := Index(filename, data, chunk, sha);
            && WholeIndex(index)
            && Get(index, "artifact") == Some(Str(filename))
            && Get(index, "bytes") == Some(Int(|data|))
            && Get(index, "sha256") == Some(Str(sha(data)))
            && Get(index, "parts") == Some(List(Entries(filename, data, chunk, ChunkCount(|data|, chunk), sha)))
  {
    var index := Index(filename, data, chunk, sha);
    FindAt(index.fields, 0, "schema", Int(1));
    FindAt(index.fields, 1, "artifact", Str(filename));
    FindAt(index.fields, 2, "encoding", Str("base64"));
    FindAt(index.fields, 3, "bytes", Int(|data|));
    FindAt(index.fields, 4, "sha256", Str(sha(data)));
    FindAt(index.fields, 5, "parts", List(Entries(filename, data, chunk, ChunkCount(|data|, chunk), sha)));
  }

  lemma PartFields(filename: string, checksum: string, number: nat, count: nat, data: string)
    ensures var part := PartDocument(filename, checksum, number, count, data);
            && Get(part, "artifact") == Some(Str(filename))
            && Get(part, "encoding") == Some(Str("base64"))
            && Get(part, "part") == Some(Int(number))
            && Get(part, "part_count") == Some(Int(count))
            && Get(part, "artifact_sha256") == Some(Str(checksum))
            && Get(part, "data") == Some(Str(data))
  {
    var part := PartDocument(filename, checksum, number, count, data);
    FindAt(part.fields, 1, "artifact", Str(filename));
    FindAt(part.fields, 2, "encoding", Str("base64"));
    FindAt(part.fields, 3, "part", Int(number));
    FindAt(part.fields, 4, "part_count", Int(count));
    FindAt(part.fields, 5, "artifact_sha256", Str(checksum));
    FindAt(part.fields, 6, "data", Str(data));
  }

  lemma EntryFields(name: string, data: seq<byte>, sha: Digest)
    ensures var entry := Metadata(name, data, sha);
            && Get(entry, "name") == Some(Str(name))
            && Get(entry, "bytes") == Some(Int(|data|))
            && Get(entry, "sha256") == Some(Str(sha(data)))
  {
    var entry := Metadata(name, data, sha);
    FindAt(entry.fields, 0, "name", Str(name));
    FindAt(entry.fields, 1, "bytes", Int(|data|));
    FindAt(entry.fields, 2, "sha256", Str(sha(data)));
  }

  // What an entry, the index and the loaded part must say for a part to be read.
  lemma ReadSoundPart(index: Json, number: nat, count: nat, entry: Json, names: set<string>,
                      parts: map<string, seq<byte>>, sha: Digest, loads: Loader, name: string, part: Json, text: string,
                      chunk: seq<byte>)
    requires Get(entry, "name") == Some(Str(name)) && name !in names && name in parts
    requires Get(entry, "bytes") == Some(Int(|parts[name]|)) && Get(entry, "sha256") == Some(Str(sha(parts[name])))
    requires loads(parts[name]) == Some(part) && part.Dict? && SameArtifact(index, part, number, count)
    requires Get(part, "data") == Some(Str(text)) && Base64.Decode(text) == Some(chunk)
    ensures ReadPart(index, number, count, entry, names, parts, sha, loads) == Ok((name, chunk))
  {
  }

  lemma ReadOriginalPart(filename: string, data: seq<byte>, chunk: nat, k: nat, names: set<string>,
                         parts: map<string, seq<byte>>, sha: Digest, loads: Loader, index: Json)
    requires chunk > 0 && k < ChunkCount(|data|, chunk)
    requires Get(index, "artifact") == Some(Str(filename)) && Get(index, "sha256") == Some(Str(sha(data)))
    requires HoldsPart(parts, filename, data, chunk, k, sha) && Part(filename, data, chunk, k, sha).0 !in names
    requires ReadsBack(loads, Part(filename, data, chunk, k, sha).1)
    ensures ReadPart(index, k + 1, ChunkCount(|data|, chunk), Entry(filename, data, chunk, k, sha), names, parts, sha,
                     loads)
         == Ok((Part(filename, data, chunk, k, sha).0, Chunk(data, chunk, k)))
  {
    var (name, part) := Part(filename, data, chunk, k, sha);
    var text := Base64.Encode(Chunk(data, chunk, k));
    var read := loads(JsonBytes(part)).value;
    Base64.RoundTrip(Chunk(data, chunk, k));
    EntryFields(name, JsonBytes(part), sha);
    LoadedPart(filename, sha(data), k + 1, ChunkCount(|data|, chunk), text, loads, index);
    ReadSoundPart(index, k + 1, ChunkCount(|data|, chunk), Entry(filename, data, chunk, k, sha), names, parts, sha,
                  loads, name, read, text, Chunk(data, chunk, k));
  }

  lemma LoadedPart(filename: string, checksum: string, number: nat, count: nat, text: string, loads: Loader,
                   index: Json)
    requires ReadsBack(loads, PartDocument(filename, checksum, number, count, text))
    requires Get(index, "artifact") == Some(Str(filename)) && Get(index, "sha256") == Some(Str(checksum))
    ensures var part := loads(JsonBytes(PartDocument(filename, checksum, number, count, text))).value;
            SameArtifact(index, part, number, count) && Get(part, "data") == Some(Str(text))
  {
    PartFields(filename, checksum, number, count, text);
    SameFields(PartDocument(filename, checksum, number, count, text), filename, checksum, number, count, text, loads,
               index);
  }

  lemma SameFields(document: Json, filename: string, checksum: string, number: nat, count: nat, text: string,
                   loads: Loader, index: Json)
    requires document.Dict? && ReadsBack(loads, document)
    requires Get(index, "artifact") == Some(Str(filename)) && Get(index, "sha256") == Some(Str(checksum))
    requires Get(document, "artifact") == Some(Str(filename)) && Get(document, "encoding") == Some(Str("base64"))
    requires Get(document, "part") == Some(Int(number)) && Get(document, "part_count") == Some(Int(count))
    requires Get(document, "artifact_sha256") == Some(Str(checksum)) && Get(document, "data") == Some(Str(text))
    ensures var part := loads(JsonBytes(document)).value;
            SameArtifact(index, part, number, count) && Get(part, "data") == Some(Str(text))
  {
    hide JsonBytes;
    var part := loads(JsonBytes(document)).value;
    assert forall key :: Find(part.fields, key) == Find(document.fields, key);
  }

  ghost predicate ReadsChunk(index: Json, entries: seq<Json>, checksum: string, stem: string, data: seq<byte>,
                             chunk: nat, k: nat, parts: map<string, seq<byte>>, sha: Digest, loads: Loader)
    requires k < |entries|
  {
    ReadPart(index, k + 1, |entries|, entries[k], Names(checksum, stem, k), parts, sha, loads)
      == Ok((PartName(checksum, stem, k + 1), Chunk(data, chunk, k)))
  }

  // Entries that each read as the next chunk read as the data, end to end.
  lemma {:induction false} ReadChunks(index: Json, entries: seq<Json>, checksum: string, stem: string, data: seq<byte>,
                                      chunk: nat, n: nat, parts: map<string, seq<byte>>, sha: Digest, loads: Loader)
    requires chunk > 0 && n <= |entries|
    requires forall k :: 0 <= k < n ==> ReadsChunk(index, entries, checksum, stem, data, chunk, k, parts, sha, loads)
    ensures ReadParts(index, entries, n, parts, sha, loads)
         == Ok((Names(checksum, stem, n), Slice(data, 0, Offset(n, chunk))))
  {
    if n == 0 {
      assert Slice(data, 0, Offset(0, chunk)) == [];
    } else {
      ReadChunks(index, entries, checksum, stem, data, chunk, n - 1, parts, sha, loads);
      assert ReadsChunk(index, entries, checksum, stem, data, chunk, n - 1, parts, sha, loads);
      ChunksConcatenate(data, chunk, n - 1);
    }
  }

  // Every part unaltered, the loop reads all of them and ends with the whole data.
  lemma ReadOriginalParts(filename: string, data: seq<byte>, chunk: nat, parts: map<string, seq<byte>>, sha: Digest,
                          loads: Loader, index: Json, entries: seq<Json>)
    requires chunk > 0
    requires Holds(parts, filename, data, chunk, sha) && ReadsParts(loads, filename, data, chunk, sha)
    requires Get(index, "artifact") == Some(Str(filename)) && Get(index, "sha256") == Some(Str(sha(data)))
    requires entries == Entries(filename, data, chunk, ChunkCount(|data|, chunk), sha)
    ensures ReadParts(index, entries, |entries|, parts, sha, loads).Ok?
    ensures ReadParts(index, entries, |entries|, parts, sha, loads).value.1 == data
  {
    var n := ChunkCount(|data|, chunk);
    forall k | 0 <= k < n
      ensures ReadsChunk(index, entries, sha(data), Stem(filename), data, chunk, k, parts, sha, loads)
    {
      NewName(sha(data), Stem(filename), k, k + 1);
      ReadOriginalPart(filename, data, chunk, k, Names(sha(data), Stem(filename), k), parts, sha, loads, index);
    }
    ReadChunks(index, entries, sha(data), Stem(filename), data, chunk, n, parts, sha, loads);
    CountBounds(|data|, chunk);
    assert Slice(data, 0, Offset(n, chunk)) == data;
  }

  // What is left to check once the entries are read.
  lemma ReassembledFrom(index: Json, entries: seq<Json>, parts: map<string, seq<byte>>, sha: Digest, loads: Loader)
    requires WholeIndex(index) && Get(index, "parts") == Some(List(entries)) && entries != []
    ensures var read := ReadParts(index, entries, |entries|, parts, sha, loads);
            var r := Reassembled(index, parts, sha, loads);
            && (read.Err? ==> r == Err(read.error))
            && (read.Ok? && Get(index, "bytes") == Some(Int(|read.value.1|))
                && Get(index, "sha256") == Some(Str(sha(read.value.1)))
                ==> r == Ok(read.value.1))
  {
  }

  // Reassembling the parts of a split gives back the artifact's exact bytes.
  lemma SplitReassembles(filename: string, payload: Json, maxBytes: Limit, parts: map<string, seq<byte>>,
                         sha: Digest, loads: Loader)
    requires Split(filename, payload, maxBytes, sha).Ok? && |JsonBytes(payload)| > Ceiling(maxBytes)
    requires Holds(parts, filename, JsonBytes(payload), ChunkSize(maxBytes), sha)
    requires ReadsParts(loads, filename, JsonBytes(payload), ChunkSize(maxBytes), sha)
    ensures var attachments := Split(filename, payload, maxBytes, sha).value;
            Reassembled(attachments[|attachments| - 1].1, parts, sha, loads) == Ok(JsonBytes(payload))
  {
    var data, c := JsonBytes(payload), ChunkSize(maxBytes);
    IntactPartsAccepted(filename, data, c, parts, sha, loads);
    var attachments := Split(filename, payload, maxBytes, sha).value;
    assert attachments[|attachments| - 1].1 == Index(filename, data, c, sha);
  }

  lemma IntactPartsAccepted(filename: string, data: seq<byte>, chunk: nat, parts: map<string, seq<byte>>,
                            sha: Digest, loads: Loader)
    requires chunk > 0 && data != []
    requires Holds(parts, filename, data, chunk, sha) && ReadsParts(loads, filename, data, chunk, sha)
    ensures Reassembled(Index(filename, data, chunk, sha), parts, sha, loads) == Ok(data)
  {
    var index := Index(filename, data, chunk, sha);
    var entries := Entries(filename, data, chunk, ChunkCount(|data|, chunk), sha);
    CountBounds(|data|, chunk);
    IndexFields(filename, data, chunk, sha);
    ReadOriginalParts(filename, data, chunk, parts, sha, loads, index, entries);
    ReassembledFrom(index, entries, parts, sha, loads);
  }

  ghost predicate CollisionFree(sha: Digest) {
    forall a, b :: sha(a) == sha(b) ==> a == b
  }

  // A part that is read is the part its entry was written for.
  lemma ReadPartIsOriginal(index: Json, number: nat, count: nat, name: string, original: seq<byte>, names: set<string>,
                           parts: map<string, seq<byte>>, sha: Digest, loads: Loader)
    requires CollisionFree(sha)
    requires ReadPart(index, number, count, Metadata(name, original, sha), names, parts, sha, loads).Ok?
    ensures name in parts && parts[name] == original
  {
    EntryFields(name, original, sha);
  }

  lemma ReadEntryIsOriginal(filename: string, data: seq<byte>, chunk: nat, k: nat, index: Json, count: nat,
                            names: set<string>, parts: map<string, seq<byte>>, sha: Digest, loads: Loader)
    requires chunk > 0 && CollisionFree(sha)
    requires ReadPart(index, k + 1, count, Entry(filename, data, chunk, k, sha), names, parts, sha, loads).Ok?
    ensures HoldsPart(parts, filename, data, chunk, k, sha)
  {
    hide ReadPart, Metadata, PartDocument, PartName, JsonBytes;
    var part := Part(filename, data, chunk, k, sha);
    ReadPartIsOriginal(index, k + 1, count, part.0, JsonBytes(part.1), names, parts, sha, loads);
  }

  lemma {:induction false} ReadPartsAreOriginal(filename: string, data: seq<byte>, chunk: nat, n: nat,
                                                parts: map<string, seq<byte>>, sha: Digest, loads: Loader, index: Json,
                                                entries: seq<Json>)
    requires chunk > 0 && n <= |entries| && CollisionFree(sha)
    requires forall k :: 0 <= k < |entries| ==> entries[k] == Entry(filename, data, chunk, k, sha)
    requires ReadParts(index, entries, n, parts, sha, loads).Ok?
    ensures forall k :: 0 <= k < n ==> HoldsPart(parts, filename, data, chunk, k, sha)
  {
    hide ReadPart, Entry, HoldsPart;
    if n > 0 {
      ReadPartsAreOriginal(filename, data, chunk, n - 1, parts, sha, loads, index, entries);
      var names := ReadParts(index, entries, n - 1, parts, sha, loads).value.0;
      ReadEntryIsOriginal(filename, data, chunk, n - 1, index, |entries|, names, parts, sha, loads);
    }
  }

  // For the index of a split and a collision-free digest, a part map is accepted
  // exactly when it holds every part unaltered; and then the answer is the artifact.
  lemma AcceptedIffUnaltered(filename: string, data: seq<byte>, chunk: nat, parts: map<string, seq<byte>>,
                             sha: Digest, loads: Loader)
    requires chunk > 0 && data != [] && CollisionFree(sha) && ReadsParts(loads, filename, data, chunk, sha)
    ensures var r := Reassembled(Index(filename, data, chunk, sha), parts, sha, loads);
            && (r.Ok? <==> Holds(parts, filename, data, chunk, sha))
            && (r.Ok? ==> r.value == data)
  {
    var index := Index(filename, data, chunk, sha);
    var entries := Entries(filename, data, chunk, ChunkCount(|data|, chunk), sha);
    hide ReadPart, ReadParts, PartDocument, PartName, IndexDocument, Metadata, Reassembled, WholeIndex, Get, HoldsPart,
         JsonBytes;
    CountBounds(|data|, chunk);
    IndexFields(filename, data, chunk, sha);
    ReassembledFrom(index, entries, parts, sha, loads);
    if Reassembled(index, parts, sha, loads).Ok? {
      ReadPartsAreOriginal(filename, data, chunk, |entries|, parts, sha, loads, index, entries);
    }
    if Holds(parts, filename, data, chunk, sha) {
      IntactPartsAccepted(filename, data, chunk, parts, sha, loads);
    }
  }
}
