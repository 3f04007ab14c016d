/** The run manifest, the metadata objects it shares with the sink, and the
    reservation made for it before the other parts' outcomes are known. */
module Manifest {
  import opened Basics
  import opened Json
  import opened ZipLayout

  // The dictionary describing one artifact. The manifest and the sink hold the
  // same object, so that a flag set by the sink shows in the manifest.
  class Metadata {
    var fields: seq<Field>

    constructor (fields: seq<Field>)
      ensures this.fields == fields
    {
      this.fields := fields;
    }
  }

  // A manifest: JSON in which some dictionaries are shared metadata objects.
  datatype Doc =
    | Plain(value: Json)
    | Array(items: seq<Doc>)
    | Object(entries: seq<Entry>)
    | Shared(metadata: Metadata)

  datatype Entry = Entry(key: string, value: Doc)

  // What every metadata object holds at one moment.
  type Store = map<Metadata, seq<Field>>

  function Content(store: Store, m: Metadata): seq<Field> { if m in store then store[m] else [] }

  // What `json` sees when it walks the manifest at that moment.
  function Resolve(doc: Doc, store: Store): Json
    decreases doc, 1
  {
    match doc
    case Plain(value) => value
    case Array(items) => List(ResolveItems(items, store))
    case Object(entries) => Dict(ResolveEntries(entries, store))
    case Shared(m) => Dict(Content(store, m))
  }

  function ResolveItems(items: seq<Doc>, store: Store): (r: seq<Json>)
    ensures |r| == |items|
    decreases items, 0
  {
    if items == [] then [] else [Resolve(items[0], store)] + ResolveItems(items[1..], store)
  }

  function ResolveEntries(entries: seq<Entry>, store: Store): (r: seq<Field>)
    ensures |r| == |entries|
    decreases entries, 0
  {
    if entries == [] then []
    else [Field(entries[0].key, Resolve(entries[0].value, store))] + ResolveEntries(entries[1..], store)
  }

  function Shareds(doc: Doc): set<Metadata>
    decreases doc, 1
  {
    match doc
    case Plain(_) => {}
    case Array(items) => SharedItems(items)
    case Object(entries) => SharedEntries(entries)
    case Shared(m) => {m}
  }

  function SharedItems(items: seq<Doc>): set<Metadata>
    decreases items, 0
  {
    if items == [] then {} else Shareds(items[0]) + SharedItems(items[1..])
  }

  function SharedEntries(entries: seq<Entry>): set<Metadata>
    decreases entries, 0
  {
    if entries == [] then {} else Shareds(entries[0].value) + SharedEntries(entries[1..])
  }

  const FLAG := "not_attached"

  // `metadata.get("not_attached")` is true: the artifact is marked as missing.
  predicate Flagged(fs: seq<Field>) { Find(fs, FLAG) == Some(Bool(true)) }

  // `{"name", "bytes", "sha256"}.issubset(value)`
  predicate IsMetadata(fs: seq<Field>) {
    Find(fs, "name").Some? && Find(fs, "bytes").Some? && Find(fs, "sha256").Some?
  }

  // `reserve_flags`: a false flag on every metadata dictionary. Visiting the
  // children first changes nothing, the flag itself having none.
  function ReserveFlags(v: Json): Json
    decreases v, 1
  {
    match v
    case List(items) => List(ReserveItems(items))
    case Dict(fields) => Dict(ReserveDict(fields))
    case _ => v
  }

  function ReserveDict(fs: seq<Field>): seq<Field>
    decreases fs, 1
  {
    if IsMetadata(fs) then Put(ReserveFields(fs), FLAG, Bool(false)) else ReserveFields(fs)
  }

  function ReserveItems(items: seq<Json>): (r: seq<Json>)
    ensures |r| == |items|
    decreases items, 0
  {
    if items == [] then [] else [ReserveFlags(items[0])] + ReserveItems(items[1..])
  }

  function ReserveFields(fs: seq<Field>): (r: seq<Field>)
    ensures |r| == |fs|
    decreases fs, 0
  {
    if fs == [] then [] else [Field(fs[0].key, ReserveFlags(fs[0].value))] + ReserveFields(fs[1..])
  }

  // ----- sizes ------------------------------------------------------------------

  // The library functions the sink relies on.
  datatype Libraries = Libraries(
    deflate: seq<byte> -> seq<byte>,
    crc32: seq<byte> -> nat,
    sha256: seq<byte> -> string)

  // zlib's deflateBound for windowBits=15, memLevel=8 and a raw stream.
  function DeflateBound(size: nat): nat {
    size + size / 0x1000 + size / 0x4000 + size / 0x200_0000 + 7
  }

  ghost predicate Bounded(libs: Libraries) {
    forall data :: |libs.deflate(data)| <= DeflateBound(|data|)
  }

  // `_compressed_info`
  function CompressedInfo(filename: string, data: seq<byte>, libs: Libraries): ZipInfo {
    ZipInfo(filename, |data|, |libs.deflate(data)|)
  }

  // `_manifest_bound_info`
  function BoundInfo(filename: string, manifest: Json): ZipInfo {
    var size := |JsonBytes(ReserveFlags(manifest))|;
    ZipInfo(filename, size, DeflateBound(size))
  }

  // ----- the reservation is sound -------------------------------------------------

  // Dictionaries have each key once, and a flag on a metadata dictionary is a boolean.
  predicate Tidy(v: Json)
    decreases v, 1
  {
    match v
    case List(items) => TidyItems(items)
    case Dict(fields) => TidyDict(fields)
    case _ => true
  }

  predicate TidyDict(fs: seq<Field>)
    decreases fs, 1
  {
    && DistinctKeys(fs)
    && (IsMetadata(fs) && Find(fs, FLAG).Some? ==> Find(fs, FLAG).value.Bool?)
    && TidyFields(fs)
  }

  predicate TidyItems(items: seq<Json>)
    decreases items, 0
  {
    items == [] || (Tidy(items[0]) && TidyItems(items[1..]))
  }

  predicate TidyFields(fs: seq<Field>)
    decreases fs, 0
  {
    fs == [] || (Tidy(fs[0].value) && TidyFields(fs[1..]))
  }

  // Between two moments only the flags of the objects' metadata dictionaries changed.
  predicate OnlyFlagsChanged(objects: set<Metadata>, before: Store, after: Store) {
    forall m :: m in objects ==> FlagChange(Content(before, m), Content(after, m))
  }

  predicate FlagChange(before: seq<Field>, after: seq<Field>) {
    && Drop(before, FLAG) == Drop(after, FLAG)
    && (!IsMetadata(before) ==> after == before)
  }

  // Taking one flag out of a dictionary takes out exactly its length.
  lemma {:induction false} DropLength(fs: seq<Field>, key: string, level: nat)
    requires DistinctKeys(fs)
    ensures FieldsLen(fs, level) == FieldsLen(Drop(fs, key), level)
            + match Find(fs, key) { case Some(v) => FieldLen(key, v, level) case None => 0 }
  {
    if fs != [] {
      assert DistinctKeys(fs[1..]);
      DropLength(fs[1..], key, level);
      if fs[0].key == key {
        NotFound(fs[1..], key);
      } else {
        assert Drop(fs, key)[0] == fs[0] && Drop(fs, key)[1..] == Drop(fs[1..], key);
      }
    }
  }

  lemma {:induction false} NotFound(fs: seq<Field>, key: string)
    requires forall i :: 0 <= i < |fs| ==> fs[i].key != key
    ensures Find(fs, key) == None
  {
    if fs != [] { NotFound(fs[1..], key); }
  }

  lemma {:induction false} PutLength(fs: seq<Field>, key: string, v: Json, level: nat)
    ensures FieldsLen(Put(fs, key, v), level) == FieldsLen(Drop(fs, key), level) + FieldLen(key, v, level)
  {
    if fs == [] {
      assert [Field(key, v)][1..] == [];
      assert FieldsLen(Put(fs, key, v), level) == FieldLen(key, v, level) + FieldsLen([], level);
    } else if fs[0].key == key {
      assert Put(fs, key, v)[1..] == Drop(fs[1..], key);
    } else {
      PutLength(fs[1..], key, v, level);
      assert Put(fs, key, v)[0] == fs[0] && Put(fs, key, v)[1..] == Put(fs[1..], key, v);
      assert Drop(fs, key)[0] == fs[0] && Drop(fs, key)[1..] == Drop(fs[1..], key);
    }
  }

  // A boolean or absent flag is never longer than a reserved false.
  lemma FlagFits(key: string, after: seq<Field>, reserved: seq<Field>, level: nat)
    requires DistinctKeys(after) && (Find(after, key).Some? ==> Find(after, key).value.Bool?)
    requires FieldsLen(Drop(after, key), level) <= FieldsLen(Drop(reserved, key), level)
    ensures FieldsLen(after, level) <= FieldsLen(Put(reserved, key, Bool(false)), level)
  {
    DropLength(after, key, level);
    PutLength(reserved, key, Bool(false), level);
  }

  lemma {:induction false} FindReserved(fs: seq<Field>, key: string)
    ensures Find(ReserveFields(fs), key).Some? == Find(fs, key).Some?
  {
    if fs != [] {
      FindReserved(fs[1..], key);
      assert ReserveFields(fs)[1..] == ReserveFields(fs[1..]);
    }
  }

  // ----- fields that did not change
  lemma {:induction false} ReserveNeverShrinks(v: Json, level: nat)
    requires Tidy(v)
    ensures Len(v, level) <= Len(ReserveFlags(v), level)
    decreases v, 1
  {
    match v
    case List(items) => ReserveItemsNeverShrinks(items, level + 1);
    case Dict(fields) => ReserveDictNeverShrinks(fields, level + 1);
    case _ =>
  }

  lemma {:induction false} ReserveItemsNeverShrinks(items: seq<Json>, level: nat)
    requires TidyItems(items)
    ensures ItemsLen(items, level) <= ItemsLen(ReserveItems(items), level)
    decreases items, 0
  {
    if items != [] {
      ReserveNeverShrinks(items[0], level);
      ReserveItemsNeverShrinks(items[1..], level);
      assert ReserveItems(items)[1..] == ReserveItems(items[1..]);
    }
  }

  lemma {:induction false} ReserveFieldsNeverShrinks(fs: seq<Field>, level: nat)
    requires TidyFields(fs)
    ensures FieldsLen(fs, level) <= FieldsLen(ReserveFields(fs), level)
    ensures FieldsLen(Drop(fs, FLAG), level) <= FieldsLen(Drop(ReserveFields(fs), FLAG), level)
    decreases fs, 0
  {
    if fs != [] {
      ReserveNeverShrinks(fs[0].value, level);
      ReserveFieldsNeverShrinks(fs[1..], level);
      var rs := ReserveFields(fs);
      assert rs[1..] == ReserveFields(fs[1..]);
      if fs[0].key != FLAG {
        assert Drop(fs, FLAG)[1..] == Drop(fs[1..], FLAG) && Drop(rs, FLAG)[1..] == Drop(rs[1..], FLAG);
      }
    }
  }

  lemma {:induction false} ReserveDictNeverShrinks(fs: seq<Field>, level: nat)
    requires TidyDict(fs)
    ensures FieldsLen(fs, level) <= FieldsLen(ReserveDict(fs), level)
    decreases fs, 1
  {
    ReserveFieldsNeverShrinks(fs, level);
    if IsMetadata(fs) { FlagFits(FLAG, fs, ReserveFields(fs), level); }
  }

  // ----- fields of a shared object, whose flag may have changed
  lemma {:induction false} DropReserved(fs: seq<Field>)
    ensures Drop(ReserveFields(fs), FLAG) == ReserveFields(Drop(fs, FLAG))
  {
    if fs != [] {
      DropReserved(fs[1..]);
      var rs := ReserveFields(fs);
      assert rs[1..] == ReserveFields(fs[1..]);
      if fs[0].key != FLAG {
        assert Drop(fs, FLAG)[1..] == Drop(fs[1..], FLAG);
      }
    }
  }

  lemma SharedFits(before: seq<Field>, after: seq<Field>, level: nat)
    requires FlagChange(before, after) && TidyDict(after)
    ensures FieldsLen(after, level) <= FieldsLen(ReserveDict(before), level)
  {
    if IsMetadata(before) {
      ReserveFieldsNeverShrinks(after, level);
      DropReserved(before);
      DropReserved(after);
      SameMetadata(before, after);
      FlagFits(FLAG, after, ReserveFields(before), level);
    } else {
      ReserveDictNeverShrinks(after, level);
    }
  }

  lemma SameMetadata(before: seq<Field>, after: seq<Field>)
    requires Drop(before, FLAG) == Drop(after, FLAG)
    ensures IsMetadata(before) == IsMetadata(after)
  {
    FindDrop(before, FLAG, "name"); FindDrop(after, FLAG, "name");
    FindDrop(before, FLAG, "bytes"); FindDrop(after, FLAG, "bytes");
    FindDrop(before, FLAG, "sha256"); FindDrop(after, FLAG, "sha256");
  }

  // ----- the whole manifest
  lemma {:induction false} ManifestFits(doc: Doc, before: Store, after: Store, objects: set<Metadata>,
    level: nat)
    requires OnlyFlagsChanged(objects, before, after) && Shareds(doc) <= objects && Tidy(Resolve(doc, after))
    ensures Len(Resolve(doc, after), level) <= Len(ReserveFlags(Resolve(doc, before)), level)
    decreases doc, 1
  {
    hide ReserveDict, TidyDict, FlagChange, FieldsLen;
    match doc
    case Plain(value) => ReserveNeverShrinks(value, level);
    case Array(items) => ItemsFit(items, before, after, objects, level + 1);
    case Object(entries) =>
      ObjectFits(entries, before, after, objects, level + 1);
      DictFits(ResolveEntries(entries, after), ReserveDict(ResolveEntries(entries, before)), level);
    case Shared(m) =>
      SharedObjectFits(m, before, after, objects, level + 1);
      DictFits(Content(after, m), ReserveDict(Content(before, m)), level);
  }

  lemma DictFits(after: seq<Field>, reserved: seq<Field>, level: nat)
    requires FieldsLen(after, level + 1) <= FieldsLen(reserved, level + 1)
    ensures Len(Dict(after), level) <= Len(Dict(reserved), level)
  {
  }

  lemma SharedObjectFits(m: Metadata, before: Store, after: Store, objects: set<Metadata>,
    level: nat)
    requires OnlyFlagsChanged(objects, before, after) && m in objects && TidyDict(Content(after, m))
    ensures FieldsLen(Content(after, m), level) <= FieldsLen(ReserveDict(Content(before, m)), level)
  {
    SharedFits(Content(before, m), Content(after, m), level);
  }

  lemma {:induction false} ObjectFits(entries: seq<Entry>, before: Store, after: Store, objects: set<Metadata>,
    level: nat)
    requires OnlyFlagsChanged(objects, before, after) && SharedEntries(entries) <= objects
        && TidyDict(ResolveEntries(entries, after))
    ensures FieldsLen(ResolveEntries(entries, after), level)
         <= FieldsLen(ReserveDict(ResolveEntries(entries, before)), level)
    decreases entries, 1
  {
    var was, later := ResolveEntries(entries, before), ResolveEntries(entries, after);
    EntriesFit(entries, before, after, objects, level);
    SameKeys(entries, before, after, "name");
    SameKeys(entries, before, after, "bytes");
    SameKeys(entries, before, after, "sha256");
    if IsMetadata(was) { FlagFits(FLAG, later, ReserveFields(was), level); }
  }

  lemma {:induction false} SameKeys(entries: seq<Entry>, before: Store, after: Store, key: string)
    ensures Find(ResolveEntries(entries, before), key).Some? == Find(ResolveEntries(entries, after), key).Some?
  {
    if entries != [] {
      SameKeys(entries[1..], before, after, key);
      assert ResolveEntries(entries, before)[1..] == ResolveEntries(entries[1..], before);
      assert ResolveEntries(entries, after)[1..] == ResolveEntries(entries[1..], after);
    }
  }

  lemma {:induction false} ItemsFit(items: seq<Doc>, before: Store, after: Store, objects: set<Metadata>,
    level: nat)
    requires OnlyFlagsChanged(objects, before, after) && SharedItems(items) <= objects
        && TidyItems(ResolveItems(items, after))
    ensures ItemsLen(ResolveItems(items, after), level) <= ItemsLen(ReserveItems(ResolveItems(items, before)), level)
    decreases items, 0
  {
    if items != [] {
      var was, later := ResolveItems(items, before), ResolveItems(items, after);
      assert later[1..] == ResolveItems(items[1..], after) && was[1..] == ResolveItems(items[1..], before);
      ManifestFits(items[0], before, after, objects, level);
      ItemsFit(items[1..], before, after, objects, level);
      assert ReserveItems(was)[1..] == ReserveItems(was[1..]);
    }
  }

  lemma {:induction false} EntriesFit(entries: seq<Entry>, before: Store, after: Store, objects: set<Metadata>,
    level: nat)
    requires OnlyFlagsChanged(objects, before, after) && SharedEntries(entries) <= objects
        && TidyFields(ResolveEntries(entries, after))
    ensures var was, later := ResolveEntries(entries, before), ResolveEntries(entries, after);
            && FieldsLen(later, level) <= FieldsLen(ReserveFields(was), level)
            && FieldsLen(Drop(later, FLAG), level) <= FieldsLen(Drop(ReserveFields(was), FLAG), level)
    decreases entries, 0
  {
    if entries != [] {
      var was, later := ResolveEntries(entries, before), ResolveEntries(entries, after);
      assert later[1..] == ResolveEntries(entries[1..], after) && was[1..] == ResolveEntries(entries[1..], before);
      ManifestFits(entries[0].value, before, after, objects, level);
      EntriesFit(entries[1..], before, after, objects, level);
      var rs := ReserveFields(was);
      assert rs[1..] == ReserveFields(was[1..]);
      if entries[0].key != FLAG {
        assert Drop(later, FLAG)[1..] == Drop(later[1..], FLAG) && Drop(rs, FLAG)[1..] == Drop(rs[1..], FLAG);
      }
    }
  }

  lemma DeflateBoundMonotone(m: nat, n: nat)
    requires m <= n
    ensures DeflateBound(m) <= DeflateBound(n)
  {
  }

  // Whatever flags the manifest ends up with, it takes no more room than reserved.
  lemma ReservationIsSound(filename: string, doc: Doc, before: Store, after: Store, libs: Libraries)
    requires Bounded(libs) && OnlyFlagsChanged(Shareds(doc), before, after) && Tidy(Resolve(doc, after))
    ensures AtMost(CompressedInfo(filename, JsonBytes(Resolve(doc, after)), libs),
                   BoundInfo(filename, Resolve(doc, before)))
  {
    ManifestFits(doc, before, after, Shareds(doc), 0);
    DumpsLength(Resolve(doc, after));
    DumpsLength(ReserveFlags(Resolve(doc, before)));
    DeflateBoundMonotone(|JsonBytes(Resolve(doc, after))|, |JsonBytes(ReserveFlags(Resolve(doc, before)))|);
  }
}
