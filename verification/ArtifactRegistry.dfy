/** The immutable, content-addressed artifact registry (app/adapters/artifact_registry.py). */
module ArtifactRegistry {
  import opened Basics
  import opened Text
  import opened Paths
  import opened Metadata
  import opened ObjectStorage

  type Store = map<string, StoredObject>

  datatype SaveRequest = SaveRequest(
    kind: string, data: Bytes, format: string, mediaType: string, schema: string,
    datasetVersion: string, job: string, configHash: string, metadata: Dict)

  datatype RegisteredArtifact = RegisteredArtifact(
    ref: ArtifactRef, kind: string, uri: string, hash: string, format: string, schema: string, job: string)

  // ---------------------------------------------------------------------------------------------
  // Components and object names
  // ---------------------------------------------------------------------------------------------

  predicate IsComponentChar(c: char) {
    'A' <= c <= 'Z' || 'a' <= c <= 'z' || '0' <= c <= '9' || c == '_' || c == '.' || c == '-'
  }

  predicate IsComponent(s: string) {
    s != "" && s != "." && s != ".." && forall i | 0 <= i < |s| :: IsComponentChar(s[i])
  }

  function SafeComponent(value: string): Result<string, StorageError> {
    var stripped := Strip(value, IsSpace);
    if stripped == "" || stripped == "." || stripped == ".." || '/' in stripped || '\\' in stripped then
      Err(InvalidJobPayload)
    else if !(forall i | 0 <= i < |stripped| :: IsComponentChar(stripped[i])) then Err(InvalidJobPayload)
    else Ok(stripped)
  }

  /** The two tests together accept exactly the stripped values that are clean path components. */
  lemma SafeComponentIff(value: string)
    ensures SafeComponent(value) ==
            if IsComponent(Strip(value, IsSpace)) then Ok(Strip(value, IsSpace)) else Err(InvalidJobPayload)
  {
  }

  datatype Address = Address(
    datasetVersion: string, job: string, kind: string, schema: string, hex: string, format: string)
  {
    predicate Clean() {
      && IsComponent(datasetVersion) && IsComponent(job) && IsComponent(kind) && IsComponent(schema)
      && IsComponent(format) && IsHex64(hex)
    }

    function Segments(): seq<string> {
      ["versions", datasetVersion, "jobs", job, "artifacts", kind, schema, hex + "." + format]
    }

    function ObjectName(): string {
      Join(Segments(), '/')
    }
  }

  lemma SegmentsAreNames(a: Address)
    requires a.Clean()
    ensures forall i | 0 <= i < 8 :: IsName(a.Segments()[i])
    ensures forall i, j | 0 <= i < 8 && 0 <= j < |a.Segments()[i]| :: IsComponentChar(a.Segments()[i][j])
  {
    var last := a.Segments()[7];
    assert forall j | 0 <= j < 64 :: last[j] == a.hex[j];
    assert forall j | 65 <= j < |last| :: last[j] == a.format[j - 65];
    assert |last| > 64;
  }

  /** The object name decodes to its six components in one way only. */
  lemma ObjectNameDecodes(a: Address, b: Address)
    requires a.Clean() && b.Clean()
    ensures a.ObjectName() == b.ObjectName() <==> a == b
  {
    if a.ObjectName() == b.ObjectName() {
      SegmentsAreNames(a);
      SegmentsAreNames(b);
      SplitJoin(a.Segments(), '/');
      SplitJoin(b.Segments(), '/');
      var s, t := a.Segments(), b.Segments();
      assert s == t;
      assert s[1] == t[1] && s[3] == t[3] && s[5] == t[5] && s[6] == t[6] && s[7] == t[7];
      assert s[7][..64] == a.hex && t[7][..64] == b.hex && s[7][65..] == a.format && t[7][65..] == b.format;
    }
  }

  /** Normalisation leaves an object name alone. */
  lemma ObjectNameIsFixed(a: Address)
    requires a.Clean()
    ensures SafeRelativePath(a.ObjectName()) == Ok(a.ObjectName())
  {
    SegmentsAreNames(a);
    var names := a.Segments();
    var text := a.ObjectName();
    NamesText(names);
    JoinEnds(names, '/');
    StripFixed(text, IsSpace);
    StripFixed(text, IsSlash);
    SafeRelativePathIsWalk(text);
    SplitJoin(names, '/');
    ResolveOfNames(names);
  }

  /** Where a clean address lives. */
  function KeyOf(at: Location, a: Address): string {
    at.AllowedPrefix() + ['/'] + a.ObjectName()
  }

  lemma KeyOfAddress(at: Location, a: Address)
    requires at.CleanRoot() && a.Clean()
    ensures at.KeyForObjectName(a.ObjectName()) ==
            if ".." in Split(at.AllowedPrefix(), '/') then Err(ArtifactOutOfScope) else Ok(KeyOf(at, a))
  {
    ObjectNameIsFixed(a);
    SegmentsAreNames(a);
    KeyOfNames(at, a.Segments());
    InScopeBelowPrefix(at, a.Segments());
  }

  lemma KeyDecodes(at: Location, a: Address, b: Address)
    requires a.Clean() && b.Clean() && KeyOf(at, a) == KeyOf(at, b)
    ensures a == b
  {
    var n := |at.AllowedPrefix()|;
    assert KeyOf(at, a)[n + 1..] == a.ObjectName() && KeyOf(at, b)[n + 1..] == b.ObjectName();
    ObjectNameDecodes(a, b);
  }

  // ---------------------------------------------------------------------------------------------
  // Saving
  // ---------------------------------------------------------------------------------------------

  function AddressOf(hex: Bytes -> string, req: SaveRequest): Result<Address, StorageError> {
    var kind, format, schema := SafeComponent(req.kind), SafeComponent(req.format), SafeComponent(req.schema);
    var version, job := SafeComponent(req.datasetVersion), SafeComponent(req.job);
    if kind.Err? || format.Err? || schema.Err? || version.Err? || job.Err? then Err(InvalidJobPayload)
    else Ok(Address(version.value, job.value, kind.value, schema.value, hex(req.data), format.value))
  }

  /** The six metadata entries the registry and the adapter add, in the order they add them. */
  function OwnEntries(a: Address): seq<(string, string)> {
    [("artifact-format", a.format), ("created-by-job-id", a.job), ("dataset-version-id", a.datasetVersion),
     ("artifact-kind", a.kind), ("schema-version", a.schema), ("sha256", "sha256:" + a.hex)]
  }

  function PutFor(a: Address, req: SaveRequest): PutRequest {
    PutRequest(a.ObjectName(), req.data, a.kind, req.mediaType, a.schema, a.datasetVersion, a.job, req.configHash,
               PutAll(req.metadata, OwnEntries(a)[..3]))
  }

  function Record(ref: ArtifactRef, a: Address): RegisteredArtifact {
    RegisteredArtifact(ref, a.kind, ref.uri, ref.hash, a.format, ref.schema, a.job)
  }

  predicate MetadataMatches(metadata: map<string, string>, a: Address) {
    HasAll(metadata, OwnEntries(a))
  }

  /** `_existing_artifact`, once `head` found the object. */
  function Existing(info: ObjectInfo, a: Address, req: SaveRequest): Result<RegisteredArtifact, StorageError> {
    if info.hash != "sha256:" + a.hex || !MetadataMatches(info.metadata, a) then Err(ContractValidationFailed)
    else
      var ref := Checked(ArtifactRef(ArtifactId(a.kind, info.hash), a.kind, info.uri, info.hash, info.contentType, info.size,
                                     a.schema, a.datasetVersion, a.job, req.configHash));
      if ref.Err? then Err(ref.error) else Ok(Record(ref.value, a))
  }

  function Save(at: Location, hex: Bytes -> string, store: Store, req: SaveRequest)
    : (Store, Result<RegisteredArtifact, StorageError>)
  {
    var a := AddressOf(hex, req);
    if a.Err? then (store, Err(a.error))
    else
      var uri := at.UriForObjectName(a.value.ObjectName());
      if uri.Err? then (store, Err(uri.error))
      else
        var head := HeadOf(at, store, uri.value);
        if head.Ok? then (store, Existing(head.value, a.value, req))
        else if !head.error.ArtifactNotFound? then (store, Err(head.error))
        else
          var key, put := at.KeyForObjectName(a.value.ObjectName()).value, PutFor(a.value, req);
          var ref := Checked(RefOfPut(at, hex, put, key));
          (store[key := StoredBy(hex, put)], if ref.Err? then Err(ref.error) else Ok(Record(ref.value, a.value)))
  }

  class ArtifactRegistry {
    const storage: MinioObjectStorageAdapter

    constructor (storage: MinioObjectStorageAdapter)
      ensures this.storage == storage
    {
      this.storage := storage;
    }

    method SaveArtifact(req: SaveRequest) returns (r: Result<RegisteredArtifact, StorageError>)
      modifies storage
      ensures (storage.objects, r) == Save(storage.at, storage.hex, old(storage.objects), req)
    {
      var address := AddressOf(storage.hex, req);
      if address.Err? {
        return Err(address.error);
      }
      var a := address.value;
      var uri := storage.at.UriForObjectName(a.ObjectName());
      if uri.Err? {
        return Err(uri.error);
      }
      var head := storage.Head(uri.value);
      if head.Ok? {
        return Existing(head.value, a, req);
      }
      if !head.error.ArtifactNotFound? {
        return Err(head.error);
      }
      var ref := storage.Put(PutFor(a, req));
      if ref.Err? {
        return Err(ref.error);
      }
      return Ok(Record(ref.value, a));
    }
  }

  // ---------------------------------------------------------------------------------------------
  // Write once
  // ---------------------------------------------------------------------------------------------

  lemma AddressIsClean(hex: Bytes -> string, req: SaveRequest)
    requires IsHexDigest(hex)
    ensures AddressOf(hex, req).Ok? ==> AddressOf(hex, req).value.Clean() && AddressOf(hex, req).value.hex == hex(req.data)
  {
  }

  /** One save, with the adapter's name and URI plumbing resolved: it acts on the one key of its
      address, writes there only if nothing is stored yet, and touches nothing else. */
  lemma SaveActsOnOneKey(at: Location, hex: Bytes -> string, store: Store, req: SaveRequest)
    requires at.CleanRoot() && IsHexDigest(hex)
    ensures var a := AddressOf(hex, req);
            if a.Err? then Save(at, hex, store, req) == (store, Err(InvalidJobPayload))
            else if ".." in Split(at.AllowedPrefix(), '/') then Save(at, hex, store, req) == (store, Err(ArtifactOutOfScope))
            else
              var key := KeyOf(at, a.value);
              if key in store then
                var head := Describe(at, key, store[key]);
                Save(at, hex, store, req) == (store, if head.Ok? then Existing(head.value, a.value, req) else Err(head.error))
              else
                var put := PutFor(a.value, req);
                var ref := Checked(RefOfPut(at, hex, put, key));
                Save(at, hex, store, req) ==
                  (store[key := StoredBy(hex, put)], if ref.Err? then Err(ref.error) else Ok(Record(ref.value, a.value)))
  {
    AddressIsClean(hex, req);
    var a := AddressOf(hex, req);
    if a.Ok? {
      KeyOfAddress(at, a.value);
      if ".." !in Split(at.AllowedPrefix(), '/') {
        InScopeBelow(at, a.value);
        UriKeyRoundTrip(at, KeyOf(at, a.value), "");
      }
    }
  }

  lemma InScopeBelow(at: Location, a: Address)
    requires a.Clean() && ".." !in Split(at.AllowedPrefix(), '/')
    ensures at.InScope(KeyOf(at, a))
  {
    SegmentsAreNames(a);
    InScopeBelowPrefix(at, a.Segments());
  }

  function SaveAll(at: Location, hex: Bytes -> string, store: Store, reqs: seq<SaveRequest>): Store {
    if reqs == [] then store
    else Save(at, hex, SaveAll(at, hex, store, reqs[..|reqs| - 1]), reqs[|reqs| - 1]).0
  }

  /** `later` has everything `store` has, unchanged: bytes, content type and metadata. */
  ghost predicate Preserves(store: Store, later: Store) {
    forall key | key in store :: key in later && later[key] == store[key]
  }

  /** Over any sequence of saves nothing stored is ever changed or lost. */
  lemma {:induction false} WriteOnce(at: Location, hex: Bytes -> string, store: Store, reqs: seq<SaveRequest>, i: nat)
    requires at.CleanRoot() && IsHexDigest(hex) && i <= |reqs|
    ensures Preserves(SaveAll(at, hex, store, reqs[..i]), SaveAll(at, hex, store, reqs))
  {
    if i == |reqs| {
      assert reqs[..i] == reqs;
    } else {
      var front := reqs[..|reqs| - 1];
      assert front[..i] == reqs[..i];
      WriteOnce(at, hex, store, front, i);
      SaveActsOnOneKey(at, hex, SaveAll(at, hex, store, front), reqs[|reqs| - 1]);
    }
  }

  /** The object under a registry key has the digest that is in its key. */
  ghost predicate AddressedByContent(at: Location, hex: Bytes -> string, store: Store) {
    forall key | key in store ::
      exists a: Address :: a.Clean() && key == KeyOf(at, a) && hex(store[key].data) == a.hex
  }

  /** Starting from an empty store, every object ever stored carries its own digest in its key. */
  lemma {:induction false} AlwaysAddressedByContent(at: Location, hex: Bytes -> string, reqs: seq<SaveRequest>)
    requires at.CleanRoot() && IsHexDigest(hex)
    ensures AddressedByContent(at, hex, SaveAll(at, hex, map[], reqs))
  {
    if reqs != [] {
      var front, req := reqs[..|reqs| - 1], reqs[|reqs| - 1];
      var store, store' := SaveAll(at, hex, map[], front), SaveAll(at, hex, map[], reqs);
      AlwaysAddressedByContent(at, hex, front);
      SaveActsOnOneKey(at, hex, store, req);
      forall key | key in store'
        ensures exists a: Address :: a.Clean() && key == KeyOf(at, a) && hex(store'[key].data) == a.hex
      {
        if key !in store {
          AddressIsClean(hex, req);
          assert key == KeyOf(at, AddressOf(hex, req).value);
        }
      }
    }
  }

  /** A save that returns a record names the URI of a stored object with the digest of the bytes it
      was given: those very bytes, unless two byte strings collide. */
  lemma SavedBytesAreThere(at: Location, hex: Bytes -> string, store: Store, req: SaveRequest)
    requires at.CleanRoot() && IsHexDigest(hex) && AddressedByContent(at, hex, store)
    requires Save(at, hex, store, req).1.Ok?
    ensures AddressOf(hex, req).Ok?
    ensures var key := KeyOf(at, AddressOf(hex, req).value);
            var (store', r) := Save(at, hex, store, req);
            && key in store' && r.value.uri == at.UriForKey(key)
            && r.value.hash == Digest(hex, req.data)
            && hex(store'[key].data) == hex(req.data)
            && (key !in store ==> store'[key].data == req.data)
  {
    SaveActsOnOneKey(at, hex, store, req);
    AddressIsClean(hex, req);
    var a := AddressOf(hex, req).value;
    if KeyOf(at, a) in store {
      StoredDigest(at, hex, store, a);
    }
  }

  lemma StoredDigest(at: Location, hex: Bytes -> string, store: Store, a: Address)
    requires AddressedByContent(at, hex, store) && a.Clean() && KeyOf(at, a) in store
    ensures hex(store[KeyOf(at, a)].data) == a.hex
  {
    var key := KeyOf(at, a);
    var b: Address :| b.Clean() && key == KeyOf(at, b) && hex(store[key].data) == b.hex;
    KeyDecodes(at, a, b);
  }

  /** The returned record and its reference say what was asked for, stripped of surrounding white space,
      about the bytes given; media type and size are those of the object under the key, which for a
      new object are the request's own. */
  ghost predicate SaysWhatWasAsked(r: RegisteredArtifact, req: SaveRequest, hex: Bytes -> string)
    requires IsHexDigest(hex)
  {
    && r.kind == Strip(req.kind, IsSpace) && r.format == Strip(req.format, IsSpace) && r.schema == Strip(req.schema, IsSpace)
    && r.job == Strip(req.job, IsSpace) && r.hash == "sha256:" + hex(req.data)
    && r.ref.uri == r.uri && r.ref.hash == r.hash && r.ref.kind == r.kind && r.ref.schema == r.schema && r.ref.job == r.job
    && r.ref.parentVersion == Strip(req.datasetVersion, IsSpace) && r.ref.configHash == req.configHash
    && r.ref.id == Strip(req.kind, IsSpace) + ":" + hex(req.data)[..16]
  }

  lemma RecordIs(at: Location, hex: Bytes -> string, store: Store, req: SaveRequest)
    requires at.CleanRoot() && IsHexDigest(hex)
    requires Save(at, hex, store, req).1.Ok?
    ensures SaysWhatWasAsked(Save(at, hex, store, req).1.value, req, hex)
    ensures AddressOf(hex, req).Ok?
    ensures var key := KeyOf(at, AddressOf(hex, req).value);
            var (store', r) := Save(at, hex, store, req);
            && key in store' && r.value.uri == "s3://" + at.bucket + "/" + key && r.value.ref.size == |store'[key].data|
            && (key !in store ==> store'[key].data == req.data && r.value.ref.mediaType == req.mediaType == store'[key].contentType)
            && (key in store ==>
                  r.value.ref.mediaType == if store[key].contentType == "" then "application/octet-stream" else store[key].contentType)
  {
    SaveActsOnOneKey(at, hex, store, req);
    AddressIsClean(hex, req);
    var a := AddressOf(hex, req).value;
    IdOfDigest(a.kind, hex(req.data));
  }

  lemma IdOfDigest(kind: string, hex: string)
    requires IsHex64(hex)
    ensures ArtifactId(kind, "sha256:" + hex) == kind + ":" + hex[..16]
  {
    var digest := "sha256:" + hex;
    assert digest[7..23] == hex[..16];
  }

  /** Where it is stored: the parts of the object name. */
  lemma ObjectNameIs(at: Location, a: Address)
    requires a.Clean()
    ensures KeyOf(at, a) == at.AllowedPrefix() + "/" + a.ObjectName()
    ensures Split(a.ObjectName(), '/') ==
            ["versions", a.datasetVersion, "jobs", a.job, "artifacts", a.kind, a.schema, a.hex + "." + a.format]
  {
    SegmentsAreNames(a);
    SplitJoin(a.Segments(), '/');
  }

  /** What is stored for a new object: the bytes, the media type and, unless the caller shadows them, the
      six own entries. */
  lemma StoredObjectIs(hex: Bytes -> string, a: Address, req: SaveRequest)
    requires a.hex == hex(req.data) && Unshadowed(req.metadata, a)
    ensures StoredBy(hex, PutFor(a, req)).data == req.data && StoredBy(hex, PutFor(a, req)).contentType == req.mediaType
    ensures var m := StoredBy(hex, PutFor(a, req)).metadata;
            && Get(m, "artifact-format") == Some(a.format) && Get(m, "created-by-job-id") == Some(a.job)
            && Get(m, "dataset-version-id") == Some(a.datasetVersion) && Get(m, "artifact-kind") == Some(a.kind)
            && Get(m, "schema-version") == Some(a.schema) && Get(m, "sha256") == Some("sha256:" + hex(req.data))
  {
    OwnMetadataMatchesIff(hex, a, req);
    OwnEntriesFound(StoredBy(hex, PutFor(a, req)).metadata, a);
  }

  lemma OwnEntriesFound(m: map<string, string>, a: Address)
    requires MetadataMatches(m, a)
    ensures Get(m, "artifact-format") == Some(a.format) && Get(m, "created-by-job-id") == Some(a.job)
    ensures Get(m, "dataset-version-id") == Some(a.datasetVersion) && Get(m, "artifact-kind") == Some(a.kind)
    ensures Get(m, "schema-version") == Some(a.schema) && Get(m, "sha256") == Some("sha256:" + a.hex)
  {
    assert OwnEntries(a)[0] == ("artifact-format", a.format) && OwnEntries(a)[1] == ("created-by-job-id", a.job);
    assert OwnEntries(a)[2] == ("dataset-version-id", a.datasetVersion) && OwnEntries(a)[3] == ("artifact-kind", a.kind);
    assert OwnEntries(a)[4] == ("schema-version", a.schema) && OwnEntries(a)[5] == ("sha256", "sha256:" + a.hex);
  }

  /** Every other entry of the caller is stored as it is, under its lower-case key. */
  lemma OtherEntriesAreKept(hex: Bytes -> string, a: Address, req: SaveRequest, key: string)
    requires a.hex == hex(req.data) && Lower(key) == key && forall i | 0 <= i < |OwnEntries(a)| :: OwnEntries(a)[i].0 != key
    ensures Get(StoredBy(hex, PutFor(a, req)).metadata, key) == Winner(req.metadata, key)
  {
    StoredMetadata(hex, a, req);
    OwnKeysAreLower(a);
    PutAllLeaves(req.metadata, OwnEntries(a), key);
    LowerKeysGet(PutAll(req.metadata, OwnEntries(a)), key);
  }

  // ---------------------------------------------------------------------------------------------
  // Repeating a save
  // ---------------------------------------------------------------------------------------------

  /** No caller entry overrides one of the six own entries by spelling its key with other capitals
      further down the dict. */
  predicate Unshadowed(metadata: Dict, a: Address) {
    ShadowsNone(metadata, OwnEntries(a))
  }

  lemma OwnKeysAreLower(a: Address)
    ensures LowerCaseKeys(OwnEntries(a))
  {
    PlainKeysAreLower(OwnEntries(a));
  }

  /** The adapter's three entries follow the registry's three. */
  lemma StoredMetadata(hex: Bytes -> string, a: Address, req: SaveRequest)
    requires a.hex == hex(req.data)
    ensures StoredBy(hex, PutFor(a, req)).metadata == LowerKeys(PutAll(req.metadata, OwnEntries(a)))
  {
    PutAllSplit(req.metadata, OwnEntries(a), 3);
  }

  lemma {:induction false} PutAllSplit(d: Dict, entries: seq<(string, string)>, n: nat)
    requires n <= |entries|
    ensures PutAll(d, entries) == PutAll(PutAll(d, entries[..n]), entries[n..])
    decreases n
  {
    if n == 0 {
      assert entries[0..] == entries;
    } else {
      PutAllSplit(Put(d, entries[0].0, entries[0].1), entries[1..], n - 1);
      assert entries[..n][1..] == entries[1..][..n - 1] && entries[1..][n - 1..] == entries[n..];
    }
  }

  /** The metadata written by a save passes the registry's own check exactly when it is unshadowed. */
  lemma OwnMetadataMatchesIff(hex: Bytes -> string, a: Address, req: SaveRequest)
    requires a.hex == hex(req.data)
    ensures MetadataMatches(StoredBy(hex, PutFor(a, req)).metadata, a) <==> Unshadowed(req.metadata, a)
  {
    StoredMetadata(hex, a, req);
    OwnKeysAreLower(a);
    HasAllIffShadowsNone(req.metadata, OwnEntries(a));
  }

  /** The difference shows: a caller that lists `sha256` and then `SHA256` overrides the digest. */
  lemma CapitalisedKeyShadows(a: Address, first: string, second: string)
    requires second != "sha256:" + a.hex
    ensures !Unshadowed([("sha256", first), ("SHA256", second)], a)
  {
    var d := [("sha256", first), ("SHA256", second)];
    assert d[1..] == [("SHA256", second)] && d[1..][1..] == [];
    LowerOfSha();
    assert Winner(d[1..], "sha256") == Some(second);
    assert Shadow(d, "sha256") == Some(second);
    assert OwnEntries(a)[5] == ("sha256", "sha256:" + a.hex);
  }

  lemma LowerOfSha()
    ensures Lower("SHA256") == "sha256"
  {
    assert "SHA256" == ['S'] + (['H'] + (['A'] + "256"));
    LowerConcat(['S'], ['H'] + (['A'] + "256"));
    LowerConcat(['H'], ['A'] + "256");
    LowerConcat(['A'], "256");
    LowerFixed("256");
    LowerOfOne('S');
    LowerOfOne('H');
    LowerOfOne('A');
  }

  lemma LowerOfOne(c: char)
    ensures Lower([c]) == LowerChar(c)
  {
    assert [c][1..] == "";
  }

  /** A caller whose keys are all lower-case, and distinct as dict keys are, shadows nothing. */
  lemma {:induction false} LowerCaseCallersShadowNothing(metadata: Dict, key: string)
    requires LowerCaseKeys(metadata)
    ensures Shadow(metadata, key) == None
  {
    if metadata != [] {
      LowerCaseCallersShadowNothing(metadata[1..], key);
      if metadata[0].0 == key {
        NoWinner(metadata[1..], key);
      }
    }
  }

  lemma {:induction false} NoWinner(d: Dict, key: string)
    requires forall i | 0 <= i < |d| :: Lower(d[i].0) != key
    ensures Winner(d, key) == None
  {
    if d != [] {
      NoWinner(d[1..], key);
    }
  }

  /** Repeating a save.  At any later time, whatever else was saved in between, the same request
      writes nothing.  If it succeeded before, it returns the same record again exactly when the
      object was already there the first time or the caller's metadata shadows no own entry;
      otherwise it fails. */
  lemma RepeatedSave(at: Location, hex: Bytes -> string, store: Store, req: SaveRequest, later: Store)
    requires at.CleanRoot() && IsHexDigest(hex)
    requires Preserves(Save(at, hex, store, req).0, later)
    requires Save(at, hex, store, req).1.Ok?
    ensures Save(at, hex, later, req).0 == later
    ensures AddressOf(hex, req).Ok?
    ensures Save(at, hex, later, req).1 == Save(at, hex, store, req).1 <==>
              KeyOf(at, AddressOf(hex, req).value) in store || Unshadowed(req.metadata, AddressOf(hex, req).value)
    ensures Save(at, hex, later, req).1 != Save(at, hex, store, req).1 ==> Save(at, hex, later, req).1.Err?
  {
    SaveActsOnOneKey(at, hex, store, req);
    SaveActsOnOneKey(at, hex, later, req);
    var a := AddressOf(hex, req).value;
    var key := KeyOf(at, a);
    assert key in later && later[key] == Save(at, hex, store, req).0[key];
    if key !in store {
      AddressIsClean(hex, req);
      WrittenIsDescribed(at, hex, a, req, key);
    }
  }

  /** What `head` and the registry make of an object that a save has just written. */
  lemma WrittenIsDescribed(at: Location, hex: Bytes -> string, a: Address, req: SaveRequest, key: string)
    requires a.Clean() && a.hex == hex(req.data) && RefAccepted(RefOfPut(at, hex, PutFor(a, req), key))
    ensures var head := Describe(at, key, StoredBy(hex, PutFor(a, req)));
            var again := if head.Ok? then Existing(head.value, a, req) else Err(head.error);
            if Unshadowed(req.metadata, a) then again == Ok(Record(RefOfPut(at, hex, PutFor(a, req), key), a))
            else again.Err?
  {
    OwnMetadataMatchesIff(hex, a, req);
    var digest := "sha256:" + a.hex;
    assert digest[7..] == a.hex;
    var stored := StoredBy(hex, PutFor(a, req));
    if Unshadowed(req.metadata, a) {
      assert OwnEntries(a)[5] == ("sha256", digest);
      assert Get(stored.metadata, "sha256") == Some(digest);
    }
  }

  /** For callers that spell their metadata keys in lower case, as every caller in the repository
      does, a save can be repeated for ever: same record, nothing written. */
  lemma RepeatedSaveOfLowerCaseCaller(at: Location, hex: Bytes -> string, store: Store, req: SaveRequest, reqs: seq<SaveRequest>)
    requires at.CleanRoot() && IsHexDigest(hex) && LowerCaseKeys(req.metadata)
    requires Save(at, hex, store, req).1.Ok?
    ensures var (first, r) := Save(at, hex, store, req);
            var later := SaveAll(at, hex, first, reqs);
            Save(at, hex, later, req) == (later, r)
  {
    var first := Save(at, hex, store, req).0;
    WriteOnce(at, hex, first, reqs, 0);
    assert reqs[..0] == [];
    RepeatedSave(at, hex, store, req, SaveAll(at, hex, first, reqs));
    var a := AddressOf(hex, req).value;
    forall i | 0 <= i < 6 ensures Shadow(req.metadata, OwnEntries(a)[i].0) == None {
      LowerCaseCallersShadowNothing(req.metadata, OwnEntries(a)[i].0);
    }
  }
}
