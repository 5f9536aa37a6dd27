/** The project-scoped storage adapter (app/adapters/object_storage.py): names, keys, URIs and
    scope confinement, and the object map they address. */
module ObjectStorage {
  import opened Basics
  import opened Text
  import opened Paths
  import opened Metadata

  type Bytes = seq<bv8>

  datatype StorageError = InvalidJobPayload | ArtifactOutOfScope | ArtifactNotFound | ContractValidationFailed
                        | ContractModelRejected

  // ---------------------------------------------------------------------------------------------
  // Names
  // ---------------------------------------------------------------------------------------------

  function Stripped(value: string): string {
    LStrip(Strip(value, IsSpace), IsSlash)
  }

  function SafeRelativePath(value: string): Result<string, StorageError> {
    var stripped := Stripped(value);
    var normalised := Normalised(stripped);
    if stripped == "" || normalised == "" || normalised == "." then Err(InvalidJobPayload)
    else if Traverses(normalised) then Err(ArtifactOutOfScope)
    else Ok(normalised)
  }

  predicate Traverses(text: string) {
    "../" <= text || text == ".." || Contains("/" + text + "/", "/../")
  }

  lemma NamesAreNotDots(names: seq<string>)
    requires names != [] && forall i | 0 <= i < |names| :: IsName(names[i])
    ensures Join(names, '/') != "" && Join(names, '/') != "." && Join(names, '/') != ".."
  {
    JoinEnds(names, '/');
    if |names| == 1 {
      assert Join(names, '/') == names[0];
    } else {
      assert '/' in Join(names, '/');
    }
  }

  lemma NamesDoNotStartUp(names: seq<string>)
    requires names != [] && forall i | 0 <= i < |names| :: IsName(names[i])
    ensures !("../" <= Join(names, '/'))
  {
    var first := names[0];
    assert IsName(first);
    if |names| > 1 {
      TextDoesNotStartUp(first, [ '/' ] + Join(names[1..], '/'));
    } else {
      TextDoesNotStartUp(first, "");
    }
  }

  lemma TextDoesNotStartUp(first: string, rest: string)
    requires IsName(first) && (rest == "" || rest[0] == '/')
    ensures !("../" <= first + rest)
  {
    var text := first + rest;
    assert |first| <= 2 && text != first ==> text[|first|] == '/';
    assert |first| > 2 ==> text[2] == first[2] && first[2] != '/';
    assert |first| == 2 ==> text[0] == first[0] && text[1] == first[1] && first != "..";
    assert |first| == 2 && first[0] == '.' && first[1] == '.' ==> first == "..";
  }

  lemma NamesDoNotTraverse(names: seq<string>)
    requires names != [] && forall i | 0 <= i < |names| :: IsName(names[i])
    ensures Join(names, '/') != "" && Join(names, '/') != "." && !Traverses(Join(names, '/'))
  {
    NamesAreNotDots(names);
    NamesDoNotStartUp(names);
    if Contains("/" + Join(names, '/') + "/", "/../") {
      DotDotBetweenSlashes(Join(names, '/'));
      SplitJoin(names, '/');
    }
  }

  lemma NothingStripped(stripped: string)
    requires stripped == ""
    ensures Resolve(Split(stripped, '/')) == Some([])
  {
    assert Split(stripped, '/') == [""] && [""][..0] == [];
  }

  /** The checks on the normalised text say exactly what the walk over the segments says: a name is
      accepted when the walk never leaves the root and ends strictly below it, it is out of scope
      when the walk leaves the root, and it is empty when the walk ends at the root. */
  lemma SafeRelativePathIsWalk(value: string)
    ensures SafeRelativePath(value) ==
            match Resolve(Split(Stripped(value), '/'))
            case None => Err(ArtifactOutOfScope)
            case Some(names) => if names == [] then Err(InvalidJobPayload) else Ok(Join(names, '/'))
  {
    var stripped := Stripped(value);
    var comps := Split(stripped, '/');
    NormalisedRelative(stripped);
    if stripped == "" {
      NothingStripped(stripped);
    } else if Resolve(comps).Some? && Resolve(comps).value != [] {
      ResolveNames(comps);
      NamesDoNotTraverse(Resolve(comps).value);
    }
  }

  // ---------------------------------------------------------------------------------------------
  // Keys
  // ---------------------------------------------------------------------------------------------

  function NonEmptyStripped(parts: seq<string>): seq<string> {
    if parts == [] then []
    else
      var part := Strip(parts[0], IsSlash);
      (if part == "" then [] else [part]) + NonEmptyStripped(parts[1..])
  }

  function JoinKey(parts: seq<string>): string {
    Join(NonEmptyStripped(parts), '/')
  }

  datatype Scope = Scope(organization: string, project: string, dataset: string) {
    /** Ids as the platform issues them: one path segment each. */
    predicate SlashFree() {
      && organization != "" && '/' !in organization
      && project != "" && '/' !in project
      && dataset != "" && '/' !in dataset
    }
  }

  /** Bucket, cleaned root prefix and scope of one adapter. */
  datatype Location = Location(bucket: string, root: string, scope: Scope) {

    /** What the constructor establishes about `root` (CleanedRootShape below). */
    predicate CleanRoot() {
      root != "" && root[0] != '/' && root[|root| - 1] != '/'
    }

    function AllowedPrefix(): string {
      JoinKey([root, scope.organization, scope.project, scope.dataset])
    }

    predicate InScope(key: string) {
      AllowedPrefix() + "/" <= key && ".." !in Split(key, '/')
    }

    function KeyForObjectName(name: string): Result<string, StorageError> {
      var path := SafeRelativePath(name);
      if path.Err? then Err(path.error)
      else
        var key := JoinKey([AllowedPrefix(), path.value]);
        if InScope(key) then Ok(key) else Err(ArtifactOutOfScope)
    }

    function UriForKey(key: string): string {
      "s3://" + bucket + "/" + key
    }

    function KeyForUri(uri: string): Result<string, StorageError> {
      var prefix := "s3://" + bucket + "/";
      if !(prefix <= uri) then Err(ArtifactOutOfScope)
      else
        var key := uri[|prefix|..];
        if InScope(key) then Ok(key) else Err(ArtifactOutOfScope)
    }

    function UriForObjectName(name: string): Result<string, StorageError> {
      var key := KeyForObjectName(name);
      if key.Err? then Err(key.error) else Ok(UriForKey(key.value))
    }
  }

  /** The constructor's `_safe_path_part(prefix_root)`. */
  function CleanedRoot(prefixRoot: string): Result<string, StorageError> {
    var path := SafeRelativePath(prefixRoot);
    if path.Err? then Err(path.error) else Ok(Strip(path.value, IsSlash))
  }

  lemma AllowedPrefixShape(at: Location)
    requires at.CleanRoot()
    ensures var prefix := at.AllowedPrefix();
            prefix != "" && !IsSlash(prefix[0]) && !IsSlash(prefix[|prefix| - 1])
  {
    var parts := NonEmptyStripped([at.root, at.scope.organization, at.scope.project, at.scope.dataset]);
    NonEmptyStrippedParts([at.root, at.scope.organization, at.scope.project, at.scope.dataset]);
    StripFixed(at.root, IsSlash);
    assert parts[0] == at.root;
    JoinEnds(parts, '/');
  }

  lemma {:induction false} NonEmptyStrippedParts(parts: seq<string>)
    ensures forall i | 0 <= i < |NonEmptyStripped(parts)| ::
              var p := NonEmptyStripped(parts)[i]; p != "" && p[0] != '/' && p[|p| - 1] != '/'
  {
    if parts != [] {
      NonEmptyStrippedParts(parts[1..]);
      StripEnds(parts[0], IsSlash);
    }
  }

  lemma {:induction false} FixedParts(parts: seq<string>)
    requires forall i | 0 <= i < |parts| :: parts[i] != "" && parts[i][0] != '/' && parts[i][|parts[i]| - 1] != '/'
    ensures NonEmptyStripped(parts) == parts
  {
    if parts != [] {
      StripFixed(parts[0], IsSlash);
      FixedParts(parts[1..]);
    }
  }

  /** An adapter root is a plain relative path: it never starts or ends with a slash. */
  lemma CleanedRootShape(prefixRoot: string, bucket: string, scope: Scope)
    ensures CleanedRoot(prefixRoot).Ok? ==>
              CleanedRoot(prefixRoot) == SafeRelativePath(prefixRoot) && Location(bucket, CleanedRoot(prefixRoot).value, scope).CleanRoot()
  {
    SafeRelativePathIsWalk(prefixRoot);
    if SafeRelativePath(prefixRoot).Ok? {
      var comps := Split(Stripped(prefixRoot), '/');
      ResolveNames(comps);
      NamesText(Resolve(comps).value);
      StripFixed(Join(Resolve(comps).value, '/'), IsSlash);
    }
  }

  lemma NamesText(names: seq<string>)
    requires names != [] && forall i | 0 <= i < |names| :: IsName(names[i])
    ensures var text := Join(names, '/'); text != "" && text[0] != '/' && text[|text| - 1] != '/'
  {
    JoinEnds(names, '/');
    assert IsName(names[0]) && IsName(names[|names| - 1]);
  }

  /** A name is stored exactly when its walk is good and the scope ids themselves bring no "..";
      its key is then the scope prefix, a slash and the walk, and the part below the prefix has no
      empty, "." or ".." segment. */
  lemma KeyIsConfined(at: Location, name: string)
    requires at.CleanRoot()
    ensures at.KeyForObjectName(name).Ok? <==>
              SafeRelativePath(name).Ok? && ".." !in Split(at.AllowedPrefix(), '/')
    ensures at.KeyForObjectName(name).Ok? ==>
              var names := Resolve(Split(Stripped(name), '/'));
              && names.Some? && names.value != []
              && (forall i | 0 <= i < |names.value| :: IsName(names.value[i]))
              && at.KeyForObjectName(name).value == at.AllowedPrefix() + ['/'] + Join(names.value, '/')
              && at.InScope(at.KeyForObjectName(name).value)
  {
    SafeRelativePathIsWalk(name);
    if SafeRelativePath(name).Ok? {
      var names := Resolve(Split(Stripped(name), '/')).value;
      ResolveNames(Split(Stripped(name), '/'));
      KeyOfNames(at, names);
      InScopeBelowPrefix(at, names);
    }
  }

  lemma JoinOfTwo(a: string, b: string)
    ensures Join([a, b], '/') == a + ['/'] + b
  {
    assert [a, b][1..] == [b];
  }

  /** Where names hang below a prefix, the segments are the prefix's followed by the names. */
  lemma SegmentsOfKey(prefix: string, names: seq<string>)
    requires names != [] && forall i | 0 <= i < |names| :: IsName(names[i])
    ensures Split(prefix + ['/'] + Join(names, '/'), '/') == Split(prefix, '/') + names
  {
    SplitConcat(prefix, Join(names, '/'), '/');
    SplitJoin(names, '/');
  }

  lemma InScopeBelowPrefix(at: Location, names: seq<string>)
    requires names != [] && forall i | 0 <= i < |names| :: IsName(names[i])
    ensures at.InScope(at.AllowedPrefix() + ['/'] + Join(names, '/')) <==> ".." !in Split(at.AllowedPrefix(), '/')
  {
    var prefix := at.AllowedPrefix();
    SegmentsOfKey(prefix, names);
    var whole := Split(prefix, '/') + names;
    assert ".." !in names;
    assert ".." in whole <==> ".." in Split(prefix, '/');
  }

  lemma KeyOfPrefix(prefix: string, path: string)
    requires prefix != "" && prefix[0] != '/' && prefix[|prefix| - 1] != '/'
    requires path != "" && path[0] != '/' && path[|path| - 1] != '/'
    ensures JoinKey([prefix, path]) == prefix + ['/'] + path
  {
    FixedParts([prefix, path]);
    JoinOfTwo(prefix, path);
  }

  lemma KeyOfNames(at: Location, names: seq<string>)
    requires at.CleanRoot() && names != [] && forall i | 0 <= i < |names| :: IsName(names[i])
    ensures JoinKey([at.AllowedPrefix(), Join(names, '/')]) == at.AllowedPrefix() + ['/'] + Join(names, '/')
  {
    NamesText(names);
    AllowedPrefixShape(at);
    KeyOfPrefix(at.AllowedPrefix(), Join(names, '/'));
  }

  /** Name, URI and key go round: the URI of a key in scope gives the key back, and a URI that is
      accepted is the URI of its key. */
  lemma UriKeyRoundTrip(at: Location, key: string, uri: string)
    ensures at.InScope(key) ==> at.KeyForUri(at.UriForKey(key)) == Ok(key)
    ensures at.KeyForUri(uri).Ok? ==> at.UriForKey(at.KeyForUri(uri).value) == uri && at.InScope(at.KeyForUri(uri).value)
  {
    var prefix := "s3://" + at.bucket + "/";
    assert at.UriForKey(key) == prefix + key;
    assert (prefix + key)[|prefix|..] == key;
  }

  lemma NameToUriToKey(at: Location, name: string)
    requires at.CleanRoot()
    ensures at.UriForObjectName(name).Ok? ==>
              at.KeyForUri(at.UriForObjectName(name).value) == at.KeyForObjectName(name)
  {
    KeyIsConfined(at, name);
    if at.KeyForObjectName(name).Ok? {
      UriKeyRoundTrip(at, at.KeyForObjectName(name).value, "");
    }
  }

  // ---------------------------------------------------------------------------------------------
  // Scopes
  // ---------------------------------------------------------------------------------------------

  lemma PrefixSegments(at: Location)
    requires at.CleanRoot() && at.scope.SlashFree()
    ensures Split(at.AllowedPrefix(), '/') ==
            Split(at.root, '/') + [at.scope.organization, at.scope.project, at.scope.dataset]
  {
    var o, p, d := at.scope.organization, at.scope.project, at.scope.dataset;
    FixedParts([at.root, o, p, d]);
    var tail := Join([o, p, d], '/');
    assert at.AllowedPrefix() == at.root + ['/'] + tail by {
      assert [at.root, o, p, d][1..] == [o, p, d];
    }
    SplitConcat(at.root, tail, '/');
    SplitJoin([o, p, d], '/');
  }

  /** Below a prefix, the segments start with the prefix's own. */
  lemma SegmentsBelow(prefix: string, key: string)
    requires prefix + "/" <= key
    ensures Split(prefix, '/') <= Split(key, '/')
  {
    var rest := key[|prefix| + 1..];
    assert key == prefix + ['/'] + rest;
    SplitConcat(prefix, rest, '/');
  }

  /** Adapters on one root with different slash-free scopes have no key in common. */
  lemma ScopesAreDisjoint(a: Location, b: Location, key: string)
    requires a.root == b.root && a.CleanRoot() && a.scope.SlashFree() && b.scope.SlashFree()
    requires a.InScope(key) && b.InScope(key)
    ensures a.scope == b.scope
  {
    PrefixSegments(a);
    PrefixSegments(b);
    SegmentsBelow(a.AllowedPrefix(), key);
    SegmentsBelow(b.AllowedPrefix(), key);
    var n, segments := |Split(a.root, '/')|, Split(key, '/');
    assert segments[n] == a.scope.organization == b.scope.organization;
    assert segments[n + 1] == a.scope.project == b.scope.project;
    assert segments[n + 2] == a.scope.dataset == b.scope.dataset;
  }

  ghost predicate Overlap(a: Location, b: Location) {
    exists key :: a.InScope(key) && b.InScope(key)
  }

  /** Every key at or below `prefix` that has no ".." segment is one below `above`. */
  lemma WitnessBelow(prefix: string, above: string)
    requires above + "/" <= prefix + "/" && ".." !in Split(prefix, '/')
    ensures above + "/" <= prefix + "/x" && prefix + "/" <= prefix + "/x" && ".." !in Split(prefix + "/x", '/')
  {
    assert prefix + "/x" == prefix + ['/'] + "x" == prefix + "/" + "x";
    SplitConcat(prefix, "x", '/');
    SplitAtom("x", '/');
  }

  /** For ids that may hold slashes confinement is weaker.  Two adapters share a key exactly when
      neither prefix has a ".." segment and one prefix lies at or below the other. */
  lemma ScopesOverlapIff(a: Location, b: Location)
    ensures Overlap(a, b) <==>
              && ".." !in Split(a.AllowedPrefix(), '/') && ".." !in Split(b.AllowedPrefix(), '/')
              && (a.AllowedPrefix() + "/" <= b.AllowedPrefix() + "/" || b.AllowedPrefix() + "/" <= a.AllowedPrefix() + "/")
  {
    var p, q := a.AllowedPrefix(), b.AllowedPrefix();
    if Overlap(a, b) {
      OverlappingNest(a, b);
    }
    if ".." !in Split(p, '/') && ".." !in Split(q, '/') {
      if p + "/" <= q + "/" {
        NestedOverlap(a, b);
      } else if q + "/" <= p + "/" {
        NestedOverlap(b, a);
      }
    }
  }

  lemma OverlappingNest(a: Location, b: Location)
    requires Overlap(a, b)
    ensures var (p, q) := (a.AllowedPrefix(), b.AllowedPrefix());
            && ".." !in Split(p, '/') && ".." !in Split(q, '/') && (p + "/" <= q + "/" || q + "/" <= p + "/")
  {
    var p, q := a.AllowedPrefix(), b.AllowedPrefix();
    var key :| a.InScope(key) && b.InScope(key);
    SegmentsBelow(p, key);
    SegmentsBelow(q, key);
    assert p + "/" == key[..|p| + 1] && q + "/" == key[..|q| + 1];
  }

  lemma NestedOverlap(a: Location, b: Location)
    requires ".." !in Split(b.AllowedPrefix(), '/') && a.AllowedPrefix() + "/" <= b.AllowedPrefix() + "/"
    requires ".." !in Split(a.AllowedPrefix(), '/')
    ensures Overlap(a, b)
  {
    WitnessBelow(b.AllowedPrefix(), a.AllowedPrefix());
    var key := b.AllowedPrefix() + "/x";
    assert a.InScope(key) && b.InScope(key);
  }

  lemma JoinOfFour(r: string, o: string, p: string, d: string)
    ensures Join([r, o, p, d], '/') == r + ['/'] + (o + ['/'] + (p + ['/'] + d))
  {
    assert [r, o, p, d][1..] == [o, p, d] && [o, p, d][1..] == [p, d];
    JoinOfTwo(p, d);
    assert Join([o, p, d], '/') == o + ['/'] + Join([p, d], '/');
  }

  /** An id with a slash in it shifts the boundaries: organization o + "/" + p with project q and
      organization o with project p + "/" + q share their whole prefix. */
  lemma SlashInIdMergesScopes(at: Location, o: string, p: string, q: string)
    requires at.CleanRoot() && Scope(o, p, q).SlashFree() && at.scope == Scope(o + ['/'] + p, q, o)
    ensures at.AllowedPrefix() == Location(at.bucket, at.root, Scope(o, p + ['/'] + q, o)).AllowedPrefix()
  {
    FixedParts([at.root, o + ['/'] + p, q, o]);
    FixedParts([at.root, o, p + ['/'] + q, o]);
    JoinOfFour(at.root, o + ['/'] + p, q, o);
    JoinOfFour(at.root, o, p + ['/'] + q, o);
    assert (o + ['/'] + p) + ['/'] + (q + ['/'] + o) == o + ['/'] + ((p + ['/'] + q) + ['/'] + o);
  }

  // ---------------------------------------------------------------------------------------------
  // Objects
  // ---------------------------------------------------------------------------------------------

  datatype StoredObject = StoredObject(data: Bytes, contentType: string, metadata: map<string, string>)

  datatype PutRequest = PutRequest(
    name: string, data: Bytes, kind: string, mediaType: string, schema: string,
    parentVersion: string, job: string, configHash: string, metadata: Dict)

  datatype ArtifactRef = ArtifactRef(
    id: string, kind: string, uri: string, hash: string, mediaType: string, size: nat,
    schema: string, parentVersion: string, job: string, configHash: string)

  datatype ObjectInfo = ObjectInfo(
    uri: string, hash: string, size: nat, contentType: string, metadata: map<string, string>)

  predicate IsHex64(s: string) {
    |s| == 64 && forall i | 0 <= i < 64 :: '0' <= s[i] <= '9' || 'a' <= s[i] <= 'f'
  }

  predicate IsDigest(s: string) {
    "sha256:" <= s && IsHex64(s[7..])
  }

  /** The URI pattern of the contracts: a scheme and no white space (the four separators U+001C to
      U+001F are not white space to the pattern, though `strip` removes them). */
  predicate IsS3Uri(uri: string) {
    "s3://" <= uri && |uri| > 5 && forall i | 5 <= i < |uri| :: !IsSpace(uri[i]) || '\U{1c}' <= uri[i] <= '\U{1f}'
  }

  /** The digest function is a parameter; all that is known of it is the shape of its output. */
  ghost predicate IsHexDigest(hex: Bytes -> string) {
    forall d :: IsHex64(hex(d))
  }

  function Digest(hex: Bytes -> string, data: Bytes): string {
    "sha256:" + hex(data)
  }

  function ArtifactId(kind: string, hash: string): string {
    kind + ":" + if |hash| < 23 then hash else hash[7..23]
  }

  function StoredBy(hex: Bytes -> string, p: PutRequest): StoredObject {
    StoredObject(p.data, p.mediaType, LowerKeys(PutAll(p.metadata, [
      ("artifact-kind", p.kind), ("schema-version", p.schema), ("sha256", Digest(hex, p.data))])))
  }

  /** The contract models refuse an empty media type, a malformed config hash and a URI with white
      space in it. */
  predicate RefAccepted(ref: ArtifactRef) {
    IsS3Uri(ref.uri) && ref.mediaType != "" && IsDigest(ref.configHash)
  }

  function Checked(ref: ArtifactRef): Result<ArtifactRef, StorageError> {
    if RefAccepted(ref) then Ok(ref) else Err(ContractModelRejected)
  }

  /** Which references pass: a media type, a digest of 64 lower-case hexadecimal digits, and a URI with
      something behind its scheme and no white space in it. */
  lemma CheckedIff(ref: ArtifactRef)
    ensures Checked(ref).Ok? <==>
              && ref.mediaType != ""
              && |ref.configHash| == 71 && ref.configHash[..7] == "sha256:"
              && (forall i | 7 <= i < 71 :: ref.configHash[i] in "0123456789abcdef")
              && |ref.uri| > 5 && ref.uri[..5] == "s3://"
              && (forall i | 5 <= i < |ref.uri| && IsSpace(ref.uri[i]) :: '\U{1c}' <= ref.uri[i] <= '\U{1f}')
    ensures Checked(ref).Ok? ==> Checked(ref).value == ref
  {
    var hash := ref.configHash;
    forall c: char ensures c in "0123456789abcdef" <==> '0' <= c <= '9' || 'a' <= c <= 'f' {
      HexDigitIff(c);
    }
    if |hash| == 71 {
      assert forall i | 7 <= i < 71 :: hash[i] == hash[7..][i - 7];
    }
  }

  lemma HexDigitIff(c: char)
    ensures c in "0123456789abcdef" <==> '0' <= c <= '9' || 'a' <= c <= 'f'
  {
    if '0' <= c <= '9' {
      assert "0123456789abcdef"[(c - '0') as int] == c;
    } else if 'a' <= c <= 'f' {
      assert "0123456789abcdef"[10 + (c - 'a') as int] == c;
    }
  }

  function RefOfPut(at: Location, hex: Bytes -> string, p: PutRequest, key: string): ArtifactRef {
    var hash := Digest(hex, p.data);
    ArtifactRef(ArtifactId(p.kind, hash), p.kind, at.UriForKey(key), hash, p.mediaType, |p.data|,
                p.schema, p.parentVersion, p.job, p.configHash)
  }

  /** What `head` reports.  A missing digest is reported as zeros. */
  function Describe(at: Location, key: string, o: StoredObject): Result<ObjectInfo, StorageError> {
    var stored := Get(o.metadata, "sha256");
    var hash := if stored.Some? && stored.value != "" then stored.value else "sha256:" + seq(64, _ => '0');
    var contentType := if o.contentType != "" then o.contentType else "application/octet-stream";
    if IsS3Uri(at.UriForKey(key)) && IsDigest(hash)
    then Ok(ObjectInfo(at.UriForKey(key), hash, |o.data|, contentType, o.metadata))
    else Err(ContractModelRejected)
  }

  function HeadOf(at: Location, objects: map<string, StoredObject>, uri: string): Result<ObjectInfo, StorageError> {
    var key := at.KeyForUri(uri);
    if key.Err? then Err(key.error)
    else if key.value !in objects then Err(ArtifactNotFound)
    else Describe(at, key.value, objects[key.value])
  }

  /** What `head` says of an object in scope: its own address and size, the digest that its metadata
      record, or zeros, and its content type, or the general one. */
  lemma HeadIs(at: Location, objects: map<string, StoredObject>, key: string)
    requires at.InScope(key)
    ensures var r := HeadOf(at, objects, "s3://" + at.bucket + "/" + key);
            if key !in objects then r == Err(ArtifactNotFound) else r.Ok? ==> Describes(r.value, at, key, objects[key])
  {
    var prefix := "s3://" + at.bucket + "/";
    assert (prefix + key)[|prefix|..] == key;
  }

  ghost predicate Describes(info: ObjectInfo, at: Location, key: string, o: StoredObject) {
    && info.uri == "s3://" + at.bucket + "/" + key && info.size == |o.data| && info.metadata == o.metadata
    && info.contentType == (if o.contentType == "" then "application/octet-stream" else o.contentType)
    && (if "sha256" in o.metadata && o.metadata["sha256"] != "" then info.hash == o.metadata["sha256"]
        else |info.hash| == 71 && info.hash[..7] == "sha256:" && forall i | 7 <= i < 71 :: info.hash[i] == '0')
  }

  class MinioObjectStorageAdapter {
    const at: Location
    const hex: Bytes -> string
    var objects: map<string, StoredObject>

    constructor (at: Location, hex: Bytes -> string, objects: map<string, StoredObject>)
      ensures this.at == at && this.hex == hex && this.objects == objects
    {
      this.at, this.hex, this.objects := at, hex, objects;
    }

    /** The object is written before its reference is checked. */
    method Put(p: PutRequest) returns (r: Result<ArtifactRef, StorageError>)
      modifies this
      ensures var key := at.KeyForObjectName(p.name);
              if key.Err? then objects == old(objects) && r == Err(key.error)
              else && objects == old(objects)[key.value := StoredBy(hex, p)]
                   && r == Checked(RefOfPut(at, hex, p, key.value))
    {
      var key := at.KeyForObjectName(p.name);
      if key.Err? {
        return Err(key.error);
      }
      objects := objects[key.value := StoredBy(hex, p)];
      return Checked(RefOfPut(at, hex, p, key.value));
    }

    method Head(uri: string) returns (r: Result<ObjectInfo, StorageError>)
      ensures r == HeadOf(at, objects, uri)
    {
      var key := at.KeyForUri(uri);
      if key.Err? {
        return Err(key.error);
      }
      if key.value !in objects {
        return Err(ArtifactNotFound);
      }
      return Describe(at, key.value, objects[key.value]);
    }
  }
}
