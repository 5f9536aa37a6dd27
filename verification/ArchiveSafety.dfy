/** The safety rules an uploaded archive must pass before anything reads it
    (app/ingestion/archive_safety.py). */
module ArchiveSafety {
  import opened Basics
  import opened Text
  import opened Paths

  /** What the archive's directory says of one entry. */
  datatype Entry = Entry(name: string, externalAttr: nat, size: nat)

  /** `isAlpha` is `str.isalpha` on one character. */
  datatype Policy = Policy(
    maxCompressed: nat, maxUncompressed: nat, maxFiles: nat, extensions: set<string>, isAlpha: char -> bool)

  datatype Reason =
    | CompressedSizeExceeded | BadZipFile | FileCountExceeded
    | EmptyEntryName | NulByteInEntry | AbsolutePath | WindowsDrivePath | PathTraversal
    | SymlinkEntry | MissingExtension | ForbiddenExtension | UncompressedSizeExceeded

  datatype Report = Report(files: nat, compressed: nat, uncompressed: nat, safeEntries: seq<string>)

  // ---------------------------------------------------------------------------------------------
  // One entry
  // ---------------------------------------------------------------------------------------------

  function PathReason(name: string, isAlpha: char -> bool): Option<Reason> {
    if name == "" then Some(EmptyEntryName)
    else if '\0' in name then Some(NulByteInEntry)
    else if name[0] == '/' then Some(AbsolutePath)
    else if |name| >= 3 && name[1] == ':' && isAlpha(name[0]) then Some(WindowsDrivePath)
    else
      var normalized := Normalised(name);
      if ".." <= normalized || Contains("/" + normalized + "/", "/../") then Some(PathTraversal) else None
  }

  predicate IsSymlink(e: Entry) {
    var mode := e.externalAttr / 0x10000;
    mode != 0 && mode / 0x1000 % 16 == 10
  }

  predicate IsDir(e: Entry) {
    e.name != "" && e.name[|e.name| - 1] == '/'
  }

  function Last<T>(s: seq<T>): T
    requires s != []
  {
    s[|s| - 1]
  }

  /** The text after the last dot of the text after the last slash, if there is a dot. */
  function Extension(name: string): Option<string> {
    var parts := Split(Last(Split(name, '/')), '.');
    if |parts| == 1 then None else Some(Lower(Last(parts)))
  }

  function ExtensionReason(name: string, extensions: set<string>): Option<Reason> {
    match Extension(name)
    case None => Some(MissingExtension)
    case Some(x) => if x in extensions then None else Some(ForbiddenExtension)
  }

  /** The first rule an entry breaks on its own, sizes apart. */
  function EntryReason(e: Entry, policy: Policy): Option<Reason> {
    var path := PathReason(e.name, policy.isAlpha);
    if path.Some? then path
    else if IsSymlink(e) then Some(SymlinkEntry)
    else if IsDir(e) then None
    else ExtensionReason(e.name, policy.extensions)
  }

  /** The extension of a file: what follows the last dot of its base name, in lower case; none without a
      dot there, whatever dots the directories have. */
  lemma ExtensionIs(dir: string, stem: string, suffix: string)
    requires '/' !in stem && '/' !in suffix && '.' !in suffix
    ensures Extension(dir + ['/'] + (stem + ['.'] + suffix)) == Extension(stem + ['.'] + suffix) == Some(Lower(suffix))
    ensures Extension(dir + ['/'] + suffix) == Extension(suffix) == None
  {
    var base := stem + ['.'] + suffix;
    assert '/' !in base;
    SplitConcat(dir, base, '/');
    SplitAtom(base, '/');
    SplitConcat(stem, suffix, '.');
    SplitAtom(suffix, '.');
    SplitConcat(dir, suffix, '/');
    SplitAtom(suffix, '/');
  }

  /** A symbolic link: the file type, which is the top four bits of the upper half of the attributes, is
      ten. */
  lemma SymlinkIff(e: Entry, high: nat, kind: nat, low: nat)
    requires e.externalAttr == 0x1_0000_0000 * high + 0x1000_0000 * kind + low && kind < 16 && low < 0x1000_0000
    ensures IsSymlink(e) <==> kind == 10
  {
    var mode := e.externalAttr / 0x10000;
    assert mode == 0x10000 * high + 0x1000 * kind + low / 0x10000;
    assert mode / 0x1000 == 16 * high + kind;
  }

  /** What an entry is refused for: the first of the faults of its name, then being a link, then, unless
      it is a directory, its extension. */
  lemma EntryReasonIs(e: Entry, policy: Policy)
    ensures var r := EntryReason(e, policy);
            if e.name == "" then r == Some(EmptyEntryName)
            else if '\0' in e.name then r == Some(NulByteInEntry)
            else if e.name[0] == '/' then r == Some(AbsolutePath)
            else if |e.name| >= 3 && e.name[1] == ':' && policy.isAlpha(e.name[0]) then r == Some(WindowsDrivePath)
            else if Destination(e.name) == None || (Destination(e.name).value != [] && ".." <= Destination(e.name).value[0])
            then r == Some(PathTraversal)
            else if IsSymlink(e) then r == Some(SymlinkEntry)
            else if e.name[|e.name| - 1] == '/' then r == None
            else if Extension(e.name) == None then r == Some(MissingExtension)
            else r == if Extension(e.name).value in policy.extensions then None else Some(ForbiddenExtension)
  {
    if e.name != "" && e.name[0] != '/' {
      TraversalIff(e.name);
    }
  }

  // ---------------------------------------------------------------------------------------------
  // The whole archive
  // ---------------------------------------------------------------------------------------------

  function Files(entries: seq<Entry>): seq<Entry> {
    if entries == [] then []
    else Files(entries[..|entries| - 1]) + (if IsDir(Last(entries)) then [] else [Last(entries)])
  }

  function TotalSize(files: seq<Entry>): nat {
    if files == [] then 0 else TotalSize(files[..|files| - 1]) + Last(files).size
  }

  function SafeNames(files: seq<Entry>): seq<string> {
    seq(|files|, i requires 0 <= i < |files| => Normalised(files[i].name))
  }

  /** Why entry k stops the run, given that none before it did. */
  function StopReason(entries: seq<Entry>, policy: Policy, k: nat): Option<Reason>
    requires k < |entries|
  {
    var own := EntryReason(entries[k], policy);
    if own.Some? then own
    else if TotalSize(Files(entries[..k + 1])) > policy.maxUncompressed then Some(UncompressedSizeExceeded)
    else None
  }

  lemma FilesSnoc(entries: seq<Entry>, k: nat)
    requires k < |entries|
    ensures Files(entries[..k + 1]) == Files(entries[..k]) + (if IsDir(entries[k]) then [] else [entries[k]])
    ensures TotalSize(Files(entries[..k + 1])) ==
            TotalSize(Files(entries[..k])) + (if IsDir(entries[k]) then 0 else entries[k].size)
  {
    assert entries[..k + 1][..k] == entries[..k];
    var f := Files(entries[..k]);
    assert (f + [entries[k]])[..|f|] == f && f + [] == f;
  }

  lemma SafeNamesSnoc(files: seq<Entry>, e: Entry)
    ensures SafeNames(files + [e]) == SafeNames(files) + [Normalised(e.name)]
    ensures SafeNames(files + []) == SafeNames(files)
  {
    assert files + [] == files;
  }

  /** None of the first n entries stops the run. */
  ghost predicate Clear(entries: seq<Entry>, policy: Policy, n: nat)
    requires n <= |entries|
  {
    forall k | 0 <= k < n :: StopReason(entries, policy, k) == None
  }

  /** Only the checks on the archive as a whole blame its format, its file count or its compressed size. */
  lemma StopReasonsAreAboutEntries(entries: seq<Entry>, policy: Policy, k: nat)
    requires k < |entries|
    ensures StopReason(entries, policy, k) != Some(CompressedSizeExceeded)
    ensures StopReason(entries, policy, k) != Some(FileCountExceeded)
    ensures StopReason(entries, policy, k) != Some(BadZipFile)
  {
  }

  /** Rejected at the first entry that breaks a rule or takes the running total over the limit;
      accepted exactly when there is none, and then nothing is missing from the report. */
  method ValidateZipStream(entries: seq<Entry>, policy: Policy, compressed: nat) returns (r: Result<Report, Reason>)
    ensures r == Err(FileCountExceeded) <==> |entries| > policy.maxFiles
    ensures r.Ok? <==> |entries| <= policy.maxFiles && Clear(entries, policy, |entries|)
    ensures |entries| <= policy.maxFiles && r.Err? ==>
              exists k | 0 <= k < |entries| :: StopReason(entries, policy, k) == Some(r.error) && Clear(entries, policy, k)
    ensures r.Ok? ==>
              r.value == Report(|Files(entries)|, compressed, TotalSize(Files(entries)), SafeNames(Files(entries)))
  {
    if |entries| > policy.maxFiles {
      return Err(FileCountExceeded);
    }
    var total := 0;
    var safe: seq<string> := [];
    for i := 0 to |entries|
      invariant Clear(entries, policy, i)
      invariant total == TotalSize(Files(entries[..i])) <= policy.maxUncompressed
      invariant safe == SafeNames(Files(entries[..i]))
    {
      var info := entries[i];
      FilesSnoc(entries, i);
      SafeNamesSnoc(Files(entries[..i]), info);
      StopReasonsAreAboutEntries(entries, policy, i);
      var own := EntryReason(info, policy);
      if own.Some? {
        return Err(own.value);
      }
      if IsDir(info) {
        continue;
      }
      total := total + info.size;
      if total > policy.maxUncompressed {
        return Err(UncompressedSizeExceeded);
      }
      var name := NormPath(info.name);
      safe := safe + [name];
    }
    assert entries[..|entries|] == entries;
    return Ok(Report(|safe|, compressed, total, safe));
  }

  /** The same behind the bound on the compressed size, for a stream that may be no zip file at all. */
  method ValidateArchiveSeekable(zip: Option<seq<Entry>>, policy: Policy, compressed: nat) returns (r: Result<Report, Reason>)
    ensures r.Ok? <==>
              && compressed <= policy.maxCompressed && zip.Some? && |zip.value| <= policy.maxFiles
              && Clear(zip.value, policy, |zip.value|)
    ensures r.Ok? ==>
              r.value == Report(|Files(zip.value)|, compressed, TotalSize(Files(zip.value)), SafeNames(Files(zip.value)))
    ensures r == Err(CompressedSizeExceeded) <==> compressed > policy.maxCompressed
    ensures r == Err(BadZipFile) <==> compressed <= policy.maxCompressed && zip.None?
  {
    if compressed > policy.maxCompressed {
      return Err(CompressedSizeExceeded);
    }
    if zip.None? {
      return Err(BadZipFile);
    }
    r := ValidateZipStream(zip.value, policy, compressed);
    forall k | 0 <= k < |zip.value|
      ensures StopReason(zip.value, policy, k) != Some(CompressedSizeExceeded) && StopReason(zip.value, policy, k) != Some(BadZipFile)
    {
      StopReasonsAreAboutEntries(zip.value, policy, k);
    }
  }

  lemma {:induction false} TotalSizeGrows(entries: seq<Entry>, k: nat)
    requires k <= |entries|
    ensures TotalSize(Files(entries[..k])) <= TotalSize(Files(entries))
    decreases |entries| - k
  {
    if k < |entries| {
      FilesSnoc(entries, k);
      TotalSizeGrows(entries, k + 1);
    } else {
      assert entries[..k] == entries;
    }
  }

  /** The running bound is the bound on the total: the order of the entries decides which reason is
      given, never whether the archive is accepted. */
  lemma AcceptedIffTotals(entries: seq<Entry>, policy: Policy)
    ensures Clear(entries, policy, |entries|) <==>
              && (forall k | 0 <= k < |entries| :: EntryReason(entries[k], policy) == None)
              && TotalSize(Files(entries)) <= policy.maxUncompressed
  {
    if Clear(entries, policy, |entries|) {
      forall k | 0 <= k < |entries| ensures EntryReason(entries[k], policy) == None {
        assert StopReason(entries, policy, k) == None;
      }
      if entries != [] {
        assert StopReason(entries, policy, |entries| - 1) == None;
        assert entries[..|entries|] == entries;
      }
    }
    if TotalSize(Files(entries)) <= policy.maxUncompressed {
      forall k | 0 <= k < |entries| && EntryReason(entries[k], policy) == None
        ensures StopReason(entries, policy, k) == None
      {
        TotalSizeGrows(entries, k + 1);
      }
    }
  }

  // ---------------------------------------------------------------------------------------------
  // What an accepted path means
  // ---------------------------------------------------------------------------------------------

  /** Where a relative path leads: nowhere if it leaves the root on the way. */
  function Destination(name: string): Option<seq<string>> {
    Resolve(Split(name, '/'))
  }

  /** A name passes as a path exactly when it is relative, free of NUL and drive letters, never
      climbs above the root on its way, and does not lead below a root entry whose own name starts
      with two dots, which the prefix test takes for a climb. */
  lemma PathAcceptedIff(name: string, isAlpha: char -> bool)
    ensures PathReason(name, isAlpha) == None <==>
              && name != "" && '\0' !in name && name[0] != '/'
              && !(|name| >= 3 && name[1] == ':' && isAlpha(name[0]))
              && Destination(name).Some?
              && (Destination(name).value == [] || !(".." <= Destination(name).value[0]))
  {
    if name != "" && name[0] != '/' {
      TraversalIff(name);
    }
  }

  lemma TraversalIff(name: string)
    requires name != "" && name[0] != '/'
    ensures var n := Normalised(name);
            (".." <= n || Contains("/" + n + "/", "/../")) <==>
              (Destination(name).None? || (Destination(name).value != [] && ".." <= Destination(name).value[0]))
  {
    NormalisedRelative(name);
    var n := Normalised(name);
    if Destination(name).Some? {
      var names := Destination(name).value;
      ResolveNames(Split(name, '/'));
      if Contains("/" + n + "/", "/../") {
        DotDotBetweenSlashes(n);
        NamesHaveNoDotDot(names);
      }
      if names != [] {
        FirstNameStarts(names);
      }
    }
  }

  /** The difference shows: a file in a directory whose name starts with two dots, such as
      `..notes/a.csv`, lies below the root and is refused all the same. */
  lemma DottedDirectoryIsRefused(dir: string, file: string, isAlpha: char -> bool)
    requires IsName(dir) && ".." <= dir && IsName(file) && '\0' !in dir && '\0' !in file
    ensures Destination(dir + ['/'] + file) == Some([dir, file])
    ensures PathReason(dir + ['/'] + file, isAlpha) == Some(PathTraversal)
  {
    var name := dir + ['/'] + file;
    SplitConcat(dir, file, '/');
    SplitAtom(dir, '/');
    SplitAtom(file, '/');
    assert [dir] + [file] == [dir, file];
    ResolveOfNames([dir, file]);
    assert name[0] == '.' && name[1] == '.';
    TraversalIff(name);
  }

  lemma DottedNotesAreRefused(isAlpha: char -> bool)
    ensures PathReason("..notes" + ['/'] + "a.csv", isAlpha) == Some(PathTraversal)
  {
    assert '/' !in "..notes" && '/' !in "a.csv";
    DottedDirectoryIsRefused("..notes", "a.csv", isAlpha);
  }

  lemma NamesHaveNoDotDot(names: seq<string>)
    requires forall i | 0 <= i < |names| :: IsName(names[i])
    ensures ".." !in Split(if names == [] then "." else Join(names, '/'), '/')
  {
    if names == [] {
      SplitAtom(".", '/');
    } else {
      SplitJoin(names, '/');
    }
  }

  lemma FirstNameStarts(names: seq<string>)
    requires names != [] && forall i | 0 <= i < |names| :: IsName(names[i])
    ensures ".." <= Join(names, '/') <==> ".." <= names[0]
  {
    var s := Join(names, '/');
    assert |names| > 1 ==> s == names[0] + ['/'] + Join(names[1..], '/');
  }

  /** Every name in the report of an accepted archive is clean: its segments lead to themselves, so
      reading it back cannot leave the root, and it is the file the archive named, with the same
      base name and hence the same allowed extension. */
  lemma SafeEntryIsClean(e: Entry, policy: Policy)
    requires EntryReason(e, policy) == None && !IsDir(e) && "" !in policy.extensions
    ensures var safe := Normalised(e.name);
            && Destination(safe) == Destination(e.name) == Some(Split(safe, '/'))
            && Last(Split(safe, '/')) == Last(Split(e.name, '/'))
            && Extension(safe).Some? && Extension(safe).value in policy.extensions
  {
    PathAcceptedIff(e.name, policy.isAlpha);
    NormalisedRelative(e.name);
    var comps := Split(e.name, '/');
    ResolveNames(comps);
    BaseIsName(e.name, policy.extensions);
    var names := Destination(e.name).value;
    assert Last(names) == Last(comps);
    SplitJoin(names, '/');
    ResolveOfNames(names);
  }

  /** A file whose extension is not empty has a real base name. */
  lemma BaseIsName(name: string, extensions: set<string>)
    requires name != "" && name[|name| - 1] != '/' && ExtensionReason(name, extensions) == None && "" !in extensions
    ensures IsName(Last(Split(name, '/')))
  {
    var base := Last(Split(name, '/'));
    assert Split([], '.') == [""];
    if base == "." || base == ".." {
      var parts := Split(base, '.');
      DottedEnds(base);
    }
  }

  lemma DottedEnds(base: string)
    requires base != "" && base[|base| - 1] == '.'
    ensures Last(Split(base, '.')) == ""
  {
    var front := base[..|base| - 1];
    assert base == front + ['.'] + "";
    SplitConcat(front, "", '.');
  }
}
