/** The disk model cache (DiskModelCache in lmrs/model_cache.py) over a file tree
    given as maps. The hub root is a map from directory name to repository. In a
    repository, refs are listed in sorted order, and every snapshot entry names the
    object it resolves to: its blob, or itself when it is a plain file. */
module DiskCache {
  import opened Outcomes
  import opened Text
  import opened HubNaming
  import opened CacheStates

  datatype Ref = Ref(name: string, content: Option<string>) // None: unreadable

  datatype Snapshot = Snapshot(
    entries: map<string, string>,            // snapshot-relative name -> object it names
    weightMaps: map<string, set<string>>)    // parsed weight indexes -> shards they name

  datatype Repository = Repository(
    refs: seq<Ref>,
    snapshots: map<string, Snapshot>,
    blobNames: set<string>,
    objects: map<string, nat>)               // resolvable objects and their sizes

  datatype Record = Record(
    modelName: string, runtimeBackend: string, directory: string, revision: string, sizeBytes: nat,
    status: CacheState, weightsPresent: bool, ready: bool,
    broken: set<string>, missingShards: set<string>, incomplete: set<string>)

  /** The LMRS-owned state of one model, kept beside the hub. */
  datatype State = State(ready: bool, metadata: map<string, string>)

  const WEIGHT_SUFFIXES := [".safetensors", ".bin", ".gguf", ".pt", ".pth"]
  const INDEX_NAMES := ["model.safetensors.index.json", "pytorch_model.bin.index.json"]

  // ----- one repository -----

  function FindRef(refs: seq<Ref>, name: string): Option<Ref> {
    if refs == [] then None else if refs[0].name == name then Some(refs[0]) else FindRef(refs[1..], name)
  }

  function FirstReadable(refs: seq<Ref>): Option<string> {
    if refs == [] then None
    else if refs[0].content.Some? then refs[0].content
    else FirstReadable(refs[1..])
  }

  /** The revision a repository points at: main, then master (empty when that one
      is unreadable), then the first readable ref, then the only snapshot. */
  function ResolveRevision(repo: Repository): string {
    var main, master := FindRef(repo.refs, "main"), FindRef(repo.refs, "master");
    if main.Some? then main.value.content.GetOr("")
    else if master.Some? then master.value.content.GetOr("")
    else if FirstReadable(repo.refs).Some? then FirstReadable(repo.refs).value
    else OnlyKey(repo.snapshots)
  }

  function OnlyKey(snapshots: map<string, Snapshot>): string {
    if exists k | k in snapshots :: snapshots.Keys == {k} then
      var k :| k in snapshots && snapshots.Keys == {k};
      k
    else ""
  }

  /** No two refs share a name: they are files of one directory. */
  predicate DistinctRefs(refs: seq<Ref>) {
    forall i, j | 0 <= i < j < |refs| :: refs[i].name != refs[j].name
  }

  predicate NoRefNamed(refs: seq<Ref>, name: string) {
    forall r | r in refs :: r.name != name
  }

  lemma {:induction false} RefFound(refs: seq<Ref>, name: string)
    ensures NoRefNamed(refs, name) <==> FindRef(refs, name).None?
    ensures DistinctRefs(refs) ==> forall r | r in refs && r.name == name :: FindRef(refs, name) == Some(r)
  {
    if refs != [] {
      assert refs == [refs[0]] + refs[1..];
      RefFound(refs[1..], name);
    }
  }

  lemma {:induction false} FirstReadableRef(refs: seq<Ref>, k: nat)
    requires k <= |refs| && forall j | 0 <= j < k :: refs[j].content.None?
    ensures k < |refs| && refs[k].content.Some? ==> FirstReadable(refs) == refs[k].content
    ensures k == |refs| ==> FirstReadable(refs).None?
    decreases k
  {
    if k > 0 {
      FirstReadableRef(refs[1..], k - 1);
    }
  }

  /** Which revision a repository points at: what main says, be it unreadable; without
      a main what master says; without either what the first readable ref says; and
      without a readable ref the only snapshot there is. */
  lemma RevisionMeaning(repo: Repository, r: Ref, k: nat)
    requires DistinctRefs(repo.refs)
    ensures var revision := ResolveRevision(repo);
            && (r in repo.refs && r.name == "main" ==> revision == if r.content.Some? then r.content.value else "")
            && (NoRefNamed(repo.refs, "main") ==>
                  && (r in repo.refs && r.name == "master" ==> revision == if r.content.Some? then r.content.value else "")
                  && (NoRefNamed(repo.refs, "master") && k <= |repo.refs|
                      && (forall j | 0 <= j < k :: repo.refs[j].content.None?) ==>
                        && (k < |repo.refs| && repo.refs[k].content.Some? ==> revision == repo.refs[k].content.value)
                        && (k == |repo.refs| ==>
                              && (forall name :: repo.snapshots.Keys == {name} ==> revision == name)
                              && ((forall name :: repo.snapshots.Keys != {name}) ==> revision == ""))))
  {
    RefFound(repo.refs, "main");
    RefFound(repo.refs, "master");
    if k <= |repo.refs| && forall j | 0 <= j < k :: repo.refs[j].content.None? {
      FirstReadableRef(repo.refs, k);
    }
    OnlyKeyMeaning(repo.snapshots);
  }

  lemma OnlyKeyMeaning(snapshots: map<string, Snapshot>)
    ensures forall name | snapshots.Keys == {name} :: OnlyKey(snapshots) == name
    ensures (forall name :: snapshots.Keys != {name}) ==> OnlyKey(snapshots) == ""
  {
    forall name | snapshots.Keys == {name} ensures OnlyKey(snapshots) == name {
      assert name in snapshots;
      assert OnlyKey(snapshots) in snapshots.Keys;
    }
  }

  function SnapshotDirectory(repo: Repository, revision: string): Option<Snapshot> {
    if revision != "" && revision in repo.snapshots then Some(repo.snapshots[revision]) else None
  }

  predicate EndsWith(s: string, suffix: string) {
    |suffix| <= |s| && s[|s| - |suffix|..] == suffix
  }

  /** The name's last component ends with the suffix and is more than the suffix: ".bin" has none. */
  predicate HasSuffix(name: string, suffix: string) {
    EndsWith(name, suffix) && |suffix| < |name| && name[|name| - |suffix| - 1] != '/'
  }

  predicate IsWeight(name: string) {
    exists i | 0 <= i < |WEIGHT_SUFFIXES| :: HasSuffix(name, WEIGHT_SUFFIXES[i])
  }

  predicate NonEmptyStem(name: string, stem: string, suffix: string) {
    name == stem + suffix && stem != "" && stem[|stem| - 1] != '/'
  }

  /** The names that count as weights, spelled out. */
  lemma WeightNames(name: string)
    ensures IsWeight(name) <==> exists stem ::
              || NonEmptyStem(name, stem, ".safetensors") || NonEmptyStem(name, stem, ".bin")
              || NonEmptyStem(name, stem, ".gguf") || NonEmptyStem(name, stem, ".pt") || NonEmptyStem(name, stem, ".pth")
  {
    forall i | 0 <= i < |WEIGHT_SUFFIXES|
      ensures HasSuffix(name, WEIGHT_SUFFIXES[i]) <==> exists stem :: NonEmptyStem(name, stem, WEIGHT_SUFFIXES[i])
    {
      SuffixMeaning(name, WEIGHT_SUFFIXES[i]);
    }
    assert WEIGHT_SUFFIXES[0] == ".safetensors" && WEIGHT_SUFFIXES[1] == ".bin" && WEIGHT_SUFFIXES[2] == ".gguf";
    assert WEIGHT_SUFFIXES[3] == ".pt" && WEIGHT_SUFFIXES[4] == ".pth";
  }

  lemma SuffixMeaning(name: string, suffix: string)
    ensures HasSuffix(name, suffix) <==> exists stem :: NonEmptyStem(name, stem, suffix)
  {
    if HasSuffix(name, suffix) {
      var stem := name[..|name| - |suffix|];
      assert name == stem + suffix;
      assert NonEmptyStem(name, stem, suffix);
    }
    if stem :| NonEmptyStem(name, stem, suffix) {
      assert name[|name| - |suffix|..] == suffix;
    }
  }

  function Incomplete(repo: Repository): set<string> {
    set b | b in repo.blobNames && EndsWith(b, ".incomplete")
  }

  function Broken(repo: Repository, snapshot: Snapshot): set<string> {
    set n | n in snapshot.entries && snapshot.entries[n] !in repo.objects
  }

  function Weights(snapshot: Snapshot): set<string> {
    set n | n in snapshot.entries && IsWeight(n)
  }

  predicate IsFile(repo: Repository, snapshot: Snapshot, name: string) {
    name in snapshot.entries && snapshot.entries[name] in repo.objects
  }

  function MissingShards(repo: Repository, snapshot: Snapshot): set<string> {
    set i, shard | 0 <= i < |INDEX_NAMES| && IsFile(repo, snapshot, INDEX_NAMES[i])
                && INDEX_NAMES[i] in snapshot.weightMaps && shard in snapshot.weightMaps[INDEX_NAMES[i]]
                && !IsFile(repo, snapshot, shard) :: shard
  }

  /** The objects that some of a snapshot's entries name and that resolve: entries
      naming the same blob contribute it once. */
  function ResolvedAmong(repo: Repository, snapshot: Snapshot, names: set<string>): set<string> {
    set n | n in names && n in snapshot.entries && snapshot.entries[n] in repo.objects :: snapshot.entries[n]
  }

  function Resolved(repo: Repository, snapshot: Snapshot): set<string> {
    ResolvedAmong(repo, snapshot, snapshot.entries.Keys)
  }

  ghost function TotalSize(objects: set<string>, sizes: map<string, nat>): nat
    decreases |objects|
  {
    if objects == {} then 0
    else
      var x := Least(objects);
      (if x in sizes then sizes[x] else 0) + TotalSize(objects - {x}, sizes)
  }

  lemma {:induction false} TotalSizeAdd(objects: set<string>, sizes: map<string, nat>, x: string)
    requires x in sizes && x !in objects
    ensures TotalSize(objects + {x}, sizes) == TotalSize(objects, sizes) + sizes[x]
    decreases |objects|
  {
    var all := objects + {x};
    var least := Least(all);
    if least == x {
      assert all - {x} == objects;
    } else {
      var rest := objects - {least};
      assert all - {least} == rest + {x};
      TotalSizeAdd(rest, sizes, x);
      StrLeAntisymmetric(least, Least(objects));
    }
  }

  /** What the size loop holds once it has looked at some of the entries. */
  ghost predicate SizedSoFar(repo: Repository, snapshot: Snapshot, done: set<string>, counted: set<string>, total: nat) {
    counted == ResolvedAmong(repo, snapshot, done) && total == TotalSize(counted, repo.objects)
  }

  lemma SizedStep(repo: Repository, snapshot: Snapshot, done: set<string>, counted: set<string>, total: nat, name: string)
    requires name in snapshot.entries && SizedSoFar(repo, snapshot, done, counted, total)
    ensures var key := snapshot.entries[name];
            if key in repo.objects && key !in counted then
              SizedSoFar(repo, snapshot, done + {name}, counted + {key}, total + repo.objects[key])
            else
              SizedSoFar(repo, snapshot, done + {name}, counted, total)
  {
    var key := snapshot.entries[name];
    var after := ResolvedAmong(repo, snapshot, done + {name});
    if key in repo.objects && key !in counted {
      assert after == counted + {key};
      TotalSizeAdd(counted, repo.objects, key);
    } else {
      assert after == counted;
    }
  }

  /** The size of a snapshot: every resolvable blob once, however many entries name it. */
  method SnapshotSizeBytes(repo: Repository, snapshot: Snapshot) returns (total: nat)
    ensures total == TotalSize(Resolved(repo, snapshot), repo.objects)
  {
    total := 0;
    var counted: set<string> := {};
    var rest := snapshot.entries.Keys;
    ghost var done: set<string> := {};
    while rest != {}
      invariant done + rest == snapshot.entries.Keys
      invariant SizedSoFar(repo, snapshot, done, counted, total)
      decreases |rest|
    {
      var name :| name in rest;
      var key := snapshot.entries[name];
      SizedStep(repo, snapshot, done, counted, total, name);
      if key in repo.objects && key !in counted {
        counted := counted + {key};
        total := total + repo.objects[key];
      }
      done := done + {name};
      rest := rest - {name};
    }
    assert done == snapshot.entries.Keys;
  }

  // ----- the record of one model -----

  predicate Complete(repo: Repository, snapshot: Snapshot) {
    && Weights(snapshot) != {}
    && Broken(repo, snapshot) == {}
    && MissingShards(repo, snapshot) == {}
    && Incomplete(repo) == {}
  }

  type Hub = map<string, Repository>
  type StateRoot = map<string, State>

  /** The entry is there and resolves. */
  predicate Resolves(repo: Repository, snapshot: Snapshot, name: string) {
    name in snapshot.entries.Keys && snapshot.entries[name] in repo.objects.Keys
  }

  /** If this weight index can be read, every shard it names is there. */
  ghost predicate ShardsPresent(repo: Repository, snapshot: Snapshot, index: string) {
    Resolves(repo, snapshot, index) && index in snapshot.weightMaps ==>
      forall shard | shard in snapshot.weightMaps[index] :: Resolves(repo, snapshot, shard)
  }

  ghost predicate StillDownloading(repo: Repository) {
    exists b, stem :: b in repo.blobNames && b == stem + ".incomplete"
  }

  lemma IncompleteMeaning(repo: Repository)
    ensures Incomplete(repo) != {} <==> StillDownloading(repo)
  {
    if b :| b in Incomplete(repo) {
      assert b == b[..|b| - 11] + ".incomplete";
    }
    if b, stem :| b in repo.blobNames && b == stem + ".incomplete" {
      assert b[|b| - 11..] == ".incomplete";
      assert b in Incomplete(repo);
    }
  }

  /** What a complete snapshot is, in terms of the tree: some weights, every entry
      and every shard resolving, no blob still coming in. */
  lemma CompleteMeaning(repo: Repository, snapshot: Snapshot)
    ensures Complete(repo, snapshot) <==>
              && (exists n :: n in snapshot.entries && IsWeight(n))
              && (forall n | n in snapshot.entries :: snapshot.entries[n] in repo.objects)
              && ShardsPresent(repo, snapshot, "model.safetensors.index.json")
              && ShardsPresent(repo, snapshot, "pytorch_model.bin.index.json")
              && !StillDownloading(repo)
  {
    IncompleteMeaning(repo);
    ShardsMeaning(repo, snapshot);
    if n: string :| n in snapshot.entries && IsWeight(n) {
      assert n in Weights(snapshot);
    }
    if Broken(repo, snapshot) == {} {
      assert forall n | n in snapshot.entries :: n !in Broken(repo, snapshot);
    }
  }

  lemma ShardsMeaning(repo: Repository, snapshot: Snapshot)
    ensures MissingShards(repo, snapshot) == {} <==>
              && ShardsPresent(repo, snapshot, "model.safetensors.index.json")
              && ShardsPresent(repo, snapshot, "pytorch_model.bin.index.json")
  {
    assert INDEX_NAMES[0] == "model.safetensors.index.json" && INDEX_NAMES[1] == "pytorch_model.bin.index.json";
    forall i | 0 <= i < |INDEX_NAMES| && MissingShards(repo, snapshot) == {}
      ensures ShardsPresent(repo, snapshot, INDEX_NAMES[i])
    {
      var index := INDEX_NAMES[i];
      if IsFile(repo, snapshot, index) && index in snapshot.weightMaps {
        forall shard | shard in snapshot.weightMaps[index] ensures IsFile(repo, snapshot, shard) {
          assert shard !in MissingShards(repo, snapshot);
        }
      }
    }
  }

  /** The hub holds a complete snapshot of the model at the revision its directory points at. */
  predicate OnDisk(hub: Hub, modelName: string) {
    var directory := RepoDirectoryName(modelName);
    directory in hub &&
    var snapshot := SnapshotDirectory(hub[directory], ResolveRevision(hub[directory]));
    snapshot.Some? && Complete(hub[directory], snapshot.value)
  }

  /** The record read from one repository. */
  ghost function Describe(repo: Repository, directory: string, ready: bool, backend: string, modelName: string): Record {
    var revision := ResolveRevision(repo);
    var snapshot := SnapshotDirectory(repo, revision);
    var incomplete := Incomplete(repo);
    if snapshot.None? then
      Record(modelName, backend, directory, revision, 0, if incomplete != {} then Caching else CacheFailed,
             false, ready, {}, {}, incomplete)
    else
      var s := snapshot.value;
      Record(modelName, backend, directory, revision, TotalSize(Resolved(repo, s), repo.objects),
             if incomplete != {} then Caching else if Complete(repo, s) then CachedOnDisk else CacheFailed,
             Weights(s) != {}, ready, Broken(repo, s), MissingShards(repo, s), incomplete)
  }

  /** The snapshot that counts is the one the resolved revision names. */
  lemma OnDiskMeaning(hub: Hub, modelName: string)
    ensures OnDisk(hub, modelName) <==>
              var d := RepoDirectoryName(modelName);
              && d in hub
              && ResolveRevision(hub[d]) != "" && ResolveRevision(hub[d]) in hub[d].snapshots
              && Complete(hub[d], hub[d].snapshots[ResolveRevision(hub[d])])
  {}

  /** An object is paid for exactly when it exists and some entry names it, and the size adds up, from nothing, object by object. */
  lemma SizeMeaning(repo: Repository, snapshot: Snapshot, objects: set<string>, x: string)
    ensures x in Resolved(repo, snapshot) <==>
              x in repo.objects && exists n :: n in snapshot.entries && snapshot.entries[n] == x
    ensures TotalSize({}, repo.objects) == 0
    ensures x in repo.objects && x !in objects ==>
              TotalSize(objects + {x}, repo.objects) == TotalSize(objects, repo.objects) + repo.objects[x]
  {
    if x in repo.objects && x !in objects { TotalSizeAdd(objects, repo.objects, x); }
  }

  predicate ReadyIn(state: StateRoot, directory: string) {
    directory in state && state[directory].ready
  }

  ghost function ScanRecord(hub: Hub, state: StateRoot, backend: string, modelName: string): Option<Record> {
    var directory := RepoDirectoryName(modelName);
    if directory !in hub then None
    else Some(Describe(hub[directory], directory, ReadyIn(state, directory), backend, modelName))
  }

  function SeededRecord(records: seq<Record>, modelName: string): (found: Option<Record>)
    ensures found.None? <==> forall r | r in records :: r.modelName != modelName
    ensures found.Some? ==> found.value in records && found.value.modelName == modelName
  {
    if records == [] then None
    else if records[0].modelName == modelName then Some(records[0])
    else
      assert records == [records[0]] + records[1..];
      SeededRecord(records[1..], modelName)
  }

  /** What the lists of a scanned record hold. */
  lemma ProblemLists(hub: Hub, state: StateRoot, backend: string, modelName: string, name: string)
    requires RepoDirectoryName(modelName) in hub
    ensures var repo := hub[RepoDirectoryName(modelName)];
            var r := ScanRecord(hub, state, backend, modelName).value;
            && (name in r.incomplete <==> name in repo.blobNames && exists stem :: name == stem + ".incomplete")
            && (ResolveRevision(repo) in repo.snapshots && ResolveRevision(repo) != "" ==>
                  var s := repo.snapshots[ResolveRevision(repo)];
                  && (name in r.broken <==> name in s.entries && s.entries[name] !in repo.objects)
                  && (name in r.missingShards <==>
                        !Resolves(repo, s, name)
                        && (NamesShard(repo, s, "model.safetensors.index.json", name)
                            || NamesShard(repo, s, "pytorch_model.bin.index.json", name)))
                  && (r.weightsPresent <==> exists n :: n in s.entries && IsWeight(n))
                  && r.sizeBytes == TotalSize(Resolved(repo, s), repo.objects))
            && (ResolveRevision(repo) !in repo.snapshots || ResolveRevision(repo) == "" ==>
                  r.broken == {} && r.missingShards == {} && !r.weightsPresent && r.sizeBytes == 0)
  {
    var repo := hub[RepoDirectoryName(modelName)];
    assert INDEX_NAMES[0] == "model.safetensors.index.json" && INDEX_NAMES[1] == "pytorch_model.bin.index.json";
    if name in Incomplete(repo) { assert name == name[..|name| - 11] + ".incomplete"; }
    if stem :| name == stem + ".incomplete" { assert name[|name| - 11..] == ".incomplete"; }
    if ResolveRevision(repo) in repo.snapshots {
      var s := repo.snapshots[ResolveRevision(repo)];
      if n: string :| n in s.entries && IsWeight(n) { assert n in Weights(s); }
    }
  }

  /** A weight index that can be read names the shard. */
  predicate NamesShard(repo: Repository, snapshot: Snapshot, index: string, shard: string) {
    Resolves(repo, snapshot, index) && index in snapshot.weightMaps && shard in snapshot.weightMaps[index]
  }

  /** Of several supplied records with the name, the first one answers. */
  lemma {:induction false} FirstSuppliedAnswers(records: seq<Record>, modelName: string, i: nat)
    requires i < |records| && records[i].modelName == modelName
    requires forall j | 0 <= j < i :: records[j].modelName != modelName
    ensures SeededRecord(records, modelName) == Some(records[i])
    decreases i
  {
    if i > 0 { FirstSuppliedAnswers(records[1..], modelName, i - 1); }
  }

  /** The directory is the truth; a caller-supplied record answers only where it says nothing. */
  ghost function RecordOf(hub: Hub, state: StateRoot, records: seq<Record>, backend: string, modelName: string)
    : (found: Option<Record>)
    ensures found.Some? ==> found.value.modelName == modelName
  {
    var scanned := ScanRecord(hub, state, backend, modelName);
    if scanned.Some? then scanned else SeededRecord(records, modelName)
  }

  datatype CacheReason =
    | NotCachedReason | IncompleteReason | DeleteFailed | Corrupted
    | HubUnavailable | PreloadFailed | MetadataWriteFailed

  datatype CacheResult = CacheResult(status: CacheState, success: bool, reason: Option<CacheReason>, record: Option<Record>)

  function StatusOf(record: Option<Record>): CacheResult {
    match record
    case None => CacheResult(NotCached, false, Some(NotCachedReason), None)
    case Some(r) =>
      CacheResult(r.status, r.status == CachedOnDisk, if r.status == CachedOnDisk then None else Some(IncompleteReason), Some(r))
  }

  /** The caller supplied a record claiming the model is cached. */
  predicate ClaimedCached(records: seq<Record>, modelName: string) {
    SeededRecord(records, modelName).Some? && SeededRecord(records, modelName).value.status == CachedOnDisk
  }

  /** When a model counts as cached: on disk where the hub has its directory, and on
      the word of a supplied record where it has none. */
  lemma ReportedCached(hub: Hub, state: StateRoot, records: seq<Record>, backend: string, modelName: string)
    ensures StatusOf(RecordOf(hub, state, records, backend, modelName)).success <==>
              if RepoDirectoryName(modelName) in hub then OnDisk(hub, modelName) else ClaimedCached(records, modelName)
  {}

  /** "Cached" is the truth about the disk exactly unless a supplied record speaks
      for a model whose directory is missing. */
  lemma CachedIsOnDisk(hub: Hub, state: StateRoot, records: seq<Record>, backend: string, modelName: string)
    ensures (StatusOf(RecordOf(hub, state, records, backend, modelName)).success <==> OnDisk(hub, modelName))
       <==> RepoDirectoryName(modelName) in hub || !ClaimedCached(records, modelName)
  {
    ReportedCached(hub, state, records, backend, modelName);
  }

  /** On an empty hub a supplied record still makes a model count as cached. */
  lemma ClaimedOnEmptyHub(claim: Record, backend: string)
    requires claim.status == CachedOnDisk
    ensures StatusOf(RecordOf(map[], map[], [claim], backend, claim.modelName)).success
    ensures !OnDisk(map[], claim.modelName)
  {}

  // ----- integrity -----

  /** What integrity is documented to mean: the snapshot is complete and has a config. */
  predicate DocumentedIntegrity(hub: Hub, modelName: string) {
    OnDisk(hub, modelName) && HasConfig(hub, modelName)
  }

  predicate HasConfig(hub: Hub, modelName: string) {
    var directory := RepoDirectoryName(modelName);
    directory in hub &&
    var snapshot := SnapshotDirectory(hub[directory], ResolveRevision(hub[directory]));
    snapshot.Some? && IsFile(hub[directory], snapshot.value, "config.json")
  }

  /** The integrity verdict differs from the documented one exactly for a complete
      snapshot without a config, and for a model without a directory that a supplied
      record calls cached and free of problems. */
  lemma IntegrityIgnoresConfig(hub: Hub, state: StateRoot, records: seq<Record>, backend: string, modelName: string)
    ensures var record := RecordOf(hub, state, records, backend, modelName);
            (record.Some? && Intact(record.value) <==> DocumentedIntegrity(hub, modelName))
            <==> if RepoDirectoryName(modelName) in hub then !OnDisk(hub, modelName) || HasConfig(hub, modelName)
                 else SeededRecord(records, modelName).Some? ==> !Intact(SeededRecord(records, modelName).value)
  {}

  const WEIGHTS_ONLY := Snapshot(map["model.safetensors" := "blob"], map[])
  const WEIGHTS_ONLY_REPOSITORY := Repository([Ref("main", Some("r1"))], map["r1" := WEIGHTS_ONLY], {"blob"}, map["blob" := 1])

  /** A snapshot holding one weight file and nothing else passes the integrity check. */
  lemma WeightsAloneAreIntact(state: StateRoot, backend: string, modelName: string)
    ensures var hub := map[RepoDirectoryName(modelName) := WEIGHTS_ONLY_REPOSITORY];
            var record := ScanRecord(hub, state, backend, modelName);
            record.Some? && Intact(record.value) && !DocumentedIntegrity(hub, modelName)
  {
    var name := "model.safetensors";
    assert HasSuffix(name, WEIGHT_SUFFIXES[0]);
    assert name in Weights(WEIGHTS_ONLY);
    assert !EndsWith("blob", ".incomplete");
    assert Complete(WEIGHTS_ONLY_REPOSITORY, WEIGHTS_ONLY);
  }

  // ----- listing -----

  function RepositoryNames(hub: Hub): set<string> {
    set d | d in hub && IsRepoDirectory(d) && ModelNameFromRepoDirectory(d) != "" :: ModelNameFromRepoDirectory(d)
  }

  function SeededNames(records: seq<Record>, names: set<string>): (seeded: seq<string>)
    ensures forall n | n in seeded :: n !in names
  {
    if records == [] then []
    else (if records[0].modelName !in names then [records[0].modelName] else []) + SeededNames(records[1..], names)
  }

  /** The supplied names that are listed: every record's, in order, unless the hub has it. */
  lemma {:induction false} SeededNamesMeaning(records: seq<Record>, names: set<string>, n: string)
    ensures n in SeededNames(records, names) <==> n !in names && exists r | r in records :: r.modelName == n
    ensures (forall r | r in records :: r.modelName !in names) ==>
              && |SeededNames(records, names)| == |records|
              && forall i | 0 <= i < |records| :: SeededNames(records, names)[i] == records[i].modelName
  {
    if records != [] {
      assert records == [records[0]] + records[1..];
      SeededNamesMeaning(records[1..], names, n);
    }
  }

  ghost function Listing(hub: Hub, state: StateRoot, records: seq<Record>, backend: string, names: seq<string>): seq<Record> {
    if names == [] then []
    else
      Entry(hub, state, records, backend, names[0]) + Listing(hub, state, records, backend, names[1..])
  }

  ghost function Entry(hub: Hub, state: StateRoot, records: seq<Record>, backend: string, name: string): seq<Record> {
    var record := RecordOf(hub, state, records, backend, name);
    if record.Some? then [record.value] else []
  }

  lemma Associative<T>(a: seq<T>, b: seq<T>, c: seq<T>)
    ensures a + (b + c) == (a + b) + c
  {}

  lemma {:induction false} ListingOfConcat(hub: Hub, state: StateRoot, records: seq<Record>, backend: string, a: seq<string>, b: seq<string>)
    ensures Listing(hub, state, records, backend, a + b)
         == Listing(hub, state, records, backend, a) + Listing(hub, state, records, backend, b)
  {
    if a == [] {
      assert a + b == b;
    } else {
      assert (a + b)[0] == a[0] && (a + b)[1..] == a[1..] + b;
      ListingOfConcat(hub, state, records, backend, a[1..], b);
      Associative(Entry(hub, state, records, backend, a[0]),
                  Listing(hub, state, records, backend, a[1..]), Listing(hub, state, records, backend, b));
    }
  }

  ghost function ListNames(hub: Hub, records: seq<Record>): seq<string> {
    SortedSet(RepositoryNames(hub)) + SeededNames(records, RepositoryNames(hub))
  }

  // ----- the cache -----

  /** Where a deletion's file removal breaks off, if it does, and what it leaves. */
  datatype DeleteFault = NoFault | RepositoryFault(leftRepository: Option<Repository>) | StateFault(leftState: Option<State>)

  /** What the hub client does when asked to download. */
  datatype Download = ClientMissing | DownloadRaises(hub: Hub) | Downloaded(hub: Hub)

  function Put<V>(m: map<string, V>, key: string, value: Option<V>): map<string, V> {
    if value.Some? then m[key := value.value] else m - {key}
  }

  class DiskModelCache {
    var hub: Hub
    var state: StateRoot
    var records: seq<Record>
    const runtimeBackend: string

    /** Directory names are single path components. */
    ghost predicate Valid()
      reads this
    {
      forall d | d in hub :: '/' !in d
    }

    constructor (hub: Hub, state: StateRoot, records: seq<Record>, runtimeBackend: string)
      requires forall d | d in hub :: '/' !in d
      ensures this.hub == hub && this.state == state && this.records == records && this.runtimeBackend == runtimeBackend
      ensures Valid()
    {
      this.hub, this.state, this.records, this.runtimeBackend := hub, state, records, runtimeBackend;
    }

    ghost function Current(modelName: string): Option<Record>
      reads this
    {
      RecordOf(hub, state, records, runtimeBackend, modelName)
    }

    method Scan(modelName: string) returns (found: Option<Record>)
      ensures found == ScanRecord(hub, state, runtimeBackend, modelName)
      ensures found.Some? <==> RepoDirectoryName(modelName) in hub
      ensures found.Some? ==>
                && found.value.modelName == modelName && found.value.directory == RepoDirectoryName(modelName)
                && (found.value.status == CachedOnDisk <==> OnDisk(hub, modelName))
                && (found.value.status == Caching <==> StillDownloading(hub[RepoDirectoryName(modelName)]))
                && (found.value.status == CacheFailed <==>
                      !OnDisk(hub, modelName) && !StillDownloading(hub[RepoDirectoryName(modelName)]))
                && found.value.runtimeBackend == runtimeBackend
                && (found.value.ready <==> RepoDirectoryName(modelName) in state && state[RepoDirectoryName(modelName)].ready)
                && found.value.revision == ResolveRevision(hub[RepoDirectoryName(modelName)])
    {
      var directory := RepoDirectoryName(modelName);
      if directory !in hub { return None; }
      var repo := hub[directory];
      var revision := ResolveRevision(repo);
      var snapshot := SnapshotDirectory(repo, revision);
      var incomplete := Incomplete(repo);
      IncompleteMeaning(repo);
      var ready := ReadyIn(state, directory);
      if snapshot.None? {
        return Some(Record(modelName, runtimeBackend, directory, revision, 0,
                           if incomplete != {} then Caching else CacheFailed, false, ready, {}, {}, incomplete));
      }
      var weights := Weights(snapshot.value);
      var broken := Broken(repo, snapshot.value);
      var missing := MissingShards(repo, snapshot.value);
      var size := SnapshotSizeBytes(repo, snapshot.value);
      var complete := weights != {} && broken == {} && missing == {} && incomplete == {};
      var status := CacheFailed;
      if incomplete != {} {
        status := Caching;
      } else if complete {
        status := CachedOnDisk;
      }
      found := Some(Record(modelName, runtimeBackend, directory, revision, size, status, weights != {}, ready,
                           broken, missing, incomplete));
    }

    method Find(modelName: string) returns (found: Option<Record>)
      ensures found == Current(modelName)
    {
      found := Scan(modelName);
      if found.None? {
        found := SeededRecord(records, modelName);
      }
    }

    method Status(modelName: string) returns (result: CacheResult)
      ensures result == StatusOf(Current(modelName))
      ensures result.success <==>
                if RepoDirectoryName(modelName) in hub then OnDisk(hub, modelName) else ClaimedCached(records, modelName)
      ensures result.record == Current(modelName)
      ensures Current(modelName).None? ==> result.status == NotCached && result.reason == Some(NotCachedReason)
      ensures Current(modelName).Some? ==>
                && result.status == Current(modelName).value.status
                && result.reason == if result.success then None else Some(IncompleteReason)
    {
      var record := Find(modelName);
      result := StatusOf(record);
    }

    /** Success removes the repository, the state and the supplied record of the
        model, and nothing else; a failure says so and keeps the supplied records. */
    method Delete(modelName: string, fault: DeleteFault) returns (result: CacheResult)
      requires Valid()
      modifies this
      ensures Valid()
      ensures old(Current(modelName)).None? ==>
                && result == CacheResult(NotCached, false, Some(NotCachedReason), None)
                && hub == old(hub) && state == old(state) && records == old(records)
      ensures result.success ==>
                && result.status == NotCached
                && hub == old(hub) - {RepoDirectoryName(modelName)}
                && state == old(state) - {RepoDirectoryName(modelName)}
                && records == WithoutModel(old(records), modelName)
      ensures !result.success ==> records == old(records)
      ensures result.success <==>
                && old(Current(modelName)).Some?
                && !(fault.RepositoryFault? && RepoDirectoryName(modelName) in old(hub))
                && !(fault.StateFault? && RepoDirectoryName(modelName) in old(state))
      ensures !result.success && old(Current(modelName)).Some? ==>
                && result.reason == Some(DeleteFailed) && result.status == old(Current(modelName)).value.status
      ensures result.record == old(Current(modelName))
      // a repository that could not be removed keeps the state; a state that could not be removed stays without its repository
      ensures !result.success && RepoDirectoryName(modelName) in old(hub) && fault.RepositoryFault? ==>
                state == old(state) && hub == Put(old(hub), RepoDirectoryName(modelName), fault.leftRepository)
      ensures !result.success && fault.StateFault? && old(Current(modelName)).Some? ==>
                && hub == old(hub) - {RepoDirectoryName(modelName)}
                && state == Put(old(state), RepoDirectoryName(modelName), fault.leftState)
      ensures forall d | d != RepoDirectoryName(modelName) ::
                && (d in hub <==> d in old(hub)) && (d in hub ==> hub[d] == old(hub)[d])
                && (d in state <==> d in old(state)) && (d in state ==> state[d] == old(state)[d])
    {
      var record := Find(modelName);
      if record.None? {
        return CacheResult(NotCached, false, Some(NotCachedReason), None);
      }
      var directory := RepoDirectoryName(modelName);
      DirectoryIsOneComponent(modelName);
      if directory in hub {
        if fault.RepositoryFault? {
          hub := Put(hub, directory, fault.leftRepository);
          return CacheResult(record.value.status, false, Some(DeleteFailed), record);
        }
        hub := hub - {directory};
      }
      if directory in state {
        if fault.StateFault? {
          state := Put(state, directory, fault.leftState);
          return CacheResult(record.value.status, false, Some(DeleteFailed), record);
        }
        state := state - {directory};
      }
      records := WithoutModel(records, modelName);
      result := CacheResult(NotCached, true, None, record);
    }

    /** Preloading succeeds at once for a model that counts as cached, on the word of
        a supplied record too, and otherwise exactly when a download lands that is complete on disk. */
    method Preload(modelName: string, download: Download, markerWritable: bool) returns (result: CacheResult)
      requires Valid()
      requires download.ClientMissing? || forall d | d in download.hub :: '/' !in d
      modifies this
      ensures Valid() && records == old(records)
      ensures result.success <==>
                || old(StatusOf(Current(modelName))).success
                || (download.Downloaded? && OnDisk(download.hub, modelName))
      ensures result.success ==> StatusOf(Current(modelName)).success && result.status == CachedOnDisk
      ensures result.success && !OnDisk(hub, modelName) ==>
                hub == old(hub) && RepoDirectoryName(modelName) !in hub && ClaimedCached(records, modelName)
      ensures result.success && markerWritable ==>
                RepoDirectoryName(modelName) in state && state[RepoDirectoryName(modelName)].ready
      ensures !result.success ==> state == old(state)
      ensures !result.success ==>
                match download
                case ClientMissing => result == CacheResult(NotCached, false, Some(HubUnavailable), None) && hub == old(hub)
                case DownloadRaises(left) => result == CacheResult(CacheFailed, false, Some(PreloadFailed), None) && hub == left
                case Downloaded(landed) =>
                  && result.reason == Some(PreloadFailed) && hub == landed
                  && result.record == ScanRecord(landed, state, runtimeBackend, modelName)
                  && result.status == if result.record.Some? then result.record.value.status else NotCached
      ensures hub != old(hub) ==> !old(StatusOf(Current(modelName))).success && !download.ClientMissing? && hub == download.hub
      ensures old(StatusOf(Current(modelName))).success ==> result.success && result.record == old(Current(modelName))
    {
      var existing := Find(modelName);
      if existing.Some? && existing.value.status == CachedOnDisk {
        WriteReadinessMarker(modelName, markerWritable);
        return CacheResult(CachedOnDisk, true, None, existing);
      }
      match download {
        case ClientMissing =>
          return CacheResult(NotCached, false, Some(HubUnavailable), None);
        case DownloadRaises(left) =>
          hub := left;
          return CacheResult(CacheFailed, false, Some(PreloadFailed), None);
        case Downloaded(landed) =>
          hub := landed;
      }
      var record := Scan(modelName);
      if record.None? || record.value.status != CachedOnDisk {
        return CacheResult(if record.Some? then record.value.status else NotCached, false, Some(PreloadFailed), record);
      }
      WriteReadinessMarker(modelName, markerWritable);
      result := CacheResult(record.value.status, true, None, record);
    }

    method WriteReadinessMarker(modelName: string, writable: bool)
      modifies this`state
      ensures !writable ==> state == old(state)
      ensures writable ==>
                var d := RepoDirectoryName(modelName);
                state == old(state)[d := State(true, if d in old(state) then old(state)[d].metadata else map[])]
      ensures StatusOf(Current(modelName)).success == old(StatusOf(Current(modelName)).success)
    {
      if writable {
        state := Marked(state, RepoDirectoryName(modelName));
      }
    }

    /** Integrity is what the record says, with no file beyond the weights required. */
    method CheckIntegrity(modelName: string) returns (result: CacheResult)
      ensures result.success <==>
                && Current(modelName).Some? && Current(modelName).value.status == CachedOnDisk
                && Current(modelName).value.broken == {} && Current(modelName).value.missingShards == {}
                && Current(modelName).value.incomplete == {} && Current(modelName).value.weightsPresent
      ensures Current(modelName).None? ==> result.status == NotCached && result.reason == Some(NotCachedReason)
      ensures Current(modelName).Some? && !result.success ==> result.status == CacheFailed && result.reason == Some(Corrupted)
      ensures ScanRecord(hub, state, runtimeBackend, modelName).Some? ==>
                (result.success <==> OnDisk(hub, modelName))
    {
      var record := Find(modelName);
      if record.None? {
        return CacheResult(NotCached, false, Some(NotCachedReason), None);
      }
      var problems := 0;
      if record.value.broken != {} { problems := problems + 1; }
      if record.value.missingShards != {} { problems := problems + 1; }
      if record.value.incomplete != {} { problems := problems + 1; }
      if !record.value.weightsPresent { problems := problems + 1; }
      var success := record.value.status == CachedOnDisk && problems == 0;
      result := CacheResult(if success then record.value.status else CacheFailed, success,
                            if success then None else Some(Corrupted), record);
    }

    /** Stored metadata is merged, the new values winning, and outlives the call only when written. */
    method UpdateMetadata(modelName: string, metadata: map<string, string>, writable: bool) returns (result: CacheResult)
      modifies this`state
      ensures result.success <==> old(Current(modelName)).Some? && writable
      ensures !result.success ==> state == old(state)
      ensures !result.success ==>
                result.reason == Some(if old(Current(modelName)).None? then NotCachedReason else MetadataWriteFailed)
      ensures result.success ==>
                var d := RepoDirectoryName(modelName);
                var before := if d in old(state) then old(state)[d] else State(false, map[]);
                state == old(state)[d := State(before.ready, before.metadata + metadata)]
    {
      var record := Find(modelName);
      if record.None? {
        return CacheResult(NotCached, false, Some(NotCachedReason), None);
      }
      if !writable {
        return CacheResult(record.value.status, false, Some(MetadataWriteFailed), record);
      }
      var directory := RepoDirectoryName(modelName);
      var stored := if directory in state then state[directory] else State(false, map[]);
      state := state[directory := State(stored.ready, stored.metadata + metadata)];
      result := CacheResult(record.value.status, true, None, record);
    }

    method ListModels() returns (listing: seq<Record>)
      ensures listing == Listing(hub, state, records, runtimeBackend, ListNames(hub, records))
    {
      var repositoryNames := RepositoryNames(hub);
      var names := Sort(repositoryNames);
      names := names + SeededNames(records, repositoryNames);
      listing := RecordsOf(names);
    }

    method RecordsOf(names: seq<string>) returns (listing: seq<Record>)
      ensures listing == Listing(hub, state, records, runtimeBackend, names)
    {
      listing := [];
      for i := 0 to |names|
        invariant listing == Listing(hub, state, records, runtimeBackend, names[..i])
      {
        var record := Find(names[i]);
        assert names[..i + 1] == names[..i] + [names[i]];
        ListingOfConcat(hub, state, records, runtimeBackend, names[..i], [names[i]]);
        if record.Some? { listing := listing + [record.value]; }
      }
      assert names[..|names|] == names;
    }
  }

  function WithoutModel(records: seq<Record>, modelName: string): (kept: seq<Record>)
    ensures forall r :: r in kept <==> r in records && r.modelName != modelName
  {
    if records == [] then []
    else
      assert records == [records[0]] + records[1..];
      (if records[0].modelName != modelName then [records[0]] else []) + WithoutModel(records[1..], modelName)
  }

  function Marked(state: StateRoot, directory: string): StateRoot {
    state[directory := if directory in state then state[directory].(ready := true) else State(true, map[])]
  }

  predicate Intact(r: Record) {
    r.status == CachedOnDisk && r.broken == {} && r.missingShards == {} && r.incomplete == {} && r.weightsPresent
  }

  // ----- what deleting and listing guarantee -----

  lemma {:induction false} SeededWithout(records: seq<Record>, modelName: string, n: string)
    requires n != modelName
    ensures SeededRecord(WithoutModel(records, modelName), n) == SeededRecord(records, n)
  {
    if records != [] {
      SeededWithout(records[1..], modelName, n);
      if records[0].modelName != modelName {
        var kept := WithoutModel(records, modelName);
        assert kept[0] == records[0] && kept[1..] == WithoutModel(records[1..], modelName);
      } else {
        assert WithoutModel(records, modelName) == WithoutModel(records[1..], modelName);
      }
    }
  }

  lemma ScanDependsOnDirectory(hub: Hub, state: StateRoot, hub': Hub, state': StateRoot, backend: string, n: string)
    requires var d := RepoDirectoryName(n);
             && (d in hub <==> d in hub') && (d in hub ==> hub[d] == hub'[d])
             && (ReadyIn(state, d) <==> ReadyIn(state', d))
    ensures ScanRecord(hub, state, backend, n) == ScanRecord(hub', state', backend, n)
  {}

  /** What a successful delete does to the record of every other name: one sharing
      the directory falls back to its supplied record, the rest are untouched. */
  lemma DeleteKeepsOthers(hub: Hub, state: StateRoot, records: seq<Record>, backend: string, d: string, modelName: string, n: string)
    requires d == RepoDirectoryName(modelName) && n != modelName
    ensures RecordOf(hub - {d}, state - {d}, WithoutModel(records, modelName), backend, n)
         == if RepoDirectoryName(n) == d then SeededRecord(records, n) else RecordOf(hub, state, records, backend, n)
  {
    SeededWithout(records, modelName, n);
    if RepoDirectoryName(n) != d {
      ScanDependsOnDirectory(hub, state, hub - {d}, state - {d}, backend, n);
    }
  }

  /** The deleted model itself is not cached. */
  lemma DeletedIsNotCached(hub: Hub, state: StateRoot, records: seq<Record>, backend: string, d: string, modelName: string)
    requires d == RepoDirectoryName(modelName)
    ensures StatusOf(RecordOf(hub - {d}, state - {d}, WithoutModel(records, modelName), backend, modelName))
         == CacheResult(NotCached, false, Some(NotCachedReason), None)
  {}

  /** Scanning the name a directory decodes to reads that very directory exactly
      when the name has no slash at either end; otherwise it reads another one, or none. */
  lemma ScanFindsDirectory(hub: Hub, state: StateRoot, backend: string, d: string)
    requires d in hub && IsRepoDirectory(d) && '/' !in d
    ensures var name := ModelNameFromRepoDirectory(d);
            var scanned := ScanRecord(hub, state, backend, name);
            && (!HasEdge(name, '/') ==> scanned.Some? && scanned.value.directory == d)
            && (HasEdge(name, '/') ==> scanned.Some? ==> scanned.value.directory != d)
  {
    DirectoryRoundTrip(d);
  }

  /** A directory whose decoded name has an edge slash: looking that name up reads
      the record of the directory without the trailing dashes, or nothing at all. */
  lemma EdgeSlashIsLost(hub: Hub, state: StateRoot, backend: string)
    ensures ModelNameFromRepoDirectory("models--a--") == "a/"
    ensures "models--a" !in hub ==> ScanRecord(hub, state, backend, "a/").None?
    ensures "models--a" in hub ==>
              && ScanRecord(hub, state, backend, "a/").Some?
              && ScanRecord(hub, state, backend, "a/").value.directory == "models--a"
  {
    var d, name := "models--a--", "a/";
    assert d[|HUB_REPO_PREFIX|..] == "a--" == ['a'] + ("--" + "");
    DecodeStep('a', "-" + "-");
    DecodePair("");
    assert StripRight(name, '/') == "a";
    EncodeStep('a', "");
    assert RepoDirectoryName(name) == "models--a";
  }

  ghost predicate ListedOnce(listing: seq<Record>, name: string, record: Record) {
    exists i :: 0 <= i < |listing| && listing[i] == record
                && forall j | 0 <= j < |listing| && listing[j].modelName == name :: j == i
  }

  lemma {:induction false} UnlistedName(hub: Hub, state: StateRoot, records: seq<Record>, backend: string, names: seq<string>, name: string)
    requires name !in names
    ensures forall r | r in Listing(hub, state, records, backend, names) :: r.modelName != name
  {
    if names != [] {
      UnlistedName(hub, state, records, backend, names[1..], name);
    }
  }

  lemma ListedFirst(record: Record, rest: seq<Record>)
    requires forall r | r in rest :: r.modelName != record.modelName
    ensures ListedOnce([record] + rest, record.modelName, record)
  {
    assert ([record] + rest)[0] == record;
  }

  lemma ListedLater(before: seq<Record>, rest: seq<Record>, name: string, record: Record)
    requires ListedOnce(rest, name, record) && forall r | r in before :: r.modelName != name
    ensures ListedOnce(before + rest, name, record)
  {
    var i :| 0 <= i < |rest| && rest[i] == record && forall j | 0 <= j < |rest| && rest[j].modelName == name :: j == i;
    assert (before + rest)[i + |before|] == record;
  }

  lemma {:induction false} NameListedOnce(hub: Hub, state: StateRoot, records: seq<Record>, backend: string, names: seq<string>, k: nat)
    requires k < |names| && forall j | 0 <= j < |names| && names[j] == names[k] :: j == k
    requires RecordOf(hub, state, records, backend, names[k]).Some?
    ensures ListedOnce(Listing(hub, state, records, backend, names), names[k],
                       RecordOf(hub, state, records, backend, names[k]).value)
    decreases k
  {
    var rest := Listing(hub, state, records, backend, names[1..]);
    var record := RecordOf(hub, state, records, backend, names[k]).value;
    if k == 0 {
      assert names[0] !in names[1..];
      UnlistedName(hub, state, records, backend, names[1..], names[0]);
      ListedFirst(record, rest);
    } else {
      assert names[0] != names[k];
      NameListedOnce(hub, state, records, backend, names[1..], k - 1);
      ListedLater(Entry(hub, state, records, backend, names[0]), rest, names[k], record);
    }
  }

  /** Every repository directory whose decoded name has no slash at either end is
      listed under that name exactly once, with the record scanned from that directory. */
  lemma RepositoryListedOnce(hub: Hub, state: StateRoot, records: seq<Record>, backend: string, d: string)
    requires d in hub && IsRepoDirectory(d) && '/' !in d
    requires ModelNameFromRepoDirectory(d) != "" && !HasEdge(ModelNameFromRepoDirectory(d), '/')
    ensures var name := ModelNameFromRepoDirectory(d);
            var scanned := ScanRecord(hub, state, backend, name);
            && scanned.Some? && scanned.value.directory == d
            && ListedOnce(Listing(hub, state, records, backend, ListNames(hub, records)), name, scanned.value)
  {
    var name := ModelNameFromRepoDirectory(d);
    var repositories := SortedSet(RepositoryNames(hub));
    var seeded := SeededNames(records, RepositoryNames(hub));
    var names := ListNames(hub, records);
    ScanFindsDirectory(hub, state, backend, d);
    assert name in RepositoryNames(hub);
    SortedSetIsSorted(RepositoryNames(hub));
    var k :| 0 <= k < |repositories| && repositories[k] == name;
    forall j | 0 <= j < |names| && names[j] == name ensures j == k {
    }
    NameListedOnce(hub, state, records, backend, names, k);
  }

  /** The directory is the one of exactly one listed record. */
  ghost predicate DirectoryListedOnce(listing: seq<Record>, d: string) {
    exists i :: 0 <= i < |listing| && RepoDirectoryName(listing[i].modelName) == d
                && forall j | 0 <= j < |listing| && RepoDirectoryName(listing[j].modelName) == d :: j == i
  }

  lemma {:induction false} NameIsListed(hub: Hub, state: StateRoot, records: seq<Record>, backend: string, names: seq<string>, name: string)
    requires name in names && RecordOf(hub, state, records, backend, name).Some?
    ensures RecordOf(hub, state, records, backend, name).value in Listing(hub, state, records, backend, names)
  {
    if names[0] != name {
      NameIsListed(hub, state, records, backend, names[1..], name);
    }
  }

  /** No other listed name has the directory. */
  ghost predicate OnlyNameOf(names: seq<string>, d: string) {
    forall n | n in names && RepoDirectoryName(n) == d :: n == ModelNameFromRepoDirectory(d)
  }

  lemma OnlyNameListedOnce(hub: Hub, state: StateRoot, records: seq<Record>, backend: string, names: seq<string>, d: string, name: string, r: Record)
    requires OnlyNameOf(names, d) && name == ModelNameFromRepoDirectory(d) && RepoDirectoryName(name) == d
    requires r.modelName == name && ListedOnce(Listing(hub, state, records, backend, names), name, r)
    ensures DirectoryListedOnce(Listing(hub, state, records, backend, names), d)
  {
    var listing := Listing(hub, state, records, backend, names);
    var i :| 0 <= i < |listing| && listing[i] == r && forall j | 0 <= j < |listing| && listing[j].modelName == name :: j == i;
    forall j | 0 <= j < |listing| && RepoDirectoryName(listing[j].modelName) == d ensures j == i {
      ListedNames(hub, state, records, backend, names, listing[j]);
    }
  }

  lemma TwoRecords(listing: seq<Record>, d: string, r: Record, t: Record)
    requires r in listing && t in listing && r.modelName != t.modelName
    requires RepoDirectoryName(r.modelName) == d && RepoDirectoryName(t.modelName) == d
    ensures !DirectoryListedOnce(listing, d)
  {
    var i :| 0 <= i < |listing| && listing[i] == r;
    var k :| 0 <= k < |listing| && listing[k] == t;
  }

  lemma TwoNamesListed(hub: Hub, state: StateRoot, records: seq<Record>, backend: string, names: seq<string>, d: string, m: string, n: string)
    requires d in hub && m in names && n in names && m != n && RepoDirectoryName(m) == d && RepoDirectoryName(n) == d
    ensures !DirectoryListedOnce(Listing(hub, state, records, backend, names), d)
  {
    NameIsListed(hub, state, records, backend, names, m);
    NameIsListed(hub, state, records, backend, names, n);
    TwoRecords(Listing(hub, state, records, backend, names), d,
               RecordOf(hub, state, records, backend, m).value, RecordOf(hub, state, records, backend, n).value);
  }

  lemma DecodedNameIsListed(hub: Hub, records: seq<Record>, d: string)
    requires d in hub && IsRepoDirectory(d) && ModelNameFromRepoDirectory(d) != ""
    ensures ModelNameFromRepoDirectory(d) in ListNames(hub, records)
  {
    assert ModelNameFromRepoDirectory(d) in RepositoryNames(hub);
  }

  /** Counted by directory, such a repository is listed once exactly when no other
      listed name has its directory; every other one repeats it. */
  lemma DirectoryListedOnceExactly(hub: Hub, state: StateRoot, records: seq<Record>, backend: string, d: string)
    requires d in hub && IsRepoDirectory(d) && '/' !in d
    requires ModelNameFromRepoDirectory(d) != "" && !HasEdge(ModelNameFromRepoDirectory(d), '/')
    ensures DirectoryListedOnce(Listing(hub, state, records, backend, ListNames(hub, records)), d)
       <==> OnlyNameOf(ListNames(hub, records), d)
  {
    var name, names := ModelNameFromRepoDirectory(d), ListNames(hub, records);
    DirectoryRoundTrip(d);
    if OnlyNameOf(names, d) {
      RepositoryListedOnce(hub, state, records, backend, d);
      OnlyNameListedOnce(hub, state, records, backend, names, d, name, ScanRecord(hub, state, backend, name).value);
    } else {
      var n :| n in names && RepoDirectoryName(n) == d && n != name;
      DecodedNameIsListed(hub, records, d);
      TwoNamesListed(hub, state, records, backend, names, d, name, n);
    }
  }

  lemma EdgeName()
    ensures ModelNameFromRepoDirectory("models--a") == "a" && ModelNameFromRepoDirectory("models--a--") == "a/"
    ensures RepoDirectoryName("a/") == "models--a"
  {
    assert "models--a"[|HUB_REPO_PREFIX|..] == "a";
    EdgeSlashIsLost(map[], map[], "");
    assert StripRight("a/", '/') == "a";
    EncodeStep('a', "");
  }

  lemma ListedAlsoAsEdgeName(hub: Hub, state: StateRoot, records: seq<Record>, backend: string)
    requires "models--a" in hub && "a/" in ListNames(hub, records)
    ensures !DirectoryListedOnce(Listing(hub, state, records, backend, ListNames(hub, records)), "models--a")
  {
    EdgeName();
    DecodedNameIsListed(hub, records, "models--a");
    DirectoryRoundTrip("models--a");
    TwoNamesListed(hub, state, records, backend, ListNames(hub, records), "models--a", "a", "a/");
  }

  /** One directory listed twice, as "a" and as "a/", because another directory decodes to the second name. */
  lemma DirectoryListedTwice(state: StateRoot, backend: string, a: Repository, b: Repository)
    ensures var hub := map["models--a" := a, "models--a--" := b];
            !DirectoryListedOnce(Listing(hub, state, [], backend, ListNames(hub, [])), "models--a")
  {
    EdgeName();
    var hub := map["models--a" := a, "models--a--" := b];
    DecodedNameIsListed(hub, [], "models--a--");
    ListedAlsoAsEdgeName(hub, state, [], backend);
  }

  /** The same because a supplied record bears that name. */
  lemma SuppliedNameListsTwice(state: StateRoot, backend: string, a: Repository, claim: Record)
    requires claim.modelName == "a/"
    ensures var hub := map["models--a" := a];
            !DirectoryListedOnce(Listing(hub, state, [claim], backend, ListNames(hub, [claim])), "models--a")
  {
    EdgeName();
    var hub := map["models--a" := a];
    assert "a/" !in RepositoryNames(hub);
    assert "a/" in SeededNames([claim], RepositoryNames(hub));
    ListedAlsoAsEdgeName(hub, state, [claim], backend);
  }

  /** A directory with a name is listed, with its own record, exactly when that name
      has no slash at either end. */
  lemma RepositoryListedExactly(hub: Hub, state: StateRoot, records: seq<Record>, backend: string, d: string)
    requires d in hub && IsRepoDirectory(d) && '/' !in d && ModelNameFromRepoDirectory(d) != ""
    ensures var name := ModelNameFromRepoDirectory(d);
            var scanned := ScanRecord(hub, state, backend, name);
            (scanned.Some? && scanned.value.directory == d
             && scanned.value in Listing(hub, state, records, backend, ListNames(hub, records)))
            <==> !HasEdge(name, '/')
  {
    ScanFindsDirectory(hub, state, backend, d);
    if !HasEdge(ModelNameFromRepoDirectory(d), '/') {
      RepositoryListedOnce(hub, state, records, backend, d);
    }
  }

  /** Nothing else is listed: every record comes from a name some repository
      directory decodes to, or from a supplied record. */
  lemma {:induction false} ListedNames(hub: Hub, state: StateRoot, records: seq<Record>, backend: string, names: seq<string>, r: Record)
    requires r in Listing(hub, state, records, backend, names)
    ensures r.modelName in names && RecordOf(hub, state, records, backend, r.modelName) == Some(r)
  {
    var first := RecordOf(hub, state, records, backend, names[0]);
    if !(first.Some? && first.value == r) {
      ListedNames(hub, state, records, backend, names[1..], r);
    }
  }

  /** Distinct repository directories never share a listed name. */
  lemma ListedNameDeterminesDirectory(hub: Hub, d: string, e: string)
    requires forall x | x in hub :: '/' !in x
    requires d in hub && e in hub && IsRepoDirectory(d) && IsRepoDirectory(e)
    requires ModelNameFromRepoDirectory(d) == ModelNameFromRepoDirectory(e)
    ensures d == e
  {
    DecodingInjective(d, e);
  }
}
