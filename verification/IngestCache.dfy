/**
  The ingest cache of the benchmark: one database per case name, reused only when the manifest
  beside it names exactly the ingest that is wanted.  Removing and writing files are separate
  steps, and a run may raise or die between any two of them.
 */
module IngestCache {
  import opened Common

  datatype Message = Message(mid: int, eventId: string, occurredAt: string, text: string, place: string)

  // What the fingerprint of a case covers.
  datatype Payload = Payload(caseId: string, namespace: string, messages: seq<Message>)

  // What the fingerprint of the ingest configuration covers, the extractor's version among it;
  // others stands for the inputs that the manifest does not repeat.
  datatype IngestConfig = IngestConfig(extractorVersion: string, llmModel: string, embeddingModel: string,
                                       embeddingDim: int, apiMode: string,
                                       textType: Option<string>, indexMode: string, indexVersion: string,
                                       others: string)

  datatype Key =
    | SchemaVersion | CaseId | CaseFingerprint | ConfigFingerprint | ExtractorModel | ExtractorVersion
    | EmbeddingModel | EmbeddingDim | EmbeddingApiMode | EmbeddingTextType | IndexTextMode | IndexTextVersion

  datatype Value = Null | Number(n: int) | Text(s: string)

  // How the benchmark names files and takes fingerprints; the digests are taken to be injective.
  datatype Scheme = Scheme(safeName: string -> string, casePrint: Payload -> string,
                           configPrint: IngestConfig -> string)

  ghost predicate IsInjective(scheme: Scheme) {
    && (forall a: Payload, b: Payload | scheme.casePrint(a) == scheme.casePrint(b) :: a == b)
    && (forall a: IngestConfig, b: IngestConfig | scheme.configPrint(a) == scheme.configPrint(b) :: a == b)
  }

  function Expected(scheme: Scheme, payload: Payload, config: IngestConfig, key: Key): Value {
    match key
    case SchemaVersion => Number(2)
    case CaseId => Text(payload.caseId)
    case CaseFingerprint => Text(scheme.casePrint(payload))
    case ConfigFingerprint => Text(scheme.configPrint(config))
    case ExtractorModel => Text(config.llmModel)
    case ExtractorVersion => Text(config.extractorVersion)
    case EmbeddingModel => Text(config.embeddingModel)
    case EmbeddingDim => Number(config.embeddingDim)
    case EmbeddingApiMode => Text(config.apiMode)
    case EmbeddingTextType => if config.textType.None? then Null else Text(config.textType.value)
    case IndexTextMode => Text(config.indexMode)
    case IndexTextVersion => Text(config.indexVersion)
  }

  const KEYS: set<Key> :=
    {SchemaVersion, CaseId, CaseFingerprint, ConfigFingerprint, ExtractorModel, ExtractorVersion, EmbeddingModel,
     EmbeddingDim, EmbeddingApiMode, EmbeddingTextType, IndexTextMode, IndexTextVersion}

  function CacheIdentity(scheme: Scheme, payload: Payload, config: IngestConfig): map<Key, Value> {
    map key | key in KEYS :: Expected(scheme, payload, config, key)
  }

  datatype ManifestFile = Unreadable | Mapping(values: map<Key, Value>)

  function Get(values: map<Key, Value>, key: Key): Value {
    if key in values then values[key] else Null
  }

  function Mismatches(scheme: Scheme, payload: Payload, config: IngestConfig, values: map<Key, Value>): set<Key> {
    set key | key in KEYS && Get(values, key) != Expected(scheme, payload, config, key)
  }

  // A manifest written for one ingest fits another exactly when the two are the same.
  lemma {:induction false} ManifestTellsIngest(scheme: Scheme, a: Payload, c: IngestConfig, b: Payload, d: IngestConfig)
    requires IsInjective(scheme)
    ensures Mismatches(scheme, b, d, CacheIdentity(scheme, a, c)) == {} <==> a == b && c == d
  {
    var values := CacheIdentity(scheme, a, c);
    if Mismatches(scheme, b, d, values) == {} {
      assert CaseFingerprint !in Mismatches(scheme, b, d, values);
      assert ConfigFingerprint !in Mismatches(scheme, b, d, values);
    }
  }

  /******* The files of one case *******/

  // made tells databases apart that were created one after the other at the same path; until it
  // is checkpointed, part of what was committed is in the journal only.
  datatype Database = Database(made: nat, payload: Payload, config: IngestConfig, ingested: nat, versions: set<string>,
                               checkpointed: bool)

  datatype Files = Files(db: Option<Database>, wal: Option<nat>, shm: Option<nat>,
                         manifest: Option<ManifestFile>, tmp: Option<ManifestFile>)

  const NO_FILES := Files(None, None, None, None, None)

  // Every message of this case was ingested under this configuration.
  predicate IsCompleteIngest(db: Database, payload: Payload, config: IngestConfig) {
    db.payload == payload && db.config == config && db.ingested == |payload.messages|
  }

  predicate IsIngested(f: Files, payload: Payload, config: IngestConfig) {
    && f.db.Some? && IsCompleteIngest(f.db.value, payload, config)
    && (f.db.value.checkpointed || f.wal == Some(f.db.value.made))
  }

  predicate IsReadable(manifest: Option<ManifestFile>) { manifest.Some? && manifest.value.Mapping? }

  // A readable manifest beside a database is that of a complete ingest.
  predicate AreSound(scheme: Scheme, f: Files) {
    && (f.db.Some? && IsReadable(f.manifest) ==>
          && IsIngested(f, f.db.value.payload, f.db.value.config)
          && f.manifest.value == Mapping(CacheIdentity(scheme, f.db.value.payload, f.db.value.config)))
    && (f.db.Some? && f.wal.Some? ==> f.wal.value == f.db.value.made)
    && (f.db.Some? && f.shm.Some? ==> f.shm.value == f.db.value.made)
  }

  lemma {:induction false} OneVersion(versions: set<string>, version: string)
    ensures versions <= {version} <==> versions == {} || versions == {version}
  {
    if versions <= {version} && versions != {} {
      ghost var some := Pick(versions);
      assert some in versions;
    }
  }

  // made counts the databases created so far.
  predicate MadeBy(f: Files, made: nat) {
    f.db.Some? ==> f.db.value.made <= made
  }

  datatype Status = Reused | FreshIngest | StaleReingested

  datatype Ending = Finished(status: Status) | Raised | Died

  class Cache {
    const scheme: Scheme

    var files: map<string, Files>
    var made: nat

    constructor (scheme: Scheme)
      requires IsInjective(scheme)
      ensures Valid() && this.scheme == scheme
    {
      this.scheme, files, made := scheme, map[], 0;
    }

    function At(name: string): Files
      reads this`files
    {
      if name in files then files[name] else NO_FILES
    }

    ghost predicate Valid()
      reads this
    {
      IsInjective(scheme) && forall name :: AreSound(scheme, At(name)) && MadeBy(At(name), made)
    }

    // One file operation of a case; afterwards the run may raise or die, unless it is reliable.
    method Put(name: string, f: Files, reliable: bool) returns (ending: Option<Ending>)
      requires Valid() && AreSound(scheme, f) && MadeBy(f, made)
      modifies this`files
      ensures Valid() && At(name) == f && forall other | other != name :: At(other) == old(At(other))
      ensures if reliable then ending.None? else ending.Some? ==> !ending.value.Finished?
    {
      files := files[name := f];
      forall other ensures AreSound(scheme, At(other)) && MadeBy(At(other), made) {
        if other != name { assert At(other) == old(At(other)); }
      }
      ending := *;
      if reliable || (ending.Some? && ending.value.Finished?) { ending := None; }
    }

    // The manifest of a case is damaged.
    method Damage(name: string)
      requires Valid()
      modifies this`files
      ensures Valid() && At(name) == old(At(name)).(manifest := Some(Unreadable))
      ensures forall other | other != name :: At(other) == old(At(other))
    {
      var _ := Put(name, At(name).(manifest := Some(Unreadable)), true);
    }

    // Removes the files of a case: the database first, the manifest after it.
    method RemoveArtifacts(name: string, reliable: bool) returns (ending: Option<Ending>)
      requires Valid()
      modifies this`files
      ensures Valid() && forall other | other != name :: At(other) == old(At(other))
      ensures ending.None? ==> At(name) == NO_FILES
      ensures if reliable then ending.None? else ending.Some? ==> !ending.value.Finished?
    {
      ending := Put(name, At(name).(db := None), reliable);
      if ending.Some? { return; }
      ending := Put(name, At(name).(wal := None), reliable);
      if ending.Some? { return; }
      ending := Put(name, At(name).(shm := None), reliable);
      if ending.Some? { return; }
      ending := Put(name, At(name).(manifest := None), reliable);
      if ending.Some? { return; }
      ending := Put(name, At(name).(tmp := None), reliable);
    }

    // Opening creates a database only where none is, and its journal next to it.
    method Open(name: string, payload: Payload, config: IngestConfig, reliable: bool)
      returns (ending: Option<Ending>)
      requires Valid() && (At(name).db.None? ==> At(name) == NO_FILES)
      modifies this
      ensures Valid() && made >= old(made) && forall other | other != name :: At(other) == old(At(other))
      ensures ending.None? ==>
                if old(At(name)).db.Some?
                then At(name).db == old(At(name)).db && At(name).manifest == old(At(name)).manifest
                else At(name).db == Some(Database(made, payload, config, 0, {}, true)) && At(name).manifest.None?
                     && made > old(made) && At(name).wal == Some(made)
      ensures if reliable then ending.None? else ending.Some? ==> !ending.value.Finished?
    {
      var f := At(name);
      if f.db.None? {
        made := made + 1;
        assert forall other :: At(other) == old(At(other));
        ending := Put(name, f.(db := Some(Database(made, payload, config, 0, {}, true))), reliable);
        if ending.Some? { return; }
      }
      f := At(name);
      ending := Put(name, f.(wal := Some(f.db.value.made), shm := Some(f.db.value.made)), reliable);
    }

    // Ingests the messages one by one into the empty database.
    method Ingest(name: string, reliable: bool) returns (ending: Option<Ending>)
      requires Valid() && At(name).db.Some? && At(name).manifest.None? && At(name).db.value.ingested == 0
      requires At(name).wal == Some(At(name).db.value.made)
      modifies this`files
      ensures Valid() && forall other | other != name :: At(other) == old(At(other))
      ensures ending.None? ==>
                && IsIngested(At(name), old(At(name)).db.value.payload, old(At(name)).db.value.config)
                && At(name).manifest.None? && At(name).db.value.made == old(At(name)).db.value.made
      ensures if reliable then ending.None? else ending.Some? ==> !ending.value.Finished?
    {
      ghost var db := At(name).db.value;
      var messages := At(name).db.value.payload.messages;
      for i := 0 to |messages|
        invariant Valid() && forall other | other != name :: At(other) == old(At(other))
        invariant At(name).db.Some? && At(name).manifest.None? && At(name).wal == Some(At(name).db.value.made)
        invariant At(name).db.value.ingested == i && At(name).db.value.made == db.made
        invariant At(name).db.value.payload == db.payload && At(name).db.value.config == db.config
      {
        var now := At(name).db.value;
        var stored: set<string> := *;
        var checkpointed: bool := *;
        now := now.(ingested := i + 1, versions := now.versions + stored, checkpointed := checkpointed);
        ending := Put(name, At(name).(db := Some(now)), reliable);
        if ending.Some? { return; }
      }
      ending := None;
    }

    // The manifest is written to a temporary file, which then replaces it.
    method WriteManifest(name: string, payload: Payload, config: IngestConfig, reliable: bool)
      returns (ending: Option<Ending>)
      requires Valid() && IsIngested(At(name), payload, config)
      modifies this`files
      ensures Valid() && forall other | other != name :: At(other) == old(At(other))
      ensures ending.None? ==> At(name).db == old(At(name)).db && IsIngested(At(name), payload, config)
                               && At(name).manifest == Some(Mapping(CacheIdentity(scheme, payload, config)))
                               && At(name).tmp.None?
      ensures if reliable then ending.None? else ending.Some? ==> !ending.value.Finished?
    {
      ending := Put(name, At(name).(tmp := Some(Unreadable)), reliable);
      if ending.Some? { return; }
      ending := Put(name, At(name).(tmp := Some(Mapping(CacheIdentity(scheme, payload, config)))), reliable);
      if ending.Some? { return; }
      ending := Put(name, At(name).(manifest := At(name).tmp, tmp := None), reliable);
    }

    // Whether the manifest fits, and the stored extractor versions when the database is open.
    method Validate(name: string, payload: Payload, config: IngestConfig, open: bool) returns (valid: bool)
      requires Valid() && At(name).db.Some?
      ensures valid <==> && IsReadable(At(name).manifest) && IsIngested(At(name), payload, config)
                         && (open ==> At(name).db.value.versions <= {config.extractorVersion})
    {
      var f := At(name);
      if f.manifest.None? { return false; }
      if f.manifest.value.Unreadable? { return false; }
      ManifestTellsIngest(scheme, f.db.value.payload, f.db.value.config, payload, config);
      if Mismatches(scheme, payload, config, f.manifest.value.values) != {} { return false; }
      OneVersion(f.db.value.versions, config.extractorVersion);
      if open && f.db.value.versions != {} && f.db.value.versions != {config.extractorVersion} { return false; }
      return true;
    }

    // The cache is there and may be reused for this ingest.
    ghost predicate IsReusable(f: Files, payload: Payload, config: IngestConfig) {
      && IsReadable(f.manifest) && IsIngested(f, payload, config)
      && f.db.value.versions <= {config.extractorVersion}
    }

    // Removes what is there, and ingests into a new database; only then the manifest is written.
    method IngestAnew(name: string, payload: Payload, config: IngestConfig, reliable: bool)
      returns (ending: Option<Ending>)
      requires Valid()
      modifies this
      ensures Valid() && forall other | other != name :: At(other) == old(At(other))
      ensures if reliable then ending.None? else ending.Some? ==> !ending.value.Finished?
      ensures ending.None? ==> && IsIngested(At(name), payload, config) && At(name).db.value.made > old(made)
                               && IsReadable(At(name).manifest)
    {
      ending := RemoveArtifacts(name, reliable);
      if ending.Some? { return; }
      ending := Open(name, payload, config, reliable);
      if ending.Some? { return; }
      ending := Ingest(name, reliable);
      if ending.Some? { return; }
      ending := WriteManifest(name, payload, config, reliable);
    }

    // The part of a run inside its try block; used is the database that the questions are put to.
    method TryCase(payload: Payload, config: IngestConfig, skipIngest: bool, reliable: bool)
      returns (r: Ending, ghost used: Option<Database>)
      requires Valid()
      modifies this
      ensures Valid() && (reliable ==> r.Finished?)
      ensures var name := scheme.safeName(payload.caseId);
              forall other | other != name :: At(other) == old(At(other))
      ensures var name := scheme.safeName(payload.caseId);
              r.Finished? ==> && used == At(name).db && IsIngested(At(name), payload, config)
                              && IsReadable(At(name).manifest)
                              && (if r.status.Reused? then used == old(At(name)).db else used.value.made > old(made))
                              && (r.status.Reused? <==> skipIngest && old(IsReusable(At(name), payload, config)))
                              && (r.status.StaleReingested? <==> skipIngest && !r.status.Reused?)
    {
      var name := scheme.safeName(payload.caseId);
      used := None;
      var reuse := false;
      if skipIngest && At(name).db.Some? { reuse := Validate(name, payload, config, false); }
      var ending: Option<Ending>;
      if reuse {
        ending := Open(name, payload, config, reliable);
        if ending.Some? { r := ending.value; return; }
        reuse := Validate(name, payload, config, true);
      }
      if !reuse {
        ending := IngestAnew(name, payload, config, reliable);
        if ending.Some? { r := ending.value; return; }
      }
      used := At(name).db;
      // Recall and questions leave the ingest as it is.
      ending := Put(name, At(name), reliable);
      if ending.Some? { r := ending.value; return; }
      r := Finished(if reuse then Reused else if skipIngest then StaleReingested else FreshIngest);
    }

    /**
      One run of a case.  Whenever it finishes, its questions were put to a complete ingest of
      this very trajectory under this very configuration.
     */
    method RunCase(payload: Payload, config: IngestConfig, skipIngest: bool, clean: bool, reliable: bool)
      returns (r: Ending, ghost used: Option<Database>)
      requires Valid()
      modifies this
      ensures Valid() && (reliable ==> r.Finished?)
      ensures var name := scheme.safeName(payload.caseId);
              forall other | other != name :: At(other) == old(At(other))
      ensures r.Finished? ==> used.Some? && IsCompleteIngest(used.value, payload, config)
      ensures var name := scheme.safeName(payload.caseId);
              r.Finished? ==> && (r.status.Reused? <==> skipIngest && old(IsReusable(At(name), payload, config)))
                              && (if r.status.Reused? then used == old(At(name)).db else used.value.made > old(made))
                              && (!clean ==> IsIngested(At(name), payload, config) && IsReadable(At(name).manifest))
                              && (clean && reliable ==> At(name) == NO_FILES)
    {
      r, used := TryCase(payload, config, skipIngest, reliable);
      if r.Died? || !clean { return; }
      var name := scheme.safeName(payload.caseId);
      for attempt := 0 to 3
        invariant reliable ==> attempt == 0
        invariant Valid() && forall other | other != name :: At(other) == old(At(other))
      {
        var ending := RemoveArtifacts(name, reliable);
        if ending == Some(Died) { r := Died; return; }
        if ending.None? { return; }
        // Any error other than a refused permission ends the run.
        var refused: bool := *;
        if !refused { r := Raised; return; }
      }
    }

    // Any runs of any cases under any configurations, raising and dying anywhere, with manifests
    // damaged in between.
    method RunMany(runs: seq<(Payload, IngestConfig, bool, bool, bool)>, damaged: seq<string>)
      requires Valid()
      modifies this
      ensures Valid()
    {
      for i := 0 to |runs|
        invariant Valid()
      {
        if i < |damaged| { Damage(damaged[i]); }
        var _, _ := RunCase(runs[i].0, runs[i].1, runs[i].2, runs[i].3, runs[i].4);
      }
    }
  }
}

/** Fingerprints that tell all payloads and all configurations apart exist. */
module InjectiveSchemes {
  import opened Common
  import opened IngestCache

  // Every character is marked and the end is too, so that what follows can be told from the text.
  function Quoted(s: string): (q: string)
    ensures |q| > 0
  {
    if s == [] then ['.'] else ['+', s[0]] + Quoted(s[1..])
  }

  lemma {:induction false} QuotedTells(s: string, t: string, x: string, y: string)
    requires Quoted(s) + x == Quoted(t) + y
    ensures s == t && x == y
    decreases |s|
  {
    var q, r := Quoted(s) + x, Quoted(t) + y;
    assert s == [] <==> q[0] == '.';
    assert t == [] <==> r[0] == '.';
    if s == [] {
      assert x == q[1..] && y == r[1..];
    } else {
      assert q[1] == s[0] && r[1] == t[0];
      assert q[2..] == Quoted(s[1..]) + x && r[2..] == Quoted(t[1..]) + y;
      QuotedTells(s[1..], t[1..], x, y);
      assert s == [s[0]] + s[1..] && t == [t[0]] + t[1..];
    }
  }

  function Listed(parts: seq<string>): string {
    if parts == [] then [] else Quoted(parts[0]) + Listed(parts[1..])
  }

  lemma {:induction false} ListedTells(a: seq<string>, b: seq<string>)
    requires Listed(a) == Listed(b)
    ensures a == b
    decreases |a|
  {
    if a != [] && b != [] {
      QuotedTells(a[0], b[0], Listed(a[1..]), Listed(b[1..]));
      ListedTells(a[1..], b[1..]);
      assert a == [a[0]] + a[1..] && b == [b[0]] + b[1..];
    }
  }

  function Unary(n: int): string {
    if n < 0 then ['-'] + seq(-n, _ => '1') else seq(n, _ => '1')
  }

  lemma {:induction false} UnaryTells(m: int, n: int)
    requires Unary(m) == Unary(n)
    ensures m == n
  {
    assert m < 0 <==> |Unary(m)| > 0 && Unary(m)[0] == '-';
    assert n < 0 <==> |Unary(n)| > 0 && Unary(n)[0] == '-';
    assert |Unary(m)| == |Unary(n)|;
  }

  function MessageParts(m: Message): (r: seq<string>)
    ensures |r| == 5
  {
    [Unary(m.mid), m.eventId, m.occurredAt, m.text, m.place]
  }

  function AllParts(messages: seq<Message>): seq<string> {
    if messages == [] then [] else MessageParts(messages[0]) + AllParts(messages[1..])
  }

  lemma {:induction false} PartsTell(a: seq<Message>, b: seq<Message>)
    requires AllParts(a) == AllParts(b)
    ensures a == b
    decreases |a|
  {
    if a != [] && b != [] {
      var p, q := AllParts(a), AllParts(b);
      assert p[..5] == MessageParts(a[0]) && q[..5] == MessageParts(b[0]);
      assert p[5..] == AllParts(a[1..]) && q[5..] == AllParts(b[1..]);
      MessagePartsTell(a[0], b[0]);
      PartsTell(a[1..], b[1..]);
      assert a == [a[0]] + a[1..] && b == [b[0]] + b[1..];
    }
  }

  lemma {:induction false} MessagePartsTell(a: Message, b: Message)
    requires MessageParts(a) == MessageParts(b)
    ensures a == b
  {
    var p, q := MessageParts(a), MessageParts(b);
    assert p[0] == q[0] && p[1] == q[1] && p[2] == q[2] && p[3] == q[3] && p[4] == q[4];
    UnaryTells(a.mid, b.mid);
  }

  function CasePrint(payload: Payload): string {
    Listed([payload.caseId, payload.namespace] + AllParts(payload.messages))
  }

  lemma {:induction false} CasePrintTells(a: Payload, b: Payload)
    requires CasePrint(a) == CasePrint(b)
    ensures a == b
  {
    var p, q := [a.caseId, a.namespace] + AllParts(a.messages), [b.caseId, b.namespace] + AllParts(b.messages);
    ListedTells(p, q);
    assert p[0] == q[0] && p[1] == q[1] && p[2..] == AllParts(a.messages) && q[2..] == AllParts(b.messages);
    PartsTell(a.messages, b.messages);
  }

  function OptionalPart(s: Option<string>): string {
    if s.None? then [] else ['+'] + s.value
  }

  function ConfigParts(c: IngestConfig): seq<string> {
    [c.extractorVersion, c.llmModel, c.embeddingModel, Unary(c.embeddingDim), c.apiMode, OptionalPart(c.textType),
     c.indexMode, c.indexVersion, c.others]
  }

  function ConfigPrint(c: IngestConfig): string {
    Listed(ConfigParts(c))
  }

  lemma {:induction false} ConfigPrintTells(a: IngestConfig, b: IngestConfig)
    requires ConfigPrint(a) == ConfigPrint(b)
    ensures a == b
  {
    var p, q := ConfigParts(a), ConfigParts(b);
    ListedTells(p, q);
    assert p[0] == q[0] && p[1] == q[1] && p[2] == q[2] && p[3] == q[3] && p[4] == q[4];
    assert p[5] == q[5] && p[6] == q[6] && p[7] == q[7] && p[8] == q[8];
    UnaryTells(a.embeddingDim, b.embeddingDim);
    OptionalPartTells(a.textType, b.textType);
  }

  lemma {:induction false} OptionalPartTells(a: Option<string>, b: Option<string>)
    requires OptionalPart(a) == OptionalPart(b)
    ensures a == b
  {
    if a.Some? && b.Some? {
      assert a.value == OptionalPart(a)[1..] && b.value == OptionalPart(b)[1..];
    }
  }

  lemma {:induction false} InjectiveSchemeExists(safeName: string -> string)
    ensures exists scheme: Scheme :: scheme.safeName == safeName && IsInjective(scheme)
  {
    var scheme := Scheme(safeName, payload => CasePrint(payload), config => ConfigPrint(config));
    forall a: Payload, b: Payload | scheme.casePrint(a) == scheme.casePrint(b) ensures a == b {
      CasePrintTells(a, b);
    }
    forall a: IngestConfig, b: IngestConfig | scheme.configPrint(a) == scheme.configPrint(b) ensures a == b {
      ConfigPrintTells(a, b);
    }
    assert IsInjective(scheme);
  }
}
