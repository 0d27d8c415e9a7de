/** Ingestion of the system profile into the knowledge collection
    (src/ingest.py): the profile JSON becomes one record with a summary document
    and flat metadata. Reading the profile file is a parameter: its outcome is
    given as a `LoadedProfile`. */
module Ingest {
  import opened Wrappers
  import opened PyStr
  import opened PyDict
  import opened VectorStore
  import AcquireData
  import Tools

  const CollectionName: string := "ark_system_knowledge"
  const RecordId: string := "system_profile_doc_01"

  /** What opening and decoding the profile file gave: the two errors the
      script catches, any other error raised while reading (a permission or
      encoding error, say) with its message, or the decoded value. */
  datatype LoadedProfile = ProfileMissing | ProfileUndecodable | ProfileUnreadable(error: string) | Loaded(profile: Json)

  /** How a run of the script ends; `Crashed` is an uncaught exception. */
  datatype IngestOutcome = NotFound | NotDecodable | Crashed(error: string) | Ingested(record: Entry)

  /** The message of the AttributeError that `v.get(...)` raises when `v` is not
      a dict. */
  function NoGet(v: Json): string {
    "'" + TypeName(v) + "' object has no attribute 'get'"
  }

  /** The index of the first item that is not a string. */
  function FirstNonText(items: seq<Json>): (r: Option<nat>)
    ensures r.None? <==> forall i :: 0 <= i < |items| ==> items[i].Str?
    ensures r.Some? ==>
      r.value < |items| && !items[r.value].Str? && forall i :: 0 <= i < r.value ==> items[i].Str?
  {
    if items == [] then None
    else if !items[0].Str? then Some(0)
    else match FirstNonText(items[1..])
      case None => None
      case Some(i) => Some(i + 1)
  }

  function Texts(items: seq<Json>): (r: seq<string>)
    requires forall i :: 0 <= i < |items| ==> items[i].Str?
    ensures |r| == |items| && forall i :: 0 <= i < |items| ==> items[i] == Str(r[i])
  {
    seq(|items|, i requires 0 <= i < |items| => items[i].s)
  }

  /** `sep.join(v)`: a string joins its characters, a dict its keys, a list its
      items, which must all be strings; anything else is not iterable. */
  function JoinIterable(v: Json, sep: string): Result<string, string> {
    match v
    case Str(s) => Success(Join(seq(|s|, i requires 0 <= i < |s| => [s[i]]), sep))
    case Obj(fields) => Success(Join(Keys(fields), sep))
    case Arr(items) =>
      (match FirstNonText(items)
       case Some(i) => Failure("sequence item " + NatToString(i) + ": expected str instance, " + TypeName(items[i]) + " found")
       case None => Success(Join(Texts(items), sep)))
    case _ => Failure("can only join an iterable")
  }

  /** The summary document, with the two values as an f-string inserts them. */
  function DocumentText(model: Json, totalMemory: Json): string {
    "This document contains the system profile. CPU is " + Format(model) + ". Total memory is " + Format(totalMemory) + "."
  }

  /** The record built from the profile, or the exception that building it
      raises, in the order the expressions are evaluated. Any record built has
      the fixed id, the six metadata keys in order, the document type, the
      values read from the profile, and the summary text. */
  function BuildRecord(profile: Json): (r: Result<Entry, string>)
    ensures r.Success? ==> profile.Obj?
    ensures r.Success? && profile.Obj? ==>
      var cpu := GetOr(profile.fields, "cpu_info", Obj([]));
      var memory := GetOr(profile.fields, "memory_info", Obj([]));
      && cpu.Obj? && memory.Obj?
      && r.value.id == RecordId && r.value.metadata.Some?
      && Keys(r.value.metadata.value) == MetadataKeys
      && r.value.metadata.value[0].1 == Str("system_profile")
      && r.value.metadata.value[1].1 == GetOr(cpu.fields, "model_name", Null)
      && r.value.metadata.value[2].1 == GetOr(cpu.fields, "cpu_cores", Null)
      && r.value.metadata.value[3].1 == GetOr(memory.fields, "total_memory", Null)
      && r.value.metadata.value[5].1 == GetOr(profile.fields, "kernel_info", Null)
      && r.value.document == DocumentText(r.value.metadata.value[1].1, r.value.metadata.value[3].1)
  {
    if !profile.Obj? then Failure(NoGet(profile))
    else
      var cpu := GetOr(profile.fields, "cpu_info", Obj([]));
      if !cpu.Obj? then Failure(NoGet(cpu))
      else
        var model := GetOr(cpu.fields, "model_name", Null);
        var memory := GetOr(profile.fields, "memory_info", Obj([]));
        if !memory.Obj? then Failure(NoGet(memory))
        else
          var total := GetOr(memory.fields, "total_memory", Null);
          match JoinIterable(GetOr(profile.fields, "gpu_info", Arr([])), ", ")
          case Failure(e) => Failure(e)
          case Success(gpuModels) =>
            var cores := GetOr(cpu.fields, "cpu_cores", Null);
            var kernel := GetOr(profile.fields, "kernel_info", Null);
            MetadataLayout(model, cores, total, gpuModels, kernel);
            Success(Entry(RecordId, DocumentText(model, total),
                          Some(ProfileMetadata(model, cores, total, gpuModels, kernel))))
  }

  /** The metadata dict literal, then `metadata['kernel_info'] = kernel`. */
  function ProfileMetadata(model: Json, cores: Json, total: Json, gpuModels: string, kernel: Json): Metadata {
    var metadata := [("doc_type", Str("system_profile")), ("cpu_model", model), ("cpu_cores", cores),
                     ("total_memory", total), ("gpu_models", Str(gpuModels))];
    Set(metadata, "kernel_info", kernel)
  }

  const MetadataKeys: seq<string> := ["doc_type", "cpu_model", "cpu_cores", "total_memory", "gpu_models", "kernel_info"]

  /** `kernel_info` is a new key, so it lands after the five literal ones. */
  lemma MetadataLayout(model: Json, cores: Json, total: Json, gpuModels: string, kernel: Json)
    ensures ProfileMetadata(model, cores, total, gpuModels, kernel)
         == [("doc_type", Str("system_profile")), ("cpu_model", model), ("cpu_cores", cores),
             ("total_memory", total), ("gpu_models", Str(gpuModels)), ("kernel_info", kernel)]
    ensures Keys(ProfileMetadata(model, cores, total, gpuModels, kernel)) == MetadataKeys
  {
    var metadata := [("doc_type", Str("system_profile")), ("cpu_model", model), ("cpu_cores", cores),
                     ("total_memory", total), ("gpu_models", Str(gpuModels))];
    assert Keys(metadata) == ["doc_type", "cpu_model", "cpu_cores", "total_memory", "gpu_models"];
    assert "kernel_info" !in Keys(metadata);
    SetNew(metadata, "kernel_info", kernel);
  }

  /** The collections once `get_or_create_collection` has run. */
  function Created(c: map<string, seq<Entry>>): (r: map<string, seq<Entry>>)
    ensures CollectionName in r && r[CollectionName] == (if CollectionName in c then c[CollectionName] else [])
    ensures forall name :: name != CollectionName ==> (name in r <==> name in c) && (name in c ==> r[name] == c[name])
  {
    if CollectionName in c then c else c[CollectionName := []]
  }

  /** The collections once the record has been added. */
  function AfterIngest(c: map<string, seq<Entry>>, e: Entry): map<string, seq<Entry>> {
    var created := Created(c);
    created[CollectionName := Added(created[CollectionName], e)]
  }

  /** `main()`: stops before touching the store when the file is missing or
      not JSON, and crashes before touching it on any other read error;
      otherwise creates the collection if needed, builds the record and adds
      it. An exception while building leaves the created collection. */
  method Ingest(store: Store, loaded: LoadedProfile) returns (outcome: IngestOutcome)
    requires store.Valid()
    modifies store
    ensures store.Valid()
    ensures loaded.ProfileMissing? ==> outcome == NotFound && store.collections == old(store.collections)
    ensures loaded.ProfileUndecodable? ==> outcome == NotDecodable && store.collections == old(store.collections)
    ensures loaded.ProfileUnreadable? ==> outcome == Crashed(loaded.error) && store.collections == old(store.collections)
    ensures loaded.Loaded? && BuildRecord(loaded.profile).Failure? ==>
      outcome == Crashed(BuildRecord(loaded.profile).error) && store.collections == Created(old(store.collections))
    ensures loaded.Loaded? && BuildRecord(loaded.profile).Success? ==>
      outcome == Ingested(BuildRecord(loaded.profile).value)
      && store.collections == AfterIngest(old(store.collections), BuildRecord(loaded.profile).value)
  {
    match loaded
    case ProfileMissing => return NotFound;
    case ProfileUndecodable => return NotDecodable;
    case ProfileUnreadable(e) => return Crashed(e);
    case Loaded(profile) =>
      store.GetOrCreate(CollectionName);
      match BuildRecord(profile)
      case Failure(e) => return Crashed(e);
      case Success(record) =>
        store.Add(CollectionName, record);
        return Ingested(record);
  }

  // ---------------------------------------------------------------- properties

  /** The record built from a profile whose sections are dicts and whose GPU
      entry joins. */
  lemma BuildRecordParts(fields: Dict<Json>)
    requires GetOr(fields, "cpu_info", Obj([])).Obj? && GetOr(fields, "memory_info", Obj([])).Obj?
    requires JoinIterable(GetOr(fields, "gpu_info", Arr([])), ", ").Success?
    ensures var cpu := GetOr(fields, "cpu_info", Obj([])).fields;
      var total := GetOr(GetOr(fields, "memory_info", Obj([])).fields, "total_memory", Null);
      var gpuModels := JoinIterable(GetOr(fields, "gpu_info", Arr([])), ", ").value;
      BuildRecord(Obj(fields)) == Success(Entry(RecordId, DocumentText(GetOr(cpu, "model_name", Null), total),
        Some(ProfileMetadata(GetOr(cpu, "model_name", Null), GetOr(cpu, "cpu_cores", Null), total, gpuModels,
                             GetOr(fields, "kernel_info", Null)))))
  {
  }

  /** A profile without `cpu_info`, `memory_info` and `gpu_info` still ingests:
      the three values are None and the GPU text is empty. */
  lemma MissingSections(fields: Dict<Json>)
    requires "cpu_info" !in Keys(fields) && "memory_info" !in Keys(fields) && "gpu_info" !in Keys(fields)
    ensures BuildRecord(Obj(fields)) == Success(Entry(RecordId,
      "This document contains the system profile. CPU is None. Total memory is None.",
      Some([("doc_type", Str("system_profile")), ("cpu_model", Null), ("cpu_cores", Null), ("total_memory", Null),
            ("gpu_models", Str("")), ("kernel_info", GetOr(fields, "kernel_info", Null))])))
  {
    var kernel := GetOr(fields, "kernel_info", Null);
    assert GetOr(fields, "cpu_info", Obj([])) == Obj([]);
    assert GetOr(fields, "memory_info", Obj([])) == Obj([]);
    assert GetOr(fields, "gpu_info", Arr([])) == Arr([]);
    assert JoinIterable(Arr([]), ", ") == Success("");
    BuildRecordParts(fields);
    MetadataLayout(Null, Null, Null, "", kernel);
    NullDocument();
  }

  lemma NullDocument()
    ensures DocumentText(Null, Null) == "This document contains the system profile. CPU is None. Total memory is None."
  {
    assert Format(Null) == "None";
  }

  /** A list of GPU names is stored joined with ", ", so an empty list, or a
      missing `gpu_info` (read as `[]`), gives the empty string. */
  lemma GpuModelsJoined(fields: Dict<Json>, gpus: seq<string>)
    requires GetOr(fields, "cpu_info", Obj([])).Obj? && GetOr(fields, "memory_info", Obj([])).Obj?
    requires GetOr(fields, "gpu_info", Arr([])) == Arr(seq(|gpus|, i requires 0 <= i < |gpus| => Str(gpus[i])))
    ensures BuildRecord(Obj(fields)).Success?
    ensures BuildRecord(Obj(fields)).value.metadata.value[4] == ("gpu_models", Str(Join(gpus, ", ")))
  {
    var cpu := GetOr(fields, "cpu_info", Obj([]));
    var memory := GetOr(fields, "memory_info", Obj([]));
    JoinedTexts(gpus);
    BuildRecordParts(fields);
    MetadataLayout(GetOr(cpu.fields, "model_name", Null), GetOr(cpu.fields, "cpu_cores", Null),
                   GetOr(memory.fields, "total_memory", Null), Join(gpus, ", "), GetOr(fields, "kernel_info", Null));
  }

  /** A profile without `gpu_info` stores the empty GPU text, whatever its
      other sections hold. */
  lemma GpuModelsMissing(fields: Dict<Json>)
    requires GetOr(fields, "cpu_info", Obj([])).Obj? && GetOr(fields, "memory_info", Obj([])).Obj?
    requires "gpu_info" !in Keys(fields)
    ensures BuildRecord(Obj(fields)).Success?
    ensures BuildRecord(Obj(fields)).value.metadata.value[4] == ("gpu_models", Str(""))
  {
    var none: seq<string> := [];
    var items := seq(|none|, i requires 0 <= i < |none| => Str(none[i]));
    assert items == [];
    GpuModelsJoined(fields, none);
  }

  /** Joining a list of strings joins the strings. */
  lemma JoinedTexts(gpus: seq<string>)
    ensures JoinIterable(Arr(seq(|gpus|, i requires 0 <= i < |gpus| => Str(gpus[i]))), ", ") == Success(Join(gpus, ", "))
  {
    var items := seq(|gpus|, i requires 0 <= i < |gpus| => Str(gpus[i]));
    assert Texts(items) == gpus;
  }

  /** A GPU list holding a non-string makes the join raise, naming the first
      such item. */
  lemma GpuItemNotText(fields: Dict<Json>, gpus: seq<Json>, i: nat)
    requires GetOr(fields, "cpu_info", Obj([])).Obj? && GetOr(fields, "memory_info", Obj([])).Obj?
    requires Get(fields, "gpu_info") == Some(Arr(gpus))
    requires i < |gpus| && !gpus[i].Str? && forall j :: 0 <= j < i ==> gpus[j].Str?
    ensures BuildRecord(Obj(fields))
         == Failure("sequence item " + NatToString(i) + ": expected str instance, " + TypeName(gpus[i]) + " found")
  {
    var f := FirstNonText(gpus);
    assert f == Some(i);
  }

  // ---------------------------------------------------------------- with the other scripts

  /** The sections of the profile `acquire_data.py` writes, as ingest reads them. */
  lemma ProfileSections(cpu: AcquireData.CpuInfo, memory: AcquireData.MemoryInfo, gpus: seq<string>,
                        osInfo: string, kernelInfo: string, diskDf: string, diskLsblk: string)
    ensures var p := AcquireData.Profile(cpu, memory, gpus, osInfo, kernelInfo, diskDf, diskLsblk);
      && p.Obj?
      && GetOr(p.fields, "cpu_info", Obj([])) == cpu.ToJson()
      && GetOr(p.fields, "memory_info", Obj([])) == memory.ToJson()
      && GetOr(p.fields, "gpu_info", Arr([])) == Arr(seq(|gpus|, i requires 0 <= i < |gpus| => Str(gpus[i])))
      && GetOr(p.fields, "kernel_info", Null) == Str(kernelInfo)
  {
    SectionLookup(cpu.ToJson(), memory.ToJson(), Arr(seq(|gpus|, i requires 0 <= i < |gpus| => Str(gpus[i]))),
                  Str(osInfo), Str(kernelInfo), Str(diskDf), Str(diskLsblk));
  }

  /** Lookups in the seven-section layout, whatever the section values are. */
  lemma SectionLookup(cpu: Json, memory: Json, gpu: Json, os: Json, kernel: Json, df: Json, lsblk: Json)
    ensures var f := [("cpu_info", cpu), ("memory_info", memory), ("gpu_info", gpu), ("os_info", os),
                      ("kernel_info", kernel), ("disk_info_df", df), ("disk_info_lsblk", lsblk)];
      && Get(f, "cpu_info") == Some(cpu) && Get(f, "memory_info") == Some(memory)
      && Get(f, "gpu_info") == Some(gpu) && Get(f, "kernel_info") == Some(kernel)
  {
    var f := [("cpu_info", cpu), ("memory_info", memory), ("gpu_info", gpu), ("os_info", os),
              ("kernel_info", kernel), ("disk_info_df", df), ("disk_info_lsblk", lsblk)];
    GetAt(f, 0);
    GetAt(f, 1);
    GetAt(f, 2);
    GetAt(f, 4);
  }

  /** The values ingest reads from the parsed CPU and memory sections. */
  lemma ParsedValues(cpu: AcquireData.CpuInfo, memory: AcquireData.MemoryInfo)
    ensures cpu.ToJson().Obj? && memory.ToJson().Obj?
    ensures GetOr(cpu.ToJson().fields, "model_name", Null) == AcquireData.OptText(cpu.modelName)
    ensures GetOr(cpu.ToJson().fields, "cpu_cores", Null) == AcquireData.OptText(cpu.cpuCores)
    ensures GetOr(memory.ToJson().fields, "total_memory", Null)
         == if memory.MemoryInfo? then AcquireData.OptText(memory.totalMemory) else Null
  {
    CpuLookup(AcquireData.OptText(cpu.architecture), AcquireData.OptText(cpu.cpuCores), AcquireData.OptText(cpu.vendorId),
              AcquireData.OptText(cpu.modelName), AcquireData.OptText(cpu.mhz), AcquireData.OptText(cpu.l1dCache),
              AcquireData.OptText(cpu.l1iCache), AcquireData.OptText(cpu.l2Cache), AcquireData.OptText(cpu.l3Cache));
  }

  /** Lookups in the nine-field CPU layout, whatever the field values are. */
  lemma CpuLookup(arch: Json, cores: Json, vendor: Json, model: Json, mhz: Json, l1d: Json, l1i: Json, l2: Json, l3: Json)
    ensures var f := [("architecture", arch), ("cpu_cores", cores), ("vendor_id", vendor), ("model_name", model),
                      ("mhz", mhz), ("l1d_cache", l1d), ("l1i_cache", l1i), ("l2_cache", l2), ("l3_cache", l3)];
      Get(f, "cpu_cores") == Some(cores) && Get(f, "model_name") == Some(model)
  {
    var f := [("architecture", arch), ("cpu_cores", cores), ("vendor_id", vendor), ("model_name", model),
              ("mhz", mhz), ("l1d_cache", l1d), ("l1i_cache", l1i), ("l2_cache", l2), ("l3_cache", l3)];
    GetAt(f, 1);
    GetAt(f, 3);
  }

  /** Every profile `acquire_data.py` writes ingests without an exception, with
      the parsed CPU model, core count and total memory, the GPUs joined with
      ", " and the kernel text. */
  lemma AcquiredProfileIngests(cpu: AcquireData.CpuInfo, memory: AcquireData.MemoryInfo, gpus: seq<string>,
                               osInfo: string, kernelInfo: string, diskDf: string, diskLsblk: string)
    ensures var model := AcquireData.OptText(cpu.modelName);
      var total := if memory.MemoryInfo? then AcquireData.OptText(memory.totalMemory) else Null;
      BuildRecord(AcquireData.Profile(cpu, memory, gpus, osInfo, kernelInfo, diskDf, diskLsblk))
      == Success(Entry(RecordId, DocumentText(model, total),
           Some([("doc_type", Str("system_profile")), ("cpu_model", model), ("cpu_cores", AcquireData.OptText(cpu.cpuCores)),
                 ("total_memory", total), ("gpu_models", Str(Join(gpus, ", "))), ("kernel_info", Str(kernelInfo))])))
  {
    var p := AcquireData.Profile(cpu, memory, gpus, osInfo, kernelInfo, diskDf, diskLsblk);
    ProfileSections(cpu, memory, gpus, osInfo, kernelInfo, diskDf, diskLsblk);
    ParsedValues(cpu, memory);
    var items := seq(|gpus|, i requires 0 <= i < |gpus| => Str(gpus[i]));
    assert Texts(items) == gpus;
    assert JoinIterable(Arr(items), ", ") == Success(Join(gpus, ", "));
    BuildRecordParts(p.fields);
    MetadataLayout(AcquireData.OptText(cpu.modelName), AcquireData.OptText(cpu.cpuCores),
                   if memory.MemoryInfo? then AcquireData.OptText(memory.totalMemory) else Null,
                   Join(gpus, ", "), Str(kernelInfo));
  }

  /** The records of `get(ids=[id])` after a record with a new id is added. */
  lemma {:induction false} WithIdAdded(es: seq<Entry>, e: Entry)
    requires e.id !in Ids(es)
    ensures WithId(Added(es, e), e.id) == [e]
  {
    WithIdAppend(es, [e], e.id);
    WithIdAbsent(es, e.id);
    assert WithId([e], e.id) == [e] + WithId([], e.id);
  }

  lemma {:induction false} WithIdAppend(a: seq<Entry>, b: seq<Entry>, id: string)
    ensures WithId(a + b, id) == WithId(a, id) + WithId(b, id)
  {
    if a != [] {
      WithIdAppend(a[1..], b, id);
      assert (a + b)[1..] == a[1..] + b;
    } else {
      assert a + b == b;
    }
  }

  /** The spec tool reads back what ingest wrote: run on a store that did not
      yet hold the profile record, with no names requested, it reports the
      CPU model and core count of the profile, never the "Not available"
      filler for them. The two scripts name the same collection and id. */
  lemma SpecReadsIngestedProfile(c: map<string, seq<Entry>>, profile: Json, missingCollectionError: string)
    requires CollectionName !in c || RecordId !in Ids(c[CollectionName])
    requires BuildRecord(profile).Success?
    ensures CollectionName == Tools.KnowledgeCollection && RecordId == Tools.ProfileId
    ensures var meta := BuildRecord(profile).value.metadata.value;
      Tools.GetSystemSpec(Tools.ProfileLookup(AfterIngest(c, BuildRecord(profile).value), missingCollectionError), None)
      == Tools.Specs([("cpu_model", meta[1].1), ("cpu_cores", meta[2].1)])
  {
    var e := BuildRecord(profile).value;
    LookupAfterIngest(c, e, missingCollectionError);
    DefaultSpecsOfRecord(e.metadata.value);
  }

  /** After the add, the lookup of the profile id finds exactly the new record. */
  lemma LookupAfterIngest(c: map<string, seq<Entry>>, e: Entry, missingCollectionError: string)
    requires CollectionName !in c || RecordId !in Ids(c[CollectionName])
    requires e.id == RecordId
    ensures Tools.ProfileLookup(AfterIngest(c, e), missingCollectionError) == Success([e.metadata])
  {
    var created := Created(c);
    WithIdAdded(created[CollectionName], e);
    var after := AfterIngest(c, e);
    assert after[Tools.KnowledgeCollection] == Added(created[CollectionName], e);
    assert Metadatas([e]) == [e.metadata];
  }

  /** On metadata with ingest's keys, the default spec names read the stored
      model and core count. */
  lemma DefaultSpecsOfRecord(meta: Metadata)
    requires Keys(meta) == MetadataKeys
    ensures Tools.GetSystemSpec(Success([Some(meta)]), None) == Tools.Specs([("cpu_model", meta[1].1), ("cpu_cores", meta[2].1)])
  {
    Tools.SystemSpecDefaults(meta, None);
    CpuValuesOfRecord(meta);
    var r := Tools.GetSystemSpec(Success([Some(meta)]), None);
    assert Keys(r.specs)[0] == r.specs[0].0 && Keys(r.specs)[1] == r.specs[1].0;
  }

  /** Metadata with ingest's keys holds the CPU model and the core count at
      positions 1 and 2. */
  lemma CpuValuesOfRecord(meta: Metadata)
    requires Keys(meta) == MetadataKeys
    ensures GetOr(meta, "cpu_model", Tools.NotAvailable) == meta[1].1
    ensures GetOr(meta, "cpu_cores", Tools.NotAvailable) == meta[2].1
  {
    assert Keys(meta)[1] == "cpu_model" && Keys(meta)[2] == "cpu_cores";
    assert Keys(meta)[0] == "doc_type";
    GetAt(meta, 1);
    GetAt(meta, 2);
  }

  /** Running the ingest again leaves a stored profile as it was: the store
      ignores an added record whose id it already holds. */
  lemma ReingestKeepsStoredProfile(c: map<string, seq<Entry>>, profile: Json)
    requires CollectionName in c && RecordId in Ids(c[CollectionName])
    requires BuildRecord(profile).Success?
    ensures AfterIngest(c, BuildRecord(profile).value) == c
  {
  }
}
