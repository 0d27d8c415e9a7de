/** The agent's tools (src/tools.py) that compute something of their own: the
    projection of the stored system profile, the choice of process-listing
    command and the KiCad project files. The shell and the file system are not
    part of this model: command output and the outcome of file writes are
    parameters, and the files a tool writes are returned as text. */
module Tools {
  import opened Wrappers
  import opened PyStr
  import opened PyDict
  import opened VectorStore

  const KnowledgeCollection: string := "ark_system_knowledge"
  const ProfileId: string := "system_profile_doc_01"
  const DefaultSpecNames: seq<string> := ["cpu_model", "cpu_cores"]
  const NotAvailable: Json := Str("Not available")
  const ProfileNotFound: string := "System profile not found in ChromaDB"
  const SpecFailurePrefix: string := "Failed to get system specs: "

  // ---------------------------------------------------------------- get_system_spec

  /** What `get_collection(...).get(ids=[ProfileId])` yields: the metadata list,
      or the text of the exception the client raises for a missing collection
      (the client's wording is not part of this model, so it is a parameter). */
  function ProfileLookup(collections: map<string, seq<Entry>>, missingCollectionError: string)
    : (r: Result<seq<Option<Metadata>>, string>)
    ensures r.Failure? <==> KnowledgeCollection !in collections
    ensures r.Failure? ==> r.error == missingCollectionError
    ensures r.Success? ==> |r.value| == |WithId(collections[KnowledgeCollection], ProfileId)|
    ensures r.Success? ==> forall i :: 0 <= i < |r.value| ==>
      r.value[i] == WithId(collections[KnowledgeCollection], ProfileId)[i].metadata
  {
    if KnowledgeCollection !in collections then Failure(missingCollectionError)
    else Success(Metadatas(WithId(collections[KnowledgeCollection], ProfileId)))
  }

  /** The result of the tool: the projected specs, or the `{"error": ...}` dict. */
  datatype SpecResult = Specs(specs: Dict<Json>) | SpecError(error: string)

  /** `not spec_names` falls back to the default names for None and for []. */
  function RequestedNames(specNames: Option<seq<string>>): (r: seq<string>)
    ensures r != []
  {
    if specNames.None? || specNames.value == [] then DefaultSpecNames else specNames.value
  }

  /** The pairs of `{k: metadata.get(k, "Not available") for k in names}`, in
      the order the comprehension assigns them. */
  function Projection(meta: Metadata, names: seq<string>): (r: seq<(string, Json)>)
    ensures |r| == |names|
  {
    if names == [] then []
    else Projection(meta, names[..|names| - 1]) + [(names[|names| - 1], GetOr(meta, names[|names| - 1], NotAvailable))]
  }

  /** Each requested name reads the stored value or the filler, and nothing
      else is present. */
  lemma {:induction false} ProjectionLastOf(meta: Metadata, names: seq<string>, k: string)
    ensures LastOf(Projection(meta, names), k) == if k in names then Some(GetOr(meta, k, NotAvailable)) else None
  {
    if names != [] {
      var init := names[..|names| - 1];
      ProjectionLastOf(meta, init, k);
      assert names == init + [names[|names| - 1]];
    }
  }

  /** `get_system_spec(spec_names)` over the lookup result: the error cases in
      their order, and on success exactly the requested keys (or the defaults),
      each once, each with the stored value or "Not available". */
  function GetSystemSpec(lookup: Result<seq<Option<Metadata>>, string>, specNames: Option<seq<string>>): (r: SpecResult)
    ensures lookup.Failure? ==> r == SpecError(SpecFailurePrefix + lookup.error)
    ensures lookup.Success? && lookup.value == [] ==> r == SpecError(ProfileNotFound)
    ensures lookup.Success? && lookup.value != [] && lookup.value[0].None? ==>
      r == SpecError(SpecFailurePrefix + "'NoneType' object has no attribute 'get'")
    ensures lookup.Success? && lookup.value != [] && lookup.value[0].Some? ==>
      && r.Specs?
      && DistinctKeys(r.specs)
      && (forall k :: k in Keys(r.specs) <==> k in RequestedNames(specNames))
      && (forall k :: k in RequestedNames(specNames) ==>
            Get(r.specs, k) == Some(GetOr(lookup.value[0].value, k, NotAvailable)))
  {
    match lookup
    case Failure(e) => SpecError(SpecFailurePrefix + e)
    case Success(metadatas) =>
      if metadatas == [] then SpecError(ProfileNotFound)
      else match metadatas[0]
        case None => SpecError(SpecFailurePrefix + "'NoneType' object has no attribute 'get'")
        case Some(meta) =>
          var names := RequestedNames(specNames);
          var pairs := Projection(meta, names);
          FromPairsDistinct(pairs);
          assert forall k :: Get(FromPairs(pairs), k) == if k in names then Some(GetOr(meta, k, NotAvailable)) else None by {
            forall k ensures Get(FromPairs(pairs), k) == if k in names then Some(GetOr(meta, k, NotAvailable)) else None {
              FromPairsGet(pairs, k);
              ProjectionLastOf(meta, names, k);
            }
          }
          Specs(FromPairs(pairs))
  }

  /** Without names, or with an empty list, the tool reports the CPU model and
      the core count. */
  lemma SystemSpecDefaults(meta: Metadata, specNames: Option<seq<string>>)
    requires specNames.None? || specNames.value == []
    ensures var r := GetSystemSpec(Success([Some(meta)]), specNames);
      r.Specs? && Keys(r.specs) == ["cpu_model", "cpu_cores"]
      && r.specs[0].1 == GetOr(meta, "cpu_model", NotAvailable)
      && r.specs[1].1 == GetOr(meta, "cpu_cores", NotAvailable)
  {
    var model := ("cpu_model", GetOr(meta, "cpu_model", NotAvailable));
    var cores := ("cpu_cores", GetOr(meta, "cpu_cores", NotAvailable));
    var p := Projection(meta, DefaultSpecNames);
    assert DefaultSpecNames[..1] == ["cpu_model"];
    var one: seq<string> := ["cpu_model"];
    assert one[..0] == [];
    assert Projection(meta, ["cpu_model"]) == [model];
    assert p == [model, cores];
    assert p[..1] == [model];
    var first: seq<(string, Json)> := [model];
    assert first[..0] == [];
    assert FromPairs([model]) == [model];
    assert "cpu_model" != "cpu_cores";
    assert Set([model], cores.0, cores.1) == [model, cores];
  }

  // ---------------------------------------------------------------- list_running_processes

  /** The command `list_running_processes` runs: `ps aux` for an empty name,
      `pgrep -fl <name>` otherwise. */
  function ProcessCommand(processName: string): (cmd: seq<string>)
    ensures processName == "" <==> cmd == ["ps", "aux"]
    ensures processName != "" ==> cmd == ["pgrep", "-fl", processName]
  {
    if processName != "" then ["pgrep", "-fl", processName] else ["ps", "aux"]
  }

  /** The tool's result for what the command printed: its lines. */
  function ListRunningProcesses(stdout: string): (processes: seq<string>)
    ensures forall i :: 0 <= i < |processes| ==> NoLineBoundary(processes[i])
  {
    SplitLines(stdout)
  }

  // ---------------------------------------------------------------- create_kicad_project

  const ProjectText: string := "(kicad_project)\n"
  const SchematicHeader: seq<string> := ["EESchema Schematic File Version 4", "LIBS:power,device,conn,linear,regul,switch,transf"]
  const PinLine: string := "P 2000 2000"

  /** The field line of the `index`-th component (numbered from 1). */
  function FieldLine(index: nat, component: string): string {
    "F " + NatToString(index) + " \"" + component + "\" H 2000 2000 50  0001 C CNN"
  }

  /** The lines written for the components, two per component, in order. */
  function ComponentLines(components: seq<string>): (r: seq<string>)
    ensures |r| == 2 * |components|
  {
    if components == [] then []
    else ComponentLines(components[..|components| - 1])
         + [FieldLine(|components|, components[|components| - 1]), PinLine]
  }

  /** The lines of the `.sch` file. */
  function SchematicLines(components: seq<string>): (r: seq<string>)
    ensures |r| == 2 + 2 * |components|
  {
    SchematicHeader + ComponentLines(components)
  }

  /** The tool's result: the record it returns together with the files it wrote,
      as (path, content) pairs; or the `{"error": ...}` dict. */
  datatype KicadResult =
    | ProjectCreated(directory: string, files: seq<string>, components: seq<string>, written: seq<(string, string)>)
    | KicadError(error: string)

  /** `create_kicad_project(project_name, components)`. `ioError` is the text of
      the exception the file system raises, if it raises one. */
  method CreateKicadProject(projectName: string, components: seq<string>, ioError: Option<string>)
    returns (result: KicadResult)
    ensures ioError.Some? ==> result == KicadError(ioError.value)
    ensures ioError.None? ==> result == ProjectCreated(
      "projects/" + projectName,
      [projectName + ".pro", projectName + ".sch"],
      components,
      [("projects/" + projectName + "/" + projectName + ".pro", ProjectText),
       ("projects/" + projectName + "/" + projectName + ".sch", Unlines(SchematicLines(components)))])
  {
    if ioError.Some? {
      return KicadError(ioError.value);
    }
    var projectDir := "projects/" + projectName;
    var sch := "EESchema Schematic File Version 4\n";
    sch := sch + "LIBS:power,device,conn,linear,regul,switch,transf\n";
    assert SchematicHeader[..1] == [SchematicHeader[0]];
    assert sch == Unlines(SchematicHeader);
    var i := 0;
    while i < |components|
      invariant 0 <= i <= |components|
      invariant sch == Unlines(SchematicHeader + ComponentLines(components[..i]))
    {
      var before := SchematicHeader + ComponentLines(components[..i]);
      var field := FieldLine(i + 1, components[i]);
      sch := sch + field + "\n";
      sch := sch + PinLine + "\n";
      assert components[..i + 1][..i] == components[..i];
      var after := SchematicHeader + ComponentLines(components[..i + 1]);
      assert after == before + [field, PinLine];
      assert after[..|after| - 1] == before + [field];
      assert (before + [field])[..|before|] == before;
      i := i + 1;
    }
    assert components[..i] == components;
    result := ProjectCreated(projectDir, [projectName + ".pro", projectName + ".sch"], components,
                             [(projectDir + "/" + projectName + ".pro", ProjectText),
                              (projectDir + "/" + projectName + ".sch", sch)]);
  }

  /** Read back line by line, the schematic is the two header lines followed by
      a field line and a pin line per component, in component order, provided
      no component name holds a line break. */
  lemma SchematicReadsBack(components: seq<string>)
    requires forall i :: 0 <= i < |components| ==> NoLineBoundary(components[i])
    ensures var lines := SplitLines(Unlines(SchematicLines(components)));
      && |lines| == 2 + 2 * |components|
      && lines[..2] == SchematicHeader
      && forall i :: 0 <= i < |components| ==>
           lines[2 + 2 * i] == FieldLine(i + 1, components[i]) && lines[3 + 2 * i] == PinLine
  {
    var lines := SchematicLines(components);
    assert SplitLines(Unlines(lines)) == lines by {
      forall i | 0 <= i < |lines| ensures NoLineBoundary(lines[i]) {
        SchematicLineClean(components, i);
      }
      SplitLinesUnlines(lines);
    }
    forall i | 0 <= i < |components|
      ensures lines[2 + 2 * i] == FieldLine(i + 1, components[i]) && lines[3 + 2 * i] == PinLine
    {
      SchematicLinesAt(components, i);
    }
  }

  /** The schematic lines of the `i`-th component. */
  lemma SchematicLinesAt(components: seq<string>, i: nat)
    requires i < |components|
    ensures SchematicLines(components)[2 + 2 * i] == FieldLine(i + 1, components[i])
    ensures SchematicLines(components)[3 + 2 * i] == PinLine
  {
    ComponentLinesAt(components, i);
    assert SchematicLines(components)[2 + 2 * i] == ComponentLines(components)[2 * i];
    assert SchematicLines(components)[3 + 2 * i] == ComponentLines(components)[2 * i + 1];
  }

  /** The component lines, by position. */
  lemma {:induction false} ComponentLinesAt(components: seq<string>, i: nat)
    requires i < |components|
    ensures ComponentLines(components)[2 * i] == FieldLine(i + 1, components[i])
    ensures ComponentLines(components)[2 * i + 1] == PinLine
  {
    var n := |components|;
    if i < n - 1 {
      ComponentLinesAt(components[..n - 1], i);
    }
  }

  lemma FieldLineClean(index: nat, component: string)
    requires NoLineBoundary(component)
    ensures NoLineBoundary(FieldLine(index, component))
  {
    var digits := NatToString(index);
    assert NoLineBoundary(digits);
    NoLineBoundaryAppend("F ", digits);
    NoLineBoundaryAppend("F " + digits, " \"");
    NoLineBoundaryAppend("F " + digits + " \"", component);
    NoLineBoundaryAppend("F " + digits + " \"" + component, "\" H 2000 2000 50  0001 C CNN");
  }

  lemma HeaderClean()
    ensures NoLineBoundary(SchematicHeader[0]) && NoLineBoundary(SchematicHeader[1])
  {
    NoLineBoundaryAppend("EESchema Schematic ", "File Version 4");
    NoLineBoundaryAppend("LIBS:power,device,conn,", "linear,regul,switch,transf");
  }

  /** No schematic line holds a line boundary when no component name does. */
  lemma SchematicLineClean(components: seq<string>, i: nat)
    requires forall k :: 0 <= k < |components| ==> NoLineBoundary(components[k])
    requires i < 2 + 2 * |components|
    ensures NoLineBoundary(SchematicLines(components)[i])
  {
    var lines := SchematicLines(components);
    if i >= 2 {
      var k := (i - 2) / 2;
      ComponentLinesAt(components, k);
      assert lines[i] == ComponentLines(components)[i - 2];
      if i % 2 == 0 {
        assert i - 2 == 2 * k;
        FieldLineClean(k + 1, components[k]);
      } else {
        assert i - 2 == 2 * k + 1;
      }
    } else {
      assert lines[i] == SchematicHeader[i];
      HeaderClean();
    }
  }
}
