/** The parsers that turn command output into the system profile
    (src/acquire_data.py). The commands themselves are not run here: each parser
    takes the text the command printed. */
module AcquireData {
  import opened Wrappers
  import opened PyStr
  import opened PyDict

  // ---------------------------------------------------------------- lscpu

  /** `key, value = line.split(':', 1)`, both stripped; None for a line without
      a colon. Only the first colon splits. */
  function KeyValue(line: string): (r: Option<(string, string)>)
    ensures r.None? <==> ':' !in line
  {
    match Find(line, ':')
    case None => None
    case Some(i) => Some((Strip(line[..i]), Strip(line[i + 1..])))
  }

  /** A value may itself contain colons: only the key ends at the first one. */
  lemma KeyValueFirstColon(key: string, value: string)
    requires ':' !in key
    ensures KeyValue(key + ":" + value) == Some((Strip(key), Strip(value)))
  {
    var line := key + ":" + value;
    assert line[|key|] == ':';
    assert line[..|key|] == key;
    assert line[|key| + 1..] == value;
    assert Find(line, ':') == Some(|key|);
  }

  /** The key/value pairs of the lines that contain a colon, in line order. */
  function LinePairs(lines: seq<string>): seq<(string, string)> {
    if lines == [] then []
    else
      var init := LinePairs(lines[..|lines| - 1]);
      match KeyValue(lines[|lines| - 1])
      case None => init
      case Some(kv) => init + [kv]
  }

  /** Lines without a colon contribute nothing. */
  lemma {:induction false} LinePairsNoColon(lines: seq<string>, more: seq<string>)
    requires forall i :: 0 <= i < |more| ==> ':' !in more[i]
    ensures LinePairs(lines + more) == LinePairs(lines)
    decreases |more|
  {
    if more != [] {
      var m := more[..|more| - 1];
      assert (lines + more)[..|lines + more| - 1] == lines + m;
      LinePairsNoColon(lines, m);
    } else {
      assert lines + more == lines;
    }
  }

  /** The record `parse_lscpu` returns: nine fixed fields, each None when its
      exact lscpu key is absent. */
  datatype CpuInfo = CpuInfo(
    architecture: Option<string>,
    cpuCores: Option<string>,
    vendorId: Option<string>,
    modelName: Option<string>,
    mhz: Option<string>,
    l1dCache: Option<string>,
    l1iCache: Option<string>,
    l2Cache: Option<string>,
    l3Cache: Option<string>)
  {
    /** The dict as it is written to the profile file, keys in source order. */
    function ToJson(): Json {
      Obj([("architecture", OptText(architecture)), ("cpu_cores", OptText(cpuCores)),
           ("vendor_id", OptText(vendorId)), ("model_name", OptText(modelName)),
           ("mhz", OptText(mhz)), ("l1d_cache", OptText(l1dCache)), ("l1i_cache", OptText(l1iCache)),
           ("l2_cache", OptText(l2Cache)), ("l3_cache", OptText(l3Cache))])
    }
  }

  function OptText(v: Option<string>): Json {
    match v
    case None => Null
    case Some(s) => Str(s)
  }

  /** The nine fields read out of a key/value listing, each the value of the
      last line with that key. */
  function CpuInfoOf(pairs: seq<(string, string)>): CpuInfo {
    CpuInfo(LastOf(pairs, "Architecture"), LastOf(pairs, "CPU(s)"), LastOf(pairs, "Vendor ID"),
            LastOf(pairs, "Model name"), LastOf(pairs, "CPU MHz"), LastOf(pairs, "L1d cache"),
            LastOf(pairs, "L1i cache"), LastOf(pairs, "L2 cache"), LastOf(pairs, "L3 cache"))
  }

  /** `parse_lscpu(output)`: fills `data` line by line (a repeated key keeps its
      value from its last line), then reads the nine fields. */
  method ParseLscpu(output: string) returns (info: CpuInfo)
    ensures info == CpuInfoOf(LinePairs(Split(output, '\n')))
  {
    var lines := Split(output, '\n');
    var data: Dict<string> := [];
    var i := 0;
    while i < |lines|
      invariant 0 <= i <= |lines|
      invariant data == FromPairs(LinePairs(lines[..i]))
    {
      ParseStep(lines, i);
      var pair := KeyValue(lines[i]);
      if pair.Some? {
        data := Set(data, pair.value.0, pair.value.1);
      }
      i := i + 1;
    }
    assert lines[..i] == lines;
    FieldsOfDict(LinePairs(lines));
    info := CpuInfoFromDict(data);
  }

  /** The record `parse_lscpu` returns: `data.get` of each of the nine keys. */
  function CpuInfoFromDict(data: Dict<string>): CpuInfo {
    CpuInfo(Get(data, "Architecture"), Get(data, "CPU(s)"), Get(data, "Vendor ID"),
            Get(data, "Model name"), Get(data, "CPU MHz"), Get(data, "L1d cache"),
            Get(data, "L1i cache"), Get(data, "L2 cache"), Get(data, "L3 cache"))
  }

  /** Reading the nine fields from the dict built from the pairs reads the
      last value of each key. */
  lemma FieldsOfDict(pairs: seq<(string, string)>)
    ensures CpuInfoFromDict(FromPairs(pairs)) == CpuInfoOf(pairs)
  {
    FromPairsGet(pairs, "Architecture");
    FromPairsGet(pairs, "CPU(s)");
    FromPairsGet(pairs, "Vendor ID");
    FromPairsGet(pairs, "Model name");
    FromPairsGet(pairs, "CPU MHz");
    FromPairsGet(pairs, "L1d cache");
    FromPairsGet(pairs, "L1i cache");
    FromPairsGet(pairs, "L2 cache");
    FromPairsGet(pairs, "L3 cache");
  }

  /** One more line assigns its pair, if it has one, to the dict so far. */
  lemma ParseStep(lines: seq<string>, i: nat)
    requires i < |lines|
    ensures FromPairs(LinePairs(lines[..i + 1]))
         == match KeyValue(lines[i])
            case None => FromPairs(LinePairs(lines[..i]))
            case Some(kv) => Set(FromPairs(LinePairs(lines[..i])), kv.0, kv.1)
  {
    assert lines[..i + 1][..i] == lines[..i];
    var prev := LinePairs(lines[..i]);
    match KeyValue(lines[i])
    case None =>
    case Some(kv) =>
      assert (prev + [kv])[..|prev|] == prev;
  }

  /** Appending lines without a colon to the lscpu output changes no field. */
  lemma LscpuIgnoresLinesWithoutColon(output: string, junk: string)
    requires ':' !in junk
    ensures CpuInfoOf(LinePairs(Split(output + "\n" + junk, '\n'))) == CpuInfoOf(LinePairs(Split(output, '\n')))
  {
    SplitAppend(output, junk, '\n');
    assert output + "\n" + junk == output + ['\n'] + junk;
    var more := Split(junk, '\n');
    forall i | 0 <= i < |more| ensures ':' !in more[i] {
      JoinSplit(junk, '\n');
      PieceInText(more, i, '\n');
    }
    LinePairsNoColon(Split(output, '\n'), more);
  }

  /** Every piece of a split is part of the text, so it holds no character the
      text lacks. */
  lemma {:induction false} PieceInText(parts: seq<string>, i: nat, sep: char)
    requires i < |parts|
    ensures forall c :: c in parts[i] ==> c in Join(parts, [sep])
  {
    if |parts| > 1 {
      if i > 0 {
        PieceInText(parts[1..], i - 1, sep);
      }
      assert Join(parts, [sep]) == parts[0] + [sep] + Join(parts[1..], [sep]);
    }
  }

  /** The last line with a given key decides the field. */
  lemma LscpuLastKeyWins(lines: seq<string>, key: string, value: string)
    requires ':' !in key
    ensures CpuInfoOf(LinePairs(lines + [key + ":" + value])).modelName
         == if Strip(key) == "Model name" then Some(Strip(value)) else CpuInfoOf(LinePairs(lines)).modelName
  {
    var line := key + ":" + value;
    KeyValueFirstColon(key, value);
    assert (lines + [line])[..|lines|] == lines;
    var prev := LinePairs(lines);
    var kv := (Strip(key), Strip(value));
    assert LinePairs(lines + [line]) == prev + [kv];
    assert (prev + [kv])[..|prev|] == prev;
    assert LastOf(prev + [kv], "Model name") == if kv.0 == "Model name" then Some(kv.1) else LastOf(prev, "Model name");
  }

  // ---------------------------------------------------------------- free

  /** The record `parse_free` returns; `NoMemoryInfo` is the empty dict. */
  datatype MemoryInfo =
    | NoMemoryInfo
    | MemoryInfo(totalMemory: Option<string>, usedMemory: Option<string>, freeMemory: Option<string>)
  {
    function ToJson(): Json {
      match this
      case NoMemoryInfo => Obj([])
      case MemoryInfo(total, used, free) =>
        Obj([("total_memory", OptText(total)), ("used_memory", OptText(used)), ("free_memory", OptText(free))])
    }
  }

  /** `zip(xs, ys)`: pairs by position, as long as the shorter list. */
  function Zip(xs: seq<string>, ys: seq<string>): (r: seq<(string, string)>)
    ensures |r| == if |xs| <= |ys| then |xs| else |ys|
    ensures forall j :: 0 <= j < |r| ==> r[j] == (xs[j], ys[j])
  {
    var n := if |xs| <= |ys| then |xs| else |ys|;
    seq(n, j requires 0 <= j < n => (xs[j], ys[j]))
  }

  /** The three fields read from the header row and the first value row. */
  function MemoryFields(headers: seq<string>, values: seq<string>): MemoryInfo {
    var memData := FromPairs(Zip(headers, values));
    MemoryInfo(Get(memData, "total"), Get(memData, "used"), Get(memData, "free"))
  }

  /** `parse_free(output)` as written: the i-th header word is paired with the
      i-th word of the second line. Output of fewer than two lines gives the
      empty dict. */
  function ParseFree(output: string): (r: MemoryInfo)
    ensures r == NoMemoryInfo <==> '\n' !in output
  {
    var lines := Split(output, '\n');
    SplitSeveral(output, '\n');
    if |lines| > 1 then MemoryFields(Words(lines[0]), Words(lines[1])) else NoMemoryInfo
  }

  /** `parse_free` with the row label of the second line skipped, so that each
      header is paired with the number printed under it. Output of fewer than
      two lines gives the empty dict. */
  function ParseFreeRow(output: string): (r: MemoryInfo)
    ensures r == NoMemoryInfo <==> '\n' !in output
  {
    var lines := Split(output, '\n');
    SplitSeveral(output, '\n');
    if |lines| > 1 then
      var values := Words(lines[1]);
      MemoryFields(Words(lines[0]), if values == [] then [] else values[1..])
    else NoMemoryInfo
  }

  /** The header `total` that occurs once, at index `j`, reads the `j`-th value. */
  lemma {:induction false} ZipLookup(headers: seq<string>, values: seq<string>, key: string, j: nat)
    requires j < |headers| && j < |values| && headers[j] == key
    requires forall k :: 0 <= k < |headers| && k != j ==> headers[k] != key
    ensures Get(FromPairs(Zip(headers, values)), key) == Some(values[j])
  {
    var pairs := Zip(headers, values);
    FromPairsGet(pairs, key);
    LastOfUnique(pairs, key, j);
  }

  lemma {:induction false} LastOfUnique(pairs: seq<(string, string)>, key: string, j: nat)
    requires j < |pairs| && pairs[j].0 == key
    requires forall k :: 0 <= k < |pairs| && k != j ==> pairs[k].0 != key
    ensures LastOf(pairs, key) == Some(pairs[j].1)
  {
    if j < |pairs| - 1 {
      LastOfUnique(pairs[..|pairs| - 1], key, j);
    }
  }

  /** What `free -h` prints: a header row of column names and a row that starts
      with a label (`Mem:`) followed by one value per column. */
  predicate FreeLayout(output: string, headers: seq<string>, rowLabel: string, numbers: seq<string>) {
    var lines := Split(output, '\n');
    |lines| > 1 && Words(lines[0]) == headers && Words(lines[1]) == [rowLabel] + numbers
    && |numbers| == |headers|
  }

  /** As written, on `free` output the `total` column reads the word one place to
      the left of its number; since `total` is the first column it reads the row
      label (`Mem:`), never the total. */
  lemma ParseFreeReadsRowLabel(output: string, headers: seq<string>, rowLabel: string, numbers: seq<string>)
    requires FreeLayout(output, headers, rowLabel, numbers)
    requires headers != [] && headers[0] == "total" && "total" !in headers[1..]
    ensures ParseFree(output).totalMemory == Some(rowLabel)
  {
    forall k | 0 <= k < |headers| && k != 0 ensures headers[k] != "total" {
      assert headers[k] == headers[1..][k - 1];
    }
    ZipLookup(headers, [rowLabel] + numbers, "total", 0);
  }

  /** With the row label skipped, every column reads the number printed under it. */
  lemma ParseFreeRowReadsColumn(output: string, headers: seq<string>, rowLabel: string, numbers: seq<string>,
                                key: string, j: nat)
    requires FreeLayout(output, headers, rowLabel, numbers)
    requires j < |headers| && headers[j] == key
    requires forall k :: 0 <= k < |headers| && k != j ==> headers[k] != key
    requires key == "total" || key == "used" || key == "free"
    ensures var r := ParseFreeRow(output);
      r.MemoryInfo?
      && (key == "total" ==> r.totalMemory == Some(numbers[j]))
      && (key == "used" ==> r.usedMemory == Some(numbers[j]))
      && (key == "free" ==> r.freeMemory == Some(numbers[j]))
  {
    assert ([rowLabel] + numbers)[1..] == numbers;
    ZipLookup(headers, numbers, key, j);
  }

  // ---------------------------------------------------------------- lspci

  /** `re.search(r'\[(.*?)\]', line).group(1)`: the text between the leftmost
      `[` and the first `]` after it. A line holds no newline, so `.` matches
      every character in it. */
  function BracketContent(line: string): (r: Option<string>)
    ensures r.None? <==> !(exists p, q :: 0 <= p < q < |line| && line[p] == '[' && line[q] == ']')
    ensures r.Some? ==> ']' !in r.value && forall c :: c in r.value ==> c in line
    ensures r.Some? ==>
      exists p :: 0 <= p && p + |r.value| + 1 < |line|
        && line[p] == '[' && '[' !in line[..p]
        && line[p + 1..p + 1 + |r.value|] == r.value && line[p + 1 + |r.value|] == ']'
  {
    match Find(line, '[')
    case None => None
    case Some(p) =>
      var rest := line[p + 1..];
      match Find(rest, ']')
      case None =>
        assert !(exists p', q :: 0 <= p' < q < |line| && line[p'] == '[' && line[q] == ']') by {
          forall p', q | 0 <= p' < q < |line| && line[p'] == '[' ensures line[q] != ']' {
            assert p <= p';
            assert rest[q - p - 1] == line[q];
          }
        }
        None
      case Some(q) =>
        assert line[p + 1 + q] == rest[q];
        assert rest[..q] == line[p + 1..p + 1 + q];
        assert forall c :: c in rest[..q] ==> c in line by {
          forall c | c in rest[..q] ensures c in line {
            var k :| 0 <= k < q && rest[k] == c;
            assert line[p + 1 + k] == c;
          }
        }
        Some(rest[..q])
  }

  /** The entries `get_gpu_info` collects from the lines, in line order. */
  function Brackets(lines: seq<string>): seq<string> {
    if lines == [] then []
    else
      var init := Brackets(lines[..|lines| - 1]);
      match BracketContent(lines[|lines| - 1])
      case None => init
      case Some(g) => init + [g]
  }

  /** At most one entry per line. */
  lemma {:induction false} BracketsAtMostOnePerLine(lines: seq<string>)
    ensures |Brackets(lines)| <= |lines|
  {
    if lines != [] {
      BracketsAtMostOnePerLine(lines[..|lines| - 1]);
    }
  }

  /** The loop of `get_gpu_info` over the `lspci` output. */
  method GpuModels(output: string) returns (gpus: seq<string>)
    ensures gpus == Brackets(Split(output, '\n'))
    ensures forall i :: 0 <= i < |gpus| ==> ']' !in gpus[i] && '\n' !in gpus[i]
  {
    var lines := Split(output, '\n');
    gpus := [];
    var i := 0;
    while i < |lines|
      invariant 0 <= i <= |lines|
      invariant gpus == Brackets(lines[..i])
      invariant forall k :: 0 <= k < |gpus| ==> ']' !in gpus[k] && '\n' !in gpus[k]
    {
      assert lines[..i + 1][..i] == lines[..i];
      var found := BracketContent(lines[i]);
      if found.Some? {
        gpus := gpus + [found.value];
      }
      i := i + 1;
    }
    assert lines[..i] == lines;
  }

  // ---------------------------------------------------------------- the profile

  /** The profile `main` writes to the profile file: the parsed sections and the
      raw text of the other commands. */
  function Profile(cpu: CpuInfo, memory: MemoryInfo, gpus: seq<string>,
                   osInfo: string, kernelInfo: string, diskDf: string, diskLsblk: string): Json
  {
    Obj([("cpu_info", cpu.ToJson()), ("memory_info", memory.ToJson()),
         ("gpu_info", Arr(seq(|gpus|, i requires 0 <= i < |gpus| => Str(gpus[i])))),
         ("os_info", Str(osInfo)), ("kernel_info", Str(kernelInfo)),
         ("disk_info_df", Str(diskDf)), ("disk_info_lsblk", Str(diskLsblk))])
  }
}
