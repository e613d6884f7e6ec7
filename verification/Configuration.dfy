/** Saving a configuration as text and reading it back. */
module Configuration {
  import opened KernelTypes
  import opened Decimal
  import opened TextLines

  datatype MemoryConfiguration =
    MemoryConfiguration(totalMemorySize: int, pageSize: int, numFrames: int, replacement: ReplacementAlgorithm)

  datatype SimulationConfig =
    SimulationConfig(processes: seq<ProcessConfig>, scheduling: SchedulingAlgorithm, timeQuantum: int,
                     memory: MemoryConfiguration, speed: int, stepMode: bool)

  /** Division of ints, rounding toward zero. */
  function Quotient(a: int, b: int): int
    requires b != 0
  {
    if a >= 0 then a / b else -(-a / b)
  }

  const DEFAULT_PROCESSES :=
    [ProcessConfig(5, 10, 0, 2), ProcessConfig(3, 8, 2, 1), ProcessConfig(7, 6, 4, 3)]

  const DEFAULT_CONFIGURATION :=
    SimulationConfig(DEFAULT_PROCESSES, FCFS, 4, MemoryConfiguration(256, 32, 8, LRU), 1, false)

  function SchedulingText(a: SchedulingAlgorithm): string {
    match a
    case FCFS => "FCFS"
    case RoundRobin => "ROUND_ROBIN"
    case Priority => "PRIORITY"
  }

  function SchedulingOf(s: string): SchedulingAlgorithm {
    if s == "ROUND_ROBIN" then RoundRobin else if s == "PRIORITY" then Priority else FCFS
  }

  function ReplacementText(a: ReplacementAlgorithm): string {
    if a.FIFO? then "FIFO" else "LRU"
  }

  function ReplacementOf(s: string): ReplacementAlgorithm {
    if s == "FIFO" then FIFO else LRU
  }

  function BoolText(b: bool): string {
    if b then "true" else "false"
  }

  // Writing.

  function HeaderLines(c: SimulationConfig, timestamp: nat): seq<string> {
    ["{",
     KeyValueLine(2, "version", "1.0", true, true),
     KeyValueLine(2, "timestamp", NatText(timestamp), true, true),
     KeyValueLine(2, "scheduling_algorithm", SchedulingText(c.scheduling), true, true),
     KeyValueLine(2, "time_quantum", IntText(c.timeQuantum), false, true),
     KeyValueLine(2, "simulation_speed", IntText(c.speed), false, true),
     KeyValueLine(2, "step_mode", BoolText(c.stepMode), false, true)]
  }

  function MemoryLines(m: MemoryConfiguration): seq<string> {
    [Spaces(2) + "\"memory_config\": {",
     KeyValueLine(4, "total_memory_size", IntText(m.totalMemorySize), false, true),
     KeyValueLine(4, "page_size", IntText(m.pageSize), false, true),
     KeyValueLine(4, "replacement_algorithm", ReplacementText(m.replacement), true, false),
     Spaces(2) + "},"]
  }

  function ProcessLines(p: ProcessConfig, last: bool): seq<string> {
    [Spaces(4) + "{",
     KeyValueLine(6, "priority", IntText(p.priority), false, true),
     KeyValueLine(6, "burst_time", IntText(p.burst), false, true),
     KeyValueLine(6, "arrival_time", IntText(p.arrival), false, true),
     KeyValueLine(6, "memory_requirement", IntText(p.memory), false, false),
     Spaces(4) + "}" + (if last then "" else ",")]
  }

  /** The lines of the first n processes. */
  function ProcessesLines(ps: seq<ProcessConfig>, n: nat): seq<string>
    requires n <= |ps|
  {
    if n == 0 then [] else ProcessesLines(ps, n - 1) + ProcessLines(ps[n - 1], n == |ps|)
  }

  function JsonLines(c: SimulationConfig, timestamp: nat): seq<string> {
    HeaderLines(c, timestamp) + MemoryLines(c.memory) + [Spaces(2) + "\"processes\": ["]
    + ProcessesLines(c.processes, |c.processes|) + [Spaces(2) + "]", "}"]
  }

  // Reading.

  datatype ParseState = ParseState(config: SimulationConfig, inMemory: bool, inProcesses: bool, current: ProcessConfig)

  const NEW_PROCESS := ProcessConfig(5, 10, 0, 1)

  function MemoryField(s: ParseState, key: string, value: string): Option<ParseState> {
    var m := s.config.memory;
    if key == "total_memory_size" then
      match Stoi(value)
      case None => None
      case Some(n) => Some(s.(config := s.config.(memory := m.(totalMemorySize := n))))
    else if key == "page_size" then
      match Stoi(value)
      case None => None
      case Some(n) =>
        if n == 0 then None
        else Some(s.(config := s.config.(memory := m.(pageSize := n, numFrames := Quotient(m.totalMemorySize, n)))))
    else if key == "replacement_algorithm" then
      Some(s.(config := s.config.(memory := m.(replacement := ReplacementOf(value)))))
    else Some(s)
  }

  function ProcessField(s: ParseState, key: string, value: string): Option<ParseState> {
    if key !in ["priority", "burst_time", "arrival_time", "memory_requirement"] then Some(s)
    else
      match Stoi(value)
      case None => None
      case Some(n) =>
        if key == "priority" then Some(s.(current := s.current.(priority := n)))
        else if key == "burst_time" then Some(s.(current := s.current.(burst := n)))
        else if key == "arrival_time" then Some(s.(current := s.current.(arrival := n)))
        else
          var p := s.current.(memory := n);
          if p.burst > 0 then Some(s.(config := s.config.(processes := s.config.processes + [p]), current := NEW_PROCESS))
          else Some(s.(current := p))
  }

  function MainField(s: ParseState, key: string, value: string): Option<ParseState> {
    if key == "scheduling_algorithm" then Some(s.(config := s.config.(scheduling := SchedulingOf(value))))
    else if key == "time_quantum" then
      match Stoi(value) case None => None case Some(n) => Some(s.(config := s.config.(timeQuantum := n)))
    else if key == "simulation_speed" then
      match Stoi(value) case None => None case Some(n) => Some(s.(config := s.config.(speed := n)))
    else if key == "step_mode" then Some(s.(config := s.config.(stepMode := value == "true")))
    else Some(s)
  }

  function Field(s: ParseState, key: string, value: string): Option<ParseState> {
    if s.inMemory then MemoryField(s, key, value)
    else if s.inProcesses then ProcessField(s, key, value)
    else MainField(s, key, value)
  }

  function ParseLine(s: ParseState, raw: string): Option<ParseState> {
    var line := SkipLead(raw);
    if line == "" then Some(s)
    else if Contains(line, "memory_config") then Some(s.(inMemory := true))
    else if Contains(line, "processes") then Some(s.(inProcesses := true))
    else if Contains(line, "}") then
      Some(if s.inMemory then s.(inMemory := false) else s.(inProcesses := false))
    else
      var colon := Find(line, ':');
      if colon == -1 then Some(s) else Field(s, KeyPart(line, colon), ValuePart(line, colon))
  }

  function ParseLines(s: ParseState, lines: seq<string>): Option<ParseState>
    decreases |lines|
  {
    if lines == [] then Some(s)
    else
      match ParseLine(s, lines[0])
      case None => None
      case Some(t) => ParseLines(t, lines[1..])
  }

  const PARSE_START := ParseState(DEFAULT_CONFIGURATION, false, false, NEW_PROCESS)

  function Parse(text: string): Option<SimulationConfig> {
    match ParseLines(PARSE_START, SplitLines(text))
    case None => None
    case Some(s) => Some(s.config)
  }

  // The methods.

  method WriteLine(json: string, line: string, ghost lines: seq<string>) returns (longer: string, ghost more: seq<string>)
    requires json == JoinLines(lines)
    ensures longer == JoinLines(more) && more == lines + [line]
  {
    longer, more := json + line + "\n", lines + [line];
    assert more[..|more| - 1] == lines;
  }

  /** Writes the text line by line, with a loop over the processes. */
  method ConfigurationToJson(c: SimulationConfig, timestamp: nat) returns (json: string)
    ensures json == JoinLines(JsonLines(c, timestamp))
  {
    hide JoinLines, KeyValueLine, HeaderLines, MemoryLines, ProcessLines;
    ghost var lines: seq<string> := [];
    json := "";
    NothingWritten();
    json, lines := WriteHeader(json, c, timestamp, lines);
    json, lines := WriteMemory(json, c.memory, lines);
    json, lines := WriteLine(json, Spaces(2) + "\"processes\": [", lines);
    ghost var front := HeaderLines(c, timestamp) + MemoryLines(c.memory) + [Spaces(2) + "\"processes\": ["];
    assert lines == front;
    for i := 0 to |c.processes|
      invariant json == JoinLines(lines) && lines == front + ProcessesLines(c.processes, i)
    {
      json, lines := WriteProcess(json, c.processes[i], i == |c.processes| - 1, lines);
      assert lines == front + ProcessesLines(c.processes, i + 1);
    }
    json, lines := WriteLine(json, Spaces(2) + "]", lines);
    json, lines := WriteLine(json, "}", lines);
    assert lines == JsonLines(c, timestamp);
  }

  method WriteHeader(json: string, c: SimulationConfig, timestamp: nat, ghost lines: seq<string>)
    returns (longer: string, ghost more: seq<string>)
    requires json == JoinLines(lines)
    ensures longer == JoinLines(more) && more == lines + HeaderLines(c, timestamp)
  {
    hide JoinLines, KeyValueLine;
    longer, more := WriteLine(json, "{", lines);
    longer, more := WriteLine(longer, KeyValueLine(2, "version", "1.0", true, true), more);
    longer, more := WriteLine(longer, KeyValueLine(2, "timestamp", NatText(timestamp), true, true), more);
    longer, more := WriteLine(longer, KeyValueLine(2, "scheduling_algorithm", SchedulingText(c.scheduling), true, true), more);
    longer, more := WriteLine(longer, KeyValueLine(2, "time_quantum", IntText(c.timeQuantum), false, true), more);
    longer, more := WriteLine(longer, KeyValueLine(2, "simulation_speed", IntText(c.speed), false, true), more);
    longer, more := WriteLine(longer, KeyValueLine(2, "step_mode", BoolText(c.stepMode), false, true), more);
    assert more == lines + HeaderLines(c, timestamp);
  }

  method WriteMemory(json: string, m: MemoryConfiguration, ghost lines: seq<string>)
    returns (longer: string, ghost more: seq<string>)
    requires json == JoinLines(lines)
    ensures longer == JoinLines(more) && more == lines + MemoryLines(m)
  {
    hide JoinLines, KeyValueLine;
    longer, more := WriteLine(json, Spaces(2) + "\"memory_config\": {", lines);
    longer, more := WriteLine(longer, KeyValueLine(4, "total_memory_size", IntText(m.totalMemorySize), false, true), more);
    longer, more := WriteLine(longer, KeyValueLine(4, "page_size", IntText(m.pageSize), false, true), more);
    longer, more := WriteLine(longer, KeyValueLine(4, "replacement_algorithm", ReplacementText(m.replacement), true, false), more);
    longer, more := WriteLine(longer, Spaces(2) + "},", more);
    assert more == lines + MemoryLines(m);
  }

  lemma NothingWritten()
    ensures JoinLines([]) == ""
  {
  }

  method WriteProcess(json: string, p: ProcessConfig, last: bool, ghost lines: seq<string>)
    returns (longer: string, ghost more: seq<string>)
    requires json == JoinLines(lines)
    ensures longer == JoinLines(more) && more == lines + ProcessLines(p, last)
  {
    hide JoinLines, KeyValueLine;
    longer, more := WriteLine(json, Spaces(4) + "{", lines);
    longer, more := WriteLine(longer, KeyValueLine(6, "priority", IntText(p.priority), false, true), more);
    longer, more := WriteLine(longer, KeyValueLine(6, "burst_time", IntText(p.burst), false, true), more);
    longer, more := WriteLine(longer, KeyValueLine(6, "arrival_time", IntText(p.arrival), false, true), more);
    longer, more := WriteLine(longer, KeyValueLine(6, "memory_requirement", IntText(p.memory), false, false), more);
    var closing := Spaces(4) + "}";
    if !last {
      closing := closing + ",";
    }
    longer, more := WriteLine(longer, closing, more);
    assert closing == Spaces(4) + "}" + (if last then "" else ",");
    assert more == lines + ProcessLines(p, last);
  }

  /** The line loop of the parser. A failed conversion ends it, as the exception does in the source. */
  method ConfigurationFromJson(json: string) returns (result: Option<SimulationConfig>)
    ensures result == Parse(json)
  {
    var s := PARSE_START;
    var text := json;
    while text != ""
      invariant ParseLines(PARSE_START, SplitLines(json)) == ParseLines(s, SplitLines(text))
      decreases |text|
    {
      var i := Find(text, '\n');
      var line := if i == -1 then text else text[..i];
      var step := ParseLine(s, line);
      NextLine(s, text);
      hide ParseLine, Find;
      if step.None? {
        return None;
      }
      s := step.value;
      text := if i == -1 then "" else text[i + 1..];
    }
    return Some(s.config);
  }

  lemma NextLine(s: ParseState, text: string)
    requires text != ""
    ensures var i := Find(text, '\n');
            var line, rest := (if i == -1 then text else text[..i]), (if i == -1 then "" else text[i + 1..]);
            ParseLines(s, SplitLines(text)) ==
              match ParseLine(s, line) case None => None case Some(t) => ParseLines(t, SplitLines(rest))
  {
    hide ParseLine;
    var i := Find(text, '\n');
    if i != -1 {
      assert SplitLines(text)[1..] == SplitLines(text[i + 1..]);
    } else {
      assert SplitLines(text)[1..] == [];
    }
  }

  // When reading fails.

  /** The key names an integer field of the section that is being read. */
  predicate IsIntKey(s: ParseState, key: string) {
    if s.inMemory then key == "total_memory_size" || key == "page_size"
    else if s.inProcesses then key in ["priority", "burst_time", "arrival_time", "memory_requirement"]
    else key == "time_quantum" || key == "simulation_speed"
  }

  /** Neither blank nor one of the lines that open or close a section. */
  predicate IsFieldLine(line: string) {
    line != "" && !Contains(line, "memory_config") && !Contains(line, "processes") && !Contains(line, "}") && Find(line, ':') != -1
  }

  /** A field line whose key wants an integer and whose value is none, or a page size of 0. */
  predicate Rejected(s: ParseState, raw: string) {
    var line := SkipLead(raw);
    IsFieldLine(line) &&
    var key, value := KeyPart(line, Find(line, ':')), Stoi(ValuePart(line, Find(line, ':')));
    IsIntKey(s, key) && (value.None? || (s.inMemory && key == "page_size" && value == Some(0)))
  }

  lemma FieldFailsIff(s: ParseState, key: string, value: string)
    ensures Field(s, key, value).None? <==>
              IsIntKey(s, key) && (Stoi(value).None? || (s.inMemory && key == "page_size" && Stoi(value) == Some(0)))
  {
    hide Stoi, Quotient;
  }

  lemma LineFailsIff(s: ParseState, raw: string)
    ensures ParseLine(s, raw).None? <==> Rejected(s, raw)
  {
    hide Field, Stoi, Contains, SkipLead, Find, KeyPart, ValuePart, IsIntKey;
    var line := SkipLead(raw);
    if Find(line, ':') != -1 {
      FieldFailsIff(s, KeyPart(line, Find(line, ':')), ValuePart(line, Find(line, ':')));
    }
  }

  /** The lines before line k are read, and line k is rejected in the state they lead to. */
  ghost predicate FailsAt(s: ParseState, lines: seq<string>, k: nat)
    requires k < |lines|
  {
    var before := ParseLines(s, lines[..k]);
    before.Some? && Rejected(before.value, lines[k])
  }

  lemma {:induction false} LinesFailIff(s: ParseState, lines: seq<string>)
    ensures ParseLines(s, lines).None? <==> exists k :: 0 <= k < |lines| && FailsAt(s, lines, k)
    decreases |lines|
  {
    hide ParseLine, Rejected;
    if lines != [] {
      assert lines[..0] == [];
      LineFailsIff(s, lines[0]);
      var next := ParseLine(s, lines[0]);
      forall k | 0 <= k < |lines| ensures FailsAt(s, lines, k) <==>
                 if k == 0 then next.None? else next.Some? && FailsAt(next.value, lines[1..], k - 1)
      {
        if k > 0 { assert lines[..k][0] == lines[0] && lines[..k][1..] == lines[1..][..k - 1]; }
      }
      hide FailsAt;
      if next.Some? {
        LinesFailIff(next.value, lines[1..]);
        if k :| 0 <= k < |lines[1..]| && FailsAt(next.value, lines[1..], k) {
          assert FailsAt(s, lines, k + 1);
        }
      } else {
        assert FailsAt(s, lines, 0);
      }
    }
  }

  /**
   Reading fails exactly at the first field line that gives an integer field of its section a
   value that is no int, or gives the page size 0.
  */
  lemma ParseFailsIff(text: string)
    ensures Parse(text).None? <==> exists k :: 0 <= k < |SplitLines(text)| && FailsAt(PARSE_START, SplitLines(text), k)
  {
    hide SplitLines, FailsAt;
    var lines := SplitLines(text);
    LinesFailIff(PARSE_START, lines);
    if k :| 0 <= k < |lines| && FailsAt(PARSE_START, lines, k) {
      assert FailsAt(PARSE_START, SplitLines(text), k);
    }
  }

  // Reading what was written.

  /** Characters that tell a key-value line from the three marker lines. */
  predicate Unmarked(s: string, m: char, p: char) {
    m !in s && p !in s && '}' !in s
  }

  /** A printed key-value line is read as that field, when its text cannot be taken for a marker. */
  lemma ReadsField(s: ParseState, indent: nat, key: string, value: string, quoted: bool, comma: bool, m: char, p: char)
    requires PlainKey(key) && PlainValue(value)
    requires m in "memory_config" && p in "processes"
    requires Unmarked(key, m, p) && Unmarked(value, m, p)
    ensures ParseLine(s, KeyValueLine(indent, key, value, quoted, comma)) == Field(s, key, value)
  {
    StripsToKey(indent, key, value, quoted, comma);
    SplitsIntoKeyAndValue(key, value, quoted, comma);
    NotInStripped(key, value, quoted, comma, m);
    NotInStripped(key, value, quoted, comma, p);
    NotInStripped(key, value, quoted, comma, '}');
    var line := StrippedLine(key, value, quoted, comma);
    LacksCharacter(line, "memory_config", m);
    LacksCharacter(line, "processes", p);
    LacksCharacter(line, "}", '}');
    assert line != "";
    hide StrippedLine, KeyValueLine, Field, Contains, SkipLead, Find, PlainKey, PlainValue, Unmarked;
  }

  predicate IsInt(n: int) {
    INT_MIN <= n <= INT_MAX
  }

  /** A printed integer is a plain value without letters or braces. */
  lemma IntTextIsPlain(n: int, m: char, p: char)
    requires !IsDigit(m) && m != '-' && !IsDigit(p) && p != '-'
    ensures PlainValue(IntText(n)) && Unmarked(IntText(n), m, p)
  {
  }

  lemma ReadsInt(s: ParseState, indent: nat, key: string, n: int, comma: bool, m: char, p: char)
    requires PlainKey(key) && m in "memory_config" && p in "processes" && Unmarked(key, m, p)
    ensures ParseLine(s, KeyValueLine(indent, key, IntText(n), false, comma)) == Field(s, key, IntText(n))
  {
    hide Field, KeyValueLine, IntText, PlainKey, PlainValue, Unmarked, ParseLine;
    assert !IsDigit(m) && m != '-' && !IsDigit(p) && p != '-';
    IntTextIsPlain(n, m, p);
    ReadsField(s, indent, key, IntText(n), false, comma, m, p);
  }

  /** One line of a longer text. */
  lemma StepAt(s: ParseState, lines: seq<string>, i: nat, t: ParseState)
    requires i < |lines| && ParseLine(s, lines[i]) == Some(t)
    ensures ParseLines(s, lines[i..]) == ParseLines(t, lines[i + 1..])
  {
    hide ParseLine;
    assert lines[i..][0] == lines[i] && lines[i..][1..] == lines[i + 1..];
  }

  lemma {:induction false} ParseAppend(s: ParseState, a: seq<string>, b: seq<string>, t: ParseState)
    requires ParseLines(s, a) == Some(t)
    ensures ParseLines(s, a + b) == ParseLines(t, b)
    decreases |a|
  {
    hide ParseLine;
    if a == [] {
      assert a + b == b;
    } else {
      ParseAppend(ParseLine(s, a[0]).value, a[1..], b, t);
      assert (a + b)[0] == a[0] && (a + b)[1..] == a[1..] + b;
    }
  }

  /** A line that only opens a brace, or closes a bracket, is skipped. */
  lemma SkipsLine(s: ParseState, indent: nat, c: char)
    requires c == '{' || c == ']'
    ensures ParseLine(s, Spaces(indent) + [c]) == Some(s)
  {
    SkipLeadOver(Spaces(indent), [c]);
    LacksCharacter([c], "memory_config", 'm');
    LacksCharacter([c], "processes", 'p');
    LacksCharacter([c], "}", '}');
    assert ':' !in [c];
  }

  lemma ClosesBrace(s: ParseState, indent: nat, tail: string)
    requires tail == "" || tail == ","
    ensures ParseLine(s, Spaces(indent) + ("}" + tail))
            == Some(if s.inMemory then s.(inMemory := false) else s.(inProcesses := false))
  {
    var line := "}" + tail;
    SkipLeadOver(Spaces(indent), line);
    LacksCharacter(line, "memory_config", 'm');
    LacksCharacter(line, "processes", 'p');
    ContainsAtFront("}", tail);
  }

  lemma OpensMemory(s: ParseState)
    ensures ParseLine(s, Spaces(2) + "\"memory_config\": {") == Some(s.(inMemory := true))
  {
    var line := "memory_config" + "\": {";
    var lead := Spaces(2) + "\"";
    assert Spaces(2) + "\"memory_config\": {" == lead + line;
    SkipLeadOver(lead, line);
    ContainsAtFront("memory_config", "\": {");
  }

  lemma OpensProcesses(s: ParseState)
    ensures ParseLine(s, Spaces(2) + "\"processes\": [") == Some(s.(inProcesses := true))
  {
    var line := "processes" + "\": [";
    var lead := Spaces(2) + "\"";
    assert Spaces(2) + "\"processes\": [" == lead + line;
    SkipLeadOver(lead, line);
    ContainsAtFront("processes", "\": [");
    LacksCharacter(line, "memory_config", 'm');
  }

  // The sections.

  ghost predicate InMain(s: ParseState) {
    !s.inMemory && !s.inProcesses
  }

  lemma HeaderRead(s: ParseState, c: SimulationConfig, timestamp: nat)
    requires InMain(s) && IsInt(c.timeQuantum) && IsInt(c.speed)
    ensures ParseLines(s, HeaderLines(c, timestamp)) ==
              Some(s.(config := s.config.(scheduling := c.scheduling, timeQuantum := c.timeQuantum,
                                          speed := c.speed, stepMode := c.stepMode)))
  {
    var s3 := s.(config := s.config.(scheduling := c.scheduling));
    var s4 := s3.(config := s3.config.(timeQuantum := c.timeQuantum));
    var s5 := s4.(config := s4.config.(speed := c.speed));
    var s6 := s5.(config := s5.config.(stepMode := c.stepMode));
    hide ParseLine, KeyValueLine, Stoi, IntText, NatText, SchedulingText, BoolText, Spaces, HeaderLines;
    HeaderAt(c, timestamp);
    SkipsLine(s, 0, '{');
    ReadsVersion(s);
    ReadsTimestamp(s, timestamp);
    ReadsScheduling(s, c.scheduling);
    ReadsQuantum(s3, c.timeQuantum);
    ReadsSpeed(s4, c.speed);
    ReadsStepMode(s5, c.stepMode);
    var lines := HeaderLines(c, timestamp);
    HeaderSteps(s, s3, s4, s5, s6, lines);
    assert lines[0..] == lines && lines[7..] == [];
  }

  lemma HeaderAt(c: SimulationConfig, timestamp: nat)
    ensures var lines := HeaderLines(c, timestamp);
            && |lines| == 7 && lines[0] == Spaces(0) + ['{']
            && lines[1] == KeyValueLine(2, "version", "1.0", true, true)
            && lines[2] == KeyValueLine(2, "timestamp", NatText(timestamp), true, true)
            && lines[3] == KeyValueLine(2, "scheduling_algorithm", SchedulingText(c.scheduling), true, true)
            && lines[4] == KeyValueLine(2, "time_quantum", IntText(c.timeQuantum), false, true)
            && lines[5] == KeyValueLine(2, "simulation_speed", IntText(c.speed), false, true)
            && lines[6] == KeyValueLine(2, "step_mode", BoolText(c.stepMode), false, true)
  {
    assert Spaces(0) + ['{'] == "{";
    hide KeyValueLine;
  }

  lemma HeaderSteps(s: ParseState, s3: ParseState, s4: ParseState, s5: ParseState, s6: ParseState, lines: seq<string>)
    requires |lines| == 7
    requires ParseLine(s, lines[0]) == ParseLine(s, lines[1]) == ParseLine(s, lines[2]) == Some(s)
    requires ParseLine(s, lines[3]) == Some(s3) && ParseLine(s3, lines[4]) == Some(s4)
    requires ParseLine(s4, lines[5]) == Some(s5) && ParseLine(s5, lines[6]) == Some(s6)
    ensures ParseLines(s, lines[0..]) == ParseLines(s6, lines[7..])
  {
    hide ParseLine, ParseLines;
    StepAt(s, lines, 0, s);
    StepAt(s, lines, 1, s);
    StepAt(s, lines, 2, s);
    StepAt(s, lines, 3, s3);
    StepAt(s3, lines, 4, s4);
    StepAt(s4, lines, 5, s5);
    StepAt(s5, lines, 6, s6);
  }

  lemma ReadsQuantum(s: ParseState, n: int)
    requires InMain(s) && IsInt(n)
    ensures ParseLine(s, KeyValueLine(2, "time_quantum", IntText(n), false, true))
            == Some(s.(config := s.config.(timeQuantum := n)))
  {
    hide ParseLine, KeyValueLine, Stoi, IntText;
    ReadsInt(s, 2, "time_quantum", n, true, 'f', 'c');
    StoiReadsIntText(n);
  }

  lemma ReadsSpeed(s: ParseState, n: int)
    requires InMain(s) && IsInt(n)
    ensures ParseLine(s, KeyValueLine(2, "simulation_speed", IntText(n), false, true))
            == Some(s.(config := s.config.(speed := n)))
  {
    hide ParseLine, KeyValueLine, Stoi, IntText;
    ReadsInt(s, 2, "simulation_speed", n, true, 'f', 'c');
    StoiReadsIntText(n);
  }

  lemma ReadsVersion(s: ParseState)
    requires InMain(s)
    ensures ParseLine(s, KeyValueLine(2, "version", "1.0", true, true)) == Some(s)
  {
    hide ParseLine, KeyValueLine;
    ReadsField(s, 2, "version", "1.0", true, true, 'f', 'c');
  }

  lemma ReadsTimestamp(s: ParseState, timestamp: nat)
    requires InMain(s)
    ensures ParseLine(s, KeyValueLine(2, "timestamp", NatText(timestamp), true, true)) == Some(s)
  {
    hide ParseLine, KeyValueLine;
    ReadsField(s, 2, "timestamp", NatText(timestamp), true, true, 'f', 'c');
    assert "timestamp"[0] != "step_mode"[0];
  }

  /** The names of the algorithms are plain values and are read back as written. */
  lemma SchedulingNames(a: SchedulingAlgorithm)
    ensures PlainValue(SchedulingText(a)) && Unmarked(SchedulingText(a), 'f', 'p') && SchedulingOf(SchedulingText(a)) == a
  {
  }

  lemma SchedulingKey()
    ensures PlainKey("scheduling_algorithm") && Unmarked("scheduling_algorithm", 'f', 'p')
  {
  }

  lemma ReadsScheduling(s: ParseState, a: SchedulingAlgorithm)
    requires InMain(s)
    ensures ParseLine(s, KeyValueLine(2, "scheduling_algorithm", SchedulingText(a), true, true))
            == Some(s.(config := s.config.(scheduling := a)))
  {
    hide ParseLine, KeyValueLine, PlainKey, PlainValue, Unmarked, SchedulingText, SchedulingOf;
    SchedulingNames(a);
    SchedulingKey();
    ReadsField(s, 2, "scheduling_algorithm", SchedulingText(a), true, true, 'f', 'p');
  }

  lemma ReadsStepMode(s: ParseState, b: bool)
    requires InMain(s)
    ensures ParseLine(s, KeyValueLine(2, "step_mode", BoolText(b), false, true))
            == Some(s.(config := s.config.(stepMode := b)))
  {
    hide ParseLine, KeyValueLine;
    ReadsField(s, 2, "step_mode", BoolText(b), false, true, 'c', 'c');
  }

  lemma ReplacementNames(a: ReplacementAlgorithm)
    ensures PlainValue(ReplacementText(a)) && Unmarked(ReplacementText(a), 'f', 's') && ReplacementOf(ReplacementText(a)) == a
  {
  }

  lemma ReplacementKey()
    ensures PlainKey("replacement_algorithm") && Unmarked("replacement_algorithm", 'f', 's')
  {
  }

  lemma ReadsTotal(s: ParseState, n: int)
    requires s.inMemory && IsInt(n)
    ensures ParseLine(s, KeyValueLine(4, "total_memory_size", IntText(n), false, true))
            == Some(s.(config := s.config.(memory := s.config.memory.(totalMemorySize := n))))
  {
    hide ParseLine, KeyValueLine, Stoi, IntText;
    ReadsInt(s, 4, "total_memory_size", n, true, 'f', 'c');
    StoiReadsIntText(n);
  }

  lemma ReadsPageSize(s: ParseState, n: int)
    requires s.inMemory && IsInt(n) && n != 0
    ensures ParseLine(s, KeyValueLine(4, "page_size", IntText(n), false, true))
            == Some(s.(config := s.config.(memory := s.config.memory.(pageSize := n,
                         numFrames := Quotient(s.config.memory.totalMemorySize, n)))))
  {
    hide ParseLine, KeyValueLine, Stoi, IntText, Quotient;
    ReadsInt(s, 4, "page_size", n, true, 'f', 'c');
    StoiReadsIntText(n);
  }

  lemma ReadsReplacement(s: ParseState, a: ReplacementAlgorithm)
    requires s.inMemory
    ensures ParseLine(s, KeyValueLine(4, "replacement_algorithm", ReplacementText(a), true, false))
            == Some(s.(config := s.config.(memory := s.config.memory.(replacement := a))))
  {
    hide ParseLine, KeyValueLine, PlainKey, PlainValue, Unmarked, ReplacementText, ReplacementOf;
    ReplacementNames(a);
    ReplacementKey();
    ReadsField(s, 4, "replacement_algorithm", ReplacementText(a), true, false, 'f', 's');
  }

  /** The memory section restores all four fields, the frame count by division. */
  lemma MemoryRead(s: ParseState, m: MemoryConfiguration)
    requires InMain(s) && IsInt(m.totalMemorySize) && IsInt(m.pageSize) && m.pageSize != 0
    requires m.numFrames == Quotient(m.totalMemorySize, m.pageSize)
    ensures ParseLines(s, MemoryLines(m)) == Some(s.(config := s.config.(memory := m)))
  {
    var lines := MemoryLines(m);
    var s1 := s.(inMemory := true);
    var s2 := s1.(config := s1.config.(memory := s1.config.memory.(totalMemorySize := m.totalMemorySize)));
    var s3 := s2.(config := s2.config.(memory := s2.config.memory.(pageSize := m.pageSize, numFrames := m.numFrames)));
    var s4 := s3.(config := s3.config.(memory := m));
    var s5 := s4.(inMemory := false);
    assert Spaces(2) + ("}" + ",") == Spaces(2) + "},";
    hide ParseLine, KeyValueLine, Stoi, IntText, ReplacementText, Quotient, Spaces;
    OpensMemory(s);
    ReadsTotal(s1, m.totalMemorySize);
    ReadsPageSize(s2, m.pageSize);
    ReadsReplacement(s3, m.replacement);
    ClosesBrace(s4, 2, ",");
    SectionSteps(s, s1, s2, s3, s4, s5, lines);
    assert lines[0..] == lines && lines[5..] == [];
  }

  lemma SectionSteps(s: ParseState, s1: ParseState, s2: ParseState, s3: ParseState, s4: ParseState, s5: ParseState,
                     lines: seq<string>)
    requires |lines| >= 5
    requires ParseLine(s, lines[0]) == Some(s1) && ParseLine(s1, lines[1]) == Some(s2)
    requires ParseLine(s2, lines[2]) == Some(s3) && ParseLine(s3, lines[3]) == Some(s4)
    requires ParseLine(s4, lines[4]) == Some(s5)
    ensures ParseLines(s, lines[0..]) == ParseLines(s5, lines[5..])
  {
    hide ParseLine, ParseLines;
    StepAt(s, lines, 0, s1);
    StepAt(s1, lines, 1, s2);
    StepAt(s2, lines, 2, s3);
    StepAt(s3, lines, 3, s4);
    StepAt(s4, lines, 4, s5);
  }

  predicate IsIntProcess(p: ProcessConfig) {
    IsInt(p.priority) && IsInt(p.burst) && IsInt(p.arrival) && IsInt(p.memory)
  }

  /** What a process line does inside the process section, and outside it. */
  lemma ReadsProcessField(s: ParseState, key: string, n: int, comma: bool)
    requires !s.inMemory && IsInt(n)
    requires key in ["priority", "burst_time", "arrival_time", "memory_requirement"]
    ensures ParseLine(s, KeyValueLine(6, key, IntText(n), false, comma)) ==
              if !s.inProcesses then Some(s)
              else if key == "priority" then Some(s.(current := s.current.(priority := n)))
              else if key == "burst_time" then Some(s.(current := s.current.(burst := n)))
              else if key == "arrival_time" then Some(s.(current := s.current.(arrival := n)))
              else Some(WithProcess(s, s.current.(memory := n)))
  {
    hide ParseLine, KeyValueLine, Stoi, IntText, PlainKey, Unmarked;
    ProcessKeys(key);
    ReadsInt(s, 6, key, n, comma, 'f', 'c');
    StoiReadsIntText(n);
    hide WithProcess;
    if !s.inProcesses { NotMainKey(key); } else { LastKey(s, key, n); }
  }

  lemma ProcessKeys(key: string)
    requires key in ["priority", "burst_time", "arrival_time", "memory_requirement"]
    ensures PlainKey(key) && Unmarked(key, 'f', 'c')
  {
  }

  /** The last line of a process appends it, unless its burst is not positive. */
  function WithProcess(s: ParseState, p: ProcessConfig): ParseState {
    if p.burst > 0 then s.(config := s.config.(processes := s.config.processes + [p]), current := NEW_PROCESS)
    else s.(current := p)
  }

  lemma LastKey(s: ParseState, key: string, n: int)
    requires s.inProcesses && !s.inMemory && Stoi(IntText(n)) == Some(n)
    requires key in ["priority", "burst_time", "arrival_time", "memory_requirement"]
    ensures Field(s, key, IntText(n)) ==
              if key == "priority" then Some(s.(current := s.current.(priority := n)))
              else if key == "burst_time" then Some(s.(current := s.current.(burst := n)))
              else if key == "arrival_time" then Some(s.(current := s.current.(arrival := n)))
              else Some(WithProcess(s, s.current.(memory := n)))
  {
    hide Stoi, IntText;
  }

  lemma NotMainKey(key: string)
    requires key in ["priority", "burst_time", "arrival_time", "memory_requirement"]
    ensures key != "scheduling_algorithm" && key != "time_quantum" && key != "simulation_speed" && key != "step_mode"
  {
    assert "arrival_time"[0] != "time_quantum"[0];
  }

  /** Inside the process section a process is read whole, and its closing brace ends the section. */
  lemma FirstProcessRead(s: ParseState, p: ProcessConfig, last: bool)
    requires s.inProcesses && !s.inMemory && IsIntProcess(p)
    ensures ParseLines(s, ProcessLines(p, last)) == Some(WithProcess(s, p).(inProcesses := false))
  {
    var s1 := s.(current := s.current.(priority := p.priority));
    var s2 := s1.(current := s1.current.(burst := p.burst));
    var s3 := s2.(current := s2.current.(arrival := p.arrival));
    var s4 := WithProcess(s3, p);
    ProcessSteps(s, s1, s2, s3, s4, s4.(inProcesses := false), p, last);
  }

  /** Outside the process section the lines of a process change nothing. */
  lemma LaterProcessRead(s: ParseState, p: ProcessConfig, last: bool)
    requires InMain(s)
    ensures ParseLines(s, ProcessLines(p, last)) == Some(s)
  {
    ProcessSteps(s, s, s, s, s, s, p, last);
  }

  /** A process field outside its section is ignored, whatever its value. */
  lemma IgnoresProcessField(s: ParseState, key: string, n: int, comma: bool)
    requires InMain(s) && key in ["priority", "burst_time", "arrival_time", "memory_requirement"]
    ensures ParseLine(s, KeyValueLine(6, key, IntText(n), false, comma)) == Some(s)
  {
    hide ParseLine, KeyValueLine, Stoi, IntText, PlainKey, Unmarked;
    ProcessKeys(key);
    ReadsInt(s, 6, key, n, comma, 'f', 'c');
    NotMainKey(key);
  }

  lemma ProcessSteps(s: ParseState, s1: ParseState, s2: ParseState, s3: ParseState, s4: ParseState, s5: ParseState,
                     p: ProcessConfig, last: bool)
    requires !s.inMemory && !s1.inMemory && !s2.inMemory && !s3.inMemory && !s4.inMemory
    requires s5 == s4.(inProcesses := false)
    requires (s.inProcesses && s1.inProcesses && s2.inProcesses && s3.inProcesses && IsIntProcess(p)
              && s1 == s.(current := s.current.(priority := p.priority))
              && s2 == s1.(current := s1.current.(burst := p.burst))
              && s3 == s2.(current := s2.current.(arrival := p.arrival))
              && s4 == WithProcess(s3, s3.current.(memory := p.memory)))
             || (InMain(s) && s == s1 == s2 == s3 == s4)
    ensures ParseLines(s, ProcessLines(p, last)) == Some(s5)
  {
    hide ParseLine, KeyValueLine, Stoi, IntText, WithProcess;
    var lines := ProcessLines(p, last);
    SkipsLine(s, 4, '{');
    if InMain(s) {
      IgnoresProcessField(s, "priority", p.priority, true);
      IgnoresProcessField(s, "burst_time", p.burst, true);
      IgnoresProcessField(s, "arrival_time", p.arrival, true);
      IgnoresProcessField(s, "memory_requirement", p.memory, false);
    } else {
      ReadsProcessField(s, "priority", p.priority, true);
      ReadsProcessField(s1, "burst_time", p.burst, true);
      ReadsProcessField(s2, "arrival_time", p.arrival, true);
      ReadsProcessField(s3, "memory_requirement", p.memory, false);
    }
    ClosesBrace(s4, 4, if last then "" else ",");
    ProcessAt(p, last);
    hide ProcessLines, Spaces;
    StepAt(s, lines, 0, s);
    StepAt(s, lines, 1, s1);
    StepAt(s1, lines, 2, s2);
    StepAt(s2, lines, 3, s3);
    StepAt(s3, lines, 4, s4);
    StepAt(s4, lines, 5, s5);
    assert lines[0..] == lines && lines[6..] == [];
  }

  lemma ProcessAt(p: ProcessConfig, last: bool)
    ensures var lines := ProcessLines(p, last);
            && |lines| == 6 && lines[0] == Spaces(4) + ['{']
            && lines[1] == KeyValueLine(6, "priority", IntText(p.priority), false, true)
            && lines[2] == KeyValueLine(6, "burst_time", IntText(p.burst), false, true)
            && lines[3] == KeyValueLine(6, "arrival_time", IntText(p.arrival), false, true)
            && lines[4] == KeyValueLine(6, "memory_requirement", IntText(p.memory), false, false)
            && lines[5] == Spaces(4) + ("}" + (if last then "" else ","))
  {
    hide KeyValueLine;
  }

  /** Of all saved processes only the first reaches the configuration. */
  lemma {:induction false} ProcessesRead(s: ParseState, ps: seq<ProcessConfig>, n: nat)
    requires s.inProcesses && !s.inMemory && n <= |ps| && (n > 0 ==> IsIntProcess(ps[0]))
    ensures ParseLines(s, ProcessesLines(ps, n))
            == Some(if n == 0 then s else WithProcess(s, ps[0]).(inProcesses := false))
  {
    hide ParseLine, ProcessLines;
    if n > 0 {
      ProcessesRead(s, ps, n - 1);
      var t := if n == 1 then s else WithProcess(s, ps[0]).(inProcesses := false);
      ParseAppend(s, ProcessesLines(ps, n - 1), ProcessLines(ps[n - 1], n == |ps|), t);
      if n == 1 { FirstProcessRead(s, ps[0], n == |ps|); } else { LaterProcessRead(t, ps[n - 1], n == |ps|); }
    }
  }

  lemma TailRead(s: ParseState)
    requires !s.inMemory
    ensures ParseLines(s, [Spaces(2) + "]", "}"]) == Some(s.(inProcesses := false))
  {
    var lines := [Spaces(2) + "]", "}"];
    SkipsLine(s, 2, ']');
    ClosesBrace(s, 0, "");
    assert Spaces(0) + ("}" + "") == "}" && Spaces(2) + [']'] == Spaces(2) + "]";
    hide ParseLine, Spaces;
    StepAt(s, lines, 0, s);
    StepAt(s, lines, 1, s.(inProcesses := false));
    assert lines[0..] == lines && lines[2..] == [];
  }

  /** A configuration as the source can hold it: ints, and the frame count that goes with the sizes. */
  predicate Savable(c: SimulationConfig) {
    && IsInt(c.timeQuantum) && IsInt(c.speed) && IsInt(c.memory.totalMemorySize) && IsInt(c.memory.pageSize)
    && c.memory.pageSize != 0 && c.memory.numFrames == Quotient(c.memory.totalMemorySize, c.memory.pageSize)
    && (c.processes != [] ==> IsIntProcess(c.processes[0]))
  }

  /** The processes that reading back a saved list gives. */
  function ProcessesReadBack(ps: seq<ProcessConfig>): seq<ProcessConfig> {
    DEFAULT_PROCESSES + (if ps != [] && ps[0].burst > 0 then [ps[0]] else [])
  }

  function FrontLines(c: SimulationConfig, timestamp: nat): seq<string> {
    HeaderLines(c, timestamp) + MemoryLines(c.memory) + [Spaces(2) + "\"processes\": ["]
  }

  /** The state of the parser when it enters the process section. */
  function AtProcesses(c: SimulationConfig): ParseState {
    ParseState(c.(processes := DEFAULT_PROCESSES), false, true, NEW_PROCESS)
  }

  lemma OpeningRead(s: ParseState)
    ensures ParseLines(s, [Spaces(2) + "\"processes\": ["]) == Some(s.(inProcesses := true))
  {
    hide ParseLine, Spaces;
    var lines := [Spaces(2) + "\"processes\": ["];
    OpensProcesses(s);
    StepAt(s, lines, 0, s.(inProcesses := true));
    assert lines[0..] == lines && lines[1..] == [];
  }

  lemma FrontRead(c: SimulationConfig, timestamp: nat)
    requires Savable(c)
    ensures ParseLines(PARSE_START, FrontLines(c, timestamp)) == Some(AtProcesses(c))
  {
    hide ParseLines, HeaderLines, MemoryLines, Spaces, Quotient;
    var s1 := PARSE_START.(config := PARSE_START.config.(scheduling := c.scheduling, timeQuantum := c.timeQuantum,
                                                         speed := c.speed, stepMode := c.stepMode));
    var s2 := s1.(config := s1.config.(memory := c.memory));
    HeaderRead(PARSE_START, c, timestamp);
    MemoryRead(s1, c.memory);
    ParseAppend(PARSE_START, HeaderLines(c, timestamp), MemoryLines(c.memory), s1);
    OpeningRead(s2);
    ParseAppend(PARSE_START, HeaderLines(c, timestamp) + MemoryLines(c.memory), [Spaces(2) + "\"processes\": ["], s2);
  }

  lemma AllLinesRead(c: SimulationConfig, timestamp: nat)
    requires Savable(c)
    ensures var result := ParseLines(PARSE_START, JsonLines(c, timestamp));
            result.Some? && result.value.config == c.(processes := ProcessesReadBack(c.processes))
  {
    hide ParseLines, HeaderLines, MemoryLines, ProcessesLines, Spaces, Quotient;
    var front, body := FrontLines(c, timestamp), ProcessesLines(c.processes, |c.processes|);
    var tail := [Spaces(2) + "]", "}"];
    var s := AtProcesses(c);
    var t := if c.processes == [] then s else WithProcess(s, c.processes[0]).(inProcesses := false);
    FrontRead(c, timestamp);
    ProcessesRead(s, c.processes, |c.processes|);
    ParseAppend(PARSE_START, front, body, s);
    TailRead(t);
    ParseAppend(PARSE_START, front + body, tail, t);
    assert JsonLines(c, timestamp) == front + body + tail;
    assert DEFAULT_PROCESSES + [] == DEFAULT_PROCESSES;
  }

  ghost predicate OneLineEach(lines: seq<string>) {
    forall k :: 0 <= k < |lines| ==> '\n' !in lines[k]
  }

  lemma KeyValueOneLine(indent: nat, key: string, value: string, quoted: bool, comma: bool)
    requires '\n' !in key && '\n' !in value
    ensures '\n' !in KeyValueLine(indent, key, value, quoted, comma)
  {
    NotInStripped(key, value, quoted, comma, '\n');
    assert KeyValueLine(indent, key, value, quoted, comma) == Spaces(indent) + "\"" + StrippedLine(key, value, quoted, comma);
    assert '\n' !in Spaces(indent) + "\"";
    hide StrippedLine, KeyValueLine;
  }

  lemma HeaderOneLineEach(c: SimulationConfig, timestamp: nat)
    ensures OneLineEach(HeaderLines(c, timestamp))
  {
    hide KeyValueLine, NatText, IntText, HeaderLines;
    PlainOneLine(c, timestamp);
    KeyValueOneLine(2, "version", "1.0", true, true);
    KeyValueOneLine(2, "timestamp", NatText(timestamp), true, true);
    KeyValueOneLine(2, "scheduling_algorithm", SchedulingText(c.scheduling), true, true);
    KeyValueOneLine(2, "time_quantum", IntText(c.timeQuantum), false, true);
    KeyValueOneLine(2, "simulation_speed", IntText(c.speed), false, true);
    KeyValueOneLine(2, "step_mode", BoolText(c.stepMode), false, true);
    HeaderAt(c, timestamp);
  }

  lemma PlainOneLine(c: SimulationConfig, timestamp: nat)
    ensures '\n' !in Spaces(0) + ['{'] && '\n' !in SchedulingText(c.scheduling) && '\n' !in BoolText(c.stepMode)
  {
  }

  lemma MemoryOneLineEach(m: MemoryConfiguration)
    ensures OneLineEach(MemoryLines(m))
  {
    KeyValueOneLine(4, "total_memory_size", IntText(m.totalMemorySize), false, true);
    KeyValueOneLine(4, "page_size", IntText(m.pageSize), false, true);
    KeyValueOneLine(4, "replacement_algorithm", ReplacementText(m.replacement), true, false);
    assert '\n' !in Spaces(2) + "\"memory_config\": {" && '\n' !in Spaces(2) + "},";
    hide KeyValueLine, ReplacementText, IntText;
  }

  lemma ProcessOneLineEach(p: ProcessConfig, last: bool)
    ensures OneLineEach(ProcessLines(p, last))
  {
    KeyValueOneLine(6, "priority", IntText(p.priority), false, true);
    KeyValueOneLine(6, "burst_time", IntText(p.burst), false, true);
    KeyValueOneLine(6, "arrival_time", IntText(p.arrival), false, true);
    KeyValueOneLine(6, "memory_requirement", IntText(p.memory), false, false);
    assert '\n' !in Spaces(4) + "{" && '\n' !in Spaces(4) + "}" + (if last then "" else ",");
    hide KeyValueLine, IntText;
  }

  lemma {:induction false} ProcessesOneLineEach(ps: seq<ProcessConfig>, n: nat)
    requires n <= |ps|
    ensures OneLineEach(ProcessesLines(ps, n))
  {
    hide ProcessLines;
    if n > 0 {
      ProcessesOneLineEach(ps, n - 1);
      ProcessOneLineEach(ps[n - 1], n == |ps|);
    }
  }

  lemma JsonOneLineEach(c: SimulationConfig, timestamp: nat)
    ensures OneLineEach(JsonLines(c, timestamp))
  {
    hide HeaderLines, MemoryLines, ProcessesLines;
    HeaderOneLineEach(c, timestamp);
    MemoryOneLineEach(c.memory);
    ProcessesOneLineEach(c.processes, |c.processes|);
    assert '\n' !in Spaces(2) + "\"processes\": [" && '\n' !in Spaces(2) + "]";
    hide Spaces;
  }

  /**
   The print and parse round trip. Reading back a saved configuration succeeds and restores the
   scheduling algorithm, the quantum, the speed, the step mode and all four memory fields; of
   the processes it gives the three defaults and the first saved one, if its burst is positive.
  */
  lemma RoundTrip(c: SimulationConfig, timestamp: nat)
    requires Savable(c)
    ensures Parse(JoinLines(JsonLines(c, timestamp))) == Some(c.(processes := ProcessesReadBack(c.processes)))
  {
    var lines := JsonLines(c, timestamp);
    JsonOneLineEach(c, timestamp);
    hide JsonLines, ParseLines, JoinLines, SplitLines;
    SplitJoin(lines);
    AllLinesRead(c, timestamp);
  }

  /** Reading back is exact for one process list only: the defaults followed by the first default. */
  lemma FullRoundTripIff(c: SimulationConfig, timestamp: nat)
    requires Savable(c)
    ensures Parse(JoinLines(JsonLines(c, timestamp))) == Some(c)
            <==> c.processes == DEFAULT_PROCESSES + [DEFAULT_PROCESSES[0]]
  {
    RoundTrip(c, timestamp);
    hide Parse, JoinLines, JsonLines;
    var back := ProcessesReadBack(c.processes);
    if c.processes == back {
      assert c.processes[0] == DEFAULT_PROCESSES[0];
    }
    if c.processes == DEFAULT_PROCESSES + [DEFAULT_PROCESSES[0]] {
      assert c.processes[0] == DEFAULT_PROCESSES[0];
      assert back == c.processes;
      assert c.(processes := back) == c;
    }
  }
}
