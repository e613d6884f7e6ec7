/**
 The written configuration as a JSON text: brackets match, keys stand in objects only, and there
 is a comma exactly between the members of an object or an array. The saved names and the
 defaults are given letter by letter.
*/
module JsonLayout {
  import opened KernelTypes
  import opened Decimal
  import opened TextLines
  import opened Configuration

  // Reading a text strictly, line by line.

  /** What the line before was: the opening of a bracket, a member with a comma, or one without. */
  datatype After = Opening | Comma | NoComma

  /** The brackets open so far, the innermost last. */
  datatype Layout = Layout(open: string, after: After)

  const LAYOUT_START := Layout("", Opening)

  function FirstInk(line: string): char {
    if line == "" then ' ' else if line[0] != ' ' then line[0] else FirstInk(line[1..])
  }

  function LastInk(line: string): char {
    if line == "" then ' ' else line[|line| - 1]
  }

  function Ended(line: string): After {
    if LastInk(line) == ',' then Comma else NoComma
  }

  /** One line, or None when a bracket, a key or a comma is out of place. */
  function Lay(s: Layout, line: string): Option<Layout> {
    var first, last := FirstInk(line), LastInk(line);
    if first == '}' || first == ']' then
      if s.open == "" || s.after.Comma? || s.open[|s.open| - 1] != (if first == '}' then '{' else '[') then None
      else Some(Layout(s.open[..|s.open| - 1], Ended(line)))
    else if s.after.NoComma? then None
    else if s.open != "" && (first == '"') != (s.open[|s.open| - 1] == '{') then None
    else if last == '{' || last == '[' then Some(Layout(s.open + [last], Opening))
    else if s.open == "" then None
    else Some(s.(after := Ended(line)))
  }

  function LayAll(s: Layout, lines: seq<string>): Option<Layout>
    decreases |lines|
  {
    if lines == [] then Some(s)
    else
      match Lay(s, lines[0])
      case None => None
      case Some(t) => LayAll(t, lines[1..])
  }

  lemma {:induction false} LayAppend(s: Layout, a: seq<string>, b: seq<string>, t: Layout)
    requires LayAll(s, a) == Some(t)
    ensures LayAll(s, a + b) == LayAll(t, b)
    decreases |a|
  {
    hide Lay;
    if a == [] {
      assert a + b == b;
    } else {
      LayAppend(Lay(s, a[0]).value, a[1..], b, t);
      assert (a + b)[0] == a[0] && (a + b)[1..] == a[1..] + b;
    }
  }

  /** A list of lines leads from each state to the next. */
  lemma {:induction false} LaySteps(states: seq<Layout>, lines: seq<string>)
    requires |states| == |lines| + 1 && forall i :: 0 <= i < |lines| ==> Lay(states[i], lines[i]) == Some(states[i + 1])
    ensures LayAll(states[0], lines) == Some(states[|lines|])
    decreases |lines|
  {
    hide Lay;
    if lines != [] {
      assert Lay(states[0], lines[0]) == Some(states[1]);
      LaySteps(states[1..], lines[1..]);
    }
  }

  // The lines that are written.

  lemma {:induction false} FirstInkAfter(n: nat, rest: string)
    requires rest != "" && rest[0] != ' '
    ensures FirstInk(Spaces(n) + rest) == rest[0]
  {
    if n == 0 {
      assert Spaces(0) + rest == rest;
    } else {
      assert (Spaces(n) + rest)[1..] == Spaces(n - 1) + rest;
      FirstInkAfter(n - 1, rest);
    }
  }

  /** A key-value line is a member of the innermost object, with a comma when it is printed with one. */
  lemma LaysField(s: Layout, indent: nat, key: string, value: string, quoted: bool, comma: bool)
    requires s.open != "" && s.open[|s.open| - 1] == '{' && !s.after.NoComma?
    requires value != "" && value[|value| - 1] !in "{[,"
    ensures Lay(s, KeyValueLine(indent, key, value, quoted, comma)) == Some(s.(after := if comma then Comma else NoComma))
  {
    var line := KeyValueLine(indent, key, value, quoted, comma);
    var rest := "\"" + StrippedLine(key, value, quoted, comma);
    assert line == Spaces(indent) + rest;
    FirstInkAfter(indent, rest);
    var before := Spaces(indent) + "\"" + key + "\": " + Quote(quoted) + value;
    assert line == before + Ending(quoted, comma);
    hide FirstInk, StrippedLine, KeyValueLine;
  }

  lemma LaysOpening(s: Layout, indent: nat, text: string)
    requires text != "" && text[0] != ' ' && text[0] !in "}]" && !s.after.NoComma?
    requires s.open == "" || ((text[0] == '"') <==> (s.open[|s.open| - 1] == '{'))
    requires text[|text| - 1] in "{["
    ensures Lay(s, Spaces(indent) + text) == Some(Layout(s.open + [text[|text| - 1]], Opening))
  {
    FirstInkAfter(indent, text);
    hide FirstInk;
  }

  lemma LaysClosing(s: Layout, open: string, indent: nat, text: string)
    requires (s.open == open + "{" && text in ["}", "},"]) || (s.open == open + "[" && text == "]")
    requires !s.after.Comma?
    ensures Lay(s, Spaces(indent) + text) == Some(Layout(open, if text == "}," then Comma else NoComma))
  {
    FirstInkAfter(indent, text);
    assert s.open[..|s.open| - 1] == open;
    hide FirstInk;
  }

  lemma IntEnds(n: int)
    ensures IntText(n) != "" && IntText(n)[|IntText(n)| - 1] !in "{[,"
  {
    assert IsDigit(IntText(n)[|IntText(n)| - 1]);
    hide IntText;
  }

  lemma NameEnds(c: SimulationConfig, timestamp: nat)
    ensures SchedulingText(c.scheduling) != "" && SchedulingText(c.scheduling)[|SchedulingText(c.scheduling)| - 1] !in "{[,"
    ensures BoolText(c.stepMode) != "" && BoolText(c.stepMode)[|BoolText(c.stepMode)| - 1] !in "{[,"
    ensures NatText(timestamp) != "" && NatText(timestamp)[|NatText(timestamp)| - 1] !in "{[,"
  {
    assert IsDigit(NatText(timestamp)[|NatText(timestamp)| - 1]);
    hide NatText;
  }

  lemma HeaderNamesLaid(c: SimulationConfig, timestamp: nat)
    ensures var o, s := Layout("{", Opening), Layout("{", Comma);
            && Lay(o, KeyValueLine(2, "version", "1.0", true, true)) == Some(s)
            && Lay(s, KeyValueLine(2, "timestamp", NatText(timestamp), true, true)) == Some(s)
            && Lay(s, KeyValueLine(2, "scheduling_algorithm", SchedulingText(c.scheduling), true, true)) == Some(s)
  {
    hide Lay, KeyValueLine, SchedulingText, NatText;
    NameEnds(c, timestamp);
    LaysField(Layout("{", Opening), 2, "version", "1.0", true, true);
    LaysField(Layout("{", Comma), 2, "timestamp", NatText(timestamp), true, true);
    LaysField(Layout("{", Comma), 2, "scheduling_algorithm", SchedulingText(c.scheduling), true, true);
  }

  lemma HeaderSettingsLaid(c: SimulationConfig)
    ensures var s := Layout("{", Comma);
            && Lay(s, KeyValueLine(2, "time_quantum", IntText(c.timeQuantum), false, true)) == Some(s)
            && Lay(s, KeyValueLine(2, "simulation_speed", IntText(c.speed), false, true)) == Some(s)
            && Lay(s, KeyValueLine(2, "step_mode", BoolText(c.stepMode), false, true)) == Some(s)
  {
    hide Lay, KeyValueLine, BoolText, IntText;
    NameEnds(c, 0);
    IntEnds(c.timeQuantum);
    IntEnds(c.speed);
    LaysField(Layout("{", Comma), 2, "time_quantum", IntText(c.timeQuantum), false, true);
    LaysField(Layout("{", Comma), 2, "simulation_speed", IntText(c.speed), false, true);
    LaysField(Layout("{", Comma), 2, "step_mode", BoolText(c.stepMode), false, true);
  }

  lemma SevenLaid(lines: seq<string>, s0: Layout, o: Layout, s: Layout)
    requires |lines| == 7 && Lay(s0, lines[0]) == Some(o) && Lay(o, lines[1]) == Some(s)
    requires Lay(s, lines[2]) == Lay(s, lines[3]) == Lay(s, lines[4]) == Lay(s, lines[5]) == Lay(s, lines[6]) == Some(s)
    ensures LayAll(s0, lines) == Some(s)
  {
    hide Lay, LayAll;
    LaySteps([s0, o, s, s, s, s, s, s], lines);
  }

  lemma HeaderLaid(c: SimulationConfig, timestamp: nat)
    ensures LayAll(LAYOUT_START, HeaderLines(c, timestamp)) == Some(Layout("{", Comma))
  {
    var lines, o, s := HeaderLines(c, timestamp), Layout("{", Opening), Layout("{", Comma);
    HeaderAt(c, timestamp);
    assert Spaces(0) + ['{'] == Spaces(0) + "{" && "" + ['{'] == "{";
    hide HeaderLines, Spaces, Lay, LayAll, KeyValueLine, SchedulingText, BoolText, IntText, NatText;
    HeaderNamesLaid(c, timestamp);
    HeaderSettingsLaid(c);
    LaysOpening(LAYOUT_START, 0, "{");
    SevenLaid(lines, LAYOUT_START, o, s);
  }

  lemma ReplacementEnds(a: ReplacementAlgorithm)
    ensures ReplacementText(a) != "" && ReplacementText(a)[|ReplacementText(a)| - 1] !in "{[,"
  {
  }

  lemma MemoryAt(m: MemoryConfiguration)
    ensures var lines := MemoryLines(m);
            && |lines| == 5 && lines[0] == Spaces(2) + "\"memory_config\": {"
            && lines[1] == KeyValueLine(4, "total_memory_size", IntText(m.totalMemorySize), false, true)
            && lines[2] == KeyValueLine(4, "page_size", IntText(m.pageSize), false, true)
            && lines[3] == KeyValueLine(4, "replacement_algorithm", ReplacementText(m.replacement), true, false)
            && lines[4] == Spaces(2) + "},"
  {
    hide KeyValueLine;
  }

  lemma MemoryLaid(m: MemoryConfiguration)
    ensures LayAll(Layout("{", Comma), MemoryLines(m)) == Some(Layout("{", Comma))
  {
    var lines, s := MemoryLines(m), Layout("{", Comma);
    var o, c, n := Layout("{{", Opening), Layout("{{", Comma), Layout("{{", NoComma);
    MemoryAt(m);
    assert "{" + ['{'] == "{{" && "{" + "{" == "{{";
    hide MemoryLines, Spaces, Lay, KeyValueLine, ReplacementText, IntText;
    IntEnds(m.totalMemorySize);
    IntEnds(m.pageSize);
    ReplacementEnds(m.replacement);
    var states := [s, o, c, c, n, s];
    forall i | 0 <= i < 5 ensures Lay(states[i], lines[i]) == Some(states[i + 1]) {
      if i == 0 { LaysOpening(s, 2, "\"memory_config\": {"); }
      else if i == 1 { LaysField(o, 4, "total_memory_size", IntText(m.totalMemorySize), false, true); }
      else if i == 2 { LaysField(c, 4, "page_size", IntText(m.pageSize), false, true); }
      else if i == 3 { LaysField(c, 4, "replacement_algorithm", ReplacementText(m.replacement), true, false); }
      else { LaysClosing(n, "{", 2, "},"); }
    }
    hide LayAll;
    LaySteps(states, lines);
  }

  lemma ProcessFieldsLaid(p: ProcessConfig)
    ensures var o, c, n := Layout("{[{", Opening), Layout("{[{", Comma), Layout("{[{", NoComma);
            && Lay(o, KeyValueLine(6, "priority", IntText(p.priority), false, true)) == Some(c)
            && Lay(c, KeyValueLine(6, "burst_time", IntText(p.burst), false, true)) == Some(c)
            && Lay(c, KeyValueLine(6, "arrival_time", IntText(p.arrival), false, true)) == Some(c)
            && Lay(c, KeyValueLine(6, "memory_requirement", IntText(p.memory), false, false)) == Some(n)
  {
    hide Lay, KeyValueLine, IntText;
    IntEnds(p.priority);
    IntEnds(p.burst);
    IntEnds(p.arrival);
    IntEnds(p.memory);
    LaysField(Layout("{[{", Opening), 6, "priority", IntText(p.priority), false, true);
    LaysField(Layout("{[{", Comma), 6, "burst_time", IntText(p.burst), false, true);
    LaysField(Layout("{[{", Comma), 6, "arrival_time", IntText(p.arrival), false, true);
    LaysField(Layout("{[{", Comma), 6, "memory_requirement", IntText(p.memory), false, false);
  }

  lemma ProcessBracesLaid(last: bool, after: After)
    requires !after.NoComma?
    ensures Lay(Layout("{[", after), Spaces(4) + ['{']) == Some(Layout("{[{", Opening))
    ensures Lay(Layout("{[{", NoComma), Spaces(4) + ("}" + (if last then "" else ",")))
            == Some(Layout("{[", if last then NoComma else Comma))
  {
    var closing := "}" + (if last then "" else ",");
    assert "{[" + ['{'] == "{[{" && "{[" + "{" == "{[{" && Spaces(4) + ['{'] == Spaces(4) + "{";
    assert closing == if last then "}" else "},";
    hide Spaces, Lay;
    LaysOpening(Layout("{[", after), 4, "{");
    LaysClosing(Layout("{[{", NoComma), "{[", 4, closing);
  }

  lemma SixLaid(lines: seq<string>, s: Layout, o: Layout, c: Layout, n: Layout, t: Layout)
    requires |lines| == 6 && Lay(s, lines[0]) == Some(o) && Lay(o, lines[1]) == Some(c)
    requires Lay(c, lines[2]) == Lay(c, lines[3]) == Some(c) && Lay(c, lines[4]) == Some(n) && Lay(n, lines[5]) == Some(t)
    ensures LayAll(s, lines) == Some(t)
  {
    hide Lay, LayAll;
    LaySteps([s, o, c, c, c, n, t], lines);
  }

  lemma ProcessLaid(p: ProcessConfig, last: bool, after: After)
    requires !after.NoComma?
    ensures LayAll(Layout("{[", after), ProcessLines(p, last)) == Some(Layout("{[", if last then NoComma else Comma))
  {
    ProcessAt(p, last);
    hide ProcessLines, Spaces, Lay, LayAll, KeyValueLine, IntText;
    ProcessFieldsLaid(p);
    ProcessBracesLaid(last, after);
    SixLaid(ProcessLines(p, last), Layout("{[", after), Layout("{[{", Opening), Layout("{[{", Comma), Layout("{[{", NoComma),
            Layout("{[", if last then NoComma else Comma));
  }

  lemma {:induction false} ProcessesLaid(ps: seq<ProcessConfig>, n: nat)
    requires n <= |ps|
    ensures LayAll(Layout("{[", Opening), ProcessesLines(ps, n))
            == Some(Layout("{[", if n == 0 then Opening else if n == |ps| then NoComma else Comma))
  {
    hide ProcessLines, Lay;
    if n > 0 {
      ProcessesLaid(ps, n - 1);
      var t := Layout("{[", if n == 1 then Opening else Comma);
      LayAppend(Layout("{[", Opening), ProcessesLines(ps, n - 1), ProcessLines(ps[n - 1], n == |ps|), t);
      ProcessLaid(ps[n - 1], n == |ps|, t.after);
    }
  }

  lemma EndLaid(after: After)
    requires !after.Comma?
    ensures LayAll(Layout("{[", after), [Spaces(2) + "]", "}"]) == Some(Layout("", NoComma))
  {
    var lines := [Spaces(2) + "]", "}"];
    assert "{" + "[" == "{[" && "" + "{" == "{" && Spaces(0) + "}" == "}";
    hide Spaces, Lay;
    LaysClosing(Layout("{[", after), "{", 2, "]");
    LaysClosing(Layout("{", NoComma), "", 0, "}");
    LaySteps([Layout("{[", after), Layout("{", NoComma), Layout("", NoComma)], lines);
  }

  lemma ArrayOpened()
    ensures LayAll(Layout("{", Comma), [Spaces(2) + "\"processes\": ["]) == Some(Layout("{[", Opening))
  {
    var lines := [Spaces(2) + "\"processes\": ["];
    assert "{" + ['['] == "{[";
    hide Spaces, Lay;
    LaysOpening(Layout("{", Comma), 2, "\"processes\": [");
    LaySteps([Layout("{", Comma), Layout("{[", Opening)], lines);
  }

  /** Every configuration is written as a text whose brackets, keys and commas are all in place. */
  lemma WrittenTextIsLaidOut(c: SimulationConfig, timestamp: nat)
    ensures LayAll(LAYOUT_START, JsonLines(c, timestamp)) == Some(Layout("", NoComma))
  {
    hide LayAll, HeaderLines, MemoryLines, ProcessesLines, Spaces;
    var open := [Spaces(2) + "\"processes\": ["];
    var body, tail := ProcessesLines(c.processes, |c.processes|), [Spaces(2) + "]", "}"];
    var h, m := HeaderLines(c, timestamp), MemoryLines(c.memory);
    var after := if c.processes == [] then Opening else NoComma;
    HeaderLaid(c, timestamp);
    MemoryLaid(c.memory);
    ArrayOpened();
    ProcessesLaid(c.processes, |c.processes|);
    EndLaid(after);
    LayAppend(LAYOUT_START, h, m, Layout("{", Comma));
    LayAppend(LAYOUT_START, h + m, open, Layout("{", Comma));
    LayAppend(LAYOUT_START, h + m + open, body, Layout("{[", Opening));
    LayAppend(LAYOUT_START, h + m + open + body, tail, Layout("{[", after));
    assert JsonLines(c, timestamp) == h + m + open + body + tail;
  }

  // Names and defaults, letter by letter.

  /** The saved names of the algorithms, and what any other name is read as. */
  lemma NamesAreRead(text: string)
    ensures SchedulingText(FCFS) == "FCFS" && SchedulingText(RoundRobin) == "ROUND_ROBIN" && SchedulingText(Priority) == "PRIORITY"
    ensures ReplacementText(FIFO) == "FIFO" && ReplacementText(LRU) == "LRU"
    ensures SchedulingOf(text).RoundRobin? <==> text == "ROUND_ROBIN"
    ensures SchedulingOf(text).Priority? <==> text == "PRIORITY"
    ensures ReplacementOf(text).FIFO? <==> text == "FIFO"
  {
  }

  /** The printed form of a member: blanks, the key in quotes, a colon and a blank, the value, and the comma. */
  lemma MemberText(indent: nat, key: string, value: string, quoted: bool, comma: bool)
    ensures KeyValueLine(indent, key, value, quoted, comma) ==
              seq(indent, _ => ' ') + "\"" + key + "\": " + (if quoted then "\"" + value + "\"" else value) + (if comma then "," else "")
  {
    var before := Spaces(indent) + "\"" + key + "\": ";
    assert KeyValueLine(indent, key, value, quoted, comma) == before + Quote(quoted) + value + Ending(quoted, comma);
    assert before + Quote(quoted) + value + Ending(quoted, comma)
           == before + (if quoted then "\"" + value + "\"" else value) + (if comma then "," else "");
  }

  /**
   A field line that is accepted changes one setting at most, the one its key names in the section
   that is open; the page size also sets the frame count, and the memory requirement ends a process.
  */
  lemma FieldsChangeByTheirKeys(s: ParseState, key: string, value: string)
    requires Field(s, key, value).Some?
    ensures var t, n := Field(s, key, value).value, Stoi(value);
            var main, inProcess := !s.inMemory && !s.inProcesses, !s.inMemory && s.inProcesses;
            && t.inMemory == s.inMemory && t.inProcesses == s.inProcesses
            && t.config.scheduling == (if main && key == "scheduling_algorithm" then SchedulingOf(value) else s.config.scheduling)
            && Some(t.config.timeQuantum) == (if main && key == "time_quantum" then n else Some(s.config.timeQuantum))
            && Some(t.config.speed) == (if main && key == "simulation_speed" then n else Some(s.config.speed))
            && t.config.stepMode == (if main && key == "step_mode" then value == "true" else s.config.stepMode)
            && Some(t.config.memory.totalMemorySize) ==
                 (if s.inMemory && key == "total_memory_size" then n else Some(s.config.memory.totalMemorySize))
            && Some(t.config.memory.pageSize) ==
                 (if s.inMemory && key == "page_size" then n else Some(s.config.memory.pageSize))
            && t.config.memory.numFrames ==
                 (if s.inMemory && key == "page_size" && n.Some? && n.value != 0
                  then Quotient(s.config.memory.totalMemorySize, n.value) else s.config.memory.numFrames)
            && t.config.memory.replacement ==
                 (if s.inMemory && key == "replacement_algorithm" then ReplacementOf(value) else s.config.memory.replacement)
            && t.config.processes ==
                 (if inProcess && key == "memory_requirement" && s.current.burst > 0 && n.Some?
                  then s.config.processes + [s.current.(memory := n.value)] else s.config.processes)
  {
    hide Stoi, SchedulingOf, ReplacementOf, Quotient;
  }

  /**
   The other lines. In this order: a blank line changes nothing, one with "memory_config" opens the
   memory section, one with "processes" the process section, and one with a closing brace closes
   the memory section if it is open and the process section otherwise. A line without any of these
   and without a colon changes nothing.
  */
  lemma MarkersOpenAndClose(s: ParseState, raw: string)
    ensures var line := SkipLead(raw);
            var memory, processes, brace :=
              (exists k: nat :: OccursAt(line, "memory_config", k)), (exists k: nat :: OccursAt(line, "processes", k)),
              (exists k: nat :: OccursAt(line, "}", k));
            && (line == "" ==> ParseLine(s, raw) == Some(s))
            && (line != "" && memory ==> ParseLine(s, raw) == Some(s.(inMemory := true)))
            && (line != "" && !memory && processes ==> ParseLine(s, raw) == Some(s.(inProcesses := true)))
            && (line != "" && !memory && !processes && brace ==>
                 ParseLine(s, raw) == Some(s.(inMemory := false, inProcesses := s.inMemory && s.inProcesses)))
            && (!memory && !processes && !brace && ':' !in line ==> ParseLine(s, raw) == Some(s))
  {
    hide SkipLead, Contains, OccursAt, Field;
    var line := SkipLead(raw);
    ContainsIff(line, "memory_config");
    ContainsIff(line, "processes");
    ContainsIff(line, "}");
  }

  /** An empty text gives the default configuration. */
  lemma EmptyTextGivesDefaults()
    ensures Parse("") == Some(SimulationConfig(
              [ProcessConfig(5, 10, 0, 2), ProcessConfig(3, 8, 2, 1), ProcessConfig(7, 6, 4, 3)],
              FCFS, 4, MemoryConfiguration(256, 32, 8, LRU), 1, false))
  {
    assert SplitLines("") == [];
  }

  /** A process of which only the memory requirement is given has priority 5, burst 10 and arrival 0. */
  lemma DefaultProcess(n: int)
    requires -2147483648 <= n <= 2147483647
    ensures var s := PARSE_START.(inProcesses := true);
            var line := KeyValueLine(6, "memory_requirement", IntText(n), false, false);
            && ParseLine(s, line).Some?
            && ParseLine(s, line).value.config.processes == PARSE_START.config.processes + [ProcessConfig(5, 10, 0, n)]
  {
    hide ParseLine, KeyValueLine, IntText;
    ReadsProcessField(PARSE_START.(inProcesses := true), "memory_requirement", n, false);
  }

  /** The frame count is the quotient of the sizes rounded toward zero. */
  lemma QuotientTruncates(a: int, b: int)
    requires b != 0
    ensures var rest := a - b * Quotient(a, b);
            && (if b > 0 then -b < rest < b else b < rest < -b)
            && (a >= 0 ==> rest >= 0) && (a <= 0 ==> rest <= 0)
  {
    if a >= 0 {
      assert a == b * (a / b) + a % b;
    } else {
      assert -a == b * (-a / b) + (-a) % b;
      assert b * -(-a / b) == -(b * (-a / b));
    }
  }
}
