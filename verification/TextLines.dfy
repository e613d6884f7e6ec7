/** The string operations of the configuration parser, and the shape of the lines it is given. */
module TextLines {

  /** The characters stripped at the front of a line, a key or a value. */
  predicate IsLead(c: char) {
    c == ' ' || c == '\t' || c == '"'
  }

  /** The characters stripped at the end of a key or a value. */
  predicate IsTail(c: char) {
    IsLead(c) || c == ','
  }

  function SkipLead(s: string): string {
    if s != "" && IsLead(s[0]) then SkipLead(s[1..]) else s
  }

  function TrimTail(s: string): string {
    if s != "" && IsTail(s[|s| - 1]) then TrimTail(s[..|s| - 1]) else s
  }

  /** Position of the first occurrence of a character, or -1. */
  function Find(s: string, c: char): (i: int)
    ensures -1 <= i < |s|
    ensures i != -1 ==> s[i] == c && c !in s[..i]
    ensures i == -1 ==> c !in s
  {
    if s == "" then -1
    else if s[0] == c then 0
    else
      var i := Find(s[1..], c);
      assert s == [s[0]] + s[1..];
      if i == -1 then -1 else
        assert s[..i + 1] == [s[0]] + s[1..][..i];
        i + 1
  }

  predicate Contains(s: string, pat: string) {
    |s| >= |pat| && (s[..|pat|] == pat || (s != "" && Contains(s[1..], pat)))
  }

  function SplitLines(s: string): seq<string>
    decreases |s|
  {
    if s == "" then []
    else
      var i := Find(s, '\n');
      if i == -1 then [s] else [s[..i]] + SplitLines(s[i + 1..])
  }

  function JoinLines(lines: seq<string>): string {
    if lines == [] then "" else JoinLines(lines[..|lines| - 1]) + lines[|lines| - 1] + "\n"
  }

  lemma {:induction false} FindIn(a: string, c: char, b: string)
    requires c !in a
    ensures Find(a + [c] + b, c) == |a|
  {
    var s := a + [c] + b;
    if a != "" {
      assert a == [a[0]] + a[1..];
      FindIn(a[1..], c, b);
      assert s[1..] == a[1..] + [c] + b;
    }
  }

  lemma {:induction false} SkipLeadOver(lead: string, s: string)
    requires forall k :: 0 <= k < |lead| ==> IsLead(lead[k])
    requires s == "" || !IsLead(s[0])
    ensures SkipLead(lead + s) == s
  {
    if lead == "" {
      assert lead + s == s;
    } else {
      assert (lead + s)[1..] == lead[1..] + s;
      SkipLeadOver(lead[1..], s);
    }
  }

  lemma {:induction false} TrimTailOver(s: string, tail: string)
    requires forall k :: 0 <= k < |tail| ==> IsTail(tail[k])
    requires s == "" || !IsTail(s[|s| - 1])
    ensures TrimTail(s + tail) == s
  {
    if tail == "" {
      assert s + tail == s;
    } else {
      assert (s + tail)[..|s + tail| - 1] == s + tail[..|tail| - 1];
      TrimTailOver(s, tail[..|tail| - 1]);
    }
  }

  /** A string without one of the pattern's characters does not contain the pattern. */
  lemma {:induction false} LacksCharacter(s: string, pat: string, c: char)
    requires c in pat && c !in s
    ensures !Contains(s, pat)
  {
    if |s| >= |pat| {
      assert c !in s[..|pat|];
      if s != "" { LacksCharacter(s[1..], pat, c); }
    }
  }

  lemma ContainsAtFront(pat: string, rest: string)
    ensures Contains(pat + rest, pat)
  {
    assert (pat + rest)[..|pat|] == pat;
  }

  lemma {:induction false} JoinFront(line: string, lines: seq<string>)
    ensures JoinLines([line] + lines) == line + "\n" + JoinLines(lines)
  {
    var all := [line] + lines;
    if lines == [] {
      assert all[..|all| - 1] == [];
      assert JoinLines([line] + lines) == "" + line + "\n";
    } else {
      assert all[..|all| - 1] == [line] + lines[..|lines| - 1];
      JoinFront(line, lines[..|lines| - 1]);
      assert line + "\n" + JoinLines(lines[..|lines| - 1]) + lines[|lines| - 1] + "\n"
             == line + "\n" + (JoinLines(lines[..|lines| - 1]) + lines[|lines| - 1] + "\n");
    }
  }

  /** Reading line by line gives back the lines that were written. */
  lemma {:induction false} SplitJoin(lines: seq<string>)
    requires forall k :: 0 <= k < |lines| ==> '\n' !in lines[k]
    ensures SplitLines(JoinLines(lines)) == lines
  {
    if lines != [] {
      var first, rest := lines[0], lines[1..];
      assert lines == [first] + rest;
      SplitJoin(rest);
      JoinFront(first, rest);
      var text := first + ['\n'] + JoinLines(rest);
      assert JoinLines(lines) == text;
      FindIn(first, '\n', JoinLines(rest));
      assert text[..|first|] == first && text[|first| + 1..] == JoinLines(rest);
    }
  }

  // What the string operations do, in terms of characters.

  /** SkipLead removes the blanks, tabs and quotes at the front and nothing else. */
  lemma {:induction false} SkipLeadIs(s: string) returns (k: nat)
    ensures k <= |s| && SkipLead(s) == s[k..] && forall j :: 0 <= j < k ==> s[j] in " \t\""
    ensures k < |s| ==> s[k] !in " \t\""
  {
    if s != "" && IsLead(s[0]) {
      var rest := SkipLeadIs(s[1..]);
      k := rest + 1;
      assert s[1..][rest..] == s[k..];
    } else {
      k := 0;
    }
  }

  /** TrimTail removes the blanks, tabs, quotes and commas at the end and nothing else. */
  lemma {:induction false} TrimTailIs(s: string) returns (k: nat)
    ensures k <= |s| && TrimTail(s) == s[..k] && forall j :: k <= j < |s| ==> s[j] in " \t\","
    ensures k > 0 ==> s[k - 1] !in " \t\","
  {
    if s != "" && IsTail(s[|s| - 1]) {
      k := TrimTailIs(s[..|s| - 1]);
      assert s[..|s| - 1][..k] == s[..k];
      forall j | k <= j < |s| ensures s[j] in " \t\"," {
        if j < |s| - 1 { assert s[..|s| - 1][j] == s[j]; }
      }
    } else {
      k := |s|;
      assert s[..k] == s;
    }
  }

  predicate OccursAt(s: string, pat: string, k: nat) {
    k + |pat| <= |s| && s[k..k + |pat|] == pat
  }

  /** Contains finds exactly the strings in which the pattern occurs. */
  lemma {:induction false} ContainsIff(s: string, pat: string)
    ensures Contains(s, pat) <==> exists k: nat :: OccursAt(s, pat, k)
  {
    if |s| >= |pat| {
      if s[..|pat|] == pat {
        assert OccursAt(s, pat, 0);
      } else if s != "" {
        ContainsIff(s[1..], pat);
        if k: nat :| OccursAt(s[1..], pat, k) {
          assert s[k + 1..k + 1 + |pat|] == s[1..][k..k + |pat|];
          assert OccursAt(s, pat, k + 1);
        }
        if k: nat :| OccursAt(s, pat, k) {
          assert k > 0;
          assert s[1..][k - 1..k - 1 + |pat|] == s[k..k + |pat|];
          assert OccursAt(s[1..], pat, k - 1);
        }
      }
    }
  }

  // One line of the form the printer writes.

  function Spaces(n: nat): (s: string)
    ensures |s| == n && forall k :: 0 <= k < n ==> s[k] == ' '
  {
    seq(n, _ => ' ')
  }

  function Quote(quoted: bool): string {
    if quoted then "\"" else ""
  }

  function Ending(quoted: bool, comma: bool): string {
    Quote(quoted) + (if comma then "," else "")
  }

  /** A "key": value line without its leading blanks and quote. */
  function StrippedLine(key: string, value: string, quoted: bool, comma: bool): string {
    key + "\": " + Quote(quoted) + value + Ending(quoted, comma)
  }

  /** The line as it is printed. */
  function KeyValueLine(indent: nat, key: string, value: string, quoted: bool, comma: bool): string {
    Spaces(indent) + "\"" + StrippedLine(key, value, quoted, comma)
  }

  predicate PlainKey(key: string) {
    key != "" && ':' !in key && !IsLead(key[0]) && !IsTail(key[|key| - 1])
  }

  predicate PlainValue(value: string) {
    value != "" && !IsLead(value[0]) && !IsTail(value[|value| - 1])
  }

  lemma StripsToKey(indent: nat, key: string, value: string, quoted: bool, comma: bool)
    requires PlainKey(key)
    ensures SkipLead(KeyValueLine(indent, key, value, quoted, comma)) == StrippedLine(key, value, quoted, comma)
  {
    var lead, s := Spaces(indent) + "\"", StrippedLine(key, value, quoted, comma);
    assert forall k :: 0 <= k < |lead| ==> IsLead(lead[k]);
    assert s[0] == key[0];
    SkipLeadOver(lead, s);
  }

  function KeyPart(line: string, colon: nat): string
    requires colon < |line|
  {
    TrimTail(SkipLead(line[..colon]))
  }

  function ValuePart(line: string, colon: nat): string
    requires colon < |line|
  {
    TrimTail(SkipLead(line[colon + 1..]))
  }

  lemma KeySide(key: string)
    requires PlainKey(key)
    ensures TrimTail(SkipLead(key + "\"")) == key
  {
    var before := key + "\"";
    assert before[0] == key[0];
    SkipLeadOver("", before);
    assert "" + before == before;
    TrimTailOver(key, "\"");
  }

  lemma ValueSide(value: string, quoted: bool, comma: bool)
    requires PlainValue(value)
    ensures TrimTail(SkipLead(" " + Quote(quoted) + value + Ending(quoted, comma))) == value
  {
    var lead, rest := " " + Quote(quoted), value + Ending(quoted, comma);
    assert " " + Quote(quoted) + value + Ending(quoted, comma) == lead + rest;
    assert rest[0] == value[0];
    SkipLeadOver(lead, rest);
    TrimTailOver(value, Ending(quoted, comma));
  }

  /** The parser splits a stripped line into exactly the key and the value that were printed. */
  lemma SplitsIntoKeyAndValue(key: string, value: string, quoted: bool, comma: bool)
    requires PlainKey(key) && PlainValue(value)
    ensures var line := StrippedLine(key, value, quoted, comma);
            && Find(line, ':') == |key| + 1
            && KeyPart(line, |key| + 1) == key && ValuePart(line, |key| + 1) == value
  {
    hide TrimTail, SkipLead, Find, Ending, Quote, PlainValue;
    var line := StrippedLine(key, value, quoted, comma);
    var before, after := key + "\"", " " + Quote(quoted) + value + Ending(quoted, comma);
    assert line == before + [':'] + after;
    FindIn(before, ':', after);
    assert line[..|key| + 1] == before && line[|key| + 2..] == after;
    KeySide(key);
    ValueSide(value, quoted, comma);
  }

  /** A character that is in neither part and is no punctuation of the line is not in the line. */
  lemma NotInStripped(key: string, value: string, quoted: bool, comma: bool, c: char)
    requires c !in key && c !in value && c !in "\": ,"
    ensures c !in StrippedLine(key, value, quoted, comma)
  {
    assert c !in "\": " && c !in Quote(quoted) && c !in Ending(quoted, comma);
  }
}
