/** 'show interfaces trunk': a section-driven line parser with wrapped VLAN lists. */
module TrunkTable {
  import opened Basics
  import opened Decimal
  import opened Lex
  import opened VlanSets

  // ----- text -------------------------------------------------------------------

  predicate Solid(s: string) { forall i :: 0 <= i < |s| ==> !IsSpace(s[i]) }

  // The length of the leading word.
  function WordEnd(s: string): (n: nat)
    ensures n <= |s|
  {
    if s == "" || IsSpace(s[0]) then 0 else 1 + WordEnd(s[1..])
  }

  // `s.split(None, 1)` of stripped text: the first word and what follows the blanks after it.
  function SplitWord(s: string): (string, string) {
    (s[..WordEnd(s)], LStrip(s[WordEnd(s)..]))
  }

  predicate Contains(s: string, part: string)
    decreases s
  {
    part <= s || (s != "" && Contains(s[1..], part))
  }

  // ----- rows -------------------------------------------------------------------

  datatype Section = Status | Allowed | Active | Forwarding

  // A port's row: what the status section said, and the spelled list of each other section.
  datatype Row = Row(status: Option<StatusFields>, lists: map<Section, string>)

  datatype StatusFields = StatusFields(mode: string, encapsulation: string, status: string, native: nat)

  const NEW_ROW := Row(None, map[])

  datatype State = State(rows: map<string, Row>, section: Option<Section>, lastPort: Option<string>)

  // The section a header line opens, by the first marker it contains.
  function SectionOf(lowered: string): Option<Section> {
    if Contains(lowered, "native vlan") then Some(Status)
    else if Contains(lowered, "allowed on trunk") then Some(Allowed)
    else if Contains(lowered, "allowed and active") then Some(Active)
    else if Contains(lowered, "forwarding state and not pruned") then Some(Forwarding)
    else None
  }

  predicate IsHeader(stripped: string) { StartsWith(stripped, "Port ") || stripped == "Port" }

  predicate IsNote(word: string) {
    |word| >= 3 && word[0] == '(' && word[|word| - 1] == ')'
  }

  // Port, mode, encapsulation, status with an optional parenthesized note, native VLAN.
  function StatusRow(stripped: string): Option<(string, StatusFields)> {
    var (port, r1) := SplitWord(stripped);
    var (mode, r2) := SplitWord(r1);
    var (encapsulation, r3) := SplitWord(r2);
    var (word, r4) := SplitWord(r3);
    var (next, r5) := SplitWord(r4);
    if r5 == "" && IsNumeral(next) then
      Some((port, StatusFields(mode, encapsulation, word, Value(next))))
    else if |r3| >= |r4| && IsNote(next) && IsNumeral(r5) then
      Some((port, StatusFields(mode, encapsulation, r3[..|r3| - |r4|] + next, Value(r5))))
    else None
  }

  // `_join_wrapped`
  function JoinWrapped(head: string, continuation: string): string {
    if (head != "" && head[|head| - 1] in {'-', ','}) || (continuation != "" && continuation[0] in {'-', ','}) then
      head + continuation
    else head + "," + continuation
  }

  function RowAt(rows: map<string, Row>, port: string): Row {
    if port in rows then rows[port] else NEW_ROW
  }

  function WithList(row: Row, section: Section, list: string): Row {
    row.(lists := row.lists[section := list])
  }

  function ListOf(row: Row, section: Section): string {
    if section in row.lists then row.lists[section] else ""
  }

  // A continuation line of the last port's row.
  function Continued(row: Row, section: Section, stripped: string): Row {
    if section.Status? then
      match row.status
      case Some(fields) => row.(status := Some(fields.(status := fields.status + " " + stripped)))
      case None => row
    else WithList(row, section, JoinWrapped(ListOf(row, section), stripped))
  }

  function Step(s: State, raw: string): State {
    var line := RStrip(raw);
    var stripped := LStrip(line);
    if stripped == "" then s.(lastPort := None)
    else if IsHeader(stripped) then State(s.rows, SectionOf(Lower(stripped)), None)
    else if s.section.None? then s
    else if IsSpace(line[0]) then
      if s.lastPort.None? then s
      else
        var port := s.lastPort.value;
        s.(rows := s.rows[port := Continued(RowAt(s.rows, port), s.section.value, stripped)])
    else if s.section.value.Status? then
      match StatusRow(stripped)
      case None => s
      case Some((port, fields)) =>
        s.(rows := s.rows[port := RowAt(s.rows, port).(status := Some(fields))], lastPort := Some(port))
    else
      var (port, list) := SplitWord(stripped);
      s.(rows := s.rows[port := WithList(RowAt(s.rows, port), s.section.value, list)], lastPort := Some(port))
  }

  function Steps(s: State, lines: seq<string>): State {
    if lines == [] then s else Step(Steps(s, lines[..|lines| - 1]), lines[|lines| - 1])
  }

  const START := State(map[], None, None)

  // Every spelled list in its canonical spelling.
  function Canonical(row: Row): Row {
    row.(lists := map s | s in row.lists :: VlanRanges(row.lists[s]))
  }

  function Finished(rows: map<string, Row>): map<string, Row> {
    map port | port in rows :: Canonical(rows[port])
  }

  function Parsed(lines: seq<string>): map<string, Row> { Finished(Steps(START, lines).rows) }

  method ParseInterfacesTrunk(lines: seq<string>) returns (result: map<string, Row>)
    ensures result == Parsed(lines)
  {
    hide SectionOf, StatusRow, SplitWord, IsHeader, Continued, Lower, RStrip, LStrip;
    var rows: map<string, Row> := map[];
    var section: Option<Section>, lastPort: Option<string> := None, None;
    for k := 0 to |lines|
      invariant Steps(START, lines[..k]) == State(rows, section, lastPort)
    {
      assert lines[..k + 1][..k] == lines[..k] && lines[..k + 1][k] == lines[k];
      var line := RStrip(lines[k]);
      var stripped := LStrip(line);
      if stripped == "" {
        lastPort := None;
      } else if IsHeader(stripped) {
        section, lastPort := SectionOf(Lower(stripped)), None;
      } else if section.Some? {
        StrippedIsShorter(line);
        if IsSpace(line[0]) {
          if lastPort.Some? {
            rows := rows[lastPort.value := Continued(RowAt(rows, lastPort.value), section.value, stripped)];
          }
        } else if section.value.Status? {
          var matched := StatusRow(stripped);
          if matched.Some? {
            var port := matched.value.0;
            rows := rows[port := RowAt(rows, port).(status := Some(matched.value.1))];
            lastPort := Some(port);
          }
        } else {
          var (port, list) := SplitWord(stripped);
          rows := rows[port := WithList(RowAt(rows, port), section.value, list)];
          lastPort := Some(port);
        }
      }
    }
    assert lines[..|lines|] == lines;
    result := Finished(rows);
  }

  lemma {:induction false} StrippedIsShorter(s: string)
    ensures |LStrip(s)| <= |s|
  {
    if s != "" && IsSpace(s[0]) { StrippedIsShorter(s[1..]); }
  }
}
