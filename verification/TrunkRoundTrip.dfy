/** The trunk parser undoes the printer, however the VLAN lists wrap. */
module TrunkRoundTrip {
  import opened Basics
  import opened Decimal
  import opened Lex
  import opened VlanSets
  import opened TrunkTable

  // ----- what is printed ----------------------------------------------------------

  // One trunk: its status row and its three VLAN lists.
  datatype Trunk = Trunk(port: string, mode: string, encapsulation: string, status: string, note: string, native: nat,
                         lists: map<Section, string>)

  // A trunk as printed: each list broken into the pieces its lines hold.
  datatype Printed = Printed(trunk: Trunk, pieces: map<Section, seq<string>>)

  // The blanks between columns, and before a wrapped line.
  datatype Layout = Layout(gap: string, indent: string)

  predicate Word(s: string) { s != "" && Solid(s) }

  // What a VLAN list may be spelled with.
  predicate ListText(s: string) {
    s != "" && forall i :: 0 <= i < |s| ==> IsDigit(s[i]) || s[i] == ',' || s[i] == '-' || 'a' <= s[i] <= 'z'
  }

  predicate Cut(c: char) { c == ',' || c == '-' }

  // The list broken at commas and hyphens: a hyphen, or a comma, stays at the end of a
  // line or at the start of the next; a comma may also be dropped.
  predicate Breaks(list: string, pieces: seq<string>)
    decreases |pieces|
  {
    && pieces != [] && ListText(pieces[0]) && pieces[0] <= list
    && var tail := list[|pieces[0]|..];
       if |pieces| == 1 then tail == ""
       else if Cut(pieces[0][|pieces[0]| - 1]) then Breaks(tail, pieces[1..])
       else
         tail != "" && Cut(tail[0])
         && (Breaks(tail, pieces[1..])
             || (tail[0] == ',' && |tail| > 1 && !Cut(tail[1]) && Breaks(tail[1..], pieces[1..])))
  }

  predicate Printable(p: Printed) {
    var t := p.trunk;
    && Word(t.port) && t.port != "Port" && Word(t.mode) && Word(t.encapsulation) && Word(t.status)
    && (t.note == "" || (Word(t.note) && IsNote(t.note)))
    && p.pieces.Keys == t.lists.Keys == {Allowed, Active, Forwarding}
    && (forall s :: s in t.lists ==> Breaks(t.lists[s], p.pieces[s]))
  }

  predicate Plain(layout: Layout) {
    layout.gap != "" && Blank(layout.gap) && layout.indent != "" && Blank(layout.indent)
  }

  predicate Distinct(rows: seq<Printed>) {
    forall i, j :: 0 <= i < j < |rows| ==> rows[i].trunk.port != rows[j].trunk.port
  }

  // A header line that opens the section.
  predicate Opens(line: string, section: Section) {
    var stripped := Strip(line);
    stripped != "" && IsHeader(stripped) && SectionOf(Lower(stripped)) == Some(section)
  }

  function StatusText(t: Trunk, layout: Layout): string {
    if t.note == "" then t.status else t.status + layout.gap + t.note
  }

  function StatusLine(t: Trunk, layout: Layout): string {
    t.port + (layout.gap + (t.mode + (layout.gap + (t.encapsulation + (layout.gap
    + (if t.note == "" then t.status + (layout.gap + Digits(t.native))
       else t.status + (layout.gap + (t.note + (layout.gap + Digits(t.native))))))))))
  }

  function WrappedLines(pieces: seq<string>, layout: Layout): seq<string> {
    if pieces == [] then [] else WrappedLines(pieces[..|pieces| - 1], layout) + [layout.indent + pieces[|pieces| - 1]]
  }

  function ListLines(port: string, pieces: seq<string>, layout: Layout): seq<string>
    requires pieces != []
  {
    [port + (layout.gap + pieces[0])] + WrappedLines(pieces[1..], layout)
  }

  function RowLines(p: Printed, section: Section, layout: Layout): seq<string>
    requires Printable(p)
  {
    match section
    case Status => [StatusLine(p.trunk, layout)]
    case _ => assert section in {Allowed, Active, Forwarding}; ListLines(p.trunk.port, p.pieces[section], layout)
  }

  function SectionLines(rows: seq<Printed>, section: Section, layout: Layout): seq<string>
    requires forall p :: p in rows ==> Printable(p)
  {
    if rows == [] then []
    else SectionLines(rows[..|rows| - 1], section, layout) + RowLines(rows[|rows| - 1], section, layout)
  }

  // A section: its header, its rows, and the blank line that ends it.
  function Block(rows: seq<Printed>, section: Section, header: string, layout: Layout): seq<string>
    requires forall p :: p in rows ==> Printable(p)
  {
    [header] + SectionLines(rows, section, layout) + [""]
  }

  function Table(rows: seq<Printed>, headers: map<Section, string>, layout: Layout): seq<string>
    requires forall p :: p in rows ==> Printable(p)
    requires forall s: Section :: s in headers
  {
    Block(rows, Status, headers[Status], layout) + Block(rows, Allowed, headers[Allowed], layout)
    + Block(rows, Active, headers[Active], layout) + Block(rows, Forwarding, headers[Forwarding], layout)
  }

  // The row a trunk must read as, every list in its canonical spelling.
  function ExpectedRow(t: Trunk, layout: Layout): Row {
    Row(Some(StatusFields(t.mode, t.encapsulation, StatusText(t, layout), t.native)),
        map s | s in t.lists :: VlanRanges(t.lists[s]))
  }

  // ----- words and blanks -----------------------------------------------------------

  lemma {:induction false} LStripBlank(blank: string, s: string)
    requires Blank(blank) && s != "" && !IsSpace(s[0])
    ensures LStrip(blank + s) == s
  {
    if blank == "" {
      assert blank + s == s;
    } else {
      LStripBlank(blank[1..], s);
      assert (blank + s)[1..] == blank[1..] + s;
    }
  }

  lemma {:induction false} WordEndAt(word: string, rest: string)
    requires Solid(word) && (rest == "" || IsSpace(rest[0]))
    ensures WordEnd(word + rest) == |word|
  {
    if word == "" {
      assert word + rest == rest;
    } else {
      WordEndAt(word[1..], rest);
      assert (word + rest)[1..] == word[1..] + rest;
    }
  }

  lemma SplitWordAt(word: string, gap: string, rest: string)
    requires Word(word) && Blank(gap) && gap != "" && rest != "" && !IsSpace(rest[0])
    ensures SplitWord(word + (gap + rest)) == (word, rest)
  {
    var s := word + (gap + rest);
    WordEndAt(word, gap + rest);
    assert s[..|word|] == word && s[|word|..] == gap + rest;
    LStripBlank(gap, rest);
  }

  lemma SplitLastWord(word: string)
    requires Word(word)
    ensures SplitWord(word) == (word, "")
  {
    WordEndAt(word, "");
    assert word + "" == word && word[|word|..] == "";
  }

  lemma NotAHeader(word: string, gap: string, rest: string)
    requires Word(word) && word != "Port" && Blank(gap) && gap != ""
    ensures !IsHeader(word + (gap + rest))
  {
    var s := word + (gap + rest);
    assert s[|word|] == gap[0] && IsSpace(s[|word|]);
    assert |word| <= 3 ==> !IsSpace("Port "[|word|]);
    assert |word| > 4 ==> s[4] == word[4];
    assert |word| == 4 ==> s[..4] == word && "Port "[..4] == "Port";
    assert |s| > |word| && (|word| < 4 ==> !IsSpace("Port"[|word|]));
  }

  lemma Unstripped(s: string)
    requires s != "" && !IsSpace(s[0]) && !IsSpace(s[|s| - 1])
    ensures RStrip(s) == s && LStrip(s) == s
  {
  }

  lemma ListTextIsWord(s: string)
    requires ListText(s)
    ensures Word(s) && !IsHeader(s)
  {
    assert s[0] != 'P' && "Port"[0] == 'P' && "Port "[0] == 'P';
  }

  // ----- one line -------------------------------------------------------------------

  lemma ListRowStep(rows: map<string, Row>, last: Option<string>, section: Section, port: string, piece: string,
                    layout: Layout)
    requires Plain(layout) && Word(port) && port != "Port" && ListText(piece) && section != Status
    ensures Step(State(rows, Some(section), last), port + (layout.gap + piece))
         == State(rows[port := WithList(RowAt(rows, port), section, piece)], Some(section), Some(port))
  {
    hide SplitWord, IsHeader, RStrip, LStrip;
    var line := port + (layout.gap + piece);
    ListTextIsWord(piece);
    assert line[0] == port[0] && line[|line| - 1] == piece[|piece| - 1];
    Unstripped(line);
    NotAHeader(port, layout.gap, piece);
    SplitWordAt(port, layout.gap, piece);
  }

  lemma WrappedStep(rows: map<string, Row>, section: Section, port: string, piece: string, layout: Layout)
    requires Plain(layout) && ListText(piece) && section != Status && port in rows
    ensures Step(State(rows, Some(section), Some(port)), layout.indent + piece)
         == State(rows[port := WithList(rows[port], section, JoinWrapped(ListOf(rows[port], section), piece))],
                  Some(section), Some(port))
  {
    hide IsHeader, LStrip, JoinWrapped;
    var line := layout.indent + piece;
    ListTextIsWord(piece);
    assert line[0] == layout.indent[0] && line[|line| - 1] == piece[|piece| - 1];
    assert RStrip(line) == line;
    LStripBlank(layout.indent, piece);
  }

  lemma DigitsAreWord(n: nat)
    ensures Word(Digits(n))
  {
  }

  lemma StatusRowAt(t: Trunk, layout: Layout)
    requires Plain(layout) && Word(t.port) && Word(t.mode) && Word(t.encapsulation) && Word(t.status)
    requires t.note == "" || (Word(t.note) && IsNote(t.note))
    ensures StatusRow(StatusLine(t, layout))
         == Some((t.port, StatusFields(t.mode, t.encapsulation, StatusText(t, layout), t.native)))
  {
    hide SplitWord, Digits, Value, Solid;
    var gap, n := layout.gap, Digits(t.native);
    DigitsAreWord(t.native);
    ValueOfDigits(t.native);
    SplitLastWord(n);
    var r4 := if t.note == "" then n else t.note + (gap + n);
    if t.note != "" { SplitWordAt(t.note, gap, n); NoteIsNoNumeral(t.note); }
    WordStarts(t.port, t.mode, t.encapsulation, t.status, t.note, n);
    SplitWordAt(t.status, gap, r4);
    var r3 := t.status + (gap + r4);
    SplitWordAt(t.encapsulation, gap, r3);
    SplitWordAt(t.mode, gap, t.encapsulation + (gap + r3));
    SplitWordAt(t.port, gap, t.mode + (gap + (t.encapsulation + (gap + r3))));
    assert r3[..|r3| - |r4|] == t.status + gap;
  }

  lemma WordStarts(a: string, b: string, c: string, d: string, note: string, n: string)
    requires Word(a) && Word(b) && Word(c) && Word(d) && Word(n) && (note == "" || Word(note))
    ensures !IsSpace(a[0]) && !IsSpace(b[0]) && !IsSpace(c[0]) && !IsSpace(d[0]) && !IsSpace(n[0])
    ensures note != "" ==> !IsSpace(note[0])
  {
  }

  lemma NoteIsNoNumeral(note: string)
    requires IsNote(note)
    ensures !IsNumeral(note)
  {
    assert !IsDigit(note[0]);
  }

  lemma StatusStep(rows: map<string, Row>, last: Option<string>, t: Trunk, layout: Layout)
    requires Plain(layout) && Word(t.port) && t.port != "Port" && Word(t.mode) && Word(t.encapsulation)
      && Word(t.status)
    requires t.note == "" || (Word(t.note) && IsNote(t.note))
    ensures Step(State(rows, Some(Status), last), StatusLine(t, layout))
         == State(rows[t.port := RowAt(rows, t.port).(
                         status := Some(StatusFields(t.mode, t.encapsulation, StatusText(t, layout), t.native)))],
                  Some(Status), Some(t.port))
  {
    hide IsHeader, RStrip, LStrip, StatusRow, Digits;
    var line := StatusLine(t, layout);
    StatusRowAt(t, layout);
    DigitsAreWord(t.native);
    StatusLineEnds(t, layout);
    Unstripped(line);
  }

  lemma StatusLineEnds(t: Trunk, layout: Layout)
    requires Plain(layout) && Word(t.port) && t.port != "Port"
    ensures var line := StatusLine(t, layout);
            line != "" && !IsSpace(line[0]) && !IsSpace(line[|line| - 1]) && !IsHeader(line)
  {
    hide Digits, IsHeader;
    var n := Digits(t.native);
    var line := StatusLine(t, layout);
    DigitsAreWord(t.native);
    var rest := line[|t.port| + |layout.gap|..];
    assert line == t.port + (layout.gap + rest);
    NotAHeader(t.port, layout.gap, rest);
    assert line[0] == t.port[0] && line[|line| - 1] == n[|n| - 1];
  }

  // ----- one row --------------------------------------------------------------------

  lemma {:induction false} StepsAppend(s: State, a: seq<string>, b: seq<string>)
    ensures Steps(s, a + b) == Steps(Steps(s, a), b)
  {
    if b == [] {
      assert a + b == a;
    } else {
      var n := |b| - 1;
      StepsAppend(s, a, b[..n]);
      assert (a + b)[..|a + b| - 1] == a + b[..n];
    }
  }

  // The pieces joined line by line, onto what the row already holds.
  function JoinFrom(head: string, pieces: seq<string>): string
    decreases pieces
  {
    if pieces == [] then head else JoinFrom(JoinWrapped(head, pieces[0]), pieces[1..])
  }

  lemma {:induction false} JoinFromSnoc(head: string, pieces: seq<string>, last: string)
    ensures JoinFrom(head, pieces + [last]) == JoinWrapped(JoinFrom(head, pieces), last)
    decreases pieces
  {
    if pieces == [] {
      assert [] + [last] == [last] && [last][1..] == [];
    } else {
      JoinFromSnoc(JoinWrapped(head, pieces[0]), pieces[1..], last);
      assert (pieces + [last])[1..] == pieces[1..] + [last];
    }
  }

  lemma JoinKept(joined: string, next: string)
    requires joined != "" && next != "" && (Cut(joined[|joined| - 1]) || Cut(next[0]))
    ensures JoinWrapped(joined, next) == joined + next
  {
  }

  lemma JoinDropped(joined: string, next: string)
    requires joined != "" && next != "" && !Cut(joined[|joined| - 1]) && !Cut(next[0])
    ensures JoinWrapped(joined, next) == joined + "," + next
  {
  }

  lemma BreaksStart(list: string, pieces: seq<string>)
    requires Breaks(list, pieces)
    ensures pieces != [] && ListText(pieces[0]) && pieces[0] != "" && list != "" && pieces[0][0] == list[0]
    ensures list == pieces[0] + list[|pieces[0]|..]
  {
  }

  // However a list was broken, joining its pieces gives the list back.
  lemma {:induction false} JoinUndoesBreaks(before: string, list: string, pieces: seq<string>)
    requires Breaks(list, pieces)
    ensures JoinFrom(before + pieces[0], pieces[1..]) == before + list
    decreases |pieces|
  {
    hide ListText, JoinWrapped;
    BreaksStart(list, pieces);
    var head := pieces[0];
    var tail, rest := list[|head|..], pieces[1..];
    if |pieces| > 1 {
      var joined := before + head;
      assert joined[|joined| - 1] == head[|head| - 1];
      if Cut(head[|head| - 1]) || Breaks(tail, rest) {
        BreaksStart(tail, rest);
        JoinUndoesBreaks(joined, tail, rest);
        JoinKept(joined, rest[0]);
        assert joined + tail == before + list;
      } else {
        BreaksStart(tail[1..], rest);
        JoinUndoesBreaks(joined + ",", tail[1..], rest);
        JoinDropped(joined, rest[0]);
        assert joined + "," + tail[1..] == before + list;
      }
    }
  }

  lemma Relisted(row: Row, section: Section, a: string, b: string)
    ensures ListOf(WithList(row, section, a), section) == a
    ensures WithList(WithList(row, section, a), section, b) == WithList(row, section, b)
  {
  }

  lemma {:induction false} WrappedSteps(rows: map<string, Row>, section: Section, port: string, row: Row, first: string,
                                        pieces: seq<string>, layout: Layout)
    requires Plain(layout) && section != Status && forall i :: 0 <= i < |pieces| ==> ListText(pieces[i])
    ensures Steps(State(rows[port := WithList(row, section, first)], Some(section), Some(port)),
                  WrappedLines(pieces, layout))
         == State(rows[port := WithList(row, section, JoinFrom(first, pieces))], Some(section), Some(port))
  {
    hide ListText, JoinWrapped, Step, WithList, ListOf;
    if pieces != [] {
      var n := |pieces| - 1;
      WrappedSteps(rows, section, port, row, first, pieces[..n], layout);
      var before := rows[port := WithList(row, section, JoinFrom(first, pieces[..n]))];
      WrappedStep(before, section, port, pieces[n], layout);
      Relisted(row, section, JoinFrom(first, pieces[..n]), JoinWrapped(JoinFrom(first, pieces[..n]), pieces[n]));
      assert pieces == pieces[..n] + [pieces[n]];
      JoinFromSnoc(first, pieces[..n], pieces[n]);
      var lines := WrappedLines(pieces, layout);
      assert lines[..|lines| - 1] == WrappedLines(pieces[..n], layout);
      Overwrite(rows, port, WithList(row, section, JoinFrom(first, pieces[..n])),
                WithList(row, section, JoinFrom(first, pieces)));
    }
  }

  lemma Overwrite(rows: map<string, Row>, port: string, a: Row, b: Row)
    ensures rows[port := a][port := b] == rows[port := b]
  {
  }

  lemma {:induction false} BreaksAreText(list: string, pieces: seq<string>)
    requires Breaks(list, pieces)
    ensures forall i :: 0 <= i < |pieces| ==> ListText(pieces[i])
    decreases |pieces|
  {
    if |pieces| > 1 {
      var tail := list[|pieces[0]|..];
      if Breaks(tail, pieces[1..]) { BreaksAreText(tail, pieces[1..]); } else { BreaksAreText(tail[1..], pieces[1..]); }
      forall i | 0 <= i < |pieces| ensures ListText(pieces[i]) { if i > 0 { assert pieces[1..][i - 1] == pieces[i]; } }
    }
  }

  // A wrapped list row leaves exactly the unbroken list in the port's row.
  lemma ListRowSteps(rows: map<string, Row>, last: Option<string>, section: Section, port: string, list: string,
                     pieces: seq<string>, layout: Layout)
    requires Plain(layout) && Word(port) && port != "Port" && section != Status && Breaks(list, pieces)
    ensures Steps(State(rows, Some(section), last), ListLines(port, pieces, layout))
         == State(rows[port := WithList(RowAt(rows, port), section, list)], Some(section), Some(port))
  {
    hide Step, Breaks, ListText;
    assert pieces != [] && ListText(pieces[0]) by { BreaksStart(list, pieces); }
    BreaksAreText(list, pieces);
    var s := State(rows, Some(section), last);
    var first := port + (layout.gap + pieces[0]);
    ListRowStep(rows, last, section, port, pieces[0], layout);
    WrappedSteps(rows, section, port, RowAt(rows, port), pieces[0], pieces[1..], layout);
    JoinUndoesBreaks("", list, pieces);
    assert "" + pieces[0] == pieces[0] && "" + list == list;
    StepsAppend(s, [first], WrappedLines(pieces[1..], layout));
    OneStep(s, first);
  }

  lemma OneStep(s: State, line: string)
    ensures Steps(s, [line]) == Step(s, line)
  {
    assert [line][..0] == [];
    assert Steps(s, [line][..0]) == s;
  }

  // ----- one section ------------------------------------------------------------------

  // What a printed row does to the port's row.
  function Filled(row: Row, t: Trunk, section: Section, layout: Layout): Row
    requires t.lists.Keys == {Allowed, Active, Forwarding}
  {
    match section
    case Status => row.(status := Some(StatusFields(t.mode, t.encapsulation, StatusText(t, layout), t.native)))
    case _ => assert section in {Allowed, Active, Forwarding}; WithList(row, section, t.lists[section])
  }

  function FillAll(rows: map<string, Row>, printed: seq<Printed>, section: Section, layout: Layout): map<string, Row>
    requires forall p :: p in printed ==> Printable(p)
  {
    if printed == [] then rows
    else
      var t := printed[|printed| - 1].trunk;
      var before := FillAll(rows, printed[..|printed| - 1], section, layout);
      assert Printable(printed[|printed| - 1]);
      before[t.port := Filled(RowAt(before, t.port), t, section, layout)]
  }

  lemma RowSteps(rows: map<string, Row>, last: Option<string>, section: Section, p: Printed, layout: Layout)
    requires Plain(layout) && Printable(p)
    ensures Steps(State(rows, Some(section), last), RowLines(p, section, layout))
         == State(rows[p.trunk.port := Filled(RowAt(rows, p.trunk.port), p.trunk, section, layout)], Some(section),
                  Some(p.trunk.port))
  {
    hide Step, Breaks, Word, IsNote, StatusLine, ListLines;
    match section
    case Status =>
      StatusStep(rows, last, p.trunk, layout);
      OneStep(State(rows, Some(section), last), StatusLine(p.trunk, layout));
    case _ =>
      assert section in {Allowed, Active, Forwarding};
      ListRowSteps(rows, last, section, p.trunk.port, p.trunk.lists[section], p.pieces[section], layout);
  }

  lemma {:induction false} SectionSteps(rows: map<string, Row>, section: Section, printed: seq<Printed>, layout: Layout)
    requires Plain(layout) && forall p :: p in printed ==> Printable(p)
    ensures var t := Steps(State(rows, Some(section), None), SectionLines(printed, section, layout));
            t.rows == FillAll(rows, printed, section, layout) && t.section == Some(section)
  {
    hide Step, RowLines, Filled, Printable;
    if printed != [] {
      var n := |printed| - 1;
      SectionSteps(rows, section, printed[..n], layout);
      var s := State(rows, Some(section), None);
      var before := Steps(s, SectionLines(printed[..n], section, layout));
      StepsAppend(s, SectionLines(printed[..n], section, layout), RowLines(printed[n], section, layout));
      RowSteps(before.rows, before.lastPort, section, printed[n], layout);
    }
  }

  lemma BlockSteps(s: State, section: Section, printed: seq<Printed>, header: string, layout: Layout)
    requires Plain(layout) && (forall p :: p in printed ==> Printable(p)) && Opens(header, section)
    ensures Steps(s, Block(printed, section, header, layout)).rows == FillAll(s.rows, printed, section, layout)
  {
    hide SectionLines, FillAll, Printable, RStrip, LStrip, IsHeader, SectionOf;
    var lines := SectionLines(printed, section, layout);
    OneStep(s, header);
    SectionSteps(s.rows, section, printed, layout);
    StepsAppend(s, [header], lines);
    StepsAppend(s, [header] + lines, [""]);
    var before := Steps(s, [header] + lines);
    OneStep(before, "");
    BlankStep(before);
  }

  lemma BlankStep(s: State)
    ensures Step(s, "") == s.(lastPort := None)
  {
  }

  // ----- the table ----------------------------------------------------------------------

  // Distinct ports are filled independently of one another.
  lemma {:induction false} FillAllAt(rows: map<string, Row>, printed: seq<Printed>, section: Section, layout: Layout,
                                     j: nat)
    requires (forall p :: p in printed ==> Printable(p)) && Distinct(printed) && j < |printed|
    ensures var t := printed[j].trunk; var r := FillAll(rows, printed, section, layout);
            assert Printable(printed[j]); t.port in r && r[t.port] == Filled(RowAt(rows, t.port), t, section, layout)
  {
    hide Printable, Filled;
    var n := |printed| - 1;
    FillAllOthers(rows, printed[..n], section, layout, printed[n].trunk.port);
    if j < n { FillAllAt(rows, printed[..n], section, layout, j); }
  }

  lemma {:induction false} FillAllOthers(rows: map<string, Row>, printed: seq<Printed>, section: Section,
                                         layout: Layout, port: string)
    requires forall p :: p in printed ==> Printable(p)
    requires forall i :: 0 <= i < |printed| ==> printed[i].trunk.port != port
    ensures RowAt(FillAll(rows, printed, section, layout), port) == RowAt(rows, port)
    ensures port in FillAll(rows, printed, section, layout) <==> port in rows
  {
    hide Printable, Filled;
    if printed != [] { FillAllOthers(rows, printed[..|printed| - 1], section, layout, port); }
  }

  function Filled4(t: Trunk, layout: Layout): Row
    requires t.lists.Keys == {Allowed, Active, Forwarding}
  {
    var listed := Filled(Filled(NEW_ROW, t, Status, layout), t, Allowed, layout);
    Filled(Filled(listed, t, Active, layout), t, Forwarding, layout)
  }

  lemma Filled4IsExpected(t: Trunk, layout: Layout)
    requires t.lists.Keys == {Allowed, Active, Forwarding}
    ensures Canonical(Filled4(t, layout)) == ExpectedRow(t, layout)
  {
    assert Filled4(t, layout).lists == t.lists;
  }

  function FillTable(printed: seq<Printed>, layout: Layout): map<string, Row>
    requires forall p :: p in printed ==> Printable(p)
  {
    var listed := FillAll(FillAll(map[], printed, Status, layout), printed, Allowed, layout);
    FillAll(FillAll(listed, printed, Active, layout), printed, Forwarding, layout)
  }

  lemma FillTableAt(printed: seq<Printed>, layout: Layout, j: nat)
    requires (forall p :: p in printed ==> Printable(p)) && Distinct(printed) && j < |printed|
    ensures var t := printed[j].trunk; var r := FillTable(printed, layout);
            assert Printable(printed[j]); t.port in r && r[t.port] == Filled4(t, layout)
  {
    hide Filled, Printable, FillAll;
    var a := FillAll(map[], printed, Status, layout);
    var b := FillAll(a, printed, Allowed, layout);
    var c := FillAll(b, printed, Active, layout);
    FillAllAt(map[], printed, Status, layout, j);
    FillAllAt(a, printed, Allowed, layout, j);
    FillAllAt(b, printed, Active, layout, j);
    FillAllAt(c, printed, Forwarding, layout, j);
  }

  lemma FillTableKeys(printed: seq<Printed>, layout: Layout, port: string)
    requires forall p :: p in printed ==> Printable(p)
    requires forall i :: 0 <= i < |printed| ==> printed[i].trunk.port != port
    ensures port !in FillTable(printed, layout)
  {
    hide Filled, Printable, FillAll;
    var a := FillAll(map[], printed, Status, layout);
    var b := FillAll(a, printed, Allowed, layout);
    var c := FillAll(b, printed, Active, layout);
    FillAllOthers(map[], printed, Status, layout, port);
    FillAllOthers(a, printed, Allowed, layout, port);
    FillAllOthers(b, printed, Active, layout, port);
    FillAllOthers(c, printed, Forwarding, layout, port);
  }

  lemma TableSteps(printed: seq<Printed>, headers: map<Section, string>, layout: Layout)
    requires Plain(layout) && (forall p :: p in printed ==> Printable(p))
    requires forall s: Section :: s in headers && Opens(headers[s], s)
    ensures Steps(START, Table(printed, headers, layout)).rows == FillTable(printed, layout)
  {
    hide Step, Steps, Block, FillAll, Printable, Opens;
    var a := Block(printed, Status, headers[Status], layout);
    var b := Block(printed, Allowed, headers[Allowed], layout);
    var c := Block(printed, Active, headers[Active], layout);
    var d := Block(printed, Forwarding, headers[Forwarding], layout);
    StepsAppend(START, a, b);
    StepsAppend(START, a + b, c);
    StepsAppend(START, a + b + c, d);
    BlockSteps(START, Status, printed, headers[Status], layout);
    BlockSteps(Steps(START, a), Allowed, printed, headers[Allowed], layout);
    BlockSteps(Steps(START, a + b), Active, printed, headers[Active], layout);
    BlockSteps(Steps(START, a + b + c), Forwarding, printed, headers[Forwarding], layout);
  }

  // Printed as the four sections, lists broken at any commas or hyphens, a table reads
  // back as the same rows: one per port, nothing else, every list in canonical spelling.
  lemma TableRoundTrip(printed: seq<Printed>, headers: map<Section, string>, layout: Layout, port: string)
    requires Plain(layout) && (forall p :: p in printed ==> Printable(p)) && Distinct(printed)
    requires forall s: Section :: s in headers && Opens(headers[s], s)
    ensures var r := Parsed(Table(printed, headers, layout));
            && (port in r <==> exists j :: 0 <= j < |printed| && printed[j].trunk.port == port)
            && forall j :: 0 <= j < |printed| && printed[j].trunk.port == port ==>
                 port in r && r[port] == ExpectedRow(printed[j].trunk, layout)
  {
    hide Table, FillTable, Filled4, Printable, Opens, ExpectedRow, Canonical;
    TableSteps(printed, headers, layout);
    if exists j :: 0 <= j < |printed| && printed[j].trunk.port == port {
      forall j | 0 <= j < |printed| && printed[j].trunk.port == port
        ensures var r := Parsed(Table(printed, headers, layout));
                port in r && r[port] == ExpectedRow(printed[j].trunk, layout)
      {
        FillTableAt(printed, layout, j);
        PrintableKeys(printed[j]);
        Filled4IsExpected(printed[j].trunk, layout);
      }
    } else {
      FillTableKeys(printed, layout, port);
    }
  }

  lemma PrintableKeys(p: Printed)
    requires Printable(p)
    ensures p.trunk.lists.Keys == {Allowed, Active, Forwarding}
  {
  }
}
