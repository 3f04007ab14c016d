/** VLAN id sets: reading any spelling IOS prints, and printing one canonical spelling. */
module VlanSets {
  import opened Basics
  import opened Decimal
  import opened Lex

  // ----- strings ----------------------------------------------------------------

  // `text.split(sep)`
  function Split(s: string, sep: char): (r: seq<string>)
    ensures |r| > 0
  {
    if s == "" then [""]
    else
      var rest := Split(s[1..], sep);
      if s[0] == sep then [""] + rest else [[s[0]] + rest[0]] + rest[1..]
  }

  // `sep.join(parts)`
  function Join(parts: seq<string>, sep: char): string {
    if parts == [] then ""
    else if |parts| == 1 then parts[0]
    else parts[0] + [sep] + Join(parts[1..], sep)
  }

  // `text.replace(" ", "")`
  function NoSpaces(s: string): string {
    if s == "" then "" else if s[0] == ' ' then NoSpaces(s[1..]) else [s[0]] + NoSpaces(s[1..])
  }

  // ----- reading ----------------------------------------------------------------

  function Range(low: nat, high: nat): (ids: set<nat>)
    ensures forall v :: v in ids <==> low <= v <= high
    decreases high + 1 - low
  {
    if low > high then {} else {low} + Range(low + 1, high)
  }

  // The ids one comma-free token names; junk names none.
  function TokenIds(token: string): set<nat> {
    var lowered := Lower(token);
    if token == "" || lowered == "none" then {}
    else if lowered == "all" then Range(1, 4094)
    else if '-' in token then
      var cut := First(token, '-');
      match (ToInt(token[..cut]), ToInt(token[cut + 1..]))
      case (Some(low), Some(high)) => Range(Min(low, high), Max(low, high))
      case _ => {}
    else
      match ToInt(token)
      case Some(value) => {value}
      case None => {}
  }

  function AllIds(tokens: seq<string>): set<nat> {
    if tokens == [] then {} else TokenIds(tokens[0]) + AllIds(tokens[1..])
  }

  function VlanSet(text: string): set<nat> {
    AllIds(Split(NoSpaces(text), ','))
  }

  method ReadVlanSet(text: string) returns (ids: set<nat>)
    ensures ids == VlanSet(text)
  {
    ids := {};
    var tokens := Split(NoSpaces(text), ',');
    for k := 0 to |tokens|
      invariant ids + AllIds(tokens[k..]) == AllIds(tokens)
    {
      var token := tokens[k];
      assert tokens[k..][0] == token && tokens[k..][1..] == tokens[k + 1..];
      if token == "" || Lower(token) == "none" {
        continue;
      }
      if Lower(token) == "all" {
        ids := ids + Range(1, 4094);
        continue;
      }
      if '-' in token {
        var cut := First(token, '-');
        var low, high := ToInt(token[..cut]), ToInt(token[cut + 1..]);
        if low.None? || high.None? {
          continue;
        }
        ids := ids + Range(Min(low.value, high.value), Max(low.value, high.value));
      } else {
        var value := ToInt(token);
        if value.Some? {
          ids := ids + {value.value};
        }
      }
    }
    assert tokens[|tokens|..] == [];
  }

  // ----- printing ---------------------------------------------------------------

  lemma {:induction false} HasMinimum(ids: set<nat>)
    requires ids != {}
    ensures exists m :: m in ids && forall v :: v in ids ==> m <= v
  {
    var x :| x in ids;
    if ids != {x} {
      var rest := ids - {x};
      HasMinimum(rest);
      var m :| m in rest && forall v :: v in rest ==> m <= v;
      var least := Min(m, x);
      assert forall v :: v in ids ==> v == x || v in rest;
      assert least in ids && forall v :: v in ids ==> least <= v;
    }
  }

  function Minimum(ids: set<nat>): (m: nat)
    requires ids != {}
    ensures m in ids && forall v :: v in ids ==> m <= v
  {
    HasMinimum(ids);
    var m :| m in ids && forall v :: v in ids ==> m <= v;
    m
  }

  // `sorted(set(ids))`
  function Sorted(ids: set<nat>): seq<nat> {
    if ids == {} then [] else [Minimum(ids)] + Sorted(ids - {Minimum(ids)})
  }

  ghost predicate Ascending(values: seq<nat>) {
    forall i, j :: 0 <= i < j < |values| ==> values[i] < values[j]
  }

  lemma {:induction false} SortedFacts(ids: set<nat>)
    ensures Ascending(Sorted(ids))
    ensures forall v :: v in Sorted(ids) <==> v in ids
  {
    if ids != {} {
      var m := Minimum(ids);
      SortedFacts(ids - {m});
      var s := Sorted(ids);
      forall j | 0 < j < |s|
        ensures s[0] < s[j]
      {
        assert s[j] == s[1..][j - 1] && s[j] in s[1..];
      }
    }
  }

  datatype Run = Run(low: nat, high: nat)

  // Each value extends the last run or opens one.
  function Extend(runs: seq<Run>, value: nat): seq<Run> {
    if runs != [] && value == runs[|runs| - 1].high + 1 then
      runs[|runs| - 1 := Run(runs[|runs| - 1].low, value)]
    else runs + [Run(value, value)]
  }

  function Runs(values: seq<nat>): seq<Run> {
    if values == [] then [] else Extend(Runs(values[..|values| - 1]), values[|values| - 1])
  }

  function RunText(run: Run): string {
    if run.low == run.high then Digits(run.low) else Digits(run.low) + "-" + Digits(run.high)
  }

  function RunTexts(runs: seq<Run>): (r: seq<string>)
    ensures |r| == |runs|
  {
    seq(|runs|, i requires 0 <= i < |runs| => RunText(runs[i]))
  }

  function RenderRanges(ids: set<nat>): string {
    Join(RunTexts(Runs(Sorted(ids))), ',')
  }

  method PrintRanges(ids: set<nat>) returns (text: string)
    ensures text == RenderRanges(ids)
  {
    var values := Sorted(ids);
    var runs: seq<Run> := [];
    for k := 0 to |values|
      invariant runs == Runs(values[..k])
    {
      assert values[..k + 1][..k] == values[..k];
      var last := |runs| - 1;
      if runs != [] && values[k] == runs[last].high + 1 {
        runs := runs[last := Run(runs[last].low, values[k])];
      } else {
        runs := runs + [Run(values[k], values[k])];
      }
    }
    assert values[..|values|] == values;
    text := Join(RunTexts(runs), ',');
  }

  function VlanRanges(text: string): string { RenderRanges(VlanSet(text)) }

  // ----- what the runs are --------------------------------------------------------

  ghost predicate Separated(runs: seq<Run>) {
    && (forall i :: 0 <= i < |runs| ==> runs[i].low <= runs[i].high)
    && (forall i, j :: 0 <= i < j < |runs| ==> runs[i].high + 1 < runs[j].low)
  }

  ghost predicate Covers(runs: seq<Run>, v: nat) {
    exists i :: 0 <= i < |runs| && runs[i].low <= v <= runs[i].high
  }

  lemma ExtendSeparates(runs: seq<Run>, value: nat)
    requires Separated(runs) && (runs != [] ==> runs[|runs| - 1].high < value)
    ensures Separated(Extend(runs, value))
    ensures Extend(runs, value)[|Extend(runs, value)| - 1].high == value
  {
  }

  lemma CoversSnoc(runs: seq<Run>, run: Run, v: nat)
    ensures Covers(runs + [run], v) <==> Covers(runs, v) || run.low <= v <= run.high
  {
    var t := runs + [run];
    if Covers(runs, v) {
      var i :| 0 <= i < |runs| && runs[i].low <= v <= runs[i].high;
      assert t[i] == runs[i];
    }
    assert t[|runs|] == run;
  }

  lemma ExtendCovers(runs: seq<Run>, value: nat, v: nat)
    requires Separated(runs) && (runs != [] ==> runs[|runs| - 1].high < value)
    ensures Separated(Extend(runs, value))
    ensures Extend(runs, value)[|Extend(runs, value)| - 1].high == value
    ensures Covers(Extend(runs, value), v) <==> Covers(runs, v) || v == value
  {
    ExtendSeparates(runs, value);
    assert runs != [] ==> runs[|runs| - 1].low <= runs[|runs| - 1].high;
    hide Separated, Covers;
    CoversSnoc(runs, Run(value, value), v);
    if runs != [] {
      var before, last := runs[..|runs| - 1], runs[|runs| - 1];
      assert runs == before + [last];
      CoversSnoc(before, last, v);
      CoversSnoc(before, Run(last.low, value), v);
    }
  }

  // The runs of ascending values hold exactly those values, in maximal stretches:
  // between two runs at least one value is missing.
  lemma {:induction false} RunsFacts(values: seq<nat>, v: nat)
    requires Ascending(values)
    ensures Separated(Runs(values))
    ensures values != [] ==> Runs(values) != [] && Runs(values)[|Runs(values)| - 1].high == values[|values| - 1]
    ensures Covers(Runs(values), v) <==> v in values
  {
    if values != [] {
      var n := |values| - 1;
      RunsFacts(values[..n], v);
      if n > 0 { assert values[..n][n - 1] == values[n - 1]; }
      ExtendCovers(Runs(values[..n]), values[n], v);
      assert v in values <==> v in values[..n] || v == values[n];
    }
  }

  // The runs printed for a set are separated, and hold exactly its members.
  lemma RunsOfSet(ids: set<nat>, v: nat)
    ensures Separated(Runs(Sorted(ids)))
    ensures Covers(Runs(Sorted(ids)), v) <==> v in ids
  {
    SortedFacts(ids);
    RunsFacts(Sorted(ids), v);
  }

  // ----- printing and reading back ------------------------------------------------

  lemma {:induction false} SplitAt(head: string, rest: string, sep: char)
    requires sep !in head
    ensures Split(head + [sep] + rest, sep) == [head] + Split(rest, sep)
  {
    var s := head + [sep] + rest;
    if head == "" {
      assert s[1..] == rest;
    } else {
      SplitAt(head[1..], rest, sep);
      assert s[1..] == head[1..] + [sep] + rest;
      assert [head[0]] + head[1..] == head;
    }
  }

  lemma {:induction false} SplitWhole(s: string, sep: char)
    requires sep !in s
    ensures Split(s, sep) == [s]
  {
    if s != "" { SplitWhole(s[1..], sep); assert [s[0]] + s[1..] == s; }
  }

  lemma {:induction false} SplitJoin(parts: seq<string>, sep: char)
    requires parts != [] && forall i :: 0 <= i < |parts| ==> sep !in parts[i]
    ensures Split(Join(parts, sep), sep) == parts
  {
    if |parts| == 1 {
      SplitWhole(parts[0], sep);
    } else {
      SplitJoin(parts[1..], sep);
      SplitAt(parts[0], Join(parts[1..], sep), sep);
    }
  }

  lemma {:induction false} NoSpacesSame(s: string)
    requires ' ' !in s
    ensures NoSpaces(s) == s
  {
    if s != "" { NoSpacesSame(s[1..]); assert [s[0]] + s[1..] == s; }
  }

  lemma {:induction false} JoinLacks(parts: seq<string>, sep: char, c: char)
    requires c != sep && forall i :: 0 <= i < |parts| ==> c !in parts[i]
    ensures c !in Join(parts, sep)
  {
    if |parts| > 1 { JoinLacks(parts[1..], sep, c); }
  }

  lemma DigitsLack(n: nat, c: char)
    requires !IsDigit(c)
    ensures c !in Digits(n)
  {
  }

  lemma NoKeyword(token: string)
    requires token != "" && IsDigit(token[0])
    ensures Lower(token) != "none" && Lower(token) != "all"
  {
    assert Lower(token)[0] == token[0];
  }

  lemma SingleIds(n: nat)
    ensures TokenIds(Digits(n)) == {n}
  {
    hide Digits, Value, Lower;
    NoKeyword(Digits(n));
    DigitsLack(n, '-');
    ValueOfDigits(n);
  }

  lemma PairIds(low: nat, high: nat)
    requires low <= high
    ensures TokenIds(Digits(low) + "-" + Digits(high)) == Range(low, high)
  {
    hide Digits, Value, Lower;
    var token := Digits(low) + "-" + Digits(high);
    var n := |Digits(low)|;
    NoKeyword(token);
    DigitsLack(low, '-');
    ValueOfDigits(low);
    ValueOfDigits(high);
    assert token[n] == '-' && forall j :: 0 <= j < n ==> token[j] == Digits(low)[j];
    assert First(token, '-') == n && token[..n] == Digits(low) && token[n + 1..] == Digits(high);
  }

  // A printed run names its own ids.
  lemma RunTextIds(run: Run)
    requires run.low <= run.high
    ensures TokenIds(RunText(run)) == Range(run.low, run.high)
    ensures ',' !in RunText(run) && ' ' !in RunText(run)
  {
    hide TokenIds, Digits;
    DigitsLack(run.low, ','); DigitsLack(run.low, ' ');
    DigitsLack(run.high, ','); DigitsLack(run.high, ' ');
    SingleIds(run.low);
    PairIds(run.low, run.high);
    assert run.low == run.high ==> Range(run.low, run.high) == {run.low};
  }

  lemma {:induction false} RunTextsIds(runs: seq<Run>, v: nat)
    requires forall i :: 0 <= i < |runs| ==> runs[i].low <= runs[i].high
    ensures v in AllIds(RunTexts(runs)) <==> Covers(runs, v)
  {
    hide TokenIds, RunText, Range;
    if runs != [] {
      var rest := runs[1..];
      RunTextsIds(rest, v);
      RunTextIds(runs[0]);
      assert RunTexts(runs)[1..] == RunTexts(rest);
      if Covers(rest, v) {
        var i :| 0 <= i < |rest| && rest[i].low <= v <= rest[i].high;
        assert runs[i + 1] == rest[i];
      }
      if Covers(runs, v) && !(runs[0].low <= v <= runs[0].high) {
        var i :| 0 <= i < |runs| && runs[i].low <= v <= runs[i].high;
        assert rest[i - 1] == runs[i];
      }
    }
  }

  // Reading a printed set gives the set back.
  lemma RenderRoundTrip(ids: set<nat>)
    ensures VlanSet(RenderRanges(ids)) == ids
  {
    var runs := Runs(Sorted(ids));
    var texts := RunTexts(runs);
    RunsOfSet(ids, 0);
    forall i | 0 <= i < |texts| ensures ',' !in texts[i] && ' ' !in texts[i] { RunTextIds(runs[i]); }
    JoinLacks(texts, ',', ' ');
    NoSpacesSame(RenderRanges(ids));
    forall v: nat
      ensures v in VlanSet(RenderRanges(ids)) <==> v in ids
    {
      RunsOfSet(ids, v);
      if runs == [] {
        assert Split("", ',') == [""] && [""][1..] == [];
        assert AllIds([""]) == TokenIds("") + AllIds([]);
      } else {
        SplitJoin(texts, ',');
        RunTextsIds(runs, v);
      }
    }
  }

  // One spelling per set.
  lemma RenderIsCanonical(a: set<nat>, b: set<nat>)
    ensures RenderRanges(a) == RenderRanges(b) <==> a == b
  {
    RenderRoundTrip(a);
    RenderRoundTrip(b);
  }

  // Two lists normalize alike exactly when they name the same ids; for any text at all.
  lemma VlanRangesIsCanonical(s: string, t: string)
    ensures VlanRanges(s) == VlanRanges(t) <==> VlanSet(s) == VlanSet(t)
  {
    RenderIsCanonical(VlanSet(s), VlanSet(t));
  }

  // Normalizing a list a second time changes nothing.
  lemma VlanRangesIsIdempotent(s: string)
    ensures VlanRanges(VlanRanges(s)) == VlanRanges(s)
  {
    RenderRoundTrip(VlanSet(s));
  }
}
