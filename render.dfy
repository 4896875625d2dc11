/** The result renderer of main.go: it prints the diagnostic records of a
    finished scan on one line, each as `[level] [module] message` with colour
    escapes, skipping the records of the internal SYSTEM module. */
module Render {
  import opened Outcomes
  import opened Ansi

  /** One diagnostic record of the details response: `{module, level, message}`. */
  datatype Record = Record(moduleName: string, level: string, message: string)

  /** Module names are always shown in cyan. */
  const ModuleColor: nat := 36
  /** Messages are always shown in yellow, whatever their level. */
  const MessageColor: nat := 33

  /** The line printed instead of the records when the details response holds none. */
  const NoResultsLine: string := "No 'results' field found in the JSON."

  /** A record of the internal SYSTEM module, in any letter case; it is never
      shown. `SystemByUpper` shows this is the test `Upper(module) == "SYSTEM"`. */
  predicate IsSystem(r: Record)
  {
    FoldsTo(r.moduleName, "SYSTEM")
  }

  /** The colour of a level, chosen on its upper-cased spelling: INFO green,
      WARNING yellow, ERROR red, NOTICE magenta, anything else white. */
  function LevelColor(level: string): nat
  {
    if FoldsTo(level, "INFO") then 32
    else if FoldsTo(level, "WARNING") then 33
    else if FoldsTo(level, "ERROR") then 31
    else if FoldsTo(level, "NOTICE") then 35
    else 37
  }

  /** The text written for one shown record: `[level] [module] message`, the
      level in its level colour, the module in cyan, the message in yellow, each
      in the letter case it was received in. */
  function Entry(r: Record): string
  {
    "[" + Colored(LevelColor(r.level), r.level)
    + "] [" + Colored(ModuleColor, r.moduleName)
    + "] " + Colored(MessageColor, r.message)
  }

  /** What one record amounts to on screen, before its separator: nothing for a
      SYSTEM record, otherwise its entry. */
  datatype Slot = Hidden | Visible(entry: string)

  function SlotOf(r: Record): Slot
  {
    if IsSystem(r) then Hidden else Visible(Entry(r))
  }

  /** The slots of a list of records, index for index. */
  function Slots(rs: seq<Record>): seq<Slot>
  {
    seq(|rs|, i requires 0 <= i < |rs| => SlotOf(rs[i]))
  }

  /** The separator after the record at index `i` of a list of `n` records:
      a space unless `i` is the last index of the whole, unfiltered list. */
  function Separator(i: nat, n: nat): string
  {
    if i < n - 1 then " " else ""
  }

  /** What the render loop has written after visiting the first `n` records:
      a hidden slot adds nothing, a visible one its entry and its separator. */
  function Span(ss: seq<Slot>, n: nat): string
    requires n <= |ss|
  {
    if n == 0 then ""
    else match ss[n - 1]
      case Hidden => Span(ss, n - 1)
      case Visible(e) => Span(ss, n - 1) + (e + Separator(n - 1, |ss|))
  }

  /** The line of rendered records, before its newline. */
  function Body(rs: seq<Record>): string
  {
    Span(Slots(rs), |rs|)
  }

  /** Everything the renderer writes for a details response with records `rs`:
      the rendered records and one newline, or the "no results" line. */
  function Output(rs: seq<Record>): string
  {
    if |rs| > 0 then Body(rs) + "\n" else NoResultsLine + "\n"
  }

  /** One step of the render loop over a shown record: its entry, then a space
      unless it is the last record of the whole list. */
  lemma SpanShownStep(rs: seq<Record>, i: nat, line: string)
    requires i < |rs| && !IsSystem(rs[i]) && line == Entry(rs[i])
    ensures Span(Slots(rs), i + 1) ==
      if i < |rs| - 1 then Span(Slots(rs), i) + line + " " else Span(Slots(rs), i) + line
  {
    var ss := Slots(rs);
    assert ss[i] == Visible(line);
  }

  /** One step of the render loop over a SYSTEM record: nothing is written. */
  lemma SpanHiddenStep(rs: seq<Record>, i: nat)
    requires i < |rs| && IsSystem(rs[i])
    ensures Span(Slots(rs), i + 1) == Span(Slots(rs), i)
  {
    assert Slots(rs)[i] == Hidden;
  }

  /** The render loop: walks the records by index and writes each shown record
      segment by segment, then its separator. */
  method RenderDetails(results: seq<Record>) returns (out: string)
    ensures out == Output(results)
  {
    if |results| > 0 {
      out := "";
      var i := 0;
      while i < |results|
        invariant 0 <= i <= |results|
        invariant out == Span(Slots(results), i)
      {
        var item := results[i];
        FoldsToIsUpperEq(item.moduleName, "SYSTEM");
        if Upper(item.moduleName) != "SYSTEM" {
          var levelColor := LevelColor(item.level);
          var line := "[";
          line := line + Colored(levelColor, item.level);
          line := line + "] [";
          line := line + Colored(ModuleColor, item.moduleName);
          line := line + "] " + Colored(MessageColor, item.message);
          SpanShownStep(results, i, line);
          out := out + line;
          if i < |results| - 1 {
            out := out + " ";
          }
        } else {
          SpanHiddenStep(results, i);
        }
        i := i + 1;
      }
      out := out + "\n";
    } else {
      out := NoResultsLine + "\n";
    }
  }

  // ---------------------------------------------------------------------
  // Properties of the rendered text
  // ---------------------------------------------------------------------

  /** The level colour is a total function of the upper-cased level, and each
      colour is chosen by exactly one spelling (white by every other one). */
  lemma LevelColorTotal(level: string)
    ensures LevelColor(level) in {31, 32, 33, 35, 37}
    ensures LevelColor(level) == 32 <==> Upper(level) == "INFO"
    ensures LevelColor(level) == 33 <==> Upper(level) == "WARNING"
    ensures LevelColor(level) == 31 <==> Upper(level) == "ERROR"
    ensures LevelColor(level) == 35 <==> Upper(level) == "NOTICE"
    ensures LevelColor(level) == 37 <==> Upper(level) !in {"INFO", "WARNING", "ERROR", "NOTICE"}
  {
    FoldsToIsUpperEq(level, "INFO");
    FoldsToIsUpperEq(level, "WARNING");
    FoldsToIsUpperEq(level, "ERROR");
    FoldsToIsUpperEq(level, "NOTICE");
  }

  /** Level colours ignore letter case. */
  lemma LevelColorIgnoresCase(a: string, b: string)
    requires Upper(a) == Upper(b)
    ensures LevelColor(a) == LevelColor(b)
  {
    LevelColorTotal(a);
    LevelColorTotal(b);
  }

  /** "warning", "Warning" and "WARNING" all select yellow; an unknown level
      such as "DEBUG" falls back to white, with no error. */
  lemma LevelColorExamples()
    ensures LevelColor("warning") == LevelColor("Warning") == LevelColor("WARNING") == 33
    ensures LevelColor("DEBUG") == 37
  {
  }

  /** The message escape is written out by hand rather than through
      `printColoredText`, but it is the same text: `ESC[33m`, the message,
      `ESC[0m`. */
  lemma MessageEscapeIsColored(message: string)
    ensures Colored(MessageColor, message) == [Esc, '[', '3', '3', 'm'] + message + Reset
  {
    assert Decimal(33) == ['3', '3'];
  }

  /** A record is a SYSTEM record exactly when its module upper-cases to "SYSTEM". */
  lemma SystemByUpper(r: Record)
    ensures IsSystem(r) <==> Upper(r.moduleName) == "SYSTEM"
  {
    FoldsToIsUpperEq(r.moduleName, "SYSTEM");
  }

  /** The SYSTEM module is recognised in any letter case. */
  lemma SystemInAnyCase(level: string, message: string)
    ensures IsSystem(Record("system", level, message))
    ensures IsSystem(Record("System", level, message))
    ensures IsSystem(Record("SYSTEM", level, message))
    ensures !IsSystem(Record("DNS", level, message))
  {
  }

  // ---------------------------------------------------------------------
  // Which records are shown, and in which order
  // ---------------------------------------------------------------------

  /** The indices, below `n`, of the visible slots, in increasing order. */
  function KeptIndices(ss: seq<Slot>, n: nat): (ks: seq<nat>)
    requires n <= |ss|
    ensures forall i :: 0 <= i < |ks| ==> ks[i] < n && ss[ks[i]].Visible?
  {
    if n == 0 then []
    else if ss[n - 1].Hidden? then KeptIndices(ss, n - 1)
    else KeptIndices(ss, n - 1) + [n - 1]
  }

  predicate Increasing(ks: seq<nat>)
  {
    forall a, b :: 0 <= a < b < |ks| ==> ks[a] < ks[b]
  }

  lemma {:induction false} KeptIndicesIncreasing(ss: seq<Slot>, n: nat)
    requires n <= |ss|
    ensures Increasing(KeptIndices(ss, n))
  {
    if n > 0 {
      KeptIndicesIncreasing(ss, n - 1);
      var ks, prev := KeptIndices(ss, n), KeptIndices(ss, n - 1);
      if ss[n - 1].Visible? {
        assert ks == prev + [n - 1];
        forall a, b | 0 <= a < b < |ks| ensures ks[a] < ks[b] {
          if b == |ks| - 1 {
            assert ks[a] == prev[a] < n - 1;
          } else {
            assert ks[a] == prev[a] && ks[b] == prev[b];
          }
        }
      }
    }
  }

  lemma {:induction false} KeptIndicesComplete(ss: seq<Slot>, n: nat, k: nat)
    requires n <= |ss| && k < n && ss[k].Visible?
    ensures k in KeptIndices(ss, n)
  {
    if k < n - 1 {
      KeptIndicesComplete(ss, n - 1, k);
    }
  }

  /** The entries of the visible slots at indices `ks`, each followed by its separator. */
  function JoinEntries(ss: seq<Slot>, ks: seq<nat>): string
    requires forall i :: 0 <= i < |ks| ==> ks[i] < |ss| && ss[ks[i]].Visible?
  {
    if ks == [] then ""
    else
      var k := ks[|ks| - 1];
      JoinEntries(ss, ks[..|ks| - 1]) + (ss[k].entry + Separator(k, |ss|))
  }

  lemma JoinEntriesSnoc(ss: seq<Slot>, ks: seq<nat>, k: nat)
    requires forall i :: 0 <= i < |ks| ==> ks[i] < |ss| && ss[ks[i]].Visible?
    requires k < |ss| && ss[k].Visible?
    ensures JoinEntries(ss, ks + [k]) == JoinEntries(ss, ks) + (ss[k].entry + Separator(k, |ss|))
  {
    assert (ks + [k])[..|ks|] == ks;
  }

  lemma {:induction false} SpanIsKeptEntries(ss: seq<Slot>, n: nat)
    requires n <= |ss|
    ensures Span(ss, n) == JoinEntries(ss, KeptIndices(ss, n))
  {
    if n > 0 {
      SpanIsKeptEntries(ss, n - 1);
      if ss[n - 1].Visible? {
        JoinEntriesSnoc(ss, KeptIndices(ss, n - 1), n - 1);
      }
    }
  }

  /** The body of the output is exactly the non-SYSTEM records, each as its
      entry and separator, in input order: SYSTEM records leave no trace. */
  lemma ShownInInputOrder(rs: seq<Record>)
    ensures var ss := Slots(rs); var ks := KeptIndices(ss, |rs|);
      (forall i :: 0 <= i < |ks| ==> ks[i] < |rs| && !IsSystem(rs[ks[i]])
                                     && ss[ks[i]].entry == Entry(rs[ks[i]]))
      && (forall k :: 0 <= k < |rs| && !IsSystem(rs[k]) ==> k in ks)
      && Increasing(ks)
      && Body(rs) == JoinEntries(ss, ks)
  {
    var ss := Slots(rs);
    SpanIsKeptEntries(ss, |rs|);
    KeptIndicesIncreasing(ss, |rs|);
    forall k | 0 <= k < |rs| && !IsSystem(rs[k])
      ensures k in KeptIndices(ss, |rs|)
    {
      assert ss[k] == SlotOf(rs[k]);
      KeptIndicesComplete(ss, |rs|, k);
    }
    var ks := KeptIndices(ss, |rs|);
    forall i | 0 <= i < |ks|
      ensures !IsSystem(rs[ks[i]]) && ss[ks[i]].entry == Entry(rs[ks[i]])
    {
      assert ss[ks[i]] == SlotOf(rs[ks[i]]);
    }
  }

  /** The level and message of a SYSTEM record never reach the output:
      replacing it by any other SYSTEM record changes nothing. */
  lemma SystemContentIrrelevant(rs: seq<Record>, k: nat, s: Record)
    requires k < |rs| && IsSystem(rs[k]) && IsSystem(s)
    ensures Output(rs[k := s]) == Output(rs)
  {
    assert Slots(rs[k := s]) == Slots(rs);
  }

  lemma {:induction false} SpanAllHidden(ss: seq<Slot>, n: nat)
    requires n <= |ss|
    requires forall i :: 0 <= i < |ss| ==> ss[i].Hidden?
    ensures Span(ss, n) == ""
  {
    if n > 0 {
      SpanAllHidden(ss, n - 1);
    }
  }

  /** A non-empty list whose records are all SYSTEM prints only the final newline;
      an empty list prints only the "no results" line. */
  lemma OnlyNewlineWhenAllSystem(rs: seq<Record>)
    requires forall i :: 0 <= i < |rs| ==> IsSystem(rs[i])
    ensures |rs| > 0 ==> Output(rs) == "\n"
    ensures |rs| == 0 ==> Output(rs) == NoResultsLine + "\n"
  {
    var ss := Slots(rs);
    forall i | 0 <= i < |ss| ensures ss[i].Hidden? {
      assert ss[i] == SlotOf(rs[i]);
    }
    SpanAllHidden(ss, |ss|);
  }

  /** Joins strings with one space between neighbours. */
  function SpaceJoin(xs: seq<string>): string
  {
    if xs == [] then ""
    else if |xs| == 1 then xs[0]
    else SpaceJoin(xs[..|xs| - 1]) + " " + xs[|xs| - 1]
  }

  /** The entries of all slots, which must all be visible. */
  function Entries(ss: seq<Slot>, n: nat): seq<string>
    requires n <= |ss|
    requires forall i :: 0 <= i < |ss| ==> ss[i].Visible?
  {
    seq(n, i requires 0 <= i < n => ss[i].entry)
  }

  lemma {:induction false} SpanAllVisible(ss: seq<Slot>, n: nat)
    requires forall i :: 0 <= i < |ss| ==> ss[i].Visible?
    requires 0 < n <= |ss|
    ensures Span(ss, n) == SpaceJoin(Entries(ss, n)) + Separator(n - 1, |ss|)
  {
    if n == 1 {
      assert Span(ss, 0) == "";
    } else {
      SpanAllVisible(ss, n - 1);
      assert Entries(ss, n)[..n - 1] == Entries(ss, n - 1);
      assert Separator(n - 2, |ss|) == " ";
    }
  }

  /** Without SYSTEM records the body (the line before its newline) is the
      entries joined by single spaces, with no trailing space. */
  lemma SpaceSeparatedWithoutSystem(rs: seq<Record>)
    requires forall i :: 0 <= i < |rs| ==> !IsSystem(rs[i])
    ensures Body(rs) == SpaceJoin(seq(|rs|, i requires 0 <= i < |rs| => Entry(rs[i])))
  {
    if rs == [] {
      return;
    }
    var ss := Slots(rs);
    var es := seq(|rs|, i requires 0 <= i < |rs| => Entry(rs[i]));
    forall i | 0 <= i < |ss| ensures ss[i] == Visible(es[i]) {
      assert ss[i] == SlotOf(rs[i]);
    }
    SpanAllVisible(ss, |ss|);
    assert Entries(ss, |ss|) == es;
    assert SpaceJoin(es) + Separator(|ss| - 1, |ss|) == SpaceJoin(es);
  }

  /** The last record never gets a trailing space. */
  lemma {:induction false} LastEntryHasNoSpace(rs: seq<Record>)
    requires |rs| > 0 && !IsSystem(rs[|rs| - 1])
    ensures Body(rs) == Span(Slots(rs), |rs| - 1) + Entry(rs[|rs| - 1])
  {
    var ss := Slots(rs);
    var e := Entry(rs[|rs| - 1]);
    assert ss[|rs| - 1] == Visible(e);
    assert e + Separator(|rs| - 1, |rs|) == e;
  }

  lemma {:induction false} SpanAfterLastVisible(ss: seq<Slot>, j: nat, n: nat)
    requires j < n <= |ss|
    requires forall i :: j < i < |ss| ==> ss[i].Hidden?
    ensures Span(ss, n) == Span(ss, j + 1)
  {
    if n > j + 1 {
      SpanAfterLastVisible(ss, j, n - 1);
    }
  }

  /** A shown record followed only by SYSTEM records still gets its space, so
      the line then ends with a space before the newline. */
  lemma SpaceBeforeTrailingSystem(rs: seq<Record>, j: nat)
    requires j < |rs| - 1 && !IsSystem(rs[j])
    requires forall i :: j < i < |rs| ==> IsSystem(rs[i])
    ensures Body(rs) == Span(Slots(rs), j) + Entry(rs[j]) + " "
  {
    var ss := Slots(rs);
    forall i | j < i < |ss| ensures ss[i].Hidden? {
      assert ss[i] == SlotOf(rs[i]);
    }
    SpanAfterLastVisible(ss, j, |ss|);
    assert ss[j] == SlotOf(rs[j]);
  }

  /** The three-record example: a WARNING from DNS, an ERROR from SYSTEM and an
      INFO from NS print as two entries, in that order, separated by one space. */
  lemma ThreeRecordExample()
    ensures var rs := [Record("DNS", "WARNING", "m1"), Record("SYSTEM", "ERROR", "m2"),
                       Record("NS", "INFO", "m3")];
      Body(rs) == Entry(rs[0]) + " " + Entry(rs[2])
  {
    var rs := [Record("DNS", "WARNING", "m1"), Record("SYSTEM", "ERROR", "m2"),
               Record("NS", "INFO", "m3")];
    assert !IsSystem(rs[0]) && !IsSystem(rs[2]);
    assert IsSystem(rs[1]);
    SpanShownStep(rs, 0, Entry(rs[0]));
    SpanHiddenStep(rs, 1);
    SpanShownStep(rs, 2, Entry(rs[2]));
    assert "" + Entry(rs[0]) == Entry(rs[0]);
  }
}
