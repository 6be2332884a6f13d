/**
 * A concrete engine for the test scenarios: a single paragraph of text, whose
 * content positions run from 1 to its length plus 1 as in a ProseMirror
 * `doc(p(...))`, edited by replace steps.  Step maps are single ranges, mapped
 * the way ProseMirror's `StepMap` maps positions; mirror recovery is not used.
 */
module TextModel {
  import opened Wrappers
  import opened Mappings
  import opened Transforms
  import opened Steps

  /** Replace the content between `from` and `to` by `text`. */
  datatype TextStep = Replace(from: int, to: int, text: string)

  /** A step map with one range: `oldSize` positions at `start` became `newSize`. */
  datatype Range = Range(start: int, oldSize: int, newSize: int)

  /** Whether `from..to` is a range of content positions of `d`. */
  predicate Fits(d: string, from: int, to: int)
  {
    1 <= from <= to <= |d| + 1
  }

  /** `step.apply(doc)`: the replacement, or None when the range is outside the paragraph. */
  function ApplyText(d: string, s: TextStep): Option<string>
  {
    if Fits(d, s.from, s.to) then Some(d[..s.from - 1] + s.text + d[s.to - 1..]) else None
  }

  /** `step.invert(doc)`: put back what `s` replaced in `d`. */
  function InvertText(s: TextStep, d: string): TextStep
  {
    Replace(s.from, s.from + |s.text|, if Fits(d, s.from, s.to) then d[s.from - 1..s.to - 1] else "")
  }

  /** `step.getMap()` */
  function RangeOf(s: TextStep): Range
  {
    Range(s.from, s.to - s.from, |s.text|)
  }

  /** `stepMap.invert()` */
  function InvertRange(r: Range): Range
  {
    Range(r.start, r.newSize, r.oldSize)
  }

  /**
   * `StepMap.mapResult(pos, assoc)` for one range: the mapped position and
   * whether the range deleted across it.
   */
  function MapPos(r: Range, pos: int, assoc: int): (int, bool)
  {
    var end := r.start + r.oldSize;
    if pos < r.start then (pos, false)
    else if pos > end then (pos + r.newSize - r.oldSize, false)
    else
      var side := if r.oldSize == 0 then assoc else if pos == r.start then -1 else if pos == end then 1 else assoc;
      (r.start + (if side < 0 then 0 else r.newSize), r.start < pos < end)
  }

  /** `Mapping.mapResult(pos, assoc)` over the window `[from, to)` of `maps`. */
  function MapThrough(maps: seq<Range>, from: nat, to: nat, pos: int, assoc: int): (int, bool)
    decreases to - from
  {
    if from >= to || to > |maps| then (pos, false)
    else
      var (p, deleted) := MapPos(maps[from], pos, assoc);
      var (q, deletedLater) := MapThrough(maps, from + 1, to, p, assoc);
      (q, deleted || deletedLater)
  }

  /**
   * `ReplaceStep.map(mapping)`: `from` is mapped to the right and `to` to the
   * left; the step is gone when the mapping deleted across both.
   */
  function MapText(s: TextStep, v: MappingView<Range>): Option<TextStep>
  {
    var (from, fromDeleted) := MapThrough(v.maps, v.from, v.to, s.from, 1);
    var (to, toDeleted) := MapThrough(v.maps, v.from, v.to, s.to, -1);
    if fromDeleted && toDeleted then None
    else Some(Replace(from, if from < to then to else from, s.text))
  }

  function Text(): Engine<string, TextStep, Range>
  {
    Engine(ApplyText, InvertText, RangeOf, InvertRange, MapText)
  }

  /** A step's inverse, applied to the document the step produced, restores the document. */
  lemma InvertRestores(d: string, s: TextStep)
    requires ApplyText(d, s).Some?
    ensures ApplyText(ApplyText(d, s).value, InvertText(s, d)) == Some(d)
  {
    var d' := ApplyText(d, s).value;
    var inv := InvertText(s, d);
    assert d'[..inv.from - 1] == d[..s.from - 1];
    assert d'[inv.to - 1..] == d[s.to - 1..];
    assert d[..s.from - 1] + d[s.from - 1..s.to - 1] + d[s.to - 1..] == d;
  }

  /** A step's map, inverted, is the map of the step's inverse. */
  lemma InvertedMapIsInverseMap(d: string, s: TextStep)
    requires ApplyText(d, s).Some?
    ensures InvertRange(RangeOf(s)) == RangeOf(InvertText(s, d))
  {
  }

  /**
   * The neutralize test: typing "a", then "bc" after it, then "d" after that,
   * in an empty paragraph; mapped back to the empty paragraph, every step
   * inserts at position 1.
   */
  lemma NeutralizeTyping()
    ensures Neutralize(Text(), [Replace(1, 1, "a"), Replace(2, 2, "bc"), Replace(4, 4, "d")]) ==
      Success([Replace(1, 1, "a"), Replace(1, 1, "bc"), Replace(1, 1, "d")])
  {
    var steps := [Replace(1, 1, "a"), Replace(2, 2, "bc"), Replace(4, 4, "d")];
    var back := BackMapping(Text(), steps);
    InvertedMaps(MappingValue(StepMaps(Text(), steps), []), InvertRange, 3);
    assert back.maps == [Range(4, 1, 0), Range(2, 2, 0), Range(1, 1, 0)];
    assert NeutralAt(Text(), steps, 0) == Some(Replace(1, 1, "a"));
    assert NeutralAt(Text(), steps, 1) == Some(Replace(1, 1, "bc"));
    assert NeutralAt(Text(), steps, 2) == Some(Replace(1, 1, "d"));
    NeutralizeExact(Text(), steps, 3);
    var r := Neutralize(Text(), steps).value;
    assert r == [r[0], r[1], r[2]];
  }

  /** The edit the replica has not had confirmed: "x" typed into an empty paragraph. */
  function LocalX(origin: Transform<string, TextStep, Range>): Rebaseable<string, TextStep, Range>
  {
    Rebaseable(Replace(1, 1, "x"), Replace(1, 2, ""), origin)
  }

  /** The transaction after the first foreign commit: "x" undone, "q" inserted, "x" redone after it. */
  function AfterFirstCommit(): TrState<string, TextStep, Range>
  {
    TrState("qx", ["x", "", "q"], [Replace(1, 2, ""), Replace(1, 1, "q"), Replace(2, 2, "x")],
            MappingValue([Range(1, 1, 0), Range(1, 0, 1), Range(2, 0, 1)], [(0, 2)]))
  }

  /** The transaction once the second foreign commit is undone and replayed, before the redo. */
  function SecondReplayed(): TrState<string, TextStep, Range>
  {
    var t := AfterFirstCommit();
    TrState("rq", t.docs + ["qx", "q"], t.steps + [Replace(2, 3, ""), Replace(1, 1, "r")],
            MappingValue(t.mapping.maps + [Range(2, 1, 0), Range(1, 0, 1)], t.mapping.mirror))
  }

  /** The transaction once the first foreign commit is undone and replayed, before the redo. */
  function FirstReplayed(): TrState<string, TextStep, Range>
  {
    TrState("q", ["x", ""], [Replace(1, 2, ""), Replace(1, 1, "q")], MappingValue([Range(1, 1, 0), Range(1, 0, 1)], []))
  }

  /** Undoing "x" and replaying "q" at the start gives "q". */
  lemma FirstCommitReplays(origin: Transform<string, TextStep, Range>)
    ensures var t1 := StepAll(Text(), Start("x"), Inverses([LocalX(origin)]));
      t1.1 && StepAll(Text(), t1.0, [Replace(1, 1, "q")]) == (FirstReplayed(), true)
  {
    var e := Text();
    var t0: TrState<string, TextStep, Range> := Start("x");
    var t1 := AddStep(e, t0, Replace(1, 2, ""), "");
    assert Inverses([LocalX(origin)]) == [Replace(1, 2, "")];
    assert [Replace(1, 2, "")][..0] == [];
    assert "x"[..0] + "" + "x"[1..] == "";
    assert ApplyText("x", Replace(1, 2, "")) == Some("");
    assert StepAll(e, t0, [Replace(1, 2, "")]) == (t1, true);
    assert [Replace(1, 1, "q")][..0] == [];
    assert ""[..0] + "q" + ""[0..] == "q";
    assert ApplyText("", Replace(1, 1, "q")) == Some("q");
    assert AddStep(e, t1, Replace(1, 1, "q"), "q") == FirstReplayed();
  }

  /** Mapped through the insertion of "q", the edit becomes an insertion at 2 and applies. */
  lemma FirstCommitRedo(origin: Transform<string, TextStep, Range>)
    ensures Redo(Text(), [LocalX(origin)], 0, 1, FirstReplayed()) ==
      RedoOut([Rebaseable(Replace(2, 2, "x"), Replace(2, 3, ""), origin)], AfterFirstCommit(), [0])
  {
    var e := Text();
    assert MappedAt(e, [LocalX(origin)], 0, 0, FirstReplayed()) == Some(Replace(2, 2, "x"));
    assert "q"[..1] + "x" + "q"[1..] == "qx";
    assert ApplyText("q", Replace(2, 2, "x")) == Some("qx");
    assert InvertText(Replace(2, 2, "x"), "q") == Replace(2, 3, "");
  }

  /** The first foreign commit, inserting "q" at the start, keeps the edit as an insertion at 2. */
  lemma FirstCommitKeepsEdit(origin: Transform<string, TextStep, Range>)
    ensures Rebase(Text(), [LocalX(origin)], [Replace(1, 1, "q")], Start("x"), 0) ==
      (Success([Rebaseable(Replace(2, 2, "x"), Replace(2, 3, ""), origin)]), AfterFirstCommit())
  {
    FirstCommitReplays(origin);
    FirstCommitRedo(origin);
  }

  /** Undoing the kept edit and replaying "r" at the start gives "rq". */
  lemma SecondCommitReplays(origin: Transform<string, TextStep, Range>)
    ensures var kept := Rebaseable(Replace(2, 2, "x"), Replace(2, 3, ""), origin);
      var t1 := StepAll(Text(), AfterFirstCommit(), Inverses([kept]));
      t1.1 && StepAll(Text(), t1.0, [Replace(1, 1, "r")]) == (SecondReplayed(), true)
  {
    var e := Text();
    var kept := Rebaseable(Replace(2, 2, "x"), Replace(2, 3, ""), origin);
    var t3 := AfterFirstCommit();
    var u1 := AddStep(e, t3, Replace(2, 3, ""), "q");
    assert Inverses([kept]) == [Replace(2, 3, "")];
    assert [Replace(2, 3, "")][..0] == [];
    assert "qx"[..1] + "" + "qx"[2..] == "q";
    assert ApplyText("qx", Replace(2, 3, "")) == Some("q");
    assert StepAll(e, t3, [Replace(2, 3, "")]) == (u1, true);
    assert [Replace(1, 1, "r")][..0] == [];
    assert "q"[..0] + "r" + "q"[0..] == "rq";
    assert ApplyText("q", Replace(1, 1, "r")) == Some("rq");
    assert AddStep(e, u1, Replace(1, 1, "r"), "rq") == SecondReplayed();
  }

  /**
   * With the mapping window counted from 0, as `rebaseSteps` is written, the
   * kept edit is mapped through all four maps after index 0 and lands at 4,
   * past the end of "rq": it is dropped.
   */
  lemma SecondCommitAsWritten(origin: Transform<string, TextStep, Range>)
    ensures var kept := Rebaseable(Replace(2, 2, "x"), Replace(2, 3, ""), origin);
      Redo(Text(), [kept], 0, 1, SecondReplayed()) == RedoOut([], SecondReplayed(), [])
  {
    var e := Text();
    var kept := Rebaseable(Replace(2, 2, "x"), Replace(2, 3, ""), origin);
    var ms := SecondReplayed().mapping.maps;
    assert ms == [Range(1, 1, 0), Range(1, 0, 1), Range(2, 0, 1), Range(2, 1, 0), Range(1, 0, 1)];
    assert MapThrough(ms, 4, 5, 3, 1) == (4, false) && MapThrough(ms, 4, 5, 3, -1) == (4, false);
    assert MapThrough(ms, 3, 5, 4, 1) == (4, false) && MapThrough(ms, 3, 5, 4, -1) == (4, false);
    assert MapThrough(ms, 2, 5, 3, 1) == (4, false) && MapThrough(ms, 2, 5, 3, -1) == (4, false);
    assert MapThrough(ms, 1, 5, 2, 1) == (4, false) && MapThrough(ms, 1, 5, 2, -1) == (4, false);
    assert MappedAt(e, [kept], 0, 0, SecondReplayed()) == Some(Replace(4, 4, "x"));
    assert ApplyText("rq", Replace(4, 4, "x")).None?;
  }

  /**
   * With the window counted from the three steps the transaction already held,
   * the edit is mapped through the insertion of "r" only and lands at 3.
   */
  lemma SecondCommitCorrected(origin: Transform<string, TextStep, Range>)
    ensures var kept := Rebaseable(Replace(2, 2, "x"), Replace(2, 3, ""), origin);
      var out := Redo(Text(), [kept], 3, 1, SecondReplayed());
      && out.result == [Rebaseable(Replace(3, 3, "x"), Replace(3, 4, ""), origin)]
      && out.tr.doc == "rqx"
  {
    var e := Text();
    var kept := Rebaseable(Replace(2, 2, "x"), Replace(2, 3, ""), origin);
    var ms := SecondReplayed().mapping.maps;
    assert |ms| == 5 && ms[4] == Range(1, 0, 1);
    assert MappedAt(e, [kept], 3, 0, SecondReplayed()) == Some(Replace(3, 3, "x"));
    assert "rq"[..2] + "x" + "rq"[2..] == "rqx";
    assert ApplyText("rq", Replace(3, 3, "x")) == Some("rqx");
    assert InvertText(Replace(3, 3, "x"), "rq") == Replace(3, 4, "");
  }

  /**
   * Two foreign commits chained on one transaction.  A replica whose paragraph
   * holds its own unconfirmed "x" receives a commit inserting "q" at the start,
   * then, on the same transaction, one inserting "r" at the start.  The first
   * rebase keeps the edit as an insertion at 2.  In the second, the transaction
   * already holds three steps; with the mapping window counted from 0, as
   * `rebaseSteps` is written, the edit is dropped and the paragraph reads "rq".
   * Counted from the steps already present, it reads "rqx".
   */
  lemma ChainedRebaseDropsEdit(origin: Transform<string, TextStep, Range>)
    ensures
      var first := Rebase(Text(), [LocalX(origin)], [Replace(1, 1, "q")], Start("x"), 0);
      && first.0 == Success([Rebaseable(Replace(2, 2, "x"), Replace(2, 3, ""), origin)])
      && first.1.doc == "qx" && |first.1.steps| == 3
      && (var asWritten := Rebase(Text(), first.0.value, [Replace(1, 1, "r")], first.1, 0);
          asWritten.0 == Success([]) && asWritten.1.doc == "rq")
      && (var corrected := Rebase(Text(), first.0.value, [Replace(1, 1, "r")], first.1, |first.1.steps|);
          corrected.0 == Success([Rebaseable(Replace(3, 3, "x"), Replace(3, 4, ""), origin)])
          && corrected.1.doc == "rqx")
  {
    FirstCommitKeepsEdit(origin);
    SecondCommitReplays(origin);
    SecondCommitAsWritten(origin);
    SecondCommitCorrected(origin);
  }
}
