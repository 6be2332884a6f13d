/**
 * The step algorithms of collab-commit: commits and rebaseable steps, the
 * neutralisation of a cumulative step sequence, and the rebase of unconfirmed
 * local steps over steps the authority accepted.
 */
module Steps {
  import opened Wrappers
  import opened Mappings
  import opened Transforms

  /** A bundle of steps exchanged with the authority, identified by `ref`. */
  datatype Commit<S> = Commit(version: int, ref: string, steps: seq<S>)

  /** A local step kept with its inverse and the transform it came from. */
  datatype Rebaseable<!D, !S, !M> = Rebaseable(step: S, inverted: S, origin: Transform<D, S, M>)

  // ---------------------------------------------------------------- neutralizeSteps

  /** `new Mapping(steps.map(s => s.getMap())).invert()`. */
  function BackMapping<D, S, M>(e: Engine<D, S, M>, steps: seq<S>): MappingValue<M>
  {
    Inverted(MappingValue(StepMaps(e, steps), []), e.invertMap)
  }

  /** Step `i` mapped through `backMapping.slice(|steps| - i)`. */
  function NeutralAt<D, S, M>(e: Engine<D, S, M>, steps: seq<S>, i: nat): Option<S>
    requires i < |steps|
  {
    e.mapStep(steps[i], SliceOf(BackMapping(e, steps), |steps| - i))
  }

  /** The outcome of `neutralizeSteps` after its first `k` iterations. */
  function NeutralizeUpTo<D, S, M>(e: Engine<D, S, M>, steps: seq<S>, k: nat): Result<seq<S>, Error>
    requires k <= |steps|
  {
    if k == 0 then Success([])
    else
      match NeutralizeUpTo(e, steps, k - 1)
      case Failure(err) => Failure(err)
      case Success(prev) =>
        match NeutralAt(e, steps, k - 1)
        case None => Failure(NeutralizeError)
        case Some(s) => Success(prev + [s])
  }

  /** `neutralizeSteps(steps)`: a thrown error is `Failure(NeutralizeError)`. */
  function Neutralize<D, S, M>(e: Engine<D, S, M>, steps: seq<S>): Result<seq<S>, Error>
  {
    NeutralizeUpTo(e, steps, |steps|)
  }

  /**
   * Neutralising succeeds exactly when every step can be mapped back; it then
   * yields exactly one step per input, in input order, each the input step mapped
   * back; otherwise it throws the neutralisation error.
   */
  lemma {:induction false} NeutralizeExact<D, S, M>(e: Engine<D, S, M>, steps: seq<S>, k: nat)
    requires k <= |steps|
    ensures NeutralizeUpTo(e, steps, k).Success? <==> forall i :: 0 <= i < k ==> NeutralAt(e, steps, i).Some?
    ensures NeutralizeUpTo(e, steps, k).Failure? ==> NeutralizeUpTo(e, steps, k).error == NeutralizeError
    ensures NeutralizeUpTo(e, steps, k).Success? ==>
      var r := NeutralizeUpTo(e, steps, k).value;
      |r| == k && forall i :: 0 <= i < k ==> Some(r[i]) == NeutralAt(e, steps, i)
  {
    if k > 0 {
      NeutralizeExact(e, steps, k - 1);
    }
  }

  /**
   * The mapping step `i` is neutralised through holds exactly the inverted maps of
   * steps `i - 1` down to `0` (index `v.from + j` holds that of step `i - 1 - j`),
   * and no mirror pairs.
   */
  lemma NeutralSliceCoversEarlierSteps<D, S, M>(e: Engine<D, S, M>, steps: seq<S>, i: nat)
    requires i < |steps|
    ensures var v := SliceOf(BackMapping(e, steps), |steps| - i);
      && v.from + i == v.to == |v.maps| == |steps|
      && v.mirror == []
      && forall x :: v.from <= x < v.to ==> v.maps[x] == e.invertMap(e.getMap(steps[|steps| - 1 - x]))
  {
    InvertedMaps(MappingValue(StepMaps(e, steps), []), e.invertMap, |steps|);
  }

  /** `neutralizeSteps(steps)` */
  method NeutralizeSteps<D, S, M>(e: Engine<D, S, M>, steps: seq<S>) returns (r: Result<seq<S>, Error>)
    ensures r == Neutralize(e, steps)
  {
    var forward := new Mapping(StepMaps(e, steps));
    var backMapping := forward.Invert(e.invertMap);
    var neutralSteps := [];
    var i, mapFrom := 0, |steps|;
    while i < |steps|
      invariant 0 <= i <= |steps| && mapFrom == |steps| - i
      invariant backMapping.Value() == BackMapping(e, steps)
      invariant NeutralizeUpTo(e, steps, i) == Success(neutralSteps)
    {
      var backMap := backMapping.Slice(mapFrom);
      mapFrom := mapFrom - 1;
      var mapped := e.mapStep(steps[i], backMap);
      if mapped.None? {
        assert mapped == NeutralAt(e, steps, i);
        NeutralizeExact(e, steps, |steps|);
        return Failure(NeutralizeError);
      }
      neutralSteps := neutralSteps + [mapped.value];
      i := i + 1;
    }
    r := Success(neutralSteps);
  }

  // ---------------------------------------------------------------- rebaseSteps

  /** The inverses of `rs`, last step first: the order the undo loop applies them in. */
  function Inverses<D, S, M>(rs: seq<Rebaseable<D, S, M>>): (r: seq<S>)
    ensures |r| == |rs| && forall j :: 0 <= j < |rs| ==> r[j] == rs[|rs| - 1 - j].inverted
  {
    seq(|rs|, j requires 0 <= j < |rs| => rs[|rs| - 1 - j].inverted)
  }

  /** `rs.map(r => r.step)` */
  function StepsOf<D, S, M>(rs: seq<Rebaseable<D, S, M>>): (r: seq<S>)
    ensures |r| == |rs| && forall i :: 0 <= i < |rs| ==> r[i] == rs[i].step
  {
    seq(|rs|, i requires 0 <= i < |rs| => rs[i].step)
  }

  /**
   * The state of the redo loop: the rebased steps so far, the transform, and
   * (for the proofs) the indices of the steps that survived.
   */
  datatype RedoOut<!D, !S, !M> = RedoOut(result: seq<Rebaseable<D, S, M>>, tr: TrState<D, S, M>, kept: seq<nat>)

  /**
   * Step `i` mapped through `transform.mapping.slice(mapFrom)`, where `mapFrom`
   * is `offset + |rs| - i`.  The source starts `mapFrom` at `|rs|`, i.e. offset 0.
   */
  function MappedAt<D, S, M>(e: Engine<D, S, M>, rs: seq<Rebaseable<D, S, M>>, offset: nat, i: nat,
                             t: TrState<D, S, M>): Option<S>
    requires i < |rs|
  {
    e.mapStep(rs[i].step, SliceOf(t.mapping, offset + |rs| - i))
  }

  /** Whether step `i`, tried at transform state `t`, maps and applies. */
  predicate Survives<D, S, M>(e: Engine<D, S, M>, rs: seq<Rebaseable<D, S, M>>, offset: nat, i: nat,
                              t: TrState<D, S, M>)
    requires i < |rs|
  {
    MappedAt(e, rs, offset, i, t).Some? && e.apply(t.doc, MappedAt(e, rs, offset, i, t).value).Some?
  }

  /** One iteration of the redo loop, for step `i`. */
  function RedoStep<D, S, M>(e: Engine<D, S, M>, rs: seq<Rebaseable<D, S, M>>, offset: nat, i: nat,
                             prev: RedoOut<D, S, M>): RedoOut<D, S, M>
    requires i < |rs|
  {
    match MappedAt(e, rs, offset, i, prev.tr)
    case None => prev
    case Some(mapped) =>
      match e.apply(prev.tr.doc, mapped)
      case None => prev
      case Some(d) =>
        var t := AddStep(e, prev.tr, mapped, d);
        RedoOut(prev.result + [Rebaseable(mapped, e.invert(mapped, prev.tr.doc), rs[i].origin)],
                t.(mapping := WithMirror(t.mapping, offset + |rs| - i - 1, |t.steps| - 1)),
                prev.kept + [i])
  }

  /** The redo loop after its first `k` iterations, started at transform state `t0`. */
  function Redo<D, S, M>(e: Engine<D, S, M>, rs: seq<Rebaseable<D, S, M>>, offset: nat, k: nat,
                         t0: TrState<D, S, M>): RedoOut<D, S, M>
    requires k <= |rs|
  {
    if k == 0 then RedoOut([], t0, [])
    else RedoStep(e, rs, offset, k - 1, Redo(e, rs, offset, k - 1, t0))
  }

  /**
   * `rebaseSteps(rs, over, transform)` from transform state `t0`, with the redo
   * loop's `mapFrom` starting at `offset + |rs|`: the result (a throw of
   * `transform.step` is `Failure(TransformError)`) and the final transform state.
   */
  function Rebase<D, S, M>(e: Engine<D, S, M>, rs: seq<Rebaseable<D, S, M>>, over: seq<S>,
                           t0: TrState<D, S, M>, offset: nat): (Result<seq<Rebaseable<D, S, M>>, Error>, TrState<D, S, M>)
  {
    var (t2, replayed) := UndoReplay(e, rs, over, t0);
    if !replayed then (Failure(TransformError), t2)
    else
      var out := Redo(e, rs, offset, |rs|, t2);
      (Success(out.result), out.tr)
  }

  /**
   * The first two loops of `rebaseSteps`: the inverses of `rs`, last first, then
   * `over`, each with `step`; the transform state reached and whether no `step`
   * threw.
   */
  function UndoReplay<D, S, M>(e: Engine<D, S, M>, rs: seq<Rebaseable<D, S, M>>, over: seq<S>,
                               t0: TrState<D, S, M>): (TrState<D, S, M>, bool)
  {
    var (t1, undone) := StepAll(e, t0, Inverses(rs));
    if !undone then (t1, false) else StepAll(e, t1, over)
  }

  /**
   * Undoing and replaying succeeds exactly when the inverses and `over` apply in
   * order; the transform then holds its old steps, the inverses and `over`, and
   * no new mirror pair.
   */
  lemma UndoReplayLayout<D, S, M>(e: Engine<D, S, M>, rs: seq<Rebaseable<D, S, M>>, over: seq<S>,
                                  t0: TrState<D, S, M>)
    ensures UndoReplay(e, rs, over, t0).1 <==> ApplyAll(e, t0.doc, Inverses(rs) + over).Some?
    ensures UndoReplay(e, rs, over, t0).1 ==>
      var t2 := UndoReplay(e, rs, over, t0).0;
      && t2.steps == t0.steps + Inverses(rs) + over
      && t2.mapping.mirror == t0.mapping.mirror
  {
    var (t1, undone) := StepAll(e, t0, Inverses(rs));
    StepAllAppends(e, t0, Inverses(rs));
    ApplyAllConcat(e, t0.doc, Inverses(rs), over);
    if undone {
      StepAllAppends(e, t1, over);
    }
  }

  /** After undoing and replaying, the inverse of step `i` sits at `|t0.steps| + |rs| - 1 - i`. */
  lemma UndoReplayInverses<D, S, M>(e: Engine<D, S, M>, rs: seq<Rebaseable<D, S, M>>, over: seq<S>,
                                    t0: TrState<D, S, M>)
    requires UndoReplay(e, rs, over, t0).1
    ensures var t2 := UndoReplay(e, rs, over, t0).0;
      && |t0.steps| + |rs| <= |t2.steps|
      && forall i :: 0 <= i < |rs| ==> t2.steps[|t0.steps| + |rs| - 1 - i] == rs[i].inverted
  {
    UndoReplayLayout(e, rs, over, t0);
    var t2 := UndoReplay(e, rs, over, t0).0;
    var base := t0.steps + Inverses(rs) + over;
    forall i | 0 <= i < |rs| ensures t2.steps[|t0.steps| + |rs| - 1 - i] == rs[i].inverted {
      assert base[|t0.steps| + |rs| - 1 - i] == Inverses(rs)[|rs| - 1 - i];
    }
  }

  /**
   * The redo loop never grows the result by more than one per step and keeps
   * survivors in their original order with their `origin`.
   */
  lemma {:induction false} RedoKept<D, S, M>(e: Engine<D, S, M>, rs: seq<Rebaseable<D, S, M>>, offset: nat,
                                             k: nat, t0: TrState<D, S, M>)
    requires k <= |rs|
    ensures var out := Redo(e, rs, offset, k, t0);
      && |out.result| == |out.kept| <= k
      && (forall j :: 0 <= j < |out.kept| ==> out.kept[j] < k)
      && (forall j1, j2 :: 0 <= j1 < j2 < |out.kept| ==> out.kept[j1] < out.kept[j2])
      && (forall j :: 0 <= j < |out.kept| ==> out.result[j].origin == rs[out.kept[j]].origin)
  {
    if k > 0 {
      RedoKept(e, rs, offset, k - 1, t0);
      var prev := Redo(e, rs, offset, k - 1, t0);
      if Survives(e, rs, offset, k - 1, prev.tr) {
        var out := Redo(e, rs, offset, k, t0);
        assert out.kept == prev.kept + [k - 1];
        assert out.result[..|prev.result|] == prev.result;
      }
    }
  }

  /**
   * The redo loop appends exactly one step, document and map per survivor to
   * the transform, the step being the survivor's rebased step.
   */
  lemma {:induction false} RedoAppends<D, S, M>(e: Engine<D, S, M>, rs: seq<Rebaseable<D, S, M>>, offset: nat,
                                                k: nat, t0: TrState<D, S, M>)
    requires k <= |rs|
    ensures var out := Redo(e, rs, offset, k, t0);
      && |out.result| == |out.kept|
      && |out.tr.steps| == |t0.steps| + |out.kept|
      && out.tr.steps[..|t0.steps|] == t0.steps
      && (forall j :: 0 <= j < |out.kept| ==> out.tr.steps[|t0.steps| + j] == out.result[j].step)
      && |out.tr.docs| == |t0.docs| + |out.kept|
      && out.tr.docs[..|t0.docs|] == t0.docs
      && |out.tr.mapping.maps| == |t0.mapping.maps| + |out.kept|
      && out.tr.mapping.maps[..|t0.mapping.maps|] == t0.mapping.maps
  {
    if k > 0 {
      RedoAppends(e, rs, offset, k - 1, t0);
      var prev := Redo(e, rs, offset, k - 1, t0);
      var out := Redo(e, rs, offset, k, t0);
      if Survives(e, rs, offset, k - 1, prev.tr) {
        assert out.kept == prev.kept + [k - 1];
        assert out.result == prev.result + [out.result[|prev.result|]];
        assert out.tr.steps == prev.tr.steps + [out.result[|prev.kept|].step];
        assert out.tr.docs == prev.tr.docs + [prev.tr.doc];
        assert out.tr.mapping.maps == prev.tr.mapping.maps + [e.getMap(out.result[|prev.kept|].step)];
        assert out.tr.steps[..|t0.steps|] == prev.tr.steps[..|t0.steps|];
        assert out.tr.docs[..|t0.docs|] == prev.tr.docs[..|t0.docs|];
        assert out.tr.mapping.maps[..|t0.mapping.maps|] == prev.tr.mapping.maps[..|t0.mapping.maps|];
      } else {
        assert out == prev;
      }
    }
  }

  /**
   * The redo loop records one mirror pair per survivor: `(offset + |rs| - 1 - i,
   * index of the new step)` for survivor `i`, the `mapFrom` of its iteration
   * after the decrement.
   */
  lemma {:induction false} RedoMirrors<D, S, M>(e: Engine<D, S, M>, rs: seq<Rebaseable<D, S, M>>, offset: nat,
                                                k: nat, t0: TrState<D, S, M>)
    requires k <= |rs|
    ensures var out := Redo(e, rs, offset, k, t0);
      && |out.tr.steps| == |t0.steps| + |out.kept|
      && |out.tr.mapping.mirror| == |t0.mapping.mirror| + |out.kept|
      && out.tr.mapping.mirror[..|t0.mapping.mirror|] == t0.mapping.mirror
      && (forall j :: 0 <= j < |out.kept| ==>
            out.tr.mapping.mirror[|t0.mapping.mirror| + j] == (offset + |rs| - 1 - out.kept[j], |t0.steps| + j))
  {
    if k > 0 {
      RedoMirrors(e, rs, offset, k - 1, t0);
      var prev := Redo(e, rs, offset, k - 1, t0);
      var out := Redo(e, rs, offset, k, t0);
      if Survives(e, rs, offset, k - 1, prev.tr) {
        assert out.kept == prev.kept + [k - 1];
        assert |out.tr.steps| == |prev.tr.steps| + 1;
        assert out.tr.mapping.mirror ==
          prev.tr.mapping.mirror + [(offset + |rs| - 1 - (k - 1), |t0.steps| + |prev.kept|)];
        assert out.tr.mapping.mirror[..|t0.mapping.mirror|] == prev.tr.mapping.mirror[..|t0.mapping.mirror|];
      } else {
        assert out == prev;
      }
    }
  }

  /**
   * Exactly the steps that map and apply survive: step `i` is kept if and only
   * if it survives at the transform state the loop had reached.
   */
  lemma {:induction false} RedoKeepsSurvivors<D, S, M>(e: Engine<D, S, M>, rs: seq<Rebaseable<D, S, M>>,
                                                      offset: nat, k: nat, t0: TrState<D, S, M>)
    requires k <= |rs|
    ensures var out := Redo(e, rs, offset, k, t0);
      forall i :: 0 <= i < k ==>
        (i in out.kept <==> Survives(e, rs, offset, i, Redo(e, rs, offset, i, t0).tr))
  {
    if k > 0 {
      RedoKeepsSurvivors(e, rs, offset, k - 1, t0);
      RedoKept(e, rs, offset, k - 1, t0);
      var prev := Redo(e, rs, offset, k - 1, t0);
      var out := Redo(e, rs, offset, k, t0);
      if Survives(e, rs, offset, k - 1, prev.tr) {
        assert out.kept == prev.kept + [k - 1];
      } else {
        assert out == prev;
        assert k - 1 !in prev.kept;
      }
    }
  }

  /**
   * A kept step is replaced by its mapped image, with the inverse taken against
   * the document the image was applied to.
   */
  lemma {:induction false} RedoResultIsMapped<D, S, M>(e: Engine<D, S, M>, rs: seq<Rebaseable<D, S, M>>,
                                                      offset: nat, k: nat, t0: TrState<D, S, M>)
    requires k <= |rs|
    ensures var out := Redo(e, rs, offset, k, t0);
      |out.result| == |out.kept| &&
      forall j :: 0 <= j < |out.kept| && out.kept[j] < |rs| ==>
        var t := Redo(e, rs, offset, out.kept[j], t0).tr;
        var mapped := MappedAt(e, rs, offset, out.kept[j], t);
        mapped.Some? && out.result[j] == Rebaseable(mapped.value, e.invert(mapped.value, t.doc), rs[out.kept[j]].origin)
  {
    if k > 0 {
      RedoResultIsMapped(e, rs, offset, k - 1, t0);
      RedoKept(e, rs, offset, k - 1, t0);
      var prev := Redo(e, rs, offset, k - 1, t0);
      var out := Redo(e, rs, offset, k, t0);
      if Survives(e, rs, offset, k - 1, prev.tr) {
        assert out.kept == prev.kept + [k - 1];
        assert out.result[..|prev.result|] == prev.result;
      } else {
        assert out == prev;
      }
    }
  }

  /**
   * The rebased steps, in order, apply to the document the redo loop started
   * from and reach the document it ends with: the output is ready to resend.
   */
  lemma {:induction false} RedoReplays<D, S, M>(e: Engine<D, S, M>, rs: seq<Rebaseable<D, S, M>>, offset: nat,
                                                k: nat, t0: TrState<D, S, M>)
    requires k <= |rs|
    ensures var out := Redo(e, rs, offset, k, t0);
      ApplyAll(e, t0.doc, StepsOf(out.result)) == Some(out.tr.doc)
  {
    if k > 0 {
      RedoReplays(e, rs, offset, k - 1, t0);
      var prev := Redo(e, rs, offset, k - 1, t0);
      var out := Redo(e, rs, offset, k, t0);
      if Survives(e, rs, offset, k - 1, prev.tr) {
        var steps := StepsOf(out.result);
        assert steps[..|steps| - 1] == StepsOf(prev.result);
      } else {
        assert out == prev;
      }
    }
  }

  /**
   * After a successful rebase the rebased steps replay, in order, on the
   * document reached by the inverses and `over`, and give the final document.
   */
  lemma RebaseReplays<D, S, M>(e: Engine<D, S, M>, rs: seq<Rebaseable<D, S, M>>, over: seq<S>,
                               t0: TrState<D, S, M>, offset: nat)
    requires Rebase(e, rs, over, t0, offset).0.Success?
    ensures ApplyAll(e, UndoReplay(e, rs, over, t0).0.doc, StepsOf(Rebase(e, rs, over, t0, offset).0.value))
            == Some(Rebase(e, rs, over, t0, offset).1.doc)
  {
    RedoReplays(e, rs, offset, |rs|, UndoReplay(e, rs, over, t0).0);
  }

  /**
   * Rebasing fails only when the inverses and `over` cannot be replayed, never
   * because of a conflict.
   */
  lemma RebaseSucceeds<D, S, M>(e: Engine<D, S, M>, rs: seq<Rebaseable<D, S, M>>, over: seq<S>,
                                t0: TrState<D, S, M>, offset: nat)
    ensures Rebase(e, rs, over, t0, offset).0.Success? <==> ApplyAll(e, t0.doc, Inverses(rs) + over).Some?
  {
    UndoReplayLayout(e, rs, over, t0);
  }

  /**
   * The transform's layout after a successful rebase: the inverses of `rs`, last
   * step first, then `over`, then the rebased steps, at most one per step of `rs`.
   */
  lemma RebaseLayout<D, S, M>(e: Engine<D, S, M>, rs: seq<Rebaseable<D, S, M>>, over: seq<S>,
                              t0: TrState<D, S, M>, offset: nat)
    requires Rebase(e, rs, over, t0, offset).0.Success?
    ensures var r := Rebase(e, rs, over, t0, offset).0.value;
      var t := Rebase(e, rs, over, t0, offset).1;
      var base := t0.steps + Inverses(rs) + over;
      && |r| <= |rs|
      && |t.steps| == |base| + |r|
      && t.steps[..|base|] == base
      && (forall j :: 0 <= j < |r| ==> t.steps[|base| + j] == r[j].step)
  {
    UndoReplayLayout(e, rs, over, t0);
    var t2 := UndoReplay(e, rs, over, t0).0;
    var out := Redo(e, rs, offset, |rs|, t2);
    assert Rebase(e, rs, over, t0, offset).0.value == out.result;
    assert Rebase(e, rs, over, t0, offset).1 == out.tr;
    RedoKept(e, rs, offset, |rs|, t2);
    RedoAppends(e, rs, offset, |rs|, t2);
  }

  /** After a successful rebase the inverse of step `i` of `rs` sits at index `|t0.steps| + |rs| - 1 - i`. */
  lemma RebaseKeepsInverses<D, S, M>(e: Engine<D, S, M>, rs: seq<Rebaseable<D, S, M>>, over: seq<S>,
                                     t0: TrState<D, S, M>, offset: nat)
    requires Rebase(e, rs, over, t0, offset).0.Success?
    ensures var t := Rebase(e, rs, over, t0, offset).1;
      && |t0.steps| + |rs| <= |t.steps|
      && forall i :: 0 <= i < |rs| ==> t.steps[|t0.steps| + |rs| - 1 - i] == rs[i].inverted
  {
    UndoReplayInverses(e, rs, over, t0);
    var t2 := UndoReplay(e, rs, over, t0).0;
    var out := Redo(e, rs, offset, |rs|, t2);
    assert Rebase(e, rs, over, t0, offset).0.value == out.result;
    assert Rebase(e, rs, over, t0, offset).1 == out.tr;
    RedoAppends(e, rs, offset, |rs|, t2);
    PrefixKeepsInverses(rs, |t0.steps|, t2.steps, out.tr.steps);
  }

  /** A sequence that extends `base` keeps the inverses `base` holds at their indices. */
  lemma PrefixKeepsInverses<D, S, M>(rs: seq<Rebaseable<D, S, M>>, first: nat, base: seq<S>, t: seq<S>)
    requires first + |rs| <= |base| <= |t| && t[..|base|] == base
    requires forall i :: 0 <= i < |rs| ==> base[first + |rs| - 1 - i] == rs[i].inverted
    ensures forall i :: 0 <= i < |rs| ==> t[first + |rs| - 1 - i] == rs[i].inverted
  {
    forall i | 0 <= i < |rs| ensures t[first + |rs| - 1 - i] == rs[i].inverted {
      assert t[first + |rs| - 1 - i] == t[..|base|][first + |rs| - 1 - i];
    }
  }

  /**
   * Every mirror pair recorded after the first `mirrors0` joins the index where
   * step `kept[j]` of `rs` had its inverse applied (step `i`'s inverse sits at
   * `first + |rs| - 1 - i`) to the index of `r[j]`, the rebased step that came from it.
   */
  ghost predicate MirrorsOwnInverse<D, S, M>(rs: seq<Rebaseable<D, S, M>>, first: nat, mirrors0: nat,
                                             kept: seq<nat>, r: seq<Rebaseable<D, S, M>>, t: TrState<D, S, M>)
  {
    && |kept| == |r|
    && |t.mapping.mirror| == mirrors0 + |r|
    && forall j :: 0 <= j < |r| ==> PairsOwnInverse(rs, first, kept[j], r[j], t, t.mapping.mirror[mirrors0 + j])
  }

  /** The mirror pair `p` joins the inverse of step `i` of `rs` to the step `s` that came from it. */
  ghost predicate PairsOwnInverse<D, S, M>(rs: seq<Rebaseable<D, S, M>>, first: nat, i: nat, s: Rebaseable<D, S, M>,
                                           t: TrState<D, S, M>, p: (int, int))
  {
    && i < |rs|
    && 0 <= p.0 < p.1 < |t.steps|
    && p.0 == first + |rs| - 1 - i
    && t.steps[p.0] == rs[i].inverted
    && t.steps[p.1] == s.step
    && s.origin == rs[i].origin
  }

  /** The redo loop pairs each survivor with its own inverse when `offset` is where the inverses start. */
  lemma RedoMirrorsOwnInverse<D, S, M>(e: Engine<D, S, M>, rs: seq<Rebaseable<D, S, M>>, offset: nat,
                                      t2: TrState<D, S, M>)
    requires offset + |rs| <= |t2.steps|
    requires forall i :: 0 <= i < |rs| ==> t2.steps[offset + |rs| - 1 - i] == rs[i].inverted
    ensures var out := Redo(e, rs, offset, |rs|, t2);
      MirrorsOwnInverse(rs, offset, |t2.mapping.mirror|, out.kept, out.result, out.tr)
  {
    var out := Redo(e, rs, offset, |rs|, t2);
    RedoKept(e, rs, offset, |rs|, t2);
    RedoAppends(e, rs, offset, |rs|, t2);
    RedoMirrors(e, rs, offset, |rs|, t2);
    MirrorsFromLayout(rs, offset, t2.steps, |t2.mapping.mirror|, out.kept, out.result, out.tr);
  }

  /** The layout facts about a redo pass, stated without `Redo`, give `MirrorsOwnInverse`. */
  lemma MirrorsFromLayout<D, S, M>(rs: seq<Rebaseable<D, S, M>>, offset: nat, base: seq<S>, m0: nat,
                                   kept: seq<nat>, r: seq<Rebaseable<D, S, M>>, t: TrState<D, S, M>)
    requires offset + |rs| <= |base|
    requires forall i :: 0 <= i < |rs| ==> base[offset + |rs| - 1 - i] == rs[i].inverted
    requires |r| == |kept| && forall j :: 0 <= j < |kept| ==> kept[j] < |rs|
    requires forall j :: 0 <= j < |kept| ==> r[j].origin == rs[kept[j]].origin
    requires |t.steps| == |base| + |kept| && t.steps[..|base|] == base
    requires forall j :: 0 <= j < |kept| ==> t.steps[|base| + j] == r[j].step
    requires |t.mapping.mirror| == m0 + |kept|
    requires forall j :: 0 <= j < |kept| ==> t.mapping.mirror[m0 + j] == (offset + |rs| - 1 - kept[j], |base| + j)
    ensures MirrorsOwnInverse(rs, offset, m0, kept, r, t)
  {
    forall j | 0 <= j < |r| ensures PairsOwnInverse(rs, offset, kept[j], r[j], t, t.mapping.mirror[m0 + j]) {
      var i := kept[j];
      var p := t.mapping.mirror[m0 + j];
      assert 0 <= i < |rs| && p == (offset + |rs| - 1 - i, |base| + j);
      assert t.steps[p.0] == t.steps[..|base|][p.0];
    }
  }

  /**
   * With `mapFrom` starting past the steps the transform already held
   * (`offset == |t0.steps|`), mirror pair `j` of the rebase joins the index where
   * the inverse of the `j`-th survivor's own step was applied to the index where
   * its rebased version was applied.
   */
  lemma RebaseMirrorsOwnInverse<D, S, M>(e: Engine<D, S, M>, rs: seq<Rebaseable<D, S, M>>, over: seq<S>,
                                        t0: TrState<D, S, M>)
    requires Rebase(e, rs, over, t0, |t0.steps|).0.Success?
    ensures MirrorsOwnInverse(rs, |t0.steps|, |t0.mapping.mirror|,
                              Redo(e, rs, |t0.steps|, |rs|, UndoReplay(e, rs, over, t0).0).kept,
                              Rebase(e, rs, over, t0, |t0.steps|).0.value, Rebase(e, rs, over, t0, |t0.steps|).1)
  {
    UndoReplayLayout(e, rs, over, t0);
    UndoReplayInverses(e, rs, over, t0);
    RedoMirrorsOwnInverse(e, rs, |t0.steps|, UndoReplay(e, rs, over, t0).0);
  }

  /** Rebasing no steps yields no steps, and throws only when `over` itself does not apply. */
  lemma RebaseEmpty<D, S, M>(e: Engine<D, S, M>, over: seq<S>, t0: TrState<D, S, M>, offset: nat)
    ensures Rebase(e, [], over, t0, offset).0 ==
      if ApplyAll(e, t0.doc, over).Some? then Success([]) else Failure(TransformError)
  {
    StepAllAppends(e, t0, over);
    assert Inverses<D, S, M>([]) == [];
  }

  /** The undo loop of `rebaseSteps`: `transform.step(steps[i].inverted)` for `i` from last to first. */
  method UndoSteps<D, S, M>(e: Engine<D, S, M>, steps: seq<Rebaseable<D, S, M>>, transform: Transform<D, S, M>)
    returns (ok: bool)
    modifies transform, transform.mapping
    ensures (transform.Value(), ok) == StepAll(e, old(transform.Value()), Inverses(steps))
  {
    ghost var t0 := transform.Value();
    ghost var inv := Inverses(steps);
    var i := |steps|;
    while i > 0
      invariant 0 <= i <= |steps|
      invariant StepAll(e, t0, inv[..|steps| - i]) == (transform.Value(), true)
    {
      i := i - 1;
      assert inv[..|steps| - i][..|steps| - i - 1] == inv[..|steps| - i - 1];
      ok := transform.MaybeStep(e, steps[i].inverted);
      if !ok {
        StepAllStops(e, t0, inv, |steps| - i);
        return;
      }
    }
    assert inv[..|steps|] == inv;
    ok := true;
  }

  /** The replay loop of `rebaseSteps`: `transform.step(over[i])` for each step in order. */
  method ReplaySteps<D, S, M>(e: Engine<D, S, M>, over: seq<S>, transform: Transform<D, S, M>)
    returns (ok: bool)
    modifies transform, transform.mapping
    ensures (transform.Value(), ok) == StepAll(e, old(transform.Value()), over)
  {
    ghost var t1 := transform.Value();
    var j := 0;
    while j < |over|
      invariant 0 <= j <= |over|
      invariant StepAll(e, t1, over[..j]) == (transform.Value(), true)
    {
      assert over[..j + 1][..j] == over[..j];
      ok := transform.MaybeStep(e, over[j]);
      if !ok {
        StepAllStops(e, t1, over, j + 1);
        return;
      }
      j := j + 1;
    }
    assert over[..|over|] == over;
    ok := true;
  }

  /** `rebaseSteps(steps, over, transform)` with the redo loop's `mapFrom` starting at `offset + |steps|`. */
  method RebaseStepsAt<D, S, M>(e: Engine<D, S, M>, steps: seq<Rebaseable<D, S, M>>, over: seq<S>,
                                transform: Transform<D, S, M>, offset: nat)
    returns (r: Result<seq<Rebaseable<D, S, M>>, Error>)
    modifies transform, transform.mapping
    ensures (r, transform.Value()) == Rebase(e, steps, over, old(transform.Value()), offset)
  {
    var ok := UndoSteps(e, steps, transform);
    if !ok {
      return Failure(TransformError);
    }
    ok := ReplaySteps(e, over, transform);
    if !ok {
      return Failure(TransformError);
    }
    var result := RedoSteps(e, steps, offset, transform);
    r := Success(result);
  }

  /** The redo loop of `rebaseSteps`: map each step past its own inverse, keep it if it applies. */
  method RedoSteps<D, S, M>(e: Engine<D, S, M>, steps: seq<Rebaseable<D, S, M>>, offset: nat,
                            transform: Transform<D, S, M>)
    returns (result: seq<Rebaseable<D, S, M>>)
    modifies transform, transform.mapping
    ensures var out := Redo(e, steps, offset, |steps|, old(transform.Value()));
      result == out.result && transform.Value() == out.tr
  {
    ghost var t2 := transform.Value();
    ghost var kept: seq<nat> := [];
    result := [];
    var k, mapFrom := 0, offset + |steps|;
    while k < |steps|
      invariant 0 <= k <= |steps| && mapFrom == offset + |steps| - k
      invariant Redo(e, steps, offset, k, t2) == RedoOut(result, transform.Value(), kept)
    {
      ghost var prev := RedoOut(result, transform.Value(), kept);
      var mapped := e.mapStep(steps[k].step, transform.mapping.Slice(mapFrom));
      assert mapped == MappedAt(e, steps, offset, k, prev.tr);
      mapFrom := mapFrom - 1;
      if mapped.Some? {
        var ok := transform.MaybeStep(e, mapped.value);
        if ok {
          ghost var d := e.apply(prev.tr.doc, mapped.value).value;
          assert transform.Value() == AddStep(e, prev.tr, mapped.value, d);
          transform.mapping.SetMirror(mapFrom, |transform.steps| - 1);
          result := result + [Rebaseable(mapped.value, e.invert(mapped.value, transform.docs[|transform.docs| - 1]),
                                         steps[k].origin)];
          kept := kept + [k];
          assert RedoStep(e, steps, offset, k, prev) == RedoOut(result, transform.Value(), kept);
        } else {
          assert RedoStep(e, steps, offset, k, prev) == prev;
        }
      } else {
        assert RedoStep(e, steps, offset, k, prev) == prev;
      }
      k := k + 1;
    }
  }

  /** `rebaseSteps(steps, over, transform)` as written: `mapFrom` starts at `|steps|`. */
  method RebaseSteps<D, S, M>(e: Engine<D, S, M>, steps: seq<Rebaseable<D, S, M>>, over: seq<S>,
                              transform: Transform<D, S, M>)
    returns (r: Result<seq<Rebaseable<D, S, M>>, Error>)
    modifies transform, transform.mapping
    ensures (r, transform.Value()) == Rebase(e, steps, over, old(transform.Value()), 0)
  {
    r := RebaseStepsAt(e, steps, over, transform, 0);
  }
}
