/**
 * The authority's merge, `applyCommitJSON`: a commit made against an older
 * version is mapped forward through the commits accepted since, step by step,
 * and applied to the authority's current document; steps that no longer map or
 * apply are dropped.  JSON conversion is left out: documents, steps and commits
 * are passed as values.
 */
module ApplyCommit {
  import opened Wrappers
  import opened Mappings
  import opened Transforms
  import opened Steps

  /** All steps of `commits`, in order: the `reduce` over `concat`. */
  function Flatten<S>(commits: seq<Commit<S>>): seq<S>
  {
    if commits == [] then []
    else Flatten(commits[..|commits| - 1]) + commits[|commits| - 1].steps
  }

  /**
   * The mapping the merge starts from: the maps of the commit's steps, inverted
   * (last step first), followed by the maps of the newer steps.
   */
  function MergeStart<D, S, M>(e: Engine<D, S, M>, steps: seq<S>, newSteps: seq<S>): MappingValue<M>
  {
    Appended(Inverted(MappingValue(StepMaps(e, steps), []), e.invertMap), MappingValue(StepMaps(e, newSteps), []))
  }

  /** The state of the merge loop: the transform, the mapping, and (for the proofs) the kept step indices. */
  datatype MergeOut<!D, !S, !M> = MergeOut(tr: TrState<D, S, M>, mapping: MappingValue<M>, kept: seq<nat>)

  /** Step `i` mapped through `mapping.slice(mapFrom)`, where `mapFrom` is `|steps| - i`. */
  function MergeMappedAt<D, S, M>(e: Engine<D, S, M>, steps: seq<S>, i: nat, m: MappingValue<M>): Option<S>
    requires i < |steps|
  {
    e.mapStep(steps[i], SliceOf(m, |steps| - i))
  }

  /**
   * One iteration of the merge loop: a step that maps and applies is added to
   * the transform, the transform's newest map (the one sliced off from index
   * `tr.steps.length - 1`, which is the map of the step just added) is appended
   * to the mapping as a mapping of its own, and that map is mirrored with the
   * inverse of the original step.
   */
  function MergeStep<D, S, M>(e: Engine<D, S, M>, steps: seq<S>, i: nat, prev: MergeOut<D, S, M>): MergeOut<D, S, M>
    requires i < |steps|
  {
    match MergeMappedAt(e, steps, i, prev.mapping)
    case None => prev
    case Some(mapped) =>
      match e.apply(prev.tr.doc, mapped)
      case None => prev
      case Some(d) =>
        var t := AddStep(e, prev.tr, mapped, d);
        var m := Appended(prev.mapping, MappingValue([e.getMap(mapped)], []));
        MergeOut(t, WithMirror(m, |steps| - i - 1, |m.maps| - 1), prev.kept + [i])
  }

  /** The merge loop after its first `k` iterations, from a new transform at `doc` and mapping `m0`. */
  function Merge<D, S, M>(e: Engine<D, S, M>, steps: seq<S>, k: nat, doc: D, m0: MappingValue<M>): MergeOut<D, S, M>
    requires k <= |steps|
  {
    if k == 0 then MergeOut(Start(doc), m0, [])
    else MergeStep(e, steps, k - 1, Merge(e, steps, k - 1, doc, m0))
  }

  /** Whether step `i` of the commit maps and applies at the merge state `prev`. */
  predicate MergeSurvives<D, S, M>(e: Engine<D, S, M>, steps: seq<S>, i: nat, prev: MergeOut<D, S, M>)
    requires i < |steps|
  {
    MergeMappedAt(e, steps, i, prev.mapping).Some? &&
    e.apply(prev.tr.doc, MergeMappedAt(e, steps, i, prev.mapping).value).Some?
  }

  /** Appending a one-map mapping without mirrors appends that map and nothing else. */
  lemma AppendedSingle<M>(v: MappingValue<M>, x: M)
    ensures Appended(v, MappingValue([x], [])) == v.(maps := v.maps + [x])
  {
    calc {
      Appended(v, MappingValue([x], []));
      WithMap(AppendedUpTo(v, MappingValue([x], []), 0), x, None);
    }
  }

  /**
   * The mapping the merge starts from: the inverted maps of the commit's steps,
   * last step first, then the maps of the newer steps, and no mirror pairs.
   */
  lemma MergeStartLayout<D, S, M>(e: Engine<D, S, M>, steps: seq<S>, newSteps: seq<S>)
    ensures var m0 := MergeStart(e, steps, newSteps);
      && |m0.maps| == |steps| + |newSteps|
      && (forall j :: 0 <= j < |steps| ==> m0.maps[j] == e.invertMap(e.getMap(steps[|steps| - 1 - j])))
      && (forall j :: 0 <= j < |newSteps| ==> m0.maps[|steps| + j] == e.getMap(newSteps[j]))
      && m0.mirror == []
  {
    var forward := MappingValue(StepMaps(e, steps), []);
    var back := Inverted(forward, e.invertMap);
    InvertedMaps(forward, e.invertMap, |steps|);
    AppendedShape(back, MappingValue(StepMaps(e, newSteps), []), |newSteps|);
    assert StepMaps(e, newSteps)[..|newSteps|] == StepMaps(e, newSteps);
  }

  /**
   * The merge keeps at most one transform step per commit step: the kept
   * indices are below `k` and strictly increasing, one per transform step.
   */
  lemma {:induction false} MergeKept<D, S, M>(e: Engine<D, S, M>, steps: seq<S>, k: nat, doc: D, m0: MappingValue<M>)
    requires k <= |steps|
    ensures var out := Merge(e, steps, k, doc, m0);
      && |out.tr.steps| == |out.kept| <= k
      && (forall j :: 0 <= j < |out.kept| ==> out.kept[j] < k)
      && (forall j1, j2 :: 0 <= j1 < j2 < |out.kept| ==> out.kept[j1] < out.kept[j2])
  {
    if k > 0 {
      MergeKept(e, steps, k - 1, doc, m0);
      var prev := Merge(e, steps, k - 1, doc, m0);
      if MergeSurvives(e, steps, k - 1, prev) {
        assert Merge(e, steps, k, doc, m0).kept == prev.kept + [k - 1];
      }
    }
  }

  /** The steps the merge kept replay on `doc` to give the merged document. */
  lemma {:induction false} MergeReplays<D, S, M>(e: Engine<D, S, M>, steps: seq<S>, k: nat, doc: D, m0: MappingValue<M>)
    requires k <= |steps|
    ensures var out := Merge(e, steps, k, doc, m0);
      ApplyAll(e, doc, out.tr.steps) == Some(out.tr.doc)
  {
    if k > 0 {
      MergeReplays(e, steps, k - 1, doc, m0);
      var prev := Merge(e, steps, k - 1, doc, m0);
      var out := Merge(e, steps, k, doc, m0);
      if MergeSurvives(e, steps, k - 1, prev) {
        var mapped := MergeMappedAt(e, steps, k - 1, prev.mapping).value;
        assert out.tr.steps == prev.tr.steps + [mapped];
        assert out.tr.steps[..|out.tr.steps| - 1] == prev.tr.steps;
      } else {
        assert out == prev;
      }
    }
  }

  /**
   * The mapping grows by exactly the maps of the kept steps, each mirrored with
   * the inverse of the commit step it came from, which sits at index
   * `|steps| - 1 - i` of the starting mapping.
   */
  lemma {:induction false} MergeMaps<D, S, M>(e: Engine<D, S, M>, steps: seq<S>, k: nat, doc: D, m0: MappingValue<M>)
    requires k <= |steps|
    ensures var out := Merge(e, steps, k, doc, m0);
      && |out.tr.steps| == |out.kept|
      && out.mapping.maps == m0.maps + StepMaps(e, out.tr.steps)
      && |out.mapping.mirror| == |m0.mirror| + |out.kept|
      && out.mapping.mirror[..|m0.mirror|] == m0.mirror
      && (forall j :: 0 <= j < |out.kept| ==>
            out.mapping.mirror[|m0.mirror| + j] == (|steps| - 1 - out.kept[j], |m0.maps| + j))
  {
    if k > 0 {
      MergeMaps(e, steps, k - 1, doc, m0);
      var prev := Merge(e, steps, k - 1, doc, m0);
      var out := Merge(e, steps, k, doc, m0);
      if MergeSurvives(e, steps, k - 1, prev) {
        var mapped := MergeMappedAt(e, steps, k - 1, prev.mapping).value;
        AppendedSingle(prev.mapping, e.getMap(mapped));
        assert out.kept == prev.kept + [k - 1];
        assert out.tr.steps == prev.tr.steps + [mapped];
        assert StepMaps(e, out.tr.steps) == StepMaps(e, prev.tr.steps) + [e.getMap(mapped)];
        assert out.mapping.mirror == prev.mapping.mirror + [(|steps| - 1 - (k - 1), |m0.maps| + |prev.kept|)];
        assert out.mapping.mirror[..|m0.mirror|] == prev.mapping.mirror[..|m0.mirror|];
      } else {
        assert out == prev;
      }
    }
  }

  /**
   * Exactly the commit steps that map and apply are kept: step `i` is kept if and
   * only if it survives at the state the loop had reached.
   */
  lemma {:induction false} MergeKeepsSurvivors<D, S, M>(e: Engine<D, S, M>, steps: seq<S>, k: nat, doc: D,
                                                       m0: MappingValue<M>)
    requires k <= |steps|
    ensures var out := Merge(e, steps, k, doc, m0);
      forall i :: 0 <= i < k ==> (i in out.kept <==> MergeSurvives(e, steps, i, Merge(e, steps, i, doc, m0)))
  {
    if k > 0 {
      MergeKeepsSurvivors(e, steps, k - 1, doc, m0);
      MergeKept(e, steps, k - 1, doc, m0);
      var prev := Merge(e, steps, k - 1, doc, m0);
      var out := Merge(e, steps, k, doc, m0);
      if MergeSurvives(e, steps, k - 1, prev) {
        assert out.kept == prev.kept + [k - 1];
      } else {
        assert out == prev;
        assert k - 1 !in prev.kept;
      }
    }
  }

  /** The `j`-th transform step is the mapped image of the `j`-th kept commit step. */
  lemma {:induction false} MergeStepsAreMapped<D, S, M>(e: Engine<D, S, M>, steps: seq<S>, k: nat, doc: D,
                                                       m0: MappingValue<M>)
    requires k <= |steps|
    ensures var out := Merge(e, steps, k, doc, m0);
      |out.tr.steps| == |out.kept| &&
      forall j :: 0 <= j < |out.kept| && out.kept[j] < |steps| ==>
        var mapped := MergeMappedAt(e, steps, out.kept[j], Merge(e, steps, out.kept[j], doc, m0).mapping);
        mapped.Some? && out.tr.steps[j] == mapped.value
  {
    if k > 0 {
      MergeStepsAreMapped(e, steps, k - 1, doc, m0);
      MergeKept(e, steps, k - 1, doc, m0);
      var prev := Merge(e, steps, k - 1, doc, m0);
      var out := Merge(e, steps, k, doc, m0);
      if MergeSurvives(e, steps, k - 1, prev) {
        assert out.kept == prev.kept + [k - 1];
        assert out.tr.steps[..|prev.tr.steps|] == prev.tr.steps;
      } else {
        assert out == prev;
      }
    }
  }

  /**
   * The outcome of `applyCommitJSON(version, doc, commits, commit)`: the commit
   * holds the merged steps at `version + 1` under the proposal's ref, and those
   * steps replay on the authority's document to give the new document.
   */
  lemma ApplyCommitReplays<D, S, M>(e: Engine<D, S, M>, doc: D, commits: seq<Commit<S>>, steps: seq<S>)
    ensures var out := Merge(e, steps, |steps|, doc, MergeStart(e, steps, Flatten(commits)));
      && |out.tr.steps| <= |steps|
      && ApplyAll(e, doc, out.tr.steps) == Some(out.tr.doc)
  {
    MergeKept(e, steps, |steps|, doc, MergeStart(e, steps, Flatten(commits)));
    MergeReplays(e, steps, |steps|, doc, MergeStart(e, steps, Flatten(commits)));
  }

  /**
   * In the final mapping of the merge, each kept step's map is mirrored with the
   * inverted map of the commit step it came from: mirror pair `j` joins index
   * `|steps| - 1 - i`, which holds the inverse of step `i`, and the index that
   * holds the map of the `j`-th applied step.
   */
  lemma MergeMirrorsOwnInverse<D, S, M>(e: Engine<D, S, M>, doc: D, newSteps: seq<S>, steps: seq<S>)
    ensures var m0 := MergeStart(e, steps, newSteps);
      var out := Merge(e, steps, |steps|, doc, m0);
      && |out.mapping.mirror| == |out.kept| == |out.tr.steps|
      && forall j :: 0 <= j < |out.kept| ==>
           var (a, b) := out.mapping.mirror[j];
           && out.kept[j] < |steps| && a == |steps| - 1 - out.kept[j]
           && |steps| + |newSteps| <= b < |out.mapping.maps|
           && out.mapping.maps[a] == e.invertMap(e.getMap(steps[out.kept[j]]))
           && out.mapping.maps[b] == e.getMap(out.tr.steps[j])
  {
    var m0 := MergeStart(e, steps, newSteps);
    MergeStartLayout(e, steps, newSteps);
    MergeKept(e, steps, |steps|, doc, m0);
    MergeMaps(e, steps, |steps|, doc, m0);
    var out := Merge(e, steps, |steps|, doc, m0);
    forall j | 0 <= j < |out.kept|
      ensures var (a, b) := out.mapping.mirror[j];
           && out.kept[j] < |steps| && a == |steps| - 1 - out.kept[j]
           && |steps| + |newSteps| <= b < |out.mapping.maps|
           && out.mapping.maps[a] == e.invertMap(e.getMap(steps[out.kept[j]]))
           && out.mapping.maps[b] == e.getMap(out.tr.steps[j])
    {
      assert out.mapping.mirror[j] == out.mapping.mirror[|m0.mirror| + j];
      var a := |steps| - 1 - out.kept[j];
      assert out.mapping.maps[a] == m0.maps[a];
      assert steps[|steps| - 1 - a] == steps[out.kept[j]];
    }
  }

  /** The `reduce` that concatenates the steps of `commits`. */
  method FlattenSteps<S>(commits: seq<Commit<S>>) returns (newSteps: seq<S>)
    ensures newSteps == Flatten(commits)
  {
    newSteps := [];
    var c := 0;
    while c < |commits|
      invariant 0 <= c <= |commits|
      invariant newSteps == Flatten(commits[..c])
    {
      assert commits[..c + 1][..c] == commits[..c];
      newSteps := newSteps + commits[c].steps;
      c := c + 1;
    }
    assert commits[..|commits|] == commits;
  }

  /**
   * One iteration of the merge loop, for commit step `i`; the source decrements
   * `mapFrom` between mapping the step and recording the mirror pair, so the pair
   * uses `mapFrom - 1`.
   */
  method MergeOne<D, S, M>(e: Engine<D, S, M>, commitSteps: seq<S>, i: nat, mapFrom: int, tr: Transform<D, S, M>,
                           mapping: Mapping<M>, ghost kept: seq<nat>)
    returns (ghost kept': seq<nat>)
    requires i < |commitSteps| && mapFrom == |commitSteps| - i && tr.mapping != mapping && tr.Valid()
    modifies tr, tr.mapping, mapping
    ensures tr.Valid()
    ensures MergeStep(e, commitSteps, i, MergeOut(old(tr.Value()), old(mapping.Value()), kept)) ==
            MergeOut(tr.Value(), mapping.Value(), kept')
  {
    ghost var prev := MergeOut(tr.Value(), mapping.Value(), kept);
    kept' := kept;
    var mapped := e.mapStep(commitSteps[i], mapping.Slice(mapFrom));
    assert mapped == MergeMappedAt(e, commitSteps, i, prev.mapping);
    if mapped.Some? {
      var ok := tr.MaybeStep(e, mapped.value);
      if ok {
        assert tr.mapping.maps[|tr.steps| - 1..] == [e.getMap(mapped.value)];
        var last := new Mapping(tr.mapping.maps[|tr.steps| - 1..]);
        mapping.AppendMapping(last);
        mapping.SetMirror(mapFrom - 1, |mapping.maps| - 1);
        kept' := kept + [i];
      }
    }
  }

  /** The merge loop over the commit's steps, on a new transform at `doc`, updating `mapping`. */
  method MergeSteps<D, S, M>(e: Engine<D, S, M>, commitSteps: seq<S>, doc: D, mapping: Mapping<M>)
    returns (tr: Transform<D, S, M>)
    modifies mapping
    ensures fresh(tr) && fresh(tr.mapping)
    ensures var out := Merge(e, commitSteps, |commitSteps|, doc, old(mapping.Value()));
      tr.Value() == out.tr && mapping.Value() == out.mapping
  {
    ghost var m0 := mapping.Value();
    tr := new Transform(doc);
    ghost var kept: seq<nat> := [];
    var i, mapFrom := 0, |commitSteps|;
    while i < |commitSteps|
      invariant 0 <= i <= |commitSteps| && mapFrom == |commitSteps| - i
      invariant fresh(tr) && fresh(tr.mapping) && tr.mapping != mapping
      invariant tr.Valid()
      invariant Merge(e, commitSteps, i, doc, m0) == MergeOut(tr.Value(), mapping.Value(), kept)
    {
      kept := MergeOne(e, commitSteps, i, mapFrom, tr, mapping, kept);
      mapFrom := mapFrom - 1;
      i := i + 1;
    }
  }

  /**
   * `applyCommitJSON(version, schema, doc, commits, commit)`: the new document
   * and the applied commit, which carries `version + 1`, the proposal's ref and
   * the steps the merge kept.
   */
  method ApplyCommitJson<D, S, M>(e: Engine<D, S, M>, version: int, doc: D, commits: seq<Commit<S>>,
                                  commit: Commit<S>)
    returns (newDoc: D, applied: Commit<S>)
    ensures var out := Merge(e, commit.steps, |commit.steps|, doc, MergeStart(e, commit.steps, Flatten(commits)));
      newDoc == out.tr.doc && applied == Commit(version + 1, commit.ref, out.tr.steps)
  {
    var newSteps := FlattenSteps(commits);
    var newStepMap := new Mapping(StepMaps(e, newSteps));

    var commitSteps := commit.steps;
    var forward := new Mapping(StepMaps(e, commitSteps));
    var mapping := forward.Invert(e.invertMap);
    mapping.AppendMapping(newStepMap);
    assert mapping.Value() == MergeStart(e, commitSteps, newSteps);

    var tr := MergeSteps(e, commitSteps, doc, mapping);

    var nextVersion := version + 1;
    newDoc := tr.doc;
    applied := Commit(nextVersion, commit.ref, tr.steps);
  }
}
