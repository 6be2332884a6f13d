/**
 * The document-mutation engine the collaboration core runs on, and the
 * `Transform` accumulator of prosemirror-transform.
 *
 * Documents (`D`), steps (`S`) and step maps (`M`) are opaque: what a step does
 * to a document, how it is inverted and how it is carried through a mapping are
 * supplied as an `Engine` value, the same for the whole model.
 */
module Transforms {
  import opened Wrappers
  import opened Mappings

  /** The exceptions the core raises. */
  datatype Error =
    | TransformError    // `Transform.step` on a step the document rejects
    | NeutralizeError   // `neutralizeSteps` when a step cannot be mapped

  /** The operations of the external engine, as total functions. */
  datatype Engine<!D, !S, !M> = Engine(
    apply: (D, S) -> Option<D>,              // `Step.apply`: the new document, None when rejected
    invert: (S, D) -> S,                     // `Step.invert`, given the document before the step
    getMap: S -> M,                          // `Step.getMap`
    invertMap: M -> M,                       // `StepMap.invert`
    mapStep: (S, MappingView<M>) -> Option<S>) // `Step.map` through a mapping slice, None when deleted

  /** The state of a `Transform`: current document, the document before each step, the steps, the mapping. */
  datatype TrState<D, S, M> = TrState(doc: D, docs: seq<D>, steps: seq<S>, mapping: MappingValue<M>)

  /** One document before each step and one map per step. */
  predicate Consistent<D, S, M>(t: TrState<D, S, M>)
  {
    |t.docs| == |t.steps| == |t.mapping.maps|
  }

  /** A transform at `doc` with no steps: `new Transform(doc)` or `state.tr`. */
  function Start<D, S, M>(doc: D): TrState<D, S, M>
  {
    TrState(doc, [], [], MappingValue([], []))
  }

  /** `addStep(step, doc)`: record an applied step, its map and the document it produced. */
  function AddStep<D, S, M>(e: Engine<D, S, M>, t: TrState<D, S, M>, s: S, d: D): TrState<D, S, M>
  {
    TrState(d, t.docs + [t.doc], t.steps + [s], WithMap(t.mapping, e.getMap(s), None))
  }

  /** `maybeStep(step)`: apply the step when the document accepts it; report whether it did. */
  function TryStep<D, S, M>(e: Engine<D, S, M>, t: TrState<D, S, M>, s: S): (TrState<D, S, M>, bool)
  {
    match e.apply(t.doc, s)
    case None => (t, false)
    case Some(d) => (AddStep(e, t, s, d), true)
  }

  /**
   * `step(s)` for each of `ss` in order; `step` throws on the first rejected step,
   * which is reported as `false` together with the state reached so far.
   */
  function StepAll<D, S, M>(e: Engine<D, S, M>, t: TrState<D, S, M>, ss: seq<S>): (TrState<D, S, M>, bool)
  {
    if ss == [] then (t, true)
    else
      var (t1, ok) := StepAll(e, t, ss[..|ss| - 1]);
      if !ok then (t1, false) else TryStep(e, t1, ss[|ss| - 1])
  }

  /** The document reached by applying `ss` to `d` in order, None when one is rejected. */
  function ApplyAll<D, S, M>(e: Engine<D, S, M>, d: D, ss: seq<S>): Option<D>
  {
    if ss == [] then Some(d)
    else
      match ApplyAll(e, d, ss[..|ss| - 1])
      case None => None
      case Some(d1) => e.apply(d1, ss[|ss| - 1])
  }

  /** The maps of `ss`, in order: `ss.map(s => s.getMap())`. */
  function StepMaps<D, S, M>(e: Engine<D, S, M>, ss: seq<S>): (r: seq<M>)
    ensures |r| == |ss| && forall i :: 0 <= i < |ss| ==> r[i] == e.getMap(ss[i])
  {
    seq(|ss|, i requires 0 <= i < |ss| => e.getMap(ss[i]))
  }

  /**
   * Stepping through `ss` succeeds exactly when the documents accept `ss` in order;
   * then the steps, their maps and the documents before them are appended and the
   * mirror table is left alone.
   */
  lemma {:induction false} StepAllAppends<D, S, M>(e: Engine<D, S, M>, t: TrState<D, S, M>, ss: seq<S>)
    ensures StepAll(e, t, ss).1 <==> ApplyAll(e, t.doc, ss).Some?
    ensures StepAll(e, t, ss).1 ==>
      var r := StepAll(e, t, ss).0;
      && r.doc == ApplyAll(e, t.doc, ss).value
      && r.steps == t.steps + ss
      && r.mapping.maps == t.mapping.maps + StepMaps(e, ss)
      && r.mapping.mirror == t.mapping.mirror
      && |r.docs| == |t.docs| + |ss|
      && r.docs[..|t.docs|] == t.docs
      && (Consistent(t) ==> Consistent(r))
  {
    if ss != [] {
      var init := ss[..|ss| - 1];
      StepAllAppends(e, t, init);
      var (t1, ok) := StepAll(e, t, init);
      if ok {
        assert init + [ss[|ss| - 1]] == ss;
        assert StepMaps(e, init) + [e.getMap(ss[|ss| - 1])] == StepMaps(e, ss);
      }
    }
  }

  /** Once a step is rejected, stepping through more steps changes nothing: the throw ends the loop. */
  lemma {:induction false} StepAllStops<D, S, M>(e: Engine<D, S, M>, t: TrState<D, S, M>, ss: seq<S>, k: nat)
    requires k <= |ss| && !StepAll(e, t, ss[..k]).1
    ensures StepAll(e, t, ss) == StepAll(e, t, ss[..k])
  {
    if k < |ss| {
      assert ss[..|ss| - 1][..k] == ss[..k];
      StepAllStops(e, t, ss[..|ss| - 1], k);
    } else {
      assert ss[..k] == ss;
    }
  }

  /** `ApplyAll` over a concatenation applies the first part, then the second. */
  lemma {:induction false} ApplyAllConcat<D, S, M>(e: Engine<D, S, M>, d: D, a: seq<S>, b: seq<S>)
    ensures ApplyAll(e, d, a + b) ==
      match ApplyAll(e, d, a)
      case None => None
      case Some(d1) => ApplyAll(e, d1, b)
  {
    if b == [] {
      assert a + b == a;
    } else {
      ApplyAllConcat(e, d, a, b[..|b| - 1]);
      assert (a + b)[..|a + b| - 1] == a + b[..|b| - 1];
    }
  }

  /** prosemirror-transform's `Transform`, updated in place. */
  class Transform<D, S, M> {
    var doc: D
    var docs: seq<D>
    var steps: seq<S>
    const mapping: Mapping<M>

    function Value(): TrState<D, S, M>
      reads this, mapping
    {
      TrState(doc, docs, steps, mapping.Value())
    }

    predicate Valid()
      reads this, mapping
    {
      Consistent(Value())
    }

    /** `new Transform(doc)` */
    constructor (doc: D)
      ensures fresh(mapping)
      ensures Value() == Start(doc) && Valid()
    {
      this.doc := doc;
      this.docs := [];
      this.steps := [];
      this.mapping := new Mapping([]);
    }

    /**
     * `maybeStep(step)`; `step(step)` is the same call followed by a throw when
     * `ok` is false.
     */
    method MaybeStep(e: Engine<D, S, M>, s: S) returns (ok: bool)
      modifies this, mapping
      ensures (Value(), ok) == TryStep(e, old(Value()), s)
      ensures old(Valid()) ==> Valid()
    {
      var result := e.apply(doc, s);
      ok := result.Some?;
      if ok {
        docs := docs + [doc];
        steps := steps + [s];
        mapping.AppendMap(e.getMap(s), None);
        doc := result.value;
      }
    }
  }
}
