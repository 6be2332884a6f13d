/**
 * The central authority as the collaboration tests drive it: it keeps the
 * document, the log of applied commits and the refs already seen, and on each
 * proposal from a replica merges it with `applyCommitJSON`, replays the merged
 * steps on its own document and appends the merged commit to the log.
 */
module Authority {
  import opened Wrappers
  import opened Transforms
  import opened Steps
  import opened Collab
  import opened ApplyCommit

  /** The refs of the commits in `commits`. */
  function RefsOf<S>(commits: seq<Commit<S>>): set<string>
  {
    set k | 0 <= k < |commits| :: commits[k].ref
  }

  /** `Flatten` over a log extended by one commit adds that commit's steps at the end. */
  lemma FlattenSnoc<S>(commits: seq<Commit<S>>, c: Commit<S>)
    ensures Flatten(commits + [c]) == Flatten(commits) + c.steps
  {
    assert (commits + [c])[..|commits|] == commits;
  }

  /** Logging one more commit adds its ref. */
  lemma RefsSnoc<S>(commits: seq<Commit<S>>, c: Commit<S>)
    ensures RefsOf(commits + [c]) == RefsOf(commits) + {c.ref}
  {
    var after := commits + [c];
    forall r | r in RefsOf(after) ensures r in RefsOf(commits) + {c.ref} {
      var k :| 0 <= k < |after| && after[k].ref == r;
      if k < |commits| {
        assert commits[k].ref == r;
      }
    }
    forall r | r in RefsOf(commits) ensures r in RefsOf(after) {
      var k :| 0 <= k < |commits| && commits[k].ref == r;
      assert after[k].ref == r;
    }
    assert after[|commits|].ref == c.ref;
  }

  /**
   * Appending a commit with the next version whose steps apply to the current
   * document keeps the log's versions consecutive and its replay equal to the
   * document those steps reach.
   */
  lemma LogSnoc<D, S, M>(e: Engine<D, S, M>, initial: D, commits: seq<Commit<S>>, doc: D,
                         c: Commit<S>, newDoc: D)
    requires forall k :: 0 <= k < |commits| ==> commits[k].version == k + 1
    requires ApplyAll(e, initial, Flatten(commits)) == Some(doc)
    requires c.version == |commits| + 1
    requires ApplyAll(e, doc, c.steps) == Some(newDoc)
    ensures forall k :: 0 <= k < |commits| + 1 ==> (commits + [c])[k].version == k + 1
    ensures ApplyAll(e, initial, Flatten(commits + [c])) == Some(newDoc)
    ensures RefsOf(commits + [c]) == RefsOf(commits) + {c.ref}
  {
    FlattenSnoc(commits, c);
    ApplyAllConcat(e, initial, Flatten(commits), c.steps);
    RefsSnoc(commits, c);
  }

  /**
   * `steps.forEach(s => tr.step(s))` on a new transform at `doc`: the document
   * reached, or None when a step throws.
   */
  method ReplayOnDoc<D, S, M>(e: Engine<D, S, M>, doc: D, steps: seq<S>) returns (r: Option<D>)
    ensures r == ApplyAll(e, doc, steps)
  {
    var tr := new Transform(doc);
    var ok := ReplaySteps(e, steps, tr);
    StepAllAppends(e, Start(doc), steps);
    if !ok {
      return None;
    }
    r := Some(tr.doc);
  }

  class Authority<D, S, M> {
    const engine: Engine<D, S, M>
    ghost const initial: D
    var doc: D
    var commits: seq<Commit<S>>
    var refs: set<string>

    /**
     * The log holds versions 1, 2, ... in order, `refs` is exactly the refs in
     * the log, and the document is the initial one with every logged step
     * replayed in order.
     */
    ghost predicate Valid()
      reads this
    {
      && (forall k :: 0 <= k < |commits| ==> commits[k].version == k + 1)
      && refs == RefsOf(commits)
      && ApplyAll(engine, initial, Flatten(commits)) == Some(doc)
    }

    /** An authority at version 0 holding `doc`. */
    constructor (engine: Engine<D, S, M>, doc: D)
      ensures this.engine == engine && initial == doc && this.doc == doc
      ensures commits == [] && refs == {}
      ensures Valid()
    {
      this.engine := engine;
      this.initial := doc;
      this.doc := doc;
      this.commits := [];
      this.refs := {};
    }

    /**
     * The authority's handling of a proposed commit (the test server's `send`
     * once a replica has a sendable commit).  A ref already in the log is
     * ignored.  Otherwise the proposal is merged against the commits logged
     * since its version (`commits.slice(commit.version)`) at the log's length
     * as version; its merged steps are replayed on the authority's document,
     * which always succeeds, and the merged commit is logged under the
     * proposal's ref.
     */
    method Receive(commit: Commit<S>)
      requires Valid()
      modifies this
      ensures Valid()
      ensures commit.ref in old(refs) ==> doc == old(doc) && commits == old(commits) && refs == old(refs)
      ensures commit.ref !in old(refs) ==>
        var since := old(commits)[JsIndex(|old(commits)|, commit.version)..];
        var out := Merge(engine, commit.steps, |commit.steps|, old(doc),
                         MergeStart(engine, commit.steps, Flatten(since)));
        && commits == old(commits) + [Commit(|old(commits)| + 1, commit.ref, out.tr.steps)]
        && doc == out.tr.doc
        && refs == old(refs) + {commit.ref}
    {
      if commit.ref in refs {
        return;
      }
      var since := commits[JsIndex(|commits|, commit.version)..];
      var _, applied := ApplyCommitJson(engine, |commits|, doc, since, commit);
      ghost var out := Merge(engine, commit.steps, |commit.steps|, doc, MergeStart(engine, commit.steps, Flatten(since)));
      ApplyCommitReplays(engine, doc, since, commit.steps);

      var replayed := ReplayOnDoc(engine, doc, applied.steps);
      LogSnoc(engine, initial, commits, doc, applied, out.tr.doc);

      doc := replayed.value;
      commits := commits + [applied];
      refs := refs + {commit.ref};
    }
  }
}
