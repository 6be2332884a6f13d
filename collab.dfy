/**
 * The replica side of collab-commit: the collaboration state each editor keeps
 * (`CollabState`), how local transactions extend it (the plugin's `apply`), how a
 * sendable commit is cut from it (`getCommit`), and how a commit broadcast by
 * the authority is received (`chainCommitTransaction`).
 *
 * An editor state is reduced to its document and its collaboration state; a
 * transaction is a transform plus the three metadata entries the core reads or
 * writes.
 */
module Collab {
  import opened Wrappers
  import opened Mappings
  import opened Transforms
  import opened Steps

  /** The default batch size of `getCommit`. */
  const DefaultCommitSize := 20

  /** Where JavaScript's `slice` puts a possibly negative index `x` into a list of length `len`. */
  function JsIndex(len: nat, x: int): (r: nat)
    ensures r <= len
  {
    if x < 0 then (if len + x > 0 then len + x else 0)
    else if x < len then x else len
  }

  /**
   * The collaboration state of one editor: the last version received from the
   * authority, the local steps not yet confirmed, and the commit cut from them
   * that is waiting for confirmation.  Only `commit` is ever assigned.
   */
  class CollabState<D, S, M> {
    const version: int
    const unconfirmed: seq<Rebaseable<D, S, M>>
    var commit: Option<Commit<S>>

    constructor (version: int, unconfirmed: seq<Rebaseable<D, S, M>>, commit: Option<Commit<S>>)
      ensures this.version == version && this.unconfirmed == unconfirmed && this.commit == commit
    {
      this.version := version;
      this.unconfirmed := unconfirmed;
      this.commit := commit;
    }

    /** `nextVersion`: the version of the next commit this editor can accept. */
    function NextVersion(): (r: int)
      ensures r == version + 1
    {
      version + 1
    }

    /**
     * `getCommit(size)`, with `freshRef` standing for `randomRef()`: the cached
     * commit if there is one; otherwise none when nothing is unconfirmed;
     * otherwise a new commit at `version` with the steps of the first `size`
     * unconfirmed entries, which is cached so that every later call returns it.
     */
    method GetCommit(size: int, freshRef: string) returns (c: Option<Commit<S>>)
      modifies this
      ensures old(commit).Some? ==> c == old(commit) && commit == old(commit)
      ensures old(commit).None? && unconfirmed == [] ==> c.None? && commit.None?
      ensures old(commit).None? && unconfirmed != [] ==>
        && c == Some(Commit(version, freshRef, StepsOf(unconfirmed[..JsIndex(|unconfirmed|, size)])))
        && commit == c
    {
      if commit.Some? {
        return commit;
      }
      if |unconfirmed| == 0 {
        return None;
      }
      commit := Some(Commit(version, freshRef, StepsOf(unconfirmed[..JsIndex(|unconfirmed|, size)])));
      c := commit;
    }
  }

  /**
   * A transaction: its transform, and the metadata stored under the collab
   * plugin key, under "rebased" and under "addToHistory".
   */
  class Transaction<D, S, M> {
    const transform: Transform<D, S, M>
    var collab: Option<CollabState<D, S, M>>
    var rebased: Option<int>
    var addToHistory: Option<bool>

    /** `state.tr` for an editor state whose document is `doc`. */
    constructor (doc: D)
      ensures fresh(transform) && fresh(transform.mapping)
      ensures transform.Value() == Start(doc) && transform.Valid()
      ensures collab.None? && rebased.None? && addToHistory.None?
    {
      transform := new Transform(doc);
      collab := None;
      rebased := None;
      addToHistory := None;
    }
  }

  /**
   * `unconfirmedFrom(transform)`: one rebaseable entry per step of the transform,
   * in order, holding the step, its inverse against the document it was applied
   * to, and the transform as origin.
   */
  method UnconfirmedFrom<D, S, M>(e: Engine<D, S, M>, transform: Transform<D, S, M>)
    returns (result: seq<Rebaseable<D, S, M>>)
    requires transform.Valid()
    ensures |result| == |transform.steps|
    ensures forall i :: 0 <= i < |result| ==>
      result[i] == Rebaseable(transform.steps[i], e.invert(transform.steps[i], transform.docs[i]), transform)
  {
    result := [];
    var i := 0;
    while i < |transform.steps|
      invariant 0 <= i <= |transform.steps|
      invariant |result| == i
      invariant forall j :: 0 <= j < i ==>
        result[j] == Rebaseable(transform.steps[j], e.invert(transform.steps[j], transform.docs[j]), transform)
    {
      result := result + [Rebaseable(transform.steps[i], e.invert(transform.steps[i], transform.docs[i]), transform)];
      i := i + 1;
    }
  }

  /** The plugin's `state.init`: version `config.version || 0`, nothing unconfirmed, no pending commit. */
  method PluginInit<D, S, M>(configVersion: Option<int>) returns (s: CollabState<D, S, M>)
    ensures fresh(s)
    ensures s.version == (if configVersion.Some? then configVersion.value else 0)
    ensures s.unconfirmed == [] && s.commit.None?
  {
    var version := if configVersion.Some? && configVersion.value != 0 then configVersion.value else 0;
    s := new CollabState(version, [], None);
  }

  /**
   * The plugin's `state.apply(tr, collab)`: a collaboration state stored on the
   * transaction wins; a transaction that changed the document appends one
   * unconfirmed entry per step, keeping the version and the pending commit; any
   * other transaction leaves the state as it was.
   */
  method PluginApply<D, S, M>(e: Engine<D, S, M>, tr: Transaction<D, S, M>, collab: CollabState<D, S, M>)
    returns (r: CollabState<D, S, M>)
    requires tr.transform.Valid()
    ensures tr.collab.Some? ==> r == tr.collab.value
    ensures tr.collab.None? && tr.transform.steps != [] ==>
      && fresh(r)
      && r.version == collab.version && r.commit == collab.commit
      && |r.unconfirmed| == |collab.unconfirmed| + |tr.transform.steps|
      && r.unconfirmed[..|collab.unconfirmed|] == collab.unconfirmed
      && forall i :: 0 <= i < |tr.transform.steps| ==>
        r.unconfirmed[|collab.unconfirmed| + i] ==
          Rebaseable(tr.transform.steps[i], e.invert(tr.transform.steps[i], tr.transform.docs[i]), tr.transform)
    ensures tr.collab.None? && tr.transform.steps == [] ==> r == collab
  {
    if tr.collab.Some? {
      return tr.collab.value;
    }
    if |tr.transform.steps| > 0 {
      var added := UnconfirmedFrom(e, tr.transform);
      r := new CollabState(collab.version, collab.unconfirmed + added, collab.commit);
      return;
    }
    r := collab;
  }

  /**
   * `initCollabState(state, version, doc)`: a transaction that resets the
   * collaboration state to `version` with nothing unconfirmed and keeps itself
   * out of the history.
   */
  method InitCollabState<D, S, M>(doc: D, version: int) returns (tr: Transaction<D, S, M>)
    ensures fresh(tr) && tr.collab.Some? && fresh(tr.collab.value)
    ensures tr.collab.value.version == version && tr.collab.value.unconfirmed == [] && tr.collab.value.commit.None?
    ensures tr.addToHistory == Some(false)
  {
    var newCollabState := new CollabState(version, [], None);
    tr := new Transaction(doc);
    tr.addToHistory := Some(false);
    tr.collab := Some(newCollabState);
  }

  /**
   * `chainCommitTransaction(state, tr, commit)` for a transaction carrying a
   * collaboration state `st`.  A commit at any version but `st.nextVersion` is
   * ignored.  A commit whose ref is the pending commit's confirms it: the version
   * advances, the confirmed prefix of the unconfirmed steps is dropped and nothing
   * is pending.  Any other commit is foreign: the version advances, the
   * unconfirmed steps are rebased over its steps, and the pending commit stays.
   * The rebase counts its mapping indices from the steps `tr` already held.
   */
  method ChainCommitTransaction<D, S, M>(e: Engine<D, S, M>, tr: Transaction<D, S, M>, commit: Commit<S>)
    returns (r: Result<Transaction<D, S, M>, Error>)
    requires tr.collab.Some?
    modifies tr, tr.transform, tr.transform.mapping
    ensures var st := old(tr.collab).value;
      st.NextVersion() != commit.version ==>
        r == Success(tr) && unchanged(tr, tr.transform, tr.transform.mapping)
    ensures var st := old(tr.collab).value;
      st.NextVersion() == commit.version && st.commit.Some? && st.commit.value.ref == commit.ref ==>
        && r == Success(tr) && unchanged(tr.transform, tr.transform.mapping)
        && tr.rebased == old(tr.rebased) && tr.addToHistory == old(tr.addToHistory)
        && tr.collab.Some? && fresh(tr.collab.value)
        && tr.collab.value.version == st.version + 1
        && tr.collab.value.unconfirmed == st.unconfirmed[JsIndex(|st.unconfirmed|, |commit.steps|)..]
        && tr.collab.value.commit.None?
    ensures var st := old(tr.collab).value;
      st.NextVersion() == commit.version && !(st.commit.Some? && st.commit.value.ref == commit.ref) ==>
        var rebase := Rebase(e, st.unconfirmed, commit.steps, old(tr.transform.Value()), old(|tr.transform.steps|));
        && tr.transform.Value() == rebase.1
        && (rebase.0.Failure? ==>
              && r == Failure(rebase.0.error) && tr.collab == old(tr.collab)
              && tr.rebased == old(tr.rebased) && tr.addToHistory == old(tr.addToHistory))
        && (rebase.0.Success? ==>
              && r == Success(tr)
              && tr.collab.Some? && fresh(tr.collab.value)
              && tr.collab.value.version == st.version + 1
              && tr.collab.value.unconfirmed == rebase.0.value
              && tr.collab.value.commit == st.commit
              && tr.rebased == Some(|st.unconfirmed|) && tr.addToHistory == Some(false))
  {
    var collabState := tr.collab.value;
    var nextVersion, unconfirmed, uncommitted := collabState.NextVersion(), collabState.unconfirmed, collabState.commit;
    var nUnconfirmed := |unconfirmed|;

    if nextVersion != commit.version {
      return Success(tr);
    }

    if uncommitted.Some? && commit.ref == uncommitted.value.ref {
      var confirmed := new CollabState(nextVersion, unconfirmed[JsIndex(|unconfirmed|, |commit.steps|)..], None);
      tr.collab := Some(confirmed);
      return Success(tr);
    }

    var rebased := RebaseStepsAt(e, unconfirmed, commit.steps, tr.transform, |tr.transform.steps|);
    if rebased.Failure? {
      return Failure(rebased.error);
    }

    var newCollabState := new CollabState(nextVersion, rebased.value, uncommitted);
    tr.rebased := Some(nUnconfirmed);
    tr.addToHistory := Some(false);
    tr.collab := Some(newCollabState);
    r := Success(tr);
  }

  /**
   * `receiveCommitTransaction(state, commit)`: a new transaction on the editor's
   * document carrying its collaboration state, passed to `chainCommitTransaction`.
   * The transaction starts with no steps, so the rebase's mapping indices count
   * from zero, exactly as `rebaseSteps` is written.
   */
  method ReceiveCommitTransaction<D, S, M>(e: Engine<D, S, M>, doc: D, collab: CollabState<D, S, M>, commit: Commit<S>)
    returns (r: Result<Transaction<D, S, M>, Error>)
    ensures collab.NextVersion() != commit.version ==>
      && r.Success? && fresh(r.value) && r.value.collab == Some(collab) && r.value.transform.Value() == Start(doc)
      && r.value.rebased.None? && r.value.addToHistory.None?
    ensures collab.NextVersion() == commit.version && collab.commit.Some? && collab.commit.value.ref == commit.ref ==>
      && r.Success? && fresh(r.value) && r.value.transform.Value() == Start(doc)
      && r.value.collab.Some? && fresh(r.value.collab.value)
      && r.value.collab.value.version == collab.version + 1
      && r.value.collab.value.unconfirmed == collab.unconfirmed[JsIndex(|collab.unconfirmed|, |commit.steps|)..]
      && r.value.collab.value.commit.None?
      && r.value.rebased.None? && r.value.addToHistory.None?
    ensures collab.NextVersion() == commit.version && !(collab.commit.Some? && collab.commit.value.ref == commit.ref) ==>
      var rebase := Rebase(e, collab.unconfirmed, commit.steps, Start(doc), 0);
      && (r.Success? <==> rebase.0.Success?)
      && (r.Success? ==>
            && fresh(r.value) && r.value.transform.Value() == rebase.1
            && r.value.collab.Some? && fresh(r.value.collab.value)
            && r.value.collab.value.version == collab.version + 1
            && r.value.collab.value.unconfirmed == rebase.0.value
            && r.value.collab.value.commit == collab.commit
            && r.value.rebased == Some(|collab.unconfirmed|) && r.value.addToHistory == Some(false))
  {
    var tr := new Transaction(doc);
    tr.collab := Some(collab);
    r := ChainCommitTransaction(e, tr, commit);
  }

  /** `sendableCommit(state)`: `getCommit()` with the default batch size. */
  method SendableCommit<D, S, M>(collab: CollabState<D, S, M>, freshRef: string) returns (c: Option<Commit<S>>)
    modifies collab
    ensures old(collab.commit).Some? ==> c == old(collab.commit) && collab.commit == c
    ensures old(collab.commit).None? && collab.unconfirmed == [] ==> c.None? && collab.commit.None?
    ensures old(collab.commit).None? && collab.unconfirmed != [] ==>
      && c == Some(Commit(collab.version, freshRef,
                          StepsOf(collab.unconfirmed[..JsIndex(|collab.unconfirmed|, DefaultCommitSize)])))
      && collab.commit == c
  {
    c := collab.GetCommit(DefaultCommitSize, freshRef);
  }

  /** `getVersion(state)`: the version of the editor's collaboration state, if it has one. */
  function GetVersion<D, S, M>(collab: Option<CollabState<D, S, M>>): (r: Option<int>)
    ensures r.Some? <==> collab.Some?
    ensures r.Some? ==> r.value == collab.value.version
  {
    if collab.Some? then Some(collab.value.version) else None
  }
}
