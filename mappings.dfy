/**
 * The position-mapping bookkeeping of prosemirror-transform's `Mapping`, as the
 * collaboration core uses it: an ordered list of step maps plus a mirror table
 * recording which two maps cancel each other out.
 *
 * The maps themselves are opaque (type parameter `M`); only the list and index
 * bookkeeping is modelled.  ProseMirror keeps the mirror table as a flat array of
 * pairs; here it is the list of pairs in the order `setMirror` recorded them.
 */
module Mappings {
  import opened Wrappers

  /** The contents of a `Mapping`: its maps in order and its mirror pairs. */
  datatype MappingValue<M> = MappingValue(maps: seq<M>, mirror: seq<(int, int)>)

  /**
   * What `mapping.slice(from, to)` hands to `Step.map`: the same maps and mirror
   * table, restricted to the index window `[from, to)`.
   */
  datatype MappingView<M> = MappingView(maps: seq<M>, mirror: seq<(int, int)>, from: nat, to: nat)

  /** `slice(from)`: the window from `from` to the current end. */
  function SliceOf<M>(v: MappingValue<M>, from: nat): MappingView<M>
  {
    MappingView(v.maps, v.mirror, from, |v.maps|)
  }

  /** `getMirror(n)`: the partner of the first recorded pair that contains `n`. */
  function GetMirror(mirror: seq<(int, int)>, n: int): Option<int>
  {
    if mirror == [] then None
    else if mirror[0].0 == n then Some(mirror[0].1)
    else if mirror[0].1 == n then Some(mirror[0].0)
    else GetMirror(mirror[1..], n)
  }

  /**
   * `getMirror(n)` finds a partner exactly when some pair contains `n`; the
   * partner is the other end of the first such pair.
   */
  lemma {:induction false} GetMirrorFirst(mirror: seq<(int, int)>, n: int)
    ensures GetMirror(mirror, n).None? <==> forall k :: 0 <= k < |mirror| ==> mirror[k].0 != n && mirror[k].1 != n
    ensures GetMirror(mirror, n).Some? ==>
      exists k :: 0 <= k < |mirror| && (forall k' :: 0 <= k' < k ==> mirror[k'].0 != n && mirror[k'].1 != n) &&
        ((mirror[k].0 == n && GetMirror(mirror, n).value == mirror[k].1) ||
         (mirror[k].0 != n && mirror[k].1 == n && GetMirror(mirror, n).value == mirror[k].0))
  {
    if mirror != [] && mirror[0].0 != n && mirror[0].1 != n {
      GetMirrorFirst(mirror[1..], n);
      if GetMirror(mirror, n).Some? {
        var k :| 0 <= k < |mirror[1..]| && (forall k' :: 0 <= k' < k ==> mirror[1..][k'].0 != n && mirror[1..][k'].1 != n) &&
          ((mirror[1..][k].0 == n && GetMirror(mirror, n).value == mirror[1..][k].1) ||
           (mirror[1..][k].0 != n && mirror[1..][k].1 == n && GetMirror(mirror, n).value == mirror[1..][k].0));
        assert forall k' :: 0 <= k' < k + 1 ==> mirror[k'].0 != n && mirror[k'].1 != n by {
          forall k' | 0 <= k' < k + 1 ensures mirror[k'].0 != n && mirror[k'].1 != n {
            if k' > 0 { assert mirror[k'] == mirror[1..][k' - 1]; }
          }
        }
        assert mirror[k + 1] == mirror[1..][k];
      } else {
        forall k | 0 <= k < |mirror| ensures mirror[k].0 != n && mirror[k].1 != n {
          if k > 0 { assert mirror[k] == mirror[1..][k - 1]; }
        }
      }
    }
  }

  /** `setMirror(n, m)`: record that maps `n` and `m` cancel each other. */
  function WithMirror<M>(v: MappingValue<M>, n: int, m: int): MappingValue<M>
  {
    v.(mirror := v.mirror + [(n, m)])
  }

  /** `appendMap(map, mirrors)`: add one map at the end, optionally mirrored with `mirrors`. */
  function WithMap<M>(v: MappingValue<M>, stepMap: M, mirrors: Option<int>): MappingValue<M>
  {
    var w := v.(maps := v.maps + [stepMap]);
    if mirrors.Some? then WithMirror(w, |w.maps| - 1, mirrors.value) else w
  }

  /**
   * `appendMapping(w)`, after its first `k` iterations: map `i` of `w` is appended,
   * keeping its mirror partner (shifted by the old length) when that partner comes
   * before it.
   */
  function AppendedUpTo<M>(v: MappingValue<M>, w: MappingValue<M>, k: nat): MappingValue<M>
    requires k <= |w.maps|
  {
    if k == 0 then v
    else
      var i := k - 1;
      var mirr := GetMirror(w.mirror, i);
      WithMap(AppendedUpTo(v, w, i), w.maps[i],
              if mirr.Some? && mirr.value < i then Some(|v.maps| + mirr.value) else None)
  }

  /** `v.appendMapping(w)`. */
  function Appended<M>(v: MappingValue<M>, w: MappingValue<M>): MappingValue<M>
  {
    AppendedUpTo(v, w, |w.maps|)
  }

  /**
   * `invert()`, after its first `k` iterations: walking the maps from the last to
   * the first, each is inverted and appended; a mirror partner that comes after it
   * is carried over to its reflected index.
   */
  function InvertedUpTo<M>(v: MappingValue<M>, inv: M -> M, k: nat): MappingValue<M>
    requires k <= |v.maps|
  {
    if k == 0 then MappingValue([], [])
    else
      var n := |v.maps|;
      var i := n - k;
      var mirr := GetMirror(v.mirror, i);
      WithMap(InvertedUpTo(v, inv, k - 1), inv(v.maps[i]),
              if mirr.Some? && mirr.value > i then Some(n - mirr.value - 1) else None)
  }

  /** `v.invert()`, with `inv` standing for `StepMap.invert`. */
  function Inverted<M>(v: MappingValue<M>, inv: M -> M): MappingValue<M>
  {
    InvertedUpTo(v, inv, |v.maps|)
  }

  /** Appending keeps the old maps and mirror pairs and adds `w`'s maps after them. */
  lemma {:induction false} AppendedShape<M>(v: MappingValue<M>, w: MappingValue<M>, k: nat)
    requires k <= |w.maps|
    ensures AppendedUpTo(v, w, k).maps == v.maps + w.maps[..k]
    ensures |v.mirror| <= |AppendedUpTo(v, w, k).mirror|
    ensures AppendedUpTo(v, w, k).mirror[..|v.mirror|] == v.mirror
    ensures w.mirror == [] ==> AppendedUpTo(v, w, k).mirror == v.mirror
  {
    if k > 0 {
      AppendedShape(v, w, k - 1);
      assert w.maps[..k] == w.maps[..k - 1] + [w.maps[k - 1]];
    }
  }

  /**
   * Inverting reverses the order of the maps and inverts each; a mapping without
   * mirror pairs inverts to one without mirror pairs.
   */
  lemma {:induction false} InvertedMaps<M>(v: MappingValue<M>, inv: M -> M, k: nat)
    requires k <= |v.maps|
    ensures |InvertedUpTo(v, inv, k).maps| == k
    ensures forall j :: 0 <= j < k ==> InvertedUpTo(v, inv, k).maps[j] == inv(v.maps[|v.maps| - 1 - j])
    ensures v.mirror == [] ==> InvertedUpTo(v, inv, k).mirror == []
  {
    if k > 0 {
      InvertedMaps(v, inv, k - 1);
    }
  }

  /**
   * Every mirror pair of the inverse reflects one of the original: every pair `(a, b)` of the inverse
   * has `b < a < n`, and the original maps `n - 1 - a` and `n - 1 - b` were mirrors.
   */
  lemma {:induction false} InvertedMirrors<M>(v: MappingValue<M>, inv: M -> M, k: nat)
    requires k <= |v.maps|
    ensures var r := InvertedUpTo(v, inv, k);
      forall j :: 0 <= j < |r.mirror| ==>
        r.mirror[j].1 < r.mirror[j].0 < k &&
        GetMirror(v.mirror, |v.maps| - 1 - r.mirror[j].0) == Some(|v.maps| - 1 - r.mirror[j].1)
  {
    if k > 0 {
      InvertedMaps(v, inv, k - 1);
      InvertedMirrors(v, inv, k - 1);
      var prev := InvertedUpTo(v, inv, k - 1);
      var n, i := |v.maps|, |v.maps| - k;
      var mirr := GetMirror(v.mirror, i);
      var r := InvertedUpTo(v, inv, k);
      if mirr.Some? && mirr.value > i {
        assert r.mirror == prev.mirror + [(k - 1, n - mirr.value - 1)];
      } else {
        assert r.mirror == prev.mirror;
      }
      forall j | 0 <= j < |r.mirror|
        ensures r.mirror[j].1 < r.mirror[j].0 < k
        ensures GetMirror(v.mirror, n - 1 - r.mirror[j].0) == Some(n - 1 - r.mirror[j].1)
      {
        if j < |prev.mirror| {
          assert r.mirror[j] == prev.mirror[j];
        }
      }
    }
  }

  /** prosemirror-transform's `Mapping` object, updated in place. */
  class Mapping<M> {
    var maps: seq<M>
    var mirror: seq<(int, int)>

    function Value(): MappingValue<M>
      reads this
    {
      MappingValue(maps, mirror)
    }

    /** `new Mapping(maps)` */
    constructor (maps: seq<M>)
      ensures Value() == MappingValue(maps, [])
    {
      this.maps := maps;
      this.mirror := [];
    }

    /** `slice(from)` */
    function Slice(from: nat): (r: MappingView<M>)
      reads this
      ensures r.maps == maps && r.mirror == mirror && r.from == from && r.to == |maps|
    {
      SliceOf(Value(), from)
    }

    /** `appendMap(map, mirrors)` */
    method AppendMap(stepMap: M, mirrors: Option<int>)
      modifies this
      ensures Value() == WithMap(old(Value()), stepMap, mirrors)
    {
      maps := maps + [stepMap];
      if mirrors.Some? {
        SetMirror(|maps| - 1, mirrors.value);
      }
    }

    /** `setMirror(n, m)` */
    method SetMirror(n: int, m: int)
      modifies this
      ensures Value() == WithMirror(old(Value()), n, m)
    {
      mirror := mirror + [(n, m)];
    }

    /** `appendMapping(other)` */
    method AppendMapping(other: Mapping<M>)
      requires other != this
      modifies this
      ensures Value() == Appended(old(Value()), other.Value())
    {
      var startSize := |maps|;
      var i := 0;
      while i < |other.maps|
        invariant 0 <= i <= |other.maps|
        invariant Value() == AppendedUpTo(old(Value()), other.Value(), i)
      {
        var mirr := GetMirror(other.mirror, i);
        AppendMap(other.maps[i], if mirr.Some? && mirr.value < i then Some(startSize + mirr.value) else None);
        i := i + 1;
      }
    }

    /** `invert()`, with `inv` standing for `StepMap.invert` */
    method Invert(inv: M -> M) returns (r: Mapping<M>)
      ensures fresh(r)
      ensures r.Value() == Inverted(Value(), inv)
    {
      r := new Mapping([]);
      var totalSize := |maps|;
      var i := |maps|;
      while i > 0
        invariant 0 <= i <= |maps|
        invariant r.Value() == InvertedUpTo(Value(), inv, |maps| - i)
      {
        i := i - 1;
        var mirr := GetMirror(mirror, i);
        r.AppendMap(inv(maps[i]), if mirr.Some? && mirr.value > i then Some(totalSize - mirr.value - 1) else None);
      }
    }
  }
}
