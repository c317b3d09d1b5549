/** Paths inside an image: how mkfs.viperfs takes them apart from the back (tools/mkfs.viperfs.cpp) and the
    kernel from the front (kernel/fs/vfs/vfs.cpp). */
module MkfsPaths {
  import opened ViperFormat
  import opened MkfsImage

  const SLASH: u8 := 47

  // ----------------------------------------------------------------------- from the back

  function StripFront(p: seq<u8>): (r: seq<u8>)
    ensures |r| <= |p| && (r == [] || r[0] != SLASH)
  {
    if p != [] && p[0] == SLASH then StripFront(p[1..]) else p
  }

  function StripBack(p: seq<u8>): (r: seq<u8>)
    ensures r <= p && (r == [] || r[|r| - 1] != SLASH)
  {
    if p != [] && p[|p| - 1] == SLASH then StripBack(p[..|p| - 1]) else p
  }

  function Normalize(p: seq<u8>): (r: seq<u8>)
    ensures |r| <= |p| && (r == [] || (r[0] != SLASH && r[|r| - 1] != SLASH))
  {
    StripBack(StripFront(p))
  }

  /** Index of the last slash, or the length if there is none. */
  function LastSlash(p: seq<u8>): (i: nat)
    ensures i <= |p| && (i < |p| ==> p[i] == SLASH) && (i == |p| ==> SLASH !in p)
    ensures i < |p| ==> SLASH !in p[i + 1..]
  {
    if p == [] then 0
    else if p[|p| - 1] == SLASH then |p| - 1
    else
      var i := LastSlash(p[..|p| - 1]);
      if i == |p| - 1 then
        assert p == p[..|p| - 1] + [p[|p| - 1]];
        |p|
      else
        assert p[i + 1..] == p[..|p| - 1][i + 1..] + [p[|p| - 1]];
        i
  }

  function ParentPath(p: seq<u8>): (r: seq<u8>)
    ensures p != [] ==> |r| < |p|
  {
    if LastSlash(p) == |p| then [] else p[..LastSlash(p)]
  }

  /** The part after the last slash: a path is its parent, a slash and this name. */
  function BaseName(p: seq<u8>): (r: seq<u8>)
    ensures SLASH !in r
    ensures (p == r && ParentPath(p) == []) || p == ParentPath(p) + [SLASH] + r
  {
    if LastSlash(p) == |p| then p else p[LastSlash(p) + 1..]
  }

  /** The components of a path as the writer finds them: normalize, split at the last slash, go on with the
      rest. */
  function Parts(path: seq<u8>): seq<seq<u8>>
    decreases |path|
  {
    var p := Normalize(path);
    if p == [] then [] else Parts(ParentPath(p)) + [BaseName(p)]
  }

  /** Every component the writer will create on the way is a usable entry name. */
  predicate PathOk(path: seq<u8>) {
    forall k :: 0 <= k < |Parts(path)| ==> NameOk(Parts(path)[k])
  }

  // ---------------------------------------------------------------------- from the front

  /** Length of the first component. */
  function PartLen(p: seq<u8>): (n: nat)
    ensures n <= |p| && SLASH !in p[..n] && (n < |p| ==> p[n] == SLASH)
  {
    if p == [] || p[0] == SLASH then 0
    else
      var n := 1 + PartLen(p[1..]);
      assert p[..n] == [p[0]] + p[1..][..n - 1];
      n
  }

  /** The components of a path as the kernel meets them: skip slashes, take what stands before the next. */
  function Components(p: seq<u8>): seq<seq<u8>> {
    if p == [] then []
    else if p[0] == SLASH then Components(p[1..])
    else [p[..PartLen(p)]] + Components(p[PartLen(p)..])
  }

  lemma PartLenStops(a: seq<u8>, b: seq<u8>)
    requires a != [] && a[0] != SLASH
    ensures PartLen(a + [SLASH] + b) == PartLen(a) > 0
  {
    var n, m := PartLen(a), PartLen(a + [SLASH] + b);
    var p := a + [SLASH] + b;
    assert p[n] == SLASH;
  }

  lemma {:induction false} ComponentsJoin(a: seq<u8>, b: seq<u8>)
    ensures Components(a + [SLASH] + b) == Components(a) + Components(b)
    decreases |a|
  {
    var p := a + [SLASH] + b;
    if a == [] {
      assert p[1..] == b;
    } else if a[0] == SLASH {
      ComponentsJoin(a[1..], b);
      assert p[1..] == a[1..] + [SLASH] + b;
    } else {
      PartLenStops(a, b);
      var n := PartLen(a);
      ComponentsJoin(a[n..], b);
      assert p[n..] == a[n..] + [SLASH] + b && p[..n] == a[..n];
    }
  }

  lemma OneComponent(b: seq<u8>)
    requires b != [] && SLASH !in b
    ensures Components(b) == [b]
  {
    assert PartLen(b) == |b|;
    assert b[..|b|] == b;
  }

  lemma {:induction false} ComponentsStripBack(p: seq<u8>)
    ensures Components(StripBack(p)) == Components(p)
  {
    if p != [] && p[|p| - 1] == SLASH {
      var q := p[..|p| - 1];
      ComponentsStripBack(q);
      ComponentsJoin(q, []);
      assert p == q + [SLASH] + [];
    }
  }

  lemma {:induction false} ComponentsStripFront(p: seq<u8>)
    ensures Components(StripFront(p)) == Components(p)
  {
    if p != [] && p[0] == SLASH { ComponentsStripFront(p[1..]); }
  }

  lemma BaseNotEmpty(p: seq<u8>)
    requires p != [] && Normalize(p) == p
    ensures BaseName(p) != []
  {
  }

  lemma {:induction false} NormalizeAgain(p: seq<u8>)
    ensures Normalize(Normalize(p)) == Normalize(p)
  {
  }

  /** Writer and kernel find the same components in every path. */
  lemma {:induction false} SamePath(path: seq<u8>)
    ensures Parts(path) == Components(path)
    decreases |path|
  {
    var p := Normalize(path);
    ComponentsStripFront(path);
    ComponentsStripBack(StripFront(path));
    if p != [] {
      NormalizeAgain(path);
      BaseNotEmpty(p);
      SamePath(ParentPath(p));
      OneComponent(BaseName(p));
      if p != BaseName(p) { ComponentsJoin(ParentPath(p), BaseName(p)); }
    }
  }

  lemma PartsStep(path: seq<u8>)
    ensures var p := Normalize(path);
            p != [] ==> Parts(path) == Parts(ParentPath(p)) + [BaseName(p)] && BaseName(p) != []
  {
    NormalizeAgain(path);
    if Normalize(path) != [] { BaseNotEmpty(Normalize(path)); }
  }

  lemma {:induction false} PartsNormalize(path: seq<u8>)
    ensures Parts(Normalize(path)) == Parts(path)
  {
    NormalizeAgain(path);
  }

  /** `k` is what the writer looks up for `path` or for a directory on the way to it. */
  predicate OnChain(path: seq<u8>, k: seq<u8>)
    decreases |path|
  {
    var p := Normalize(path);
    p != [] && (k == p || OnChain(ParentPath(p), k))
  }

  lemma {:induction false} ChainParts(path: seq<u8>, k: seq<u8>)
    requires OnChain(path, k)
    ensures k != [] && Parts(k) <= Parts(path)
    decreases |path|
  {
    var p := Normalize(path);
    PartsStep(path);
    PartsNormalize(path);
    if k != p { ChainParts(ParentPath(p), k); }
  }

  lemma NormalizeOk(path: seq<u8>)
    requires PathOk(path)
    ensures PathOk(Normalize(path))
  {
    PartsNormalize(path);
  }

  lemma ParentOk(path: seq<u8>)
    requires PathOk(path) && Normalize(path) != []
    ensures var p := Normalize(path); PathOk(ParentPath(p)) && NameOk(BaseName(p))
  {
    PartsStep(path);
    var p := Normalize(path);
    var up := Parts(ParentPath(p));
    forall k | 0 <= k < |up| ensures NameOk(up[k]) { assert up[k] == Parts(path)[k]; }
    assert Parts(path)[|up|] == BaseName(p);
  }

  // ------------------------------------------------------------------------- plain paths

  /** No slash at either end and no doubled one: the spelling of a path that its components determine. */
  predicate Plain(p: seq<u8>)
    decreases |p|
  {
    Normalize(p) == p && (p == [] || Plain(ParentPath(p)))
  }

  lemma {:induction false} PlainSpelling(p: seq<u8>, q: seq<u8>)
    requires Plain(p) && Plain(q) && Parts(p) == Parts(q)
    ensures p == q
    decreases |p|
  {
    PartsStep(p);
    PartsStep(q);
    if p != [] {
      assert q != [];
      var a, b := Parts(ParentPath(p)), Parts(ParentPath(q));
      assert a == (a + [BaseName(p)])[..|a|] && b == (b + [BaseName(q)])[..|b|];
      assert (a + [BaseName(p)])[|a|] == (b + [BaseName(q)])[|b|];
      PlainSpelling(ParentPath(p), ParentPath(q));
      NoEmptyParent(p);
      NoEmptyParent(q);
    }
  }

  lemma NoEmptyParent(p: seq<u8>)
    requires p != [] && Normalize(p) == p
    ensures p == if ParentPath(p) == [] then BaseName(p) else ParentPath(p) + [SLASH] + BaseName(p)
  {
  }
}
