/** The cache's pointers (kernel/fs/cache.cpp, kernel/lib/lru_list.hpp): hash chains threaded through
    `hash_next` and a doubly linked list threaded through `lru_prev` and `lru_next`, against the lists they
    stand for. A null pointer is `None`. */
module CacheLinks {
  import opened Sequences
  import opened CacheCore

  datatype Block = Block(slot: Slot, hashNext: Option, lruPrev: Option, lruNext: Option)

  function SlotsOf(bs: seq<Block>): (r: seq<Slot>)
    ensures |r| == |bs| && forall i :: 0 <= i < |bs| ==> r[i] == bs[i].slot
  {
    seq(|bs|, i requires 0 <= i < |bs| => bs[i].slot)
  }

  function At(l: seq<nat>, k: int): Option {
    if 0 <= k < |l| then Some(l[k]) else None
  }

  // ------------------------------------------------------------------- hash chains

  predicate NextAt(bs: seq<Block>, l: seq<nat>, k: nat) {
    k < |l| ==> l[k] < |bs| && bs[l[k]].hashNext == At(l, k + 1)
  }

  ghost predicate ChainRep(bs: seq<Block>, head: Option, l: seq<nat>) {
    head == At(l, 0) && forall k: nat :: NextAt(bs, l, k)
  }

  lemma ChainFrame(bs: seq<Block>, bs': seq<Block>, head: Option, l: seq<nat>)
    requires ChainRep(bs, head, l) && |bs| == |bs'|
    requires forall i: nat :: i in l && i < |bs| ==> bs'[i].hashNext == bs[i].hashNext
    ensures ChainRep(bs', head, l)
  {
    forall k: nat ensures NextAt(bs', l, k) { assert NextAt(bs, l, k); }
  }

  lemma ChainPush(bs: seq<Block>, head: Option, l: seq<nat>, i: nat)
    requires ChainRep(bs, head, l) && i !in l && i < |bs|
    ensures ChainRep(bs[i := bs[i].(hashNext := head)], Some(i), [i] + l)
  {
    var bs' := bs[i := bs[i].(hashNext := head)];
    forall k: nat ensures NextAt(bs', [i] + l, k) {
      if 0 < k { assert NextAt(bs, l, k - 1); }
    }
  }

  /** Make the predecessor, or the head, skip the element at place `k`. */
  lemma ChainCut(bs: seq<Block>, head: Option, l: seq<nat>, k: nat, bs': seq<Block>, head': Option)
    requires ChainRep(bs, head, l) && NoDup(l) && k < |l| && |bs'| == |bs|
    requires forall i: nat :: i < |bs| && (k == 0 || i != l[k - 1]) && i != l[k] ==> bs'[i].hashNext == bs[i].hashNext
    requires head' == if k == 0 then At(l, 1) else head
    requires k > 0 && l[k - 1] < |bs| ==> bs'[l[k - 1]].hashNext == At(l, k + 1)
    ensures ChainRep(bs', head', l[..k] + l[k + 1..])
  {
    var r := l[..k] + l[k + 1..];
    forall j: nat ensures NextAt(bs', r, j) {
      assert NextAt(bs, l, j) && NextAt(bs, l, j + 1);
    }
  }

  // ---------------------------------------------------------------------- LRU list

  predicate LinkAt(bs: seq<Block>, l: seq<nat>, k: nat) {
    k < |l| ==> l[k] < |bs| && bs[l[k]].lruNext == At(l, k + 1) && bs[l[k]].lruPrev == At(l, k - 1)
  }

  ghost predicate LruRep(bs: seq<Block>, head: Option, tail: Option, l: seq<nat>) {
    head == At(l, 0) && tail == At(l, |l| - 1) && forall k: nat :: LinkAt(bs, l, k)
  }

  lemma LruFrame(bs: seq<Block>, bs': seq<Block>, head: Option, tail: Option, l: seq<nat>)
    requires LruRep(bs, head, tail, l) && |bs| == |bs'|
    requires forall i: nat :: i < |bs| ==> bs'[i].lruNext == bs[i].lruNext && bs'[i].lruPrev == bs[i].lruPrev
    ensures LruRep(bs', head, tail, l)
  {
    forall k: nat ensures LinkAt(bs', l, k) { assert LinkAt(bs, l, k); }
  }

  /** Taking out the element at place `k` by joining its neighbours. */
  lemma LruCut(bs: seq<Block>, head: Option, tail: Option, l: seq<nat>, k: nat,
               bs': seq<Block>, head': Option, tail': Option)
    requires LruRep(bs, head, tail, l) && NoDup(l) && k < |l| && |bs'| == |bs|
    requires head' == if k == 0 then At(l, 1) else head
    requires tail' == if k == |l| - 1 then At(l, k - 1) else tail
    requires forall i: nat :: i < |bs| && i != l[k] ==>
               && bs'[i].lruNext == (if k > 0 && i == l[k - 1] then At(l, k + 1) else bs[i].lruNext)
               && bs'[i].lruPrev == (if k + 1 < |l| && i == l[k + 1] then At(l, k - 1) else bs[i].lruPrev)
    ensures LruRep(bs', head', tail', l[..k] + l[k + 1..])
  {
    var r := l[..k] + l[k + 1..];
    forall j: nat ensures LinkAt(bs', r, j) {
      assert LinkAt(bs, l, j) && LinkAt(bs, l, j + 1);
    }
  }

  function SetNext(bs: seq<Block>, at: Option, next: Option): seq<Block> {
    if at.Some? && at.value < |bs| then bs[at.value := bs[at.value].(lruNext := next)] else bs
  }

  function SetPrev(bs: seq<Block>, at: Option, prev: Option): seq<Block> {
    if at.Some? && at.value < |bs| then bs[at.value := bs[at.value].(lruPrev := prev)] else bs
  }

  /** The pool after taking block `i` out of the list. */
  function TakeOut(bs: seq<Block>, i: nat): seq<Block>
    requires i < |bs|
  {
    var bs1 := SetNext(bs, bs[i].lruPrev, bs[i].lruNext);
    var bs2 := SetPrev(bs1, bs[i].lruNext, bs[i].lruPrev);
    bs2[i := bs2[i].(lruPrev := None, lruNext := None)]
  }

  lemma TakeOutCuts(bs: seq<Block>, head: Option, tail: Option, l: seq<nat>, k: nat)
    requires LruRep(bs, head, tail, l) && NoDup(l) && k < |l| && l[k] < |bs|
    ensures var b := bs[l[k]];
            LruRep(TakeOut(bs, l[k]), if b.lruPrev.Some? then head else b.lruNext,
                   if b.lruNext.Some? then tail else b.lruPrev, l[..k] + l[k + 1..])
  {
    assert LinkAt(bs, l, k) && LinkAt(bs, l, k + 1) && (k > 0 ==> LinkAt(bs, l, k - 1));
    var b := bs[l[k]];
    LruCut(bs, head, tail, l, k, TakeOut(bs, l[k]), if b.lruPrev.Some? then head else b.lruNext,
           if b.lruNext.Some? then tail else b.lruPrev);
  }

  /** The list without block `i`, however the block is found in it. */
  lemma TakenOut(bs: seq<Block>, head: Option, tail: Option, l: seq<nat>, i: nat)
    requires LruRep(bs, head, tail, l) && NoDup(l) && i in l && i < |bs|
    ensures bs[i].lruPrev.Some? ==> bs[i].lruPrev.value < |bs|
    ensures bs[i].lruNext.Some? ==> bs[i].lruNext.value < |bs|
    ensures LruRep(TakeOut(bs, i), if bs[i].lruPrev.Some? then head else bs[i].lruNext,
                   if bs[i].lruNext.Some? then tail else bs[i].lruPrev, RemoveFirst(l, i))
  {
    var k: nat :| k < |l| && l[k] == i;
    assert LinkAt(bs, l, k) && LinkAt(bs, l, k + 1) && (k > 0 ==> LinkAt(bs, l, k - 1));
    RemoveFirstCuts(l, k);
    TakeOutCuts(bs, head, tail, l, k);
  }

  lemma TakeOutKeeps(bs: seq<Block>, i: nat)
    requires i < |bs|
    ensures |TakeOut(bs, i)| == |bs|
    ensures forall j: nat :: j < |bs| ==>
              TakeOut(bs, i)[j].slot == bs[j].slot && TakeOut(bs, i)[j].hashNext == bs[j].hashNext
  {
  }

  lemma LruPush(bs: seq<Block>, head: Option, tail: Option, l: seq<nat>, i: nat,
                bs': seq<Block>, tail': Option)
    requires LruRep(bs, head, tail, l) && NoDup(l) && i !in l && i < |bs| == |bs'|
    requires bs'[i].lruPrev == None && bs'[i].lruNext == head
    requires forall j: nat :: j < |bs| && j != i ==>
               && bs'[j].lruNext == bs[j].lruNext
               && bs'[j].lruPrev == (if head == Some(j) then Some(i) else bs[j].lruPrev)
    requires tail' == if tail.None? then Some(i) else tail
    ensures LruRep(bs', Some(i), tail', [i] + l)
  {
    forall k: nat ensures LinkAt(bs', [i] + l, k) {
      if 0 < k { assert LinkAt(bs, l, k - 1); }
    }
  }
}
