/** The block cache as a mutable object (kernel/fs/cache.cpp): an array of blocks carrying the chain and list
    pointers, the hash table, and the methods, each proved to take the value step of `BlockCache`. */
module CacheObject {
  import opened Sequences
  import opened CacheCore
  import opened CacheLinks
  import opened BlockCache
  import opened CacheRefinement

  /** Chains as every caller finds them: no repeats, each slot under its own number. */
  ghost predicate Chained(c: Core) {
    |c.chains| > 0 && forall h: nat :: ChainOk(c, h)
  }

  lemma InsertSlides(slots: seq<Slot>, l: seq<nat>, j: nat, key: nat)
    requires 0 < j <= |l| && Num(slots, l[j - 1]) > Num(slots, key)
    requires InsertByNum(slots, l, key) == InsertByNum(slots, l[..j], key) + l[j..]
    ensures InsertByNum(slots, l, key) == InsertByNum(slots, l[..j - 1], key) + l[j - 1..]
  {
    assert l[..j][..j - 1] == l[..j - 1];
    assert [l[j - 1]] + l[j..] == l[j - 1..];
  }

  lemma InsertStops(slots: seq<Slot>, l: seq<nat>, key: nat)
    requires l == [] || Num(slots, l[|l| - 1]) <= Num(slots, key)
    ensures InsertByNum(slots, l, key) == l + [key]
  {
  }

  predicate SlidAt(o: seq<nat>, orig: seq<nat>, j: nat, i: nat, k: nat) {
    k < |o| == |orig| && k != j ==> o[k] == if j < k <= i then orig[k - 1] else orig[k]
  }

  /** The array once the places between `j` and `i` have moved up by one; place `j` is the gap. */
  ghost predicate Slid(o: seq<nat>, orig: seq<nat>, j: nat, i: nat) {
    |o| == |orig| && j <= i < |orig| && forall k: nat :: SlidAt(o, orig, j, i, k)
  }

  lemma SlidStart(orig: seq<nat>, i: nat)
    requires i < |orig|
    ensures Slid(orig, orig, i, i)
  {
  }

  lemma SlidStep(o: seq<nat>, orig: seq<nat>, j: nat, i: nat)
    requires Slid(o, orig, j, i) && j > 0
    ensures Slid(o[j := o[j - 1]], orig, j - 1, i)
  {
    var o', j' := o[j := o[j - 1]], j - 1;
    assert SlidAt(o, orig, j, i, j');
    forall k: nat ensures SlidAt(o', orig, j', i, k) { assert SlidAt(o, orig, j, i, k); }
  }

  lemma GapFilled(o: seq<nat>, orig: seq<nat>, j: nat, i: nat, key: nat)
    requires Slid(o, orig, j, i)
    ensures o[j := key][..i + 1] == orig[..i][..j] + [key] + orig[..i][j..]
    ensures forall k :: i < k < |o| ==> o[j := key][k] == orig[k]
  {
    var o', l := o[j := key], orig[..i];
    forall k | i < k < |o| ensures o'[k] == orig[k] { assert SlidAt(o, orig, j, i, k); }
    var r := l[..j] + [key] + l[j..];
    forall k | 0 <= k <= i ensures o'[k] == r[k] { assert SlidAt(o, orig, j, i, k); }
    assert o'[..i + 1] == r;
  }

  lemma SyncBelow(slots: seq<Slot>)
    ensures forall k :: 0 <= k < |SyncOrder(slots)| ==> SyncOrder(slots)[k] < |slots|
  {
    forall k | 0 <= k < |SyncOrder(slots)| ensures SyncOrder(slots)[k] < |slots| {
      assert SyncOrder(slots)[k] in SyncOrder(slots);
    }
  }

  class Pool {
    const blocks: array<Block>
    const hash: array<Option>
    var lruHead: Option
    var lruTail: Option
    var last: nat
    // the device and a record of the writes sent to it
    var dev: Device
    var writes: seq<nat>
    // the lists the pointers stand for
    ghost var chains: seq<seq<nat>>
    ghost var lru: seq<nat>
    ghost var touched: seq<nat>

    ghost function Abs(): Core
      reads this, blocks
    {
      Core(SlotsOf(blocks[..]), chains, lru, touched)
    }

    ghost function State(): Cache
      reads this, blocks
    {
      Cache(Abs(), dev, writes, last)
    }

    ghost predicate Threaded()
      reads this, blocks, hash
    {
      && hash.Length == |chains|
      && Chained(Abs())
      && NoDup(lru) && (forall i :: i in lru ==> i < blocks.Length)
      && (forall h: nat :: h < |chains| ==> ChainRep(blocks[..], hash[h], chains[h]))
      && LruRep(blocks[..], lruHead, lruTail, lru)
    }

    ghost predicate Valid()
      reads this, blocks, hash
    {
      Threaded() && Inv(State())
    }

    /** All slots invalid, every chain empty, the list in pool order. */
    constructor (size: nat, buckets: nat, junk: seq<Data>, device: Device)
      requires size > 0 && buckets > 0 && |junk| == size
      ensures Valid() && State() == Init(size, buckets, junk, device)
      ensures fresh(blocks) && fresh(hash)
    {
      blocks := new Block[size](i requires 0 <= i < size =>
        Block(Slot(0, junk[i], false, false, false, 0), None,
              if i > 0 then Some(i - 1) else None, if i < size - 1 then Some(i + 1) else None));
      hash := new Option[buckets](_ => None);
      lruHead, lruTail, last, dev, writes := Some(0), Some(size - 1), 0, device, [];
      chains, lru, touched := seq(buckets, _ => []), seq(size, i => i), [];
      new;
      InitInv(size, buckets, junk, device);
      assert State() == Init(size, buckets, junk, device);
      forall k: nat ensures LinkAt(blocks[..], lru, k) { }
      forall h: nat | h < |chains| ensures ChainRep(blocks[..], hash[h], chains[h]) { }
    }

    // --------------------------------------------------------------------- lookup

    method FindAnySlot(n: nat) returns (r: Option)
      requires Threaded()
      ensures r == FindAny(Abs(), n)
    {
      var h := n % hash.Length;
      r := hash[h];
      ghost var chain, slots, k := chains[h], SlotsOf(blocks[..]), 0;
      assert ChainRep(blocks[..], hash[h], chain) && ChainOk(Abs(), h);
      assert chain[0..] == chain;
      while r.Some?
        invariant k <= |chain| && r == At(chain, k)
        invariant FindIn(slots, chain, n) == FindIn(slots, chain[k..], n)
        decreases |chain| - k
      {
        assert NextAt(blocks[..], chain, k);
        if blocks[r.value].slot.num == n { return; }
        assert chain[k..][1..] == chain[k + 1..];
        r, k := blocks[r.value].hashNext, k + 1;
      }
    }

    method FindSlot(n: nat) returns (r: Option)
      requires Threaded()
      ensures r == Find(Abs(), n)
    {
      var h := n % hash.Length;
      r := hash[h];
      ghost var chain, slots, k := chains[h], SlotsOf(blocks[..]), 0;
      assert ChainRep(blocks[..], hash[h], chain) && ChainOk(Abs(), h);
      assert chain[0..] == chain;
      while r.Some?
        invariant k <= |chain| && r == At(chain, k)
        invariant FindValidIn(slots, chain, n) == FindValidIn(slots, chain[k..], n)
        decreases |chain| - k
      {
        assert NextAt(blocks[..], chain, k);
        if blocks[r.value].slot.valid && blocks[r.value].slot.num == n { return; }
        assert chain[k..][1..] == chain[k + 1..];
        r, k := blocks[r.value].hashNext, k + 1;
      }
    }

    method FindVictim() returns (r: Option)
      requires Threaded()
      ensures r == Victim(Abs())
    {
      r := lruTail;
      ghost var slots, k := SlotsOf(blocks[..]), |lru|;
      assert lru[..k] == lru;
      while r.Some?
        invariant 0 <= k <= |lru| && r == At(lru, k - 1)
        invariant VictimIn(slots, lru) == VictimIn(slots, lru[..k])
        decreases k
      {
        assert LinkAt(blocks[..], lru, k - 1);
        if blocks[r.value].slot.refs == 0 && !blocks[r.value].slot.pinned { return; }
        assert lru[..k][..k - 1] == lru[..k - 1];
        r, k := blocks[r.value].lruPrev, k - 1;
      }
    }

    // -------------------------------------------------------------------- pointers

    /** Change a slot's own fields; its number only while it is in no chain. */
    method SetSlotAt(i: nat, s: Slot)
      requires Threaded() && i < blocks.Length
      requires s.num == blocks[i].slot.num || forall h: nat :: h < |chains| ==> i !in chains[h]
      modifies blocks
      ensures Threaded() && Abs() == SetSlot(old(Abs()), i, s)
    {
      ghost var bs, c := blocks[..], Abs();
      blocks[i] := blocks[i].(slot := s);
      assert Abs().slots == c.slots[i := s];
      forall h: nat ensures ChainOk(Abs(), h) { assert ChainOk(c, h); }
      forall h: nat | h < |chains| ensures ChainRep(blocks[..], hash[h], chains[h]) {
        ChainFrame(bs, blocks[..], hash[h], chains[h]);
      }
      LruFrame(bs, blocks[..], lruHead, lruTail, lru);
    }

    method InsertHash(i: nat)
      requires Threaded() && i < blocks.Length && forall h: nat :: h < |chains| ==> i !in chains[h]
      modifies this`chains, blocks, hash
      ensures Threaded() && Abs() == Link(old(Abs()), i)
    {
      ghost var bs, c := blocks[..], Abs();
      var h := blocks[i].slot.num % hash.Length;
      assert ChainRep(bs, hash[h], chains[h]);
      ChainPush(bs, hash[h], chains[h], i);
      ghost var heads := hash[..];
      blocks[i] := blocks[i].(hashNext := hash[h]);
      hash[h] := Some(i);
      chains := chains[h := [i] + chains[h]];
      assert Abs().slots == c.slots;
      forall g: nat ensures ChainOk(Abs(), g) { assert ChainOk(c, g); }
      forall g: nat | g < |chains| ensures ChainRep(blocks[..], hash[g], chains[g]) {
        if g == h {
          assert blocks[..] == bs[i := bs[i].(hashNext := heads[h])];
        } else {
          assert ChainRep(bs, heads[g], c.chains[g]);
          ChainFrame(bs, blocks[..], hash[g], chains[g]);
        }
      }
      LruFrame(bs, blocks[..], lruHead, lruTail, lru);
    }

    /** Walks the chain with the previous link in hand, as the pointer to a pointer does. */
    method RemoveHash(i: nat)
      requires Threaded() && i < blocks.Length
      modifies this`chains, blocks, hash
      ensures Threaded() && Abs() == Unlink(old(Abs()), i)
    {
      var h := blocks[i].slot.num % hash.Length;
      ghost var chain, bs := chains[h], blocks[..];
      assert ChainRep(bs, hash[h], chain) && ChainOk(Abs(), h);
      var prev, cur := None, hash[h];
      ghost var k := 0;
      while cur.Some? && cur.value != i
        invariant 0 <= k <= |chain| && cur == At(chain, k) && prev == At(chain, k - 1)
        invariant i !in chain[..k]
        decreases |chain| - k
      {
        assert NextAt(bs, chain, k);
        prev, cur, k := cur, blocks[cur.value].hashNext, k + 1;
      }
      if cur.Some? {
        CutHash(h, i, k, prev);
      } else {
        RemoveFirstAbsent(chain, i);
        assert chains == chains[h := chain];
      }
    }

    method CutHash(h: nat, i: nat, ghost k: nat, prev: Option)
      requires Threaded() && i < blocks.Length && h == blocks[i].slot.num % hash.Length
      requires k < |chains[h]| && chains[h][k] == i && prev == At(chains[h], k - 1)
      modifies this`chains, blocks, hash
      ensures Threaded() && Abs() == Unlink(old(Abs()), i)
    {
      ghost var bs, c, chain, heads := blocks[..], Abs(), chains[h], hash[..];
      assert ChainRep(bs, hash[h], chain) && ChainOk(c, h);
      assert NextAt(bs, chain, k) && (k > 0 ==> NextAt(bs, chain, k - 1));
      if prev.None? {
        hash[h] := blocks[i].hashNext;
      } else {
        blocks[prev.value] := blocks[prev.value].(hashNext := blocks[i].hashNext);
      }
      blocks[i] := blocks[i].(hashNext := None);
      chains := chains[h := RemoveFirst(chain, i)];
      RemoveFirstCuts(chain, k);
      ChainCut(bs, heads[h], chain, k, blocks[..], hash[h]);
      assert Abs().slots == c.slots;
      assert Abs() == Unlink(c, i);
      UnlinkAt(c, i);
      hide NextAt, LinkAt, RemoveFirst;
      forall g: nat | g < |chains| && g != h ensures ChainRep(blocks[..], hash[g], chains[g]) {
        assert ChainRep(bs, heads[g], c.chains[g]) && ChainOk(c, g);
        assert k > 0 ==> Bucket(c, c.slots[chain[k - 1]].num) == h;
        ChainFrame(bs, blocks[..], hash[g], chains[g]);
      }
      LruFrame(bs, blocks[..], lruHead, lruTail, lru);
    }

    method JoinNeighbours(i: nat)
      requires i < blocks.Length
      requires blocks[i].lruPrev.Some? ==> blocks[i].lruPrev.value < blocks.Length
      requires blocks[i].lruNext.Some? ==> blocks[i].lruNext.value < blocks.Length
      modifies this`lruHead, this`lruTail, blocks
      ensures blocks[..] == TakeOut(old(blocks[..]), i)
      ensures lruHead == if old(blocks[i]).lruPrev.Some? then old(lruHead) else old(blocks[i]).lruNext
      ensures lruTail == if old(blocks[i]).lruNext.Some? then old(lruTail) else old(blocks[i]).lruPrev
    {
      var b := blocks[i];
      if b.lruPrev.Some? {
        blocks[b.lruPrev.value] := blocks[b.lruPrev.value].(lruNext := b.lruNext);
      } else {
        lruHead := b.lruNext;
      }
      assert blocks[..] == SetNext(old(blocks[..]), b.lruPrev, b.lruNext);
      if b.lruNext.Some? {
        blocks[b.lruNext.value] := blocks[b.lruNext.value].(lruPrev := b.lruPrev);
      } else {
        lruTail := b.lruPrev;
      }
      blocks[i] := blocks[i].(lruPrev := None, lruNext := None);
    }

    method LruRemove(i: nat)
      requires Threaded() && i in lru
      modifies this`lruHead, this`lruTail, this`lru, blocks
      ensures Threaded() && Abs() == old(Abs()).(lru := RemoveFirst(old(lru), i))
    {
      ghost var bs, c, l := blocks[..], Abs(), lru;
      TakenOut(bs, lruHead, lruTail, l, i);
      TakeOutKeeps(bs, i);
      RemoveFirstFacts(l, i);
      hide TakeOut, RemoveFirst, LruRep, NoDup;
      JoinNeighbours(i);
      lru := RemoveFirst(l, i);
      assert Abs().slots == c.slots;
      SameChains(c, bs);
    }

    /** Chains survive a change that leaves slots, chain pointers and heads alone. */
    lemma SameChains(c: Core, bs: seq<Block>)
      requires Chained(c) && hash.Length == |chains| && chains == c.chains && SlotsOf(blocks[..]) == c.slots
      requires |bs| == blocks.Length && forall h: nat :: h < |chains| ==> ChainRep(bs, hash[h], chains[h])
      requires forall i: nat :: i < |bs| ==> blocks[i].hashNext == bs[i].hashNext
      ensures Chained(Abs())
      ensures forall h: nat :: h < |chains| ==> ChainRep(blocks[..], hash[h], chains[h])
    {
      forall h: nat ensures ChainOk(Abs(), h) { assert ChainOk(c, h); }
      forall h: nat | h < |chains| ensures ChainRep(blocks[..], hash[h], chains[h]) {
        ChainFrame(bs, blocks[..], hash[h], chains[h]);
      }
    }

    method LruAddHead(i: nat)
      requires Threaded() && i !in lru && i < blocks.Length
      modifies this`lruHead, this`lruTail, this`lru, blocks
      ensures Threaded() && Abs() == old(Abs()).(lru := [i] + old(lru))
    {
      ghost var bs, c, l, head, tail := blocks[..], Abs(), lru, lruHead, lruTail;
      assert LinkAt(bs, l, 0);
      blocks[i] := blocks[i].(lruPrev := None, lruNext := lruHead);
      if lruHead.Some? {
        blocks[lruHead.value] := blocks[lruHead.value].(lruPrev := Some(i));
      }
      lruHead := Some(i);
      if lruTail.None? { lruTail := Some(i); }
      lru := [i] + l;
      LruPush(bs, head, tail, l, i, blocks[..], lruTail);
      assert Abs().slots == c.slots;
      SameChains(c, bs);
    }

    method TouchSlot(i: nat)
      requires Threaded() && i in lru
      modifies this`lruHead, this`lruTail, this`lru, this`touched, blocks
      ensures Threaded() && Abs() == Touch(old(Abs()), i)
    {
      ghost var l := lru;
      RemoveFirstFacts(l, i);
      if lruHead == Some(i) {
        assert l == [i] + l[1..];
      } else {
        LruRemove(i);
        LruAddHead(i);
      }
      ghost var c := Abs();
      touched := touched + [i];
      forall h: nat ensures ChainOk(Abs(), h) { assert ChainOk(c, h); }
    }

    // ------------------------------------------------------------------ operations

    method WriteBlock(n: nat, data: Data)
      modifies this`dev, this`writes
      ensures dev == old(dev)[n := data] && writes == old(writes) + [n]
    {
      dev, writes := dev[n := data], writes + [n];
    }

    /** Unlink the victim, rename it, and link it again, invalid and held. */
    method ReserveFor(v: nat, n: nat, touch: bool)
      requires Valid() && v < blocks.Length
      modifies this`chains, this`lruHead, this`lruTail, this`lru, this`touched, blocks, hash
      ensures Threaded() && Abs() == var r := Reserve(old(Abs()), v, n); if touch then Touch(r, v) else r
    {
      ghost var c := Abs();
      assert SlotOk(c, {}, v);
      InPermutation(lru, blocks.Length, v);
      var s := blocks[v].slot;
      if s.valid {
        UnlinkAt(c, v);
        RemoveHash(v);
      }
      NotInChains(Abs(), v);
      SetSlotAt(v, s.(num := n, valid := false, dirty := false, refs := 1));
      InsertHash(v);
      if touch { TouchSlot(v); }
    }

    /** Fill the reserved slot, or give it back if the block could not be read. */
    method FinishLoad(v: nat, n: nat, read: Read, dirty: bool, refs: nat)
      requires Threaded() && v < blocks.Length
      modifies this`chains, blocks, hash
      ensures Threaded()
      ensures Abs() == match read
                       case Good => Loaded(old(Abs()), v, Dev(dev, n), dirty, refs)
                       case Bad(junk) => LoadFailed(old(Abs()), v, junk)
    {
      var s := blocks[v].slot;
      if read.Good? {
        SetSlotAt(v, s.(data := Dev(dev, n), valid := true, dirty := dirty, refs := refs));
      } else {
        UnlinkAt(Abs(), v);
        RemoveHash(v);
        NotInChains(Abs(), v);
        SetSlotAt(v, s.(num := 0, data := read.junk, refs := 0));
      }
    }

    method RefillSlot(v: nat, n: nat, touch: bool, read: Read, dirty: bool, refs: nat)
      requires Valid() && v < blocks.Length && FindAny(Abs(), n).None?
      modifies this, blocks, hash
      ensures Valid() && State() == Refill(old(State()), v, n, touch, read, dirty, refs)
    {
      ghost var c := State();
      var s := blocks[v].slot;
      ReserveFor(v, n, touch);
      if s.valid && s.dirty { WriteBlock(s.num, s.data); }
      FinishLoad(v, n, read, dirty, refs);
      hide Reserve, Touch, Loaded, LoadFailed, ChainOk, SlotOk, Apart, Coherent, ChainRep, LruRep, SameView;
      assert State() == Refill(c, v, n, touch, read, dirty, refs);
      RefillView(c, v, n, touch, read, dirty, refs);
    }

    method HitSlot(i: nat, dirty: bool)
      requires Threaded() && i < blocks.Length && i in lru
      modifies this`lruHead, this`lruTail, this`lru, this`touched, blocks
      ensures Threaded()
      ensures Abs() == var h := Hit(old(State()), i).core;
                       if dirty then SetSlot(h, i, h.slots[i].(dirty := true)) else h
    {
      SetSlotAt(i, blocks[i].slot.(refs := blocks[i].slot.refs + 1));
      TouchSlot(i);
      if dirty { SetSlotAt(i, blocks[i].slot.(dirty := true)); }
    }

    method PrefetchBlock(n: nat, read: Read) returns (full: bool)
      requires Valid()
      modifies this, blocks, hash
      ensures Valid() && State() == Prefetch(old(State()), n, read)
      ensures full == (FindAny(old(Abs()), n).None? && Victim(old(Abs())).None?)
      ensures full ==> State() == old(State())
    {
      PrefetchView(State(), n, read);
      var existing := FindAnySlot(n);
      if existing.Some? { return false; }
      var v := FindVictim();
      if v.None? { return true; }
      RefillSlot(v.value, n, false, read, false, 0);
      full := false;
    }

    method ReadAheadFrom(n: nat, depth: nat, io: nat -> Read)
      requires Valid()
      modifies this, blocks, hash
      ensures Valid() && State() == ReadAhead(old(State()), n, 1, depth, io)
    {
      hide Prefetch, FindIn, VictimIn, SlotsOf, ReadAhead;
      hide ChainOk, SlotOk, Apart, Coherent, Ordered, ChainRep, LruRep, SameView, View;
      var i, full := 1, false;
      while i <= depth && !full
        invariant Valid() && 1 <= i
        invariant if full then State() == ReadAhead(old(State()), n, 1, depth, io)
                  else ReadAhead(State(), n, i, depth, io) == ReadAhead(old(State()), n, 1, depth, io)
        decreases depth + 1 - i, !full
      {
        ReadAheadStep(State(), n, i, depth, io);
        full := PrefetchBlock(n + i, io(n + i));
        i := i + 1;
      }
      if !full { ReadAheadStep(State(), n, i, depth, io); }
    }

    method GetBlock(n: nat, depth: nat, io: nat -> Read) returns (r: Option)
      requires Valid()
      modifies this, blocks, hash
      ensures Valid() && (State(), r) == Get(old(State()), n, depth, io)
    {
      hide ChainOk, SlotOk, Apart, Coherent, Ordered, ChainRep, LruRep, SameView, View, Moves;
      FindAnyIsFind(State(), n);
      r := FindAnySlot(n);
      if r.Some? {
        InPermutation(lru, blocks.Length, r.value);
        HitView(State(), r.value);
        LastView(Hit(State(), r.value), n);
        HitSlot(r.value, false);
        last := n;
        return;
      }
      r := GetMissing(n, depth, io);
    }

    method GetMissing(n: nat, depth: nat, io: nat -> Read) returns (r: Option)
      requires Valid() && FindAny(Abs(), n).None?
      modifies this, blocks, hash
      ensures Valid() && (State(), r) == Get(old(State()), n, depth, io)
    {
      hide Refill, ReadAhead;
      hide ChainOk, SlotOk, Apart, Coherent, Ordered, ChainRep, LruRep, SameView, View;
      var prev := last;
      var v := FindVictim();
      if v.None? { return None; }
      RefillSlot(v.value, n, true, io(n), false, 1);
      if io(n).Bad? { return None; }
      LastView(State(), n);
      last := n;
      if n == prev + 1 { ReadAheadFrom(n, depth, io); }
      r := v;
    }

    method GetBlockForWrite(n: nat, io: nat -> Read) returns (r: Option)
      requires Valid()
      modifies this, blocks, hash
      ensures Valid() && (State(), r) == GetForWrite(old(State()), n, io)
    {
      GetForWriteRefines(State(), n, io);
      hide Refill, Denied, Moves;
      hide ChainOk, SlotOk, Apart, Coherent, Ordered, ChainRep, LruRep, SameView, View;
      r := FindAnySlot(n);
      if r.Some? {
        InPermutation(lru, blocks.Length, r.value);
        HitSlot(r.value, true);
        return;
      }
      var v := FindVictim();
      if v.None? { return None; }
      RefillSlot(v.value, n, true, io(n), true, 1);
      r := if io(n).Bad? then None else v;
    }

    /** Releasing no block does nothing. */
    method ReleaseBlock(b: Option)
      requires Valid() && (b.Some? ==> b.value < blocks.Length)
      modifies blocks
      ensures Valid() && State() == if b.Some? then Release(old(State()), b.value) else old(State())
    {
      if b.None? { return; }
      ReleaseRefines(State(), b.value);
      if blocks[b.value].slot.refs > 0 {
        SetSlotAt(b.value, blocks[b.value].slot.(refs := blocks[b.value].slot.refs - 1));
      }
    }

    method PinBlock(n: nat, io: nat -> Read) returns (ok: bool)
      requires Valid()
      modifies this, blocks, hash
      ensures Valid() && (State(), ok) == Pin(old(State()), n, io)
    {
      PinRefines(State(), n, io);
      hide Refill, Denied;
      hide ChainOk, SlotOk, Apart, Coherent, Ordered, ChainRep, LruRep, SameView, View;
      FindAnyIsFind(State(), n);
      var r := FindSlot(n);
      if r.None? {
        r := FindVictim();
        if r.None? { return false; }
        RefillSlot(r.value, n, true, io(n), false, 0);
        if io(n).Bad? { return false; }
      }
      SetSlotAt(r.value, blocks[r.value].slot.(pinned := true));
      ok := true;
    }

    method UnpinBlock(n: nat)
      requires Valid()
      modifies blocks
      ensures Valid() && State() == Unpin(old(State()), n)
    {
      UnpinRefines(State(), n);
      var r := FindSlot(n);
      if r.Some? { SetSlotAt(r.value, blocks[r.value].slot.(pinned := false)); }
    }

    method InvalidateBlock(n: nat)
      requires Valid()
      modifies this, blocks, hash
      ensures Valid() && State() == Invalidate(old(State()), n)
    {
      InvalidateRefines(State(), n);
      var r := FindSlot(n);
      if r.Some? {
        var s := blocks[r.value].slot;
        if s.dirty { WriteBlock(s.num, s.data); }
        RemoveHash(r.value);
        SetSlotAt(r.value, s.(valid := false, dirty := false, pinned := false));
      }
    }

    // ------------------------------------------------------------------------ sync

    lemma NumsOf()
      ensures forall k: nat :: k < blocks.Length ==> Num(SlotsOf(blocks[..]), k) == blocks[k].slot.num
    {
    }

    /** One round of the insertion sort: slide larger numbers up and drop the key in the gap. */
    method InsertKey(order: array<nat>, i: nat)
      requires i < order.Length && forall k :: 0 <= k <= i ==> order[k] < blocks.Length
      modifies order
      ensures order[..i + 1] == InsertByNum(SlotsOf(blocks[..]), old(order[..i]), old(order[i]))
      ensures forall k :: i < k < order.Length ==> order[k] == old(order[k])
    {
      hide InsertByNum, Slid, SlotsOf, Num;
      ghost var orig, l, slots := order[..], order[..i], SlotsOf(blocks[..]);
      NumsOf();
      var key := order[i];
      var j := i;
      assert l[..i] == l;
      assert Slid(orig, orig, i, i) by { SlidStart(orig, i); }
      while j > 0 && blocks[order[j - 1]].slot.num > blocks[key].slot.num
        invariant 0 <= j <= i && Slid(order[..], orig, j, i)
        invariant forall k :: 0 <= k < j ==> order[k] == l[k] < blocks.Length
        invariant InsertByNum(slots, l, key) == InsertByNum(slots, l[..j], key) + l[j..]
      {
        InsertSlides(slots, l, j, key);
        SlidStep(order[..], orig, j, i);
        order[j] := order[j - 1];
        j := j - 1;
      }
      InsertStops(slots, l[..j], key);
      GapFilled(order[..], orig, j, i, key);
      order[j] := key;
    }

    static lemma SortNext(slots: seq<Slot>, l: seq<nat>, i: nat)
      requires i < |l|
      ensures SortByNum(slots, l[..i + 1]) == InsertByNum(slots, SortByNum(slots, l[..i]), l[i])
    {
      assert l[..i + 1][..i] == l[..i];
    }

    method SortOrder(order: array<nat>, count: nat)
      requires count <= order.Length && forall k :: 0 <= k < count ==> order[k] < blocks.Length
      modifies order
      ensures order[..count] == SortByNum(SlotsOf(blocks[..]), old(order[..count]))
    {
      ghost var l, slots := order[..count], SlotsOf(blocks[..]);
      assert forall x :: x in l ==> x < blocks.Length;
      for i := 0 to count
        invariant order[..i] == SortByNum(slots, l[..i])
        invariant forall k :: i <= k < count ==> order[k] == l[k]
      {
        hide SlotsOf, InsertByNum, SortByNum;
        SortNext(slots, l, i);
        forall k | 0 <= k <= i ensures order[k] < blocks.Length {
          if k < i { assert order[..i][k] in l[..i]; }
        }
        InsertKey(order, i);
      }
      assert l[..count] == l;
    }

    method FlushSlot(i: nat)
      requires Valid() && i < blocks.Length
      modifies this`dev, this`writes, blocks
      ensures Valid() && State() == FlushClean(old(State()), i)
    {
      var s := blocks[i].slot;
      if s.valid && s.dirty {
        FlushOne(State(), i);
        WriteBlock(s.num, s.data);
        SetSlotAt(i, s.(dirty := false));
      }
    }

    method CollectDirty() returns (order: array<nat>, count: nat)
      requires Valid()
      ensures fresh(order) && count <= order.Length
      ensures order[..count] == DirtyBelow(SlotsOf(blocks[..]), blocks.Length)
    {
      order, count := new nat[blocks.Length], 0;
      ghost var slots := SlotsOf(blocks[..]);
      for i := 0 to blocks.Length
        invariant count <= i && order[..count] == DirtyBelow(slots, i)
      {
        if blocks[i].slot.valid && blocks[i].slot.dirty {
          order[count] := i;
          count := count + 1;
        }
      }
    }

    method SyncAll()
      requires Valid()
      modifies this`dev, this`writes, blocks
      ensures Valid() && State() == Sync(old(State()))
    {
      ghost var c, size := State(), blocks.Length;
      SyncBelow(c.core.slots);
      hide Inv, Threaded, FlushEach, FlushClean, SortByNum;
      var order, count := CollectDirty();
      forall k | 0 <= k < count ensures order[k] < size { assert order[..count][k] in order[..count]; }
      hide DirtyBelow;
      SortOrder(order, count);
      FlushAll(order, count, SyncOrder(c.core.slots));
    }

    /** Write back the slots listed in `order`, in that order. */
    method FlushAll(order: array<nat>, count: nat, ghost l: seq<nat>)
      requires Valid() && order as object != blocks && count <= order.Length && order[..count] == l
      requires forall k :: 0 <= k < count ==> l[k] < blocks.Length
      modifies this`dev, this`writes, blocks
      ensures Valid() && State() == FlushEach(old(State()), l)
    {
      hide Inv, Threaded, FlushClean;
      ghost var c := State();
      for k := 0 to count
        invariant Valid() && order[..count] == l && State() == FlushEach(c, l[..k])
      {
        assert order[..count][k] == l[k] && l[..k + 1][..k] == l[..k];
        FlushSlot(order[k]);
      }
      assert l[..count] == l;
    }
  }
}
