/** The image under construction by `mkfs.viperfs` (tools/mkfs.viperfs.cpp) and its invariant. */
module Mkfs {
  import opened ViperFormat

  // ------------------------------------------------------- directory block layout

  /** A directory entry without its record length. */
  datatype Ent = Ent(ino: nat, ftype: u8, name: seq<u8>)

  predicate EntFits(e: Ent) {
    e.ino < U64 && |e.name| < 256
  }

  lemma NeedBounds(name: seq<u8>)
    ensures HEADER + |name| <= Need(name) < HEADER + |name| + 8 && Need(name) % 8 == 0
  {
  }

  /** From `pos` on, the block is tiled by records for exactly `ents`: 8-aligned, each with the length it
      needs, except that the last one extends to the end of the block. */
  predicate Tiles(b: Block, ents: seq<Ent>, pos: nat)
    decreases |ents|
  {
    && |ents| > 0 && pos % 8 == 0 && EntFits(ents[0])
    && pos + Need(ents[0].name) <= BLOCK_SIZE
    && RecAt(b, pos) == Rec(ents[0].ino, if |ents| == 1 then BLOCK_SIZE - pos else Need(ents[0].name),
                            ents[0].ftype, ents[0].name)
    && (|ents| > 1 ==> Tiles(b, ents[1..], pos + Need(ents[0].name)))
  }

  lemma TilesHead(b: Block, ents: seq<Ent>, pos: nat)
    requires Tiles(b, ents, pos)
    ensures |ents| > 0 && pos + Need(ents[0].name) <= BLOCK_SIZE && RecAt(b, pos).name == ents[0].name
    ensures RecAt(b, pos).len == if |ents| == 1 then BLOCK_SIZE - pos else Need(ents[0].name)
    ensures |ents| > 1 ==> Tiles(b, ents[1..], pos + Need(ents[0].name))
  {
  }

  /** Bytes the entries need. */
  function Used(ents: seq<Ent>): nat {
    if ents == [] then 0 else Need(ents[0].name) + Used(ents[1..])
  }

  /** Split the record of the last entry, at `pos`: it shrinks to the length it needs and the new
      entry's record takes over the rest of the block. */
  function SplitRec(b: Block, pos: nat, last: Ent, e: Ent): Block
    requires pos + Need(last.name) + Need(e.name) <= BLOCK_SIZE && EntFits(last) && EntFits(e)
  {
    var next := pos + Need(last.name);
    Splice(Splice(b, next, HeaderBytes(Rec(e.ino, BLOCK_SIZE - next, e.ftype, e.name))), pos + 8, ToBytes(Need(last.name), 2))
  }

  function AppendEnt(b: Block, ents: seq<Ent>, pos: nat, e: Ent): Block
    requires ents != [] && EntFits(e) && pos + Used(ents) + Need(e.name) <= BLOCK_SIZE
    requires EntFits(ents[|ents| - 1])
    decreases |ents|
  {
    if |ents| == 1 then
      assert Used(ents) == Need(ents[0].name) + Used(ents[1..]) == Need(ents[0].name);
      SplitRec(b, pos, ents[0], e)
    else AppendEnt(b, ents[1..], pos + Need(ents[0].name), e)
  }

  lemma SplitTiles(b: Block, pos: nat, last: Ent, e: Ent)
    requires pos + Need(last.name) + Need(e.name) <= BLOCK_SIZE && EntFits(e)
    requires Tiles(b, [last], pos)
    ensures Tiles(SplitRec(b, pos, last, e), [last, e], pos)
  {
    NeedBounds(e.name);
    NeedBounds(last.name);
    hide HeaderBytes, Splice, RecAt;
    var next := pos + Need(last.name);
    var new_ := Rec(e.ino, BLOCK_SIZE - next, e.ftype, e.name);
    var b1 := Splice(b, next, HeaderBytes(new_));
    var b2 := SplitRec(b, pos, last, e);
    RecWritten(b, next, new_);
    RecKept(b, next, HeaderBytes(new_), pos);
    RecKept(b1, pos + 8, ToBytes(Need(last.name), 2), next);
    RecLenChanged(b1, pos, Need(last.name));
    assert [last, e][1..] == [e];
    assert Tiles(b2, [e], next);
  }

  /** Splitting the last record touches no byte before it. */
  lemma {:induction false} AppendKeepsBefore(b: Block, ents: seq<Ent>, pos: nat, e: Ent, p: nat)
    requires ents != [] && EntFits(e) && pos + Used(ents) + Need(e.name) <= BLOCK_SIZE
    requires EntFits(ents[|ents| - 1]) && p + HEADER + |RecAt(b, p).name| <= pos
    ensures RecAt(AppendEnt(b, ents, pos, e), p) == RecAt(b, p)
    decreases |ents|
  {
    NeedBounds(e.name);
    NeedBounds(ents[|ents| - 1].name);
    hide Need, HeaderBytes, RecAt, Splice;
    if |ents| == 1 {
      assert Used(ents) == Need(ents[0].name) + Used(ents[1..]);
      var next := pos + Need(ents[0].name);
      var h := HeaderBytes(Rec(e.ino, BLOCK_SIZE - next, e.ftype, e.name));
      RecKept(b, next, h, p);
      RecKept(Splice(b, next, h), pos + 8, ToBytes(Need(ents[0].name), 2), p);
    } else {
      AppendKeepsBefore(b, ents[1..], pos + Need(ents[0].name), e, p);
    }
  }

  /** Appending keeps the tiling: the block now holds the old entries followed by the new one. */
  lemma {:induction false} AppendTiles(b: Block, ents: seq<Ent>, pos: nat, e: Ent)
    requires Tiles(b, ents, pos) && EntFits(e) && pos + Used(ents) + Need(e.name) <= BLOCK_SIZE
    requires EntFits(ents[|ents| - 1])
    ensures Tiles(AppendEnt(b, ents, pos, e), ents + [e], pos)
    decreases |ents|
  {
    if |ents| == 1 {
      assert Used(ents) == Need(ents[0].name) + Used(ents[1..]);
      assert ents == [ents[0]] && ents + [e] == [ents[0], e];
      SplitTiles(b, pos, ents[0], e);
    } else {
      var next := pos + Need(ents[0].name);
      AppendTiles(b, ents[1..], next, e);
      AppendKeepsBefore(b, ents[1..], next, e, pos);
      assert (ents + [e])[1..] == ents[1..] + [e];
    }
  }

  /** Appending splits the record of the last entry, which starts where the others end. */
  lemma {:induction false} AppendAtLast(b: Block, ents: seq<Ent>, pos: nat, e: Ent)
    requires ents != [] && EntFits(e) && pos + Used(ents) + Need(e.name) <= BLOCK_SIZE
    requires EntFits(ents[|ents| - 1])
    ensures var last := ents[|ents| - 1];
            Used(ents) >= Need(last.name) &&
            AppendEnt(b, ents, pos, e) == SplitRec(b, pos + Used(ents) - Need(last.name), last, e)
    decreases |ents|
  {
    hide Need, SplitRec;
    if |ents| > 1 {
      AppendAtLast(b, ents[1..], pos + Need(ents[0].name), e);
    } else {
      assert Used(ents) == Need(ents[0].name) + Used(ents[1..]);
    }
  }

  lemma {:induction false} TilesFits(b: Block, ents: seq<Ent>, pos: nat)
    requires Tiles(b, ents, pos)
    ensures EntFits(ents[|ents| - 1]) && pos + Used(ents) <= BLOCK_SIZE
    decreases |ents|
  {
    if |ents| > 1 { TilesFits(b, ents[1..], pos + Need(ents[0].name)); }
  }

  const Dot: seq<u8> := [46]
  const DotDot: seq<u8> := [46, 46]

  function DotEntries(self: nat, parent: nat): seq<Ent> {
    [Ent(self, FT_DIR, Dot), Ent(parent, FT_DIR, DotDot)]
  }

  /** `init_dir_block` on a zeroed buffer. */
  function NewDirBlock(self: nat, parent: nat): Block {
    Splice(Splice(Zeros(BLOCK_SIZE), 0, HeaderBytes(Rec(self, 16, FT_DIR, Dot))),
           16, HeaderBytes(Rec(parent, BLOCK_SIZE - 16, FT_DIR, DotDot)))
  }

  lemma NewDirTiles(self: nat, parent: nat)
    requires self < U64 && parent < U64
    ensures Tiles(NewDirBlock(self, parent), DotEntries(self, parent), 0)
  {
    var h1, h2 := HeaderBytes(Rec(self, 16, FT_DIR, Dot)), HeaderBytes(Rec(parent, BLOCK_SIZE - 16, FT_DIR, DotDot));
    var b1 := Splice(Zeros(BLOCK_SIZE), 0, h1);
    RecWritten(Zeros(BLOCK_SIZE), 0, Rec(self, 16, FT_DIR, Dot));
    RecWritten(b1, 16, Rec(parent, BLOCK_SIZE - 16, FT_DIR, DotDot));
    RecKept(b1, 16, h2, 0);
    var ents := DotEntries(self, parent);
    assert ents[1..] == [Ent(parent, FT_DIR, DotDot)];
    assert Tiles(NewDirBlock(self, parent), ents[1..], 16);
  }
}
