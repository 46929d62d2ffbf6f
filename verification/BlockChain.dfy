/**
  The growing chain of blocks a client writes a message into. A record may straddle blocks; the
  chain read block after block is the message.
*/
module BlockChain {
  import opened Bytes
  import opened Wrappers

  /** MAX_MSG_BLOCK_LEN less the head of a block. */
  const BLOCK_SIZE := 4072

  /** One piece of a record: AppSpawnAppData. A string is stored with its terminator. */
  datatype Piece = Piece(data: Bytes, isString: bool)

  function Stored(p: Piece): Bytes {
    if p.isString then p.data + [0] else p.data
  }

  /** What pieces take up in the message. */
  function Encoded(pieces: seq<Piece>): Bytes {
    if pieces == [] then [] else Encoded(pieces[..|pieces| - 1]) + Padded(Stored(pieces[|pieces| - 1]))
  }

  class Block {
    const buffer: array<byte>
    var currentIndex: nat

    ghost predicate Valid()
      reads this, buffer
    {
      && buffer.Length == BLOCK_SIZE
      && currentIndex <= BLOCK_SIZE && currentIndex % 4 == 0
      && buffer[currentIndex..] == Zeros(BLOCK_SIZE - currentIndex)
    }

    ghost function Filled(): Bytes
      reads this, buffer
      requires currentIndex <= buffer.Length
    {
      buffer[..currentIndex]
    }

    ghost predicate Is(part: Bytes)
      reads this, buffer
    {
      Valid() && Filled() == part
    }

    /** `calloc` */
    constructor ()
      ensures Valid() && fresh(buffer) && currentIndex == 0
    {
      buffer := new byte[BLOCK_SIZE](_ => 0);
      currentIndex := 0;
    }

    /** Copies a piece behind what is there and moves on to the next multiple of four. */
    method Append(p: Piece)
      requires Valid() && currentIndex + Align4(|Stored(p)|) <= BLOCK_SIZE
      modifies this, buffer
      ensures Valid() && Filled() == old(Filled()) + Padded(Stored(p))
    {
      ghost var before := buffer[..];
      MemCpy(buffer, currentIndex, p.data);
      if p.isString {
        Terminated(before, currentIndex, p.data);
        buffer[currentIndex + |p.data|] := 0;
      }
      AppendedZeros(before, currentIndex, Stored(p));
      currentIndex := currentIndex + Align4(|Stored(p)|);
    }

    /** A store into a field of the message that lies in this block. */
    method StoreField(at: nat, n: u32)
      requires Valid() && at + 4 <= currentIndex
      modifies buffer
      ensures Valid() && Filled() == PutU32(old(Filled()), at, n)
    {
      ghost var before := buffer[..];
      StoreU32(buffer, at, n);
      assert buffer[..currentIndex] == PutU32(before[..currentIndex], at, n);
      assert buffer[currentIndex..] == before[currentIndex..];
    }
  }

  /** Behind the fill index a block is zero, so the padding of what is copied there is zero. */
  lemma AppendedZeros(before: Bytes, at: nat, data: Bytes)
    requires at + Align4(|data|) <= |before| && before[at..] == Zeros(|before| - at)
    ensures var after, end := before[..at] + data + before[at + |data|..], at + Align4(|data|);
            after[..end] == before[..at] + Padded(data) && after[end..] == Zeros(|before| - end)
  {
    var after, end := before[..at] + data + before[at + |data|..], at + Align4(|data|);
    forall i | at <= i < |before|
      ensures before[i] == 0
    {
      assert before[i] == before[at..][i - at];
    }
  }

  lemma Terminated(before: Bytes, at: nat, data: Bytes)
    requires at + |data| < |before|
    ensures (before[..at] + data + before[at + |data|..])[at + |data| := 0] ==
            before[..at] + (data + [0]) + before[at + |data + [0]|..]
  {
  }

  predicate Apart(a: Block, b: Block) {
    a != b && a.buffer != b.buffer
  }

  ghost predicate AllApart(blocks: seq<Block>) {
    forall i, j :: 0 <= i < j < |blocks| ==> Apart(blocks[i], blocks[j])
  }

  /** Every block but the last is completely full. */
  ghost predicate FullButLast(parts: seq<Bytes>) {
    forall i :: 0 <= i < |parts| - 1 ==> |parts[i]| == BLOCK_SIZE
  }

  /** The blocks, but perhaps block `k`, hold these parts, and are among these objects. */
  ghost predicate Stand(blocks: seq<Block>, parts: seq<Bytes>, k: nat, repr: set<object>)
    reads repr
  {
    && |blocks| == |parts|
    && forall i :: 0 <= i < |blocks| && i != k ==>
         blocks[i] in repr && blocks[i].buffer in repr && blocks[i].Is(parts[i])
  }

  lemma Others(blocks: seq<Block>, parts: seq<Bytes>, k: nat, repr: set<object>)
    requires Stand(blocks, parts, |blocks|, repr) && AllApart(blocks) && k < |blocks|
    ensures Stand(blocks, parts, k, repr - {blocks[k], blocks[k].buffer})
    ensures blocks[k] in repr && blocks[k].buffer in repr && blocks[k].Is(parts[k])
  {
    forall i | 0 <= i < |blocks| && i != k
      ensures blocks[i] != blocks[k] && blocks[i].buffer != blocks[k].buffer
    {
      assert if i < k then Apart(blocks[i], blocks[k]) else Apart(blocks[k], blocks[i]);
    }
  }

  lemma PutPart(blocks: seq<Block>, parts: seq<Bytes>, k: nat, repr: set<object>, part: Bytes)
    requires k < |blocks| && Stand(blocks, parts, k, repr - {blocks[k], blocks[k].buffer})
    requires blocks[k] in repr && blocks[k].buffer in repr && blocks[k].Is(part)
    ensures Stand(blocks, parts[k := part], |blocks|, repr)
  {
  }

  lemma AddBlock(blocks: seq<Block>, parts: seq<Bytes>, repr: set<object>, block: Block)
    requires Stand(blocks, parts, |blocks|, repr) && AllApart(blocks)
    requires block !in repr && block.buffer !in repr && block.Is([])
    ensures Stand(blocks + [block], parts + [[]], |blocks| + 1, repr + {block, block.buffer})
    ensures AllApart(blocks + [block])
  {
  }

  class BlockChain {
    var blocks: seq<Block>
    ghost var parts: seq<Bytes>
    ghost var Repr: set<object>

    ghost predicate Valid()
      reads this, Repr
    {
      && this in Repr && Stand(blocks, parts, |blocks|, Repr - {this})
      && AllApart(blocks) && FullButLast(parts)
    }

    /** The message so far. */
    ghost function Contents(): Bytes
      reads this
    {
      Concat(parts)
    }

    /** What is left in the last block. */
    ghost function Room(): int
      reads this
    {
      if parts == [] then 0 else BLOCK_SIZE - |parts[|parts| - 1]|
    }

    /** The fill of the first block. */
    ghost function HeadLen(): nat
      reads this
    {
      if parts == [] then 0 else |parts[0]|
    }

    constructor ()
      ensures Valid() && fresh(Repr) && blocks == [] && Contents() == []
    {
      blocks, parts, Repr := [], [], {this};
    }

    /** CreateAppSpawnMsgBlock, called when the last block is full. */
    method CreateAppSpawnMsgBlock()
      requires Valid() && Room() == 0
      modifies this
      ensures Valid() && fresh(Repr - old(Repr)) && Contents() == old(Contents())
      ensures blocks != [] && Room() == BLOCK_SIZE && HeadLen() >= old(HeadLen())
    {
      hide Stand, AllApart, Apart, Concat;
      var block := new Block();
      AddBlock(blocks, parts, Repr - {this}, block);
      ConcatEmpty(parts);
      assert Repr + {block, block.buffer} - {this} == Repr - {this} + {block, block.buffer};
      blocks, parts, Repr := blocks + [block], parts + [[]], Repr + {block, block.buffer};
    }

    /** GetValidMsgBlock: the first block with room. As only the last can have any, it is found
        there or nowhere. */
    method GetValidMsgBlock(realLen: nat) returns (block: Option<nat>)
      requires Valid() && realLen > 0
      ensures block == if Room() >= realLen then Some(|blocks| - 1) else None
    {
      for index := 0 to |blocks|
        invariant forall i :: 0 <= i < index ==> BLOCK_SIZE - |parts[i]| < realLen
      {
        assert blocks[index].Is(parts[index]);
        if BLOCK_SIZE - blocks[index].currentIndex >= realLen {
          return Some(index);
        }
      }
      block := None;
    }

    /** After the last block has grown, and no other changed. */
    ghost method Grown(more: Bytes)
      requires |parts| == |blocks| > 0 && this in Repr && AllApart(blocks) && FullButLast(parts)
      requires var tail := blocks[|blocks| - 1];
               && Stand(blocks, parts, |blocks| - 1, Repr - {this} - {tail, tail.buffer})
               && tail in Repr && tail.buffer in Repr && tail.Is(parts[|parts| - 1] + more)
      modifies this`parts
      ensures Valid() && Contents() == old(Contents()) + more && Room() == old(Room()) - |more|
      ensures HeadLen() >= old(HeadLen())
    {
      hide Stand, AllApart, Apart, Concat;
      ConcatLast(parts, more);
      var part := parts[|parts| - 1] + more;
      parts := parts[|parts| - 1 := part];
      PutPart(blocks, old(parts), |blocks| - 1, Repr - {this}, part);
    }

    /** A piece that fits goes into the last block. */
    method AppendToLast(p: Piece)
      requires Valid() && blocks != [] && Align4(|Stored(p)|) <= Room()
      modifies Repr
      ensures Valid() && Repr == old(Repr) && blocks == old(blocks) && HeadLen() >= old(HeadLen())
      ensures Contents() == old(Contents()) + Padded(Stored(p)) && Room() == old(Room()) - Align4(|Stored(p)|)
    {
      hide AllApart, Apart, Concat;
      Others(blocks, parts, |blocks| - 1, Repr - {this});
      blocks[|blocks| - 1].Append(p);
      Grown(Padded(Stored(p)));
    }

    /** `blockSize - currentIndex` of the last block. */
    method TailRoom() returns (room: nat)
      requires Valid() && blocks != []
      ensures room == Room() && room % 4 == 0
    {
      assert blocks[|blocks| - 1].Is(parts[|parts| - 1]);
      room := BLOCK_SIZE - blocks[|blocks| - 1].currentIndex;
    }

    /** Fills the last block with what fits of the rest of the data. */
    method FillLast(data: Bytes, currLen: nat, room: nat, ghost before: Bytes) returns (newLen: nat)
      requires Valid() && blocks != [] && currLen <= |data| && currLen % 4 == 0
      requires room == Room() && room % 4 == 0 && 0 < room < Align4(|data| - currLen)
      requires Contents() == before + data[..currLen]
      modifies Repr
      ensures Valid() && Repr == old(Repr) && blocks == old(blocks) && Room() == 0
      ensures currLen < newLen < |data| && newLen % 4 == 0
      ensures Contents() == before + data[..newLen]
      ensures HeadLen() >= old(HeadLen())
    {
      var reminderDataLen := |data| - currLen;
      RoomIsShort(room, reminderDataLen);
      var realCopy := if reminderDataLen > room then room else reminderDataLen;
      AppendToLast(Piece(data[currLen..currLen + realCopy], false));
      NextCut(before, data, currLen, realCopy);
      newLen := currLen + realCopy;
    }

    /** One turn of the loop of AddAppDataToTail that does not finish the piece. */
    method NextBlock(data: Bytes, currLen: nat, room: nat, ghost before: Bytes) returns (newLen: nat)
      requires Valid() && blocks != [] && currLen <= |data| && currLen % 4 == 0
      requires room == Room() && room % 4 == 0 && room < Align4(|data| - currLen)
      requires Contents() == before + data[..currLen]
      modifies Repr
      ensures Valid() && fresh(Repr - old(Repr)) && blocks != [] && Room() == BLOCK_SIZE && HeadLen() >= old(HeadLen())
      ensures currLen <= newLen < |data| && newLen % 4 == 0 && (room > 0 ==> currLen < newLen)
      ensures Contents() == before + data[..newLen]
    {
      RoomIsShort(room, |data| - currLen);
      newLen := currLen;
      if room > 0 {
        newLen := FillLast(data, currLen, room, before);
      }
      CreateAppSpawnMsgBlock();
    }

    /** AddAppDataToTail: a piece longer than the room is cut at the block boundary, and the chain
        grows until it is all there. */
    method AddAppDataToTail(p: Piece)
      requires Valid() && blocks != []
      modifies Repr
      ensures Valid() && fresh(Repr - old(Repr)) && blocks != []
      ensures Contents() == old(Contents()) + Padded(Stored(p))
      ensures HeadLen() >= old(HeadLen())
    {
      var data, currLen := Stored(p), 0;
      ghost var before := Contents();
      var room := TailRoom();
      while room < Align4(|data| - currLen)
        invariant Valid() && fresh(Repr - old(Repr)) && blocks != [] && HeadLen() >= old(HeadLen())
        invariant 0 <= currLen <= |data| && currLen % 4 == 0 && room == Room() && room % 4 == 0
        invariant Contents() == before + data[..currLen]
        decreases |data| - currLen, if room == 0 then 1 else 0
      {
        currLen := NextBlock(data, currLen, room, before);
        room := BLOCK_SIZE;
      }
      AppendToLast(Piece(data[currLen..], false));
      LastCut(before, data, currLen);
    }

    /** AddAppDataToBlock on the block that was found to have room, the last one. */
    method AddAppDataToBlock(p: Piece) returns (ret: int)
      requires Valid() && blocks != []
      modifies Repr
      ensures Valid() && Repr == old(Repr) && blocks == old(blocks) && HeadLen() >= old(HeadLen())
      ensures ret == 0 <==> 0 < old(Room()) && Align4(|Stored(p)|) <= old(Room())
      ensures Contents() == old(Contents()) + if ret == 0 then Padded(Stored(p)) else []
      ensures Room() == old(Room()) - if ret == 0 then Align4(|Stored(p)|) else 0
    {
      var reminderLen := TailRoom();
      if reminderLen == 0 || reminderLen < Align4(|Stored(p)|) {
        return -1;
      }
      AppendToLast(p);
      ret := 0;
    }

    /** All pieces of a record into the block with room for them. */
    method PiecesToBlock(pieces: seq<Piece>) returns (ret: int)
      requires Valid() && blocks != [] && |Encoded(pieces)| <= Room()
      requires forall i :: 0 <= i < |pieces| ==> Stored(pieces[i]) != []
      modifies Repr
      ensures Valid() && Repr == old(Repr) && blocks != [] && HeadLen() >= old(HeadLen())
      ensures ret == 0 && Contents() == old(Contents()) + Encoded(pieces)
    {
      ghost var before, room := Contents(), Room();
      assert pieces[..|pieces|] == pieces;
      for index := 0 to |pieces|
        invariant Valid() && Repr == old(Repr) && blocks != [] && HeadLen() >= old(HeadLen())
        invariant Contents() == before + Encoded(pieces[..index]) && Room() == room - |Encoded(pieces[..index])|
      {
        NextPiece(before, pieces, index);
        ret := AddAppDataToBlock(pieces[index]);
        if ret != 0 {
          return;
        }
      }
      ret := 0;
    }

    /** All pieces of a record, straddling blocks. */
    method PiecesToTail(pieces: seq<Piece>)
      requires Valid() && blocks != []
      requires forall i :: 0 <= i < |pieces| ==> Stored(pieces[i]) != []
      modifies Repr
      ensures Valid() && fresh(Repr - old(Repr)) && blocks != [] && HeadLen() >= old(HeadLen())
      ensures Contents() == old(Contents()) + Encoded(pieces)
    {
      ghost var before := Contents();
      assert pieces[..|pieces|] == pieces;
      for index := 0 to |pieces|
        invariant Valid() && fresh(Repr - old(Repr)) && blocks != [] && HeadLen() >= old(HeadLen())
        invariant Contents() == before + Encoded(pieces[..index])
      {
        NextPiece(before, pieces, index);
        AddAppDataToTail(pieces[index]);
      }
    }

    /** A record: into one block when one has room for all of it, otherwise straddling. */
    method AddRecord(tlvLen: nat, pieces: seq<Piece>) returns (ret: int)
      requires Valid() && blocks != [] && tlvLen == |Encoded(pieces)| > 0
      requires forall i :: 0 <= i < |pieces| ==> Stored(pieces[i]) != []
      modifies Repr
      ensures Valid() && fresh(Repr - old(Repr)) && blocks != [] && HeadLen() >= old(HeadLen())
      ensures ret == 0 && Contents() == old(Contents()) + Encoded(pieces)
    {
      var block := GetValidMsgBlock(tlvLen);
      ret := 0;
      if block.Some? {
        ret := PiecesToBlock(pieces);
      } else {
        PiecesToTail(pieces);
      }
    }

    /** As long as there is one block, it is the message. */
    lemma OneBlock()
      requires Valid() && |blocks| == 1
      ensures HeadLen() == |Contents()| && Room() == BLOCK_SIZE - |Contents()|
    {
      assert parts[1..] == [] && Concat(parts) == parts[0] + [];
    }

    /** A read of a field of the header or of a flag record. */
    method LoadField(at: nat) returns (n: u32)
      requires Valid() && at + 4 <= HeadLen()
      ensures at + 4 <= |Contents()| && n == U32(Contents(), at)
    {
      Others(blocks, parts, 0, Repr - {this});
      assert Contents() == parts[0] + Concat(parts[1..]);
      assert forall i :: 0 <= i < |parts[0]| ==> blocks[0].buffer[i] == parts[0][i];
      n := U32(blocks[0].buffer[..], at);
    }

    /** A store into such a field: all of them lie in the first block. */
    method StoreField(at: nat, n: u32)
      requires Valid() && at + 4 <= HeadLen()
      modifies Repr
      ensures Valid() && Repr == old(Repr) && blocks == old(blocks) && Room() == old(Room())
      ensures HeadLen() == old(HeadLen()) && at + 4 <= old(|Contents()|)
      ensures Contents() == PutU32(old(Contents()), at, n)
    {
      hide AllApart, Apart, PutU32;
      Others(blocks, parts, 0, Repr - {this});
      blocks[0].StoreField(at, n);
      PutInPrefix(parts[0], Concat(parts[1..]), at, n);
      parts := parts[0 := PutU32(parts[0], at, n)];
      PutPart(blocks, old(parts), 0, Repr - {this}, parts[0]);
    }
  }

  lemma EncodedStep(pieces: seq<Piece>, i: nat)
    requires i < |pieces|
    ensures Encoded(pieces[..i + 1]) == Encoded(pieces[..i]) + Padded(Stored(pieces[i]))
  {
    assert pieces[..i + 1][..i] == pieces[..i];
  }

  lemma NextPiece(before: Bytes, pieces: seq<Piece>, i: nat)
    requires i < |pieces| && Stored(pieces[i]) != []
    ensures before + Encoded(pieces[..i]) + Padded(Stored(pieces[i])) == before + Encoded(pieces[..i + 1])
    ensures |Encoded(pieces[..i])| + Align4(|Stored(pieces[i])|) == |Encoded(pieces[..i + 1])| <= |Encoded(pieces)|
    ensures Align4(|Stored(pieces[i])|) > 0
  {
    EncodedStep(pieces, i);
    EncodedGrows(pieces, i + 1);
    Associate(before, Encoded(pieces[..i]), Padded(Stored(pieces[i])));
  }

  lemma {:induction false} EncodedCons(p: Piece, pieces: seq<Piece>)
    ensures Encoded([p] + pieces) == Padded(Stored(p)) + Encoded(pieces)
    decreases |pieces|
  {
    var n := |pieces| - 1;
    if pieces == [] {
      assert ([p] + pieces)[..0] == [] && [p] + pieces == [p];
    } else {
      hide Padded, Stored;
      EncodedCons(p, pieces[..n]);
      assert ([p] + pieces)[..n + 1] == [p] + pieces[..n];
      Associate(Padded(Stored(p)), Encoded(pieces[..n]), Padded(Stored(pieces[n])));
    }
  }

  lemma {:induction false} EncodedAligned(pieces: seq<Piece>)
    ensures |Encoded(pieces)| % 4 == 0
  {
    if pieces != [] {
      EncodedAligned(pieces[..|pieces| - 1]);
    }
  }

  lemma EncodedGrows(pieces: seq<Piece>, i: nat)
    requires i <= |pieces|
    ensures |Encoded(pieces[..i])| <= |Encoded(pieces)|
    decreases |pieces| - i
  {
    if i < |pieces| {
      EncodedStep(pieces, i);
      EncodedGrows(pieces, i + 1);
    } else {
      assert pieces[..i] == pieces;
    }
  }

  /** Room for less than the aligned data is room for less than the data: no padding ever lands
      inside a record that straddles two blocks. */
  lemma RoomIsShort(room: nat, len: nat)
    requires room % 4 == 0 && room < Align4(len)
    ensures room < len
  {
  }

  lemma LastCut(before: Bytes, data: Bytes, at: nat)
    requires at <= |data| && at % 4 == 0
    ensures before + data[..at] + Padded(data[at..]) == before + Padded(data)
  {
  }

  lemma NextCut(before: Bytes, data: Bytes, at: nat, n: nat)
    requires at + n <= |data| && n % 4 == 0
    ensures before + data[..at] + Padded(data[at..at + n]) == before + data[..at + n]
  {
  }
}
