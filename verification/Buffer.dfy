/** CoBuffer: one block of memory, a live window that starts `misalign` bytes into it, and
    room after the window. A Dafny `char` stands for a C `char`. */
module Buffer {

  const BUFFER_SIZE_4096 := 4096
  const BUFFER_SIZE_MAX := 0xFFFF_FFFF_FFFF_FFFF

  /** A block size reached by doubling from `size`, large enough for `need`. */
  function Doubled(size: nat, need: nat): (r: nat)
    requires size > 0
    ensures r >= need && r >= size
    ensures r == size || r < 2 * need
    decreases need - size
  {
    if size >= need then size else Doubled(2 * size, need)
  }

  class CoBuffer {
    var block: array<char>      // m_originBuffer; its length is m_totalSize
    var bufferSize: nat
    var misalign: nat           // m_buffer == m_originBuffer + misalign

    ghost predicate Valid()
      reads this
    {
      misalign + bufferSize <= block.Length
    }

    /** Where the room after the data starts. */
    function Used(): nat
      reads this
    {
      misalign + bufferSize
    }

    /** The bytes a reader of the buffer sees. */
    function Contents(): (s: seq<char>)
      requires Valid()
      reads this, block
      ensures |s| == bufferSize
    {
      block[misalign..misalign + bufferSize]
    }

    constructor ()
      ensures Valid() && Contents() == [] && block.Length == 0 && fresh(block)
    {
      block := new char[0];
      bufferSize, misalign := 0, 0;
    }

    /** memmove of the live window to the start of the block. */
    method MoveToFront()
      requires Valid()
      modifies this`misalign, block
      ensures Valid() && misalign == 0 && block == old(block)
      ensures Contents() == old(Contents())
    {
      ghost var window := Contents();
      for i := 0 to bufferSize
        invariant misalign == old(misalign) && block == old(block) && bufferSize == old(bufferSize)
        invariant forall j :: 0 <= j < i ==> block[j] == window[j]
        invariant forall j :: i <= j < bufferSize ==> block[misalign + j] == window[j]
      {
        block[i] := block[misalign + i];
      }
      misalign := 0;
    }

    /** realloc to a larger block, with the window already at the front. */
    method Realloc(size: nat)
      requires Valid() && misalign == 0 && size >= block.Length
      modifies this`block
      ensures Valid() && block.Length == size && fresh(block)
      ensures Contents() == old(Contents())
    {
      var bigger := new char[size];
      for i := 0 to block.Length
        invariant block == old(block) && bigger[..i] == block[..i]
      {
        bigger[i] := block[i];
      }
      assert bigger[..block.Length] == block[..];
      assert forall i :: 0 <= i < bufferSize ==> bigger[..block.Length][i] == block[..][i];
      block := bigger;
    }

    /** `memoryOk` says whether `realloc`, should it be called, succeeds. A successful call
        leaves room for `dataLen` bytes after the data; no call changes the data. */
    method Expand(dataLen: nat, memoryOk: bool) returns (ok: bool)
      requires Valid()
      modifies this`misalign, this`block, block
      ensures Valid() && bufferSize == old(bufferSize) && Contents() == old(Contents())
      ensures ok ==> misalign + bufferSize + dataLen <= block.Length
      ensures memoryOk || old(block.Length) >= old(bufferSize) + dataLen ==> ok
      ensures old(block.Length - bufferSize - misalign) >= dataLen ==> unchanged(this) && unchanged(block)
      ensures block == old(block) || (fresh(block) && misalign == 0)
      ensures block == old(block) || block.Length <= 2 * (bufferSize + dataLen) || block.Length <= 256
      ensures block.Length >= old(block.Length) && misalign <= old(misalign)
    {
      var usedSize := misalign + bufferSize;
      if block.Length - usedSize >= dataLen {
        return true;
      }
      if block.Length - bufferSize >= dataLen {
        MoveToFront();
        return true;
      }
      var reallocSize := block.Length;
      var needSize := bufferSize + dataLen;
      if reallocSize < 256 {
        reallocSize := 256;
      }
      ghost var start := reallocSize;
      if reallocSize < BUFFER_SIZE_MAX / 2 {
        while reallocSize < needSize
          invariant start <= reallocSize
          invariant Doubled(reallocSize, needSize) == Doubled(start, needSize)
          decreases needSize - reallocSize
        {
          reallocSize := 2 * reallocSize;
        }
      } else {
        reallocSize := needSize;
      }
      if misalign != 0 {
        MoveToFront();
      }
      if !memoryOk {
        return false;
      }
      Realloc(reallocSize);
      ok := true;
    }

    method Append(data: seq<char>, memoryOk: bool) returns (ok: bool)
      requires Valid()
      modifies this, block
      ensures Valid()
      ensures memoryOk || old(block.Length) >= old(bufferSize) + |data| ==> ok
      ensures Contents() == if ok then old(Contents()) + data else old(Contents())
      ensures block == old(block) || fresh(block)
      ensures block == old(block) || block.Length <= 2 * old(bufferSize + |data|) || block.Length <= 256
    {
      if block.Length - (misalign + bufferSize) < |data| {
        var grown := Expand(|data|, memoryOk);
        if !grown {
          return false;
        }
      }
      Store(data);
      bufferSize := bufferSize + |data|;
      ok := true;
    }

    /** Copies bytes into the room after the data; the data does not include them yet. */
    method Store(data: seq<char>)
      requires Valid() && misalign + bufferSize + |data| <= block.Length
      modifies block
      ensures Contents() == old(Contents())
      ensures block[Used()..Used() + |data|] == data
    {
      var at := misalign + bufferSize;
      for i := 0 to |data|
        invariant block[at..at + i] == data[..i]
        invariant block[..at] == old(block[..at])
      {
        block[at + i] := data[i];
      }
      assert Contents() == block[..at][misalign..];
    }

    /** Takes the next `dataLen` bytes of the room into the data, if there is that much room. */
    method SizeExpand(dataLen: nat) returns (ok: bool)
      requires Valid()
      modifies this`bufferSize
      ensures Valid()
      ensures ok <==> old(Used()) + dataLen <= block.Length
      ensures ok ==> Contents() == old(Contents()) + block[old(Used())..old(Used()) + dataLen]
      ensures !ok ==> unchanged(this)
    {
      if block.Length < misalign + bufferSize + dataLen {
        return false;
      }
      bufferSize := bufferSize + dataLen;
      ok := true;
    }

    method Erase(dataLen: nat)
      requires Valid()
      modifies this`bufferSize, this`misalign
      ensures Valid()
      ensures Contents() == if dataLen >= |old(Contents())| then [] else old(Contents())[dataLen..]
    {
      if dataLen >= bufferSize {
        bufferSize, misalign := 0, 0;
      } else {
        bufferSize := bufferSize - dataLen;
        misalign := misalign + dataLen;
      }
    }

    method Reset()
      modifies this`bufferSize, this`misalign
      ensures Valid() && Contents() == []
    {
      bufferSize, misalign := 0, 0;
    }

    /** One turn of the read loops: make room, let the socket write what arrived (never more
        than was asked for), take it in. */
    method Receive(arrived: seq<char>, memoryOk: bool) returns (ok: bool)
      requires Valid() && |arrived| <= BUFFER_SIZE_4096
      modifies this, block
      ensures Valid() && (block == old(block) || fresh(block))
      ensures memoryOk ==> ok
      ensures Contents() == if ok then old(Contents()) + arrived else old(Contents())
    {
      ok := Expand(BUFFER_SIZE_4096, memoryOk);
      if ok {
        Store(arrived);
        ok := SizeExpand(|arrived|);
      }
    }
  }
}
