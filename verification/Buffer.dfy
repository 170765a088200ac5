/** Buffer: a byte queue in one vector, with in-place compaction. */
module BufferObject {
  import opened Wrappers
  import opened Bytes
  import opened BufferLayout

  class Buffer {
    var buffer: array<char>
    var readerIndex: nat
    var writerIndex: nat

    ghost predicate Valid()
      reads this
    {
      CHEAP_PREPEND <= readerIndex <= writerIndex <= buffer.Length
    }

    ghost function Contents(): string
      requires Valid()
      reads this, buffer
    {
      buffer[readerIndex..writerIndex]
    }

    ghost function View(): Layout
      requires Valid()
      reads this, buffer
    {
      Layout(buffer.Length, readerIndex, writerIndex, Contents())
    }

    constructor (initialSize: nat)
      ensures Valid() && fresh(buffer) && View() == Fresh(initialSize)
    {
      buffer := new char[CHEAP_PREPEND + initialSize](_ => '\0');
      readerIndex, writerIndex := CHEAP_PREPEND, CHEAP_PREPEND;
    }

    function ReadableBytes(): nat
      requires Valid()
      reads this
    {
      writerIndex - readerIndex
    }

    function WritableBytes(): nat
      requires Valid()
      reads this
    {
      buffer.Length - writerIndex
    }

    method Retrieve(len: nat)
      requires Valid()
      modifies this
      ensures Valid() && buffer == old(buffer) && View() == BufferLayout.Retrieve(old(View()), len)
    {
      if len <= ReadableBytes() {
        readerIndex := readerIndex + len;
      } else {
        RetrieveAll();
      }
    }

    method RetrieveAll()
      requires Valid()
      modifies this
      ensures Valid() && buffer == old(buffer) && View() == BufferLayout.RetrieveAll(old(View()))
    {
      readerIndex, writerIndex := CHEAP_PREPEND, CHEAP_PREPEND;
    }

    method RetrieveAsString(len: nat) returns (result: string)
      requires Valid() && len <= ReadableBytes()
      modifies this
      ensures Valid() && buffer == old(buffer) && View() == BufferLayout.Retrieve(old(View()), len)
      ensures result == old(Contents())[..len]
    {
      result := Front(len);
      Retrieve(len);
    }

    method EnsureWritableBytes(len: nat)
      requires Valid()
      modifies this, buffer
      ensures Valid() && (buffer == old(buffer) || fresh(buffer))
      ensures View() == EnsureWritable(old(View()), len)
    {
      if WritableBytes() < len {
        MakeSpace(len);
      }
    }

    method MakeSpace(len: nat)
      requires Valid()
      modifies this, buffer
      ensures Valid() && (buffer == old(buffer) || fresh(buffer))
      ensures old(WritableBytes()) < len ==> View() == BufferLayout.MakeSpace(old(View()), len)
    {
      if WritableBytes() + readerIndex < len + CHEAP_PREPEND {
        Resize(writerIndex + len);
      } else {
        ShiftDown();
      }
    }

    /** std::vector::resize. */
    method Resize(n: nat)
      requires Valid()
      modifies this
      ensures buffer.Length == n && fresh(buffer)
      ensures readerIndex == old(readerIndex) && writerIndex == old(writerIndex)
      ensures forall i :: 0 <= i < n && i < old(buffer.Length) ==> buffer[i] == old(buffer[i])
    {
      var grown := new char[n](_ => '\0');
      var m := if n < buffer.Length then n else buffer.Length;
      for i := 0 to m
        invariant unchanged(this) && unchanged(buffer)
        invariant forall k :: 0 <= k < i ==> grown[k] == buffer[k]
      {
        grown[i] := buffer[i];
      }
      buffer := grown;
    }

    /** The overlapping std::copy of the readable bytes to the front of the same vector. */
    method ShiftDown()
      requires Valid()
      modifies this, buffer
      ensures Valid() && buffer == old(buffer) && readerIndex == CHEAP_PREPEND
      ensures Contents() == old(Contents())
    {
      var readable := ReadableBytes();
      ghost var was := Contents();
      for i := 0 to readable
        invariant unchanged(this)
        invariant forall k :: CHEAP_PREPEND <= k < CHEAP_PREPEND + i ==> buffer[k] == was[k - CHEAP_PREPEND]
        invariant forall k :: readerIndex + i <= k < writerIndex ==> buffer[k] == was[k - readerIndex]
      {
        buffer[CHEAP_PREPEND + i] := buffer[readerIndex + i];
      }
      ghost var now := buffer[CHEAP_PREPEND..CHEAP_PREPEND + readable];
      assert forall k :: 0 <= k < readable ==> now[k] == buffer[CHEAP_PREPEND + k] == was[k];
      readerIndex, writerIndex := CHEAP_PREPEND, CHEAP_PREPEND + readable;
    }

    /** Copies data behind the readable bytes; the room is there. */
    method CopyIn(data: string)
      requires Valid() && |data| <= WritableBytes()
      modifies this`writerIndex, buffer
      ensures Valid() && Contents() == old(Contents()) + data && writerIndex == old(writerIndex) + |data|
    {
      ghost var was := Contents();
      for i := 0 to |data|
        invariant unchanged(this)
        invariant forall k :: readerIndex <= k < writerIndex ==> buffer[k] == was[k - readerIndex]
        invariant forall k :: writerIndex <= k < writerIndex + i ==> buffer[k] == data[k - writerIndex]
      {
        buffer[writerIndex + i] := data[i];
      }
      ghost var now := buffer[readerIndex..writerIndex + |data|];
      assert forall k :: 0 <= k < |now| ==> now[k] == buffer[readerIndex + k] == (was + data)[k];
      writerIndex := writerIndex + |data|;
    }

    method Append(data: string)
      requires Valid()
      modifies this, buffer
      ensures Valid() && (buffer == old(buffer) || fresh(buffer))
      ensures View() == BufferLayout.Append(old(View()), data)
    {
      EnsureWritableBytes(|data|);
      CopyIn(data);
    }

    method FindCRLF() returns (crlf: Option<nat>)
      requires Valid()
      ensures crlf == FindCrlf(Contents())
    {
      var i := readerIndex;
      while i + 1 < writerIndex
        invariant readerIndex <= i <= writerIndex
        invariant forall k :: 0 <= k < i - readerIndex ==> !CrlfAt(Contents(), k)
      {
        if buffer[i] == '\r' && buffer[i + 1] == '\n' {
          FindCrlfIs(Contents(), i - readerIndex);
          return Some(i - readerIndex);
        }
        i := i + 1;
      }
      return None;
    }

    /** The text between peek() and peek() + len. */
    method Front(len: nat) returns (text: string)
      requires Valid() && len <= |Contents()|
      ensures text == Contents()[..len]
    {
      return buffer[readerIndex..readerIndex + len];
    }

    /** retrieveUntil(peek() + offset). */
    method RetrieveUntil(offset: nat)
      requires Valid()
      modifies this
      ensures Valid() && buffer == old(buffer) && View() == BufferLayout.Retrieve(old(View()), offset)
    {
      Retrieve(offset);
    }

    /** How much one readv may deliver: the writable part, and the overflow area when that part is small. */
    function ReadCapacity(): nat
      requires Valid()
      reads this
    {
      WritableBytes() + if WritableBytes() < EXTRA then EXTRA else 0
    }

    /** received: what readv delivered, or None when it failed. */
    method ReadFd(received: Option<string>) returns (n: int)
      requires Valid() && (received.Some? ==> |received.value| <= ReadCapacity())
      modifies this, buffer
      ensures Valid() && (buffer == old(buffer) || fresh(buffer))
      ensures received.None? ==> n < 0 && View() == old(View())
      ensures received.Some? ==> n == |received.value| && View() == BufferLayout.ReadFd(old(View()), received.value)
    {
      if received.None? {
        return -1;
      }
      var s := received.value;
      var writable := WritableBytes();
      if |s| <= writable {
        CopyIn(s);
      } else {
        ReadOverflow(s);
      }
      return |s|;
    }

    /** More arrived than fits: the writable part is full and the overflow area holds the rest. */
    method ReadOverflow(s: string)
      requires Valid() && WritableBytes() < |s|
      modifies this, buffer
      ensures Valid() && (buffer == old(buffer) || fresh(buffer))
      ensures View() == BufferLayout.ReadFd(old(View()), s)
    {
      var writable := WritableBytes();
      CopyIn(s[..writable]);
      Append(s[writable..]);
    }

    /** The kernel took the first n readable bytes, or failed. */
    method WriteFd(accepted: Option<nat>) returns (n: int, taken: string)
      requires Valid() && (accepted.Some? ==> accepted.value <= ReadableBytes())
      ensures accepted.None? ==> n < 0 && taken == ""
      ensures accepted.Some? ==> n == accepted.value && taken == Contents()[..n]
    {
      if accepted.None? {
        return -1, "";
      }
      return accepted.value, buffer[readerIndex..readerIndex + accepted.value];
    }
  }
}
