/** A character array of fixed size that is filled from the front. */
module FixedBuffers {

  class FixedBuffer {
    const size: nat
    const data: array<char>
    var cur: nat

    ghost predicate Valid()
      reads this
    {
      data.Length == size && cur <= size
    }

    ghost function Contents(): seq<char>
      reads this, data
      requires Valid()
    {
      data[..cur]
    }

    constructor (size: nat)
      ensures Valid() && this.size == size && fresh(data)
      ensures Contents() == []
    {
      this.size := size;
      data := new char[size];
      cur := 0;
    }

    function Avail(): (r: nat)
      reads this
      requires Valid()
      ensures r + cur == size
    {
      size - cur
    }

    /** All of `buf` or nothing: it is dropped unless room for one more character is left. */
    method Append(buf: seq<char>)
      requires Valid()
      modifies this, data
      ensures Valid()
      ensures Contents() == if old(Avail()) > |buf| then old(Contents()) + buf else old(Contents())
    {
      if Avail() > |buf| {
        forall i | 0 <= i < |buf| {
          data[cur + i] := buf[i];
        }
        cur := cur + |buf|;
      }
    }

    /** Takes over `len` characters that the caller has written behind the cursor. */
    method Add(len: nat)
      requires Valid() && len <= Avail()
      modifies this
      ensures Valid() && cur == old(cur) + len
      ensures Contents() == old(Contents()) + data[old(cur)..old(cur) + len]
    {
      cur := cur + len;
    }

    method Reset()
      requires Valid()
      modifies this
      ensures Valid() && Contents() == []
    {
      cur := 0;
    }
  }
}
