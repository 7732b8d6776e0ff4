/** The fixed-size character buffer of the log: an array, a write position and a size. */
module FixedBuffers {

  const SMALL_BUFFER_SIZE := 4000
  const LARGE_BUFFER_SIZE := 4000 * 1000

  class FixedBuffer {
    const data: array<char>
    /** Where the next character goes, and how many are in use; always the same number. */
    var cur: nat
    var size: nat

    ghost predicate Valid()
      reads this
    {
      cur == size <= data.Length
    }

    ghost function Contents(): string
      requires Valid()
      reads this, data
    {
      data[..size]
    }

    constructor (capacity: nat)
      ensures Valid() && fresh(data) && data.Length == capacity && Contents() == ""
    {
      data := new char[capacity];
      cur, size := 0, 0;
    }

    function Avail(): nat
      requires Valid()
      reads this
    {
      data.Length - size
    }

    /** Takes the text whole, and only when more room is left than the text needs. */
    method Append(text: string)
      requires Valid()
      modifies this, data
      ensures Valid()
      ensures Contents() == if old(Avail()) > |text| then old(Contents()) + text else old(Contents())
    {
      if Avail() > |text| {
        for i := 0 to |text|
          modifies data
          invariant data[..cur] == old(data[..cur])
          invariant data[cur..cur + i] == text[..i]
        {
          data[cur + i] := text[i];
        }
        assert data[..cur + |text|] == data[..cur] + data[cur..cur + |text|];
        Add(|text|);
      }
    }

    /** Puts the next `n` characters, already written, in use. */
    method Add(n: nat)
      requires Valid() && n <= Avail()
      modifies this
      ensures Valid() && size == old(size) + n
    {
      cur := cur + n;
      size := size + n;
    }

    method Reset()
      requires Valid()
      modifies this
      ensures Valid() && Contents() == ""
    {
      cur, size := 0, 0;
    }
  }
}
