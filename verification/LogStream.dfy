/**
  Integer output of the log stream: digits are written least significant first into
  the buffer itself, then reversed in place.
 */
module LogStreams {
  import opened Decimal
  import opened FixedBuffers

  const MAX_NUMBER_SIZE := 32
  /** Indexed from its middle by remainders of either sign. */
  const DIGITS: string := "9876543210123456789"

  /** C++ division and remainder by ten, which truncate toward zero. */
  function QuotientByTen(n: int): int {
    if n < 0 then -(-n / 10) else n / 10
  }

  function RemainderByTen(n: int): int {
    if n < 0 then -(-n % 10) else n % 10
  }

  function Magnitude(n: int): nat {
    if n < 0 then -n else n
  }

  /** The table turns a remainder of either sign into the digit of its magnitude. */
  lemma TableDigit(n: int)
    ensures -9 <= RemainderByTen(n) <= 9
    ensures DIGITS[9 + RemainderByTen(n)] == DigitChar(Magnitude(n) % 10)
    ensures Magnitude(QuotientByTen(n)) == Magnitude(n) / 10
  {
  }

  lemma NextDigit(m: nat)
    ensures DigitsUp(m) == [DigitChar(m % 10)] + (if m / 10 == 0 then "" else DigitsUp(m / 10))
  {
  }

  lemma TurnedRound(was: string, now: string, lo: nat, hi: nat)
    requires lo <= hi <= |was| == |now|
    requires forall k :: lo <= k < hi ==> now[k] == was[lo + hi - 1 - k]
    requires forall k :: 0 <= k < lo || hi <= k < |was| ==> now[k] == was[k]
    ensures now[lo..hi] == Reverse(was[lo..hi])
    ensures now[..lo] == was[..lo] && now[hi..] == was[hi..]
  {
  }

  /** `std::reverse` on the stretch from `lo` to `hi`. */
  method ReverseRange(a: array<char>, lo: nat, hi: nat)
    requires lo <= hi <= a.Length
    modifies a
    ensures a[lo..hi] == Reverse(old(a[lo..hi]))
    ensures a[..lo] == old(a[..lo]) && a[hi..] == old(a[hi..])
  {
    hide Reverse;
    var i, j := lo, hi;
    ghost var was := a[..];
    while i < j - 1
      invariant lo <= i <= j + 1 && j <= hi && i - lo == hi - j
      invariant forall k :: 0 <= k < lo || i <= k < j || hi <= k < a.Length ==> a[k] == was[k]
      invariant forall k :: lo <= k < i || j <= k < hi ==> a[k] == was[lo + hi - 1 - k]
    {
      a[i], a[j - 1] := a[j - 1], a[i];
      i, j := i + 1, j - 1;
    }
    TurnedRound(was, a[..], lo, hi);
    assert a[..][lo..hi] == a[lo..hi] && was[lo..hi] == old(a[lo..hi]);
  }

  class LogStream {
    const buffer: FixedBuffer

    ghost predicate Valid()
      reads this, buffer
    {
      buffer.Valid()
    }

    constructor ()
      ensures Valid() && buffer.Contents() == "" && buffer.data.Length == SMALL_BUFFER_SIZE
    {
      buffer := new FixedBuffer(SMALL_BUFFER_SIZE);
    }

    /** Appends the decimal text of any signed or unsigned 64-bit value, provided 32
        characters are left; otherwise the number is skipped. */
    method FormatInteger(number: int)
      requires Valid() && -0x8000_0000_0000_0000 <= number < 0x1_0000_0000_0000_0000
      modifies buffer, buffer.data
      ensures Valid()
      ensures buffer.Contents() == old(buffer.Contents()) +
                (if old(buffer.Avail()) >= MAX_NUMBER_SIZE then Text(number) else "")
    {
      hide Text, DigitsUp, Reverse;
      TextFits(number);
      SignedReversed(number);
      if buffer.Avail() < MAX_NUMBER_SIZE {
        return;
      }
      var cur := WriteDigitsUp(number);
      assert buffer.data[..cur][..buffer.cur] == old(buffer.data[..buffer.cur]);
      assert buffer.data[..cur][buffer.cur..] == DigitsUp(Magnitude(number));
      cur := SignAndReverse(number, cur);
      buffer.Add(cur - buffer.cur);
      assert buffer.data[..cur] == buffer.data[..old(buffer.cur)] + buffer.data[old(buffer.cur)..cur];
    }

    /** The sign behind the digits, a terminator behind the sign, and the whole turned round. */
    method SignAndReverse(number: int, digitsEnd: nat) returns (cur: nat)
      requires Valid() && buffer.cur <= digitsEnd && digitsEnd + 2 <= buffer.data.Length
      requires buffer.data[buffer.cur..digitsEnd] == DigitsUp(Magnitude(number))
      modifies buffer.data
      ensures buffer.cur <= cur < buffer.data.Length
      ensures buffer.data[buffer.cur..cur] == Text(number) && buffer.data[cur] == '\0'
      ensures buffer.data[..buffer.cur] == old(buffer.data[..buffer.cur])
    {
      hide Text, DigitsUp, Reverse;
      SignedReversed(number);
      cur := digitsEnd;
      ghost var start := buffer.cur;
      if number < 0 {
        buffer.data[cur] := '-';
        cur := cur + 1;
      }
      buffer.data[cur] := '\0';
      assert buffer.data[start..cur] == DigitsUp(Magnitude(number)) + (if number < 0 then "-" else "");
      ghost var rest := buffer.data[cur..];
      ReverseRange(buffer.data, buffer.cur, cur);
      assert buffer.data[cur] == rest[0];
    }

    /** One round of the loop: the digit goes to `cur`. */
    method WriteDigit(num: int, cur: nat, ghost text: string)
      requires cur < buffer.data.Length && buffer.data[..cur] == text
      modifies buffer.data
      ensures buffer.data[..cur + 1] == text + [DigitChar(Magnitude(num) % 10)]
    {
      TableDigit(num);
      var remainder := RemainderByTen(num);
      buffer.data[cur] := DIGITS[9 + remainder];
    }

    /** The do-while loop: one digit at least, least significant first. */
    method WriteDigitsUp(number: int) returns (cur: nat)
      requires Valid() && |DigitsUp(Magnitude(number))| <= buffer.Avail()
      modifies buffer.data
      ensures cur == buffer.cur + |DigitsUp(Magnitude(number))|
      ensures buffer.data[..cur] == old(buffer.data[..buffer.cur]) + DigitsUp(Magnitude(number))
    {
      hide RemainderByTen, QuotientByTen, DigitChar, DigitsUp, Magnitude;
      ghost var goal := buffer.data[..buffer.cur] + DigitsUp(Magnitude(number));
      ghost var text := buffer.data[..buffer.cur];
      var num, more := number, true;
      cur := buffer.cur;
      while more
        invariant cur == |text| <= |goal| && buffer.data[..cur] == text
        invariant if more then Remaining(text, num, goal) else text == goal
        decreases more, Magnitude(num)
      {
        TableDigit(num);
        NextRound(text, num, goal);
        WriteDigit(num, cur, text);
        text := text + [DigitChar(Magnitude(num) % 10)];
        cur := cur + 1;
        num := QuotientByTen(num);
        more := num != 0;
      }
    }
  }

  /** The digits of `num` are what `text` lacks to be `goal`. */
  ghost predicate Remaining(text: string, num: int, goal: string) {
    text + DigitsUp(Magnitude(num)) == goal
  }

  lemma NextRound(text: string, num: int, goal: string)
    requires Remaining(text, num, goal)
    ensures |text| < |goal|
    ensures var t, q := text + [DigitChar(Magnitude(num) % 10)], QuotientByTen(num);
      if q != 0 then Remaining(t, q, goal) && Magnitude(q) < Magnitude(num) else t == goal
  {
    hide DigitChar, DigitsUp;
    TableDigit(num);
    NextDigit(Magnitude(num));
  }
}
