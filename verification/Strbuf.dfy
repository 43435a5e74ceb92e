/** The string buffer of strbuf.c: it grows as needed, and the unsafe appends rely on room made before. */
module Strbufs {
  class Strbuf {
    var buf: array<char>
    var length: nat
    var increment: int

    /** Growth as strbuf_set_increment leaves it, and the text within the allocation. */
    ghost predicate Valid()
      reads this, buf
    {
      1 <= buf.Length && length <= buf.Length && (increment > 0 || increment < -1)
    }

    ghost function Text(): (t: string)
      requires Valid()
      reads this, buf
      ensures |t| == length
    {
      buf[..length]
    }

    /** strbuf_init, for a text of `len` bytes, or of the default size. */
    constructor (len: int)
      ensures Valid() && Text() == "" && increment == -2 && fresh(buf)
      ensures len > 0 ==> EmptyLength() == len
    {
      var size := if len <= 0 then 1023 else len + 1;
      buf := new char[size];
      length, increment := 0, -2;
      new;
      buf[0] := '\0';
    }

    method SetIncrement(increment: int)
      requires Valid() && increment != 0 && increment != -1
      modifies `increment
      ensures Valid() && Text() == old(Text()) && this.increment == increment
    {
      this.increment := increment;
    }

    method Reset()
      requires Valid()
      modifies `length
      ensures Valid() && Text() == ""
    {
      length := 0;
    }

    /** Room left, with one byte kept for the terminator. */
    function EmptyLength(): int
      reads this
    {
      buf.Length - length - 1
    }

    /** calculate_new_size: exact when it shrinks, by factors of the increment if that is negative, else
      the old size rounded up to a multiple of the increment. */
    method NewSize(len: nat) returns (newsize: nat)
      requires Valid() && len > 0
      ensures newsize >= 1
      ensures buf.Length > len + 1 ==> newsize == len + 1
      ensures buf.Length <= len + 1 && increment < 0 ==> len + 1 <= newsize && (newsize == buf.Length || newsize < (len + 1) * -increment)
      ensures buf.Length <= len + 1 && increment > 0 ==> buf.Length <= newsize < buf.Length + increment && newsize % increment == 0
      ensures Sufficient(buf.Length, increment, len) <==> newsize >= len + 1
    {
      var reqsize := len + 1;
      if buf.Length > reqsize {
        return reqsize;
      }
      newsize := buf.Length;
      if increment < 0 {
        var factor := -increment;
        while newsize < reqsize
          invariant newsize >= 1 && (newsize == buf.Length || newsize < reqsize * factor)
          decreases reqsize - newsize
        {
          TimesGrows(newsize, reqsize, factor);
          newsize := newsize * factor;
        }
      } else {
        SufficientIff(buf.Length, increment, len);
        newsize := RoundedUp(buf.Length, increment);
      }
    }

    /** strbuf_resize: what fits of the text stays. */
    method Resize(len: nat)
      requires Valid() && 0 < len
      modifies this
      ensures fresh(buf) && increment == old(increment) && length == old(length)
      ensures old(buf.Length) <= len + 1 ==> old(buf.Length) <= buf.Length
      ensures (Sufficient(old(buf.Length), increment, len) <==> buf.Length >= len + 1)
      ensures length <= buf.Length ==> Valid() && Text() == old(Text())
    {
      var newsize := NewSize(len);
      var grown := new char[newsize];
      var n := if length < newsize then length else newsize;
      forall i | 0 <= i < n {
        grown[i] := buf[i];
      }
      buf := grown;
    }
  
    /** strbuf_ensure_empty_length. */
    method EnsureEmptyLength(len: nat)
      requires Valid()
      modifies this
      ensures Valid() && Text() == old(Text()) && increment == old(increment) && (buf == old(buf) || fresh(buf))
      ensures increment < 0 ==> EmptyLength() >= len
    {
      if len > EmptyLength() {
        Resize(length + len);
      }
    }

    method AppendCharUnsafe(c: char)
      requires Valid() && length < buf.Length
      modifies `length, buf
      ensures Valid() && Text() == old(Text()) + [c]
    {
      buf[length] := c;
      length := length + 1;
    }

    method AppendMemUnsafe(s: string)
      requires Valid() && length + |s| <= buf.Length
      modifies `length, buf
      ensures Valid() && Text() == old(Text()) + s
    {
      forall i | 0 <= i < |s| {
        buf[length + i] := s[i];
      }
      length := length + |s|;
    }

    method AppendChar(c: char)
      requires Valid() && increment < 0
      modifies this, buf
      ensures Valid() && Text() == old(Text()) + [c] && increment < 0 && (buf == old(buf) || fresh(buf))
    {
      EnsureEmptyLength(1);
      AppendCharUnsafe(c);
    }

    method AppendMem(s: string)
      requires Valid() && increment < 0
      modifies this, buf
      ensures Valid() && Text() == old(Text()) + s && increment < 0 && (buf == old(buf) || fresh(buf))
    {
      EnsureEmptyLength(|s|);
      AppendMemUnsafe(s);
    }

    /** strbuf_append_string: it keeps count of the room left and resizes when there is none. */
    method AppendString(str: string)
      requires Valid() && increment < 0
      modifies this, buf
      ensures Valid() && Text() == old(Text()) + str && increment < 0 && (buf == old(buf) || fresh(buf))
      ensures old(EmptyLength()) >= |str| ==> buf == old(buf)
    {
      var space := EmptyLength();
      for i := 0 to |str|
        invariant Valid() && Text() == old(Text()) + str[..i] && increment < 0 && (buf == old(buf) || fresh(buf))
        invariant space == EmptyLength()
        invariant old(EmptyLength()) >= |str| ==> buf == old(buf) && space >= |str| - i
      {
        if space < 1 {
          Resize(length + 1);
          space := EmptyLength();
        }
        buf[length] := str[i];
        length := length + 1;
        space := space - 1;
      }
    }

    method EnsureNull()
      requires Valid() && length < buf.Length
      modifies buf
      ensures Valid() && Text() == old(Text()) && buf[length] == '\0'
    {
      buf[length] := '\0';
    }
  }

  /** The size rounded up to a multiple of the increment. */
  function RoundedUp(size: nat, increment: int): (r: nat)
    requires increment > 0
    ensures size <= r < size + increment && r % increment == 0
  {
    RoundedUpLaw(size, increment);
    ((size + increment - 1) / increment) * increment
  }

  lemma RoundedUpLaw(size: nat, increment: int)
    requires increment > 0
    ensures var r := ((size + increment - 1) / increment) * increment; size <= r < size + increment && r % increment == 0
  {
    var q := (size + increment - 1) / increment;
    assert size + increment - 1 == q * increment + (size + increment - 1) % increment;
    Multiple(q, increment);
  }

  lemma Multiple(q: int, n: int)
    requires n > 0
    ensures (q * n) % n == 0
  {
    var a := q * n;
    var e := q - a / n;
    assert n * e == a % n;
    Away(n, e);
  }

  lemma Away(n: int, e: int)
    requires n > 0
    ensures (e >= 1 ==> n * e >= n) && (e <= -1 ==> n * e <= -n)
  {
  }

  lemma TimesGrows(n: nat, limit: nat, factor: int)
    requires 1 <= n < limit && factor >= 2
    ensures n < n * factor < limit * factor
  {
  }

  predicate IsMultiple(m: int, n: int) { n > 0 && m % n == 0 }

  /** Whether a resize for `len` bytes makes room for them and the terminator: always by factors, but in
    steps, as it is the old size that gets rounded up, only with no multiple of the increment from there to `len`. */
  ghost predicate Sufficient(size: nat, increment: int, len: nat) {
    increment < 0 || forall m :: size <= m <= len ==> !IsMultiple(m, increment)
  }

  /** Rounding up finds the first multiple. */
  lemma SufficientIff(size: nat, increment: int, len: nat)
    requires increment > 0
    ensures Sufficient(size, increment, len) <==> RoundedUp(size, increment) > len
  {
    var r := RoundedUp(size, increment);
    assert IsMultiple(r, increment);
    forall m | size <= m && IsMultiple(m, increment) ensures r <= m {
      NoneBetween(r / increment, m / increment, increment);
    }
  }

  lemma NoneBetween(q: int, p: int, n: int)
    requires n > 0 && p * n > q * n - n
    ensures p * n >= q * n
  {
    Away(n, q - p);
    assert n * (q - p) == q * n - p * n;
  }

  /** A buffer whose size is a multiple of its increment is never grown by a step. */
  lemma StepTooShort(size: nat, increment: int, len: nat)
    requires IsMultiple(size, increment) && size <= len
    ensures !Sufficient(size, increment, len) && RoundedUp(size, increment) == size
  {
    SufficientIff(size, increment, len);
    SufficientIff(size, increment, size);
  }
}
