/** The zero-length coder: runs of zeros become the binary digits of their length. */
module ZeroRuns {
  import opened Octets
  import opened Radix

  /** The digits of a number, lowest first, without its leading one. */
  function Bits(n: nat): seq<Byte>
    requires n > 0
  {
    if n == 1 then [] else [n % 2] + Bits(n / 2)
  }

  /** The number whose digits these are, with its leading one put back. */
  function Number(d: seq<Byte>): (n: nat)
    ensures n > 0
  {
    if d == [] then 1 else d[0] + 2 * Number(d[1..])
  }

  predicate Binary(d: seq<Byte>) {
    forall i :: 0 <= i < |d| ==> d[i] <= 1
  }

  lemma {:induction false} NumberOfBits(n: nat)
    requires n > 0
    ensures Number(Bits(n)) == n && Binary(Bits(n)) && (n > 1 ==> Bits(n) != [])
  {
    if n > 1 {
      NumberOfBits(n / 2);
      assert Bits(n)[1..] == Bits(n / 2);
    }
  }

  /** How many zeros the bytes begin with. */
  function Zeros(s: seq<Byte>): (n: nat)
    ensures n <= |s|
  {
    if s != [] && s[0] == 0 then 1 + Zeros(s[1..]) else 0
  }

  /** How many digits the bytes begin with. */
  function Digits01(s: seq<Byte>): (n: nat)
    ensures n <= |s|
  {
    if s != [] && s[0] <= 1 then 1 + Digits01(s[1..]) else 0
  }

  function Encoded(s: seq<Byte>): seq<Byte>
    decreases |s|
  {
    if s == [] then []
    else if s[0] == 0 then Bits(Zeros(s) + 1) + Encoded(s[Zeros(s)..])
    else if s[0] == 0xfe then [0xff, 0] + Encoded(s[1..])
    else if s[0] == 0xff then [0xff, 1] + Encoded(s[1..])
    else [s[0] + 1] + Encoded(s[1..])
  }

  /** What decoding comes to; a run whose length needs more than 31 digits is beyond an `int`. */
  datatype Outcome = Done(bytes: seq<Byte>) | Short | Beyond

  const MAX_DIGITS := 30

  function Prepend(p: seq<Byte>, r: Outcome): Outcome {
    if r.Done? then Done(p + r.bytes) else r
  }

  ghost function Decoded(t: seq<Byte>): Outcome
    decreases |t|
  {
    if t == [] then Done([])
    else if t[0] <= 1 then
      var k := Digits01(t);
      if k > MAX_DIGITS then Beyond else Prepend(Repeat(0, Number(t[..k]) - 1), Decoded(t[k..]))
    else if t[0] == 0xff then
      if |t| < 2 then Short else Prepend([if t[1] == 0 then 0xfe else 0xff], Decoded(t[2..]))
    else Prepend([t[0] - 1], Decoded(t[1..]))
  }

  // --- how long a run may be

  function Two(k: nat): (n: nat)
    ensures n > 0
  {
    if k == 0 then 1 else 2 * Two(k - 1)
  }

  lemma {:induction false} BitsLength(n: nat, k: nat)
    requires n > 0
    ensures |Bits(n)| <= k <==> n < Two(k + 1)
  {
    if n > 1 {
      if k > 0 {
        BitsLength(n / 2, k - 1);
      } else {
        assert Two(1) == 2 * Two(0);
      }
    }
  }

  lemma Two31()
    ensures Two(MAX_DIGITS + 1) == 0x80000000
  {
    assert Two(0) == 1;
    TwoStep(1, 0, 1); TwoStep(2, 1, 2); TwoStep(3, 2, 4); TwoStep(4, 3, 8); TwoStep(5, 4, 16); TwoStep(6, 5, 32);
    TwoStep(7, 6, 64); TwoStep(8, 7, 128); TwoStep(9, 8, 256); TwoStep(10, 9, 512); TwoStep(11, 10, 1024);
    TwoAdd(11, 10);
    TwoAdd(21, 10);
  }

  lemma TwoStep(k: nat, j: nat, n: nat)
    requires k == j + 1 && Two(j) == n
    ensures Two(k) == 2 * n
  {
  }

  lemma {:induction false} TwoAdd(a: nat, b: nat)
    ensures Two(a + b) == Two(a) * Two(b)
  {
    if b > 0 {
      TwoAdd(a, b - 1);
      assert a + b - 1 == a + (b - 1);
    }
  }

  /** Every run of zeros is short enough for its length plus one to fit an `int`. */
  predicate Fits(s: seq<Byte>)
    decreases |s|
  {
    if s == [] then true
    else if s[0] == 0 then Zeros(s) + 1 < 0x80000000 && Fits(s[Zeros(s)..])
    else Fits(s[1..])
  }

  // --- decoding undoes encoding

  lemma {:induction false} ZerosOnly(s: seq<Byte>)
    ensures s == Repeat(0, Zeros(s)) + s[Zeros(s)..]
    ensures Zeros(s) < |s| ==> s[Zeros(s)] != 0
  {
    if s != [] && s[0] == 0 {
      ZerosOnly(s[1..]);
      assert s == [0] + s[1..];
      assert s[1..][Zeros(s[1..])..] == s[Zeros(s)..];
      assert Repeat(0, Zeros(s)) == [0] + Repeat(0, Zeros(s[1..]));
    }
  }

  lemma {:induction false} DigitsStop(d: seq<Byte>, r: seq<Byte>)
    requires Binary(d) && (r == [] || r[0] > 1)
    ensures Digits01(d + r) == |d|
  {
    if d == [] {
      assert d + r == r;
    } else {
      assert (d + r)[1..] == d[1..] + r;
      DigitsStop(d[1..], r);
    }
  }

  /** What follows a run never looks like more of its digits. */
  lemma AfterRun(s: seq<Byte>)
    requires s == [] || s[0] != 0
    ensures Encoded(s) == [] || Encoded(s)[0] > 1
  {
  }

  lemma DecodeRun(s: seq<Byte>)
    requires s != [] && s[0] == 0
    ensures Zeros(s) > 0
    ensures Decoded(Encoded(s))
         == if Zeros(s) + 1 < 0x80000000 then Prepend(Repeat(0, Zeros(s)), Decoded(Encoded(s[Zeros(s)..]))) else Beyond
  {
    var z := Zeros(s);
    var d, r := Bits(z + 1), Encoded(s[z..]);
    assert z > 0 && Encoded(s) == d + r;
    hide Bits, Number, Zeros, Encoded, Two, Decoded, Repeat;
    ZerosOnly(s);
    AfterRun(s[z..]);
    NumberOfBits(z + 1);
    BitsLength(z + 1, MAX_DIGITS);
    Two31();
    DecodeDigits(d, r);
  }

  lemma DecodeDigits(d: seq<Byte>, r: seq<Byte>)
    requires Binary(d) && d != [] && (r == [] || r[0] > 1)
    ensures Decoded(d + r) == if |d| > MAX_DIGITS then Beyond else Prepend(Repeat(0, Number(d) - 1), Decoded(r))
  {
    hide Number, Digits01, Repeat, Decoded;
    DigitsStop(d, r);
    var t := d + r;
    assert t != [] && t[0] == d[0] <= 1;
    DecodedRun(t);
    assert t[..|d|] == d && t[|d|..] == r;
  }

  lemma DecodedRun(t: seq<Byte>)
    requires t != [] && t[0] <= 1
    ensures Decoded(t) == if Digits01(t) > MAX_DIGITS then Beyond
                          else Prepend(Repeat(0, Number(t[..Digits01(t)]) - 1), Decoded(t[Digits01(t)..]))
  {
    hide Number, Repeat;
  }

  lemma DecodedEscape(c: Byte, r: seq<Byte>)
    ensures Decoded([0xff, c] + r) == Prepend([if c == 0 then 0xfe else 0xff], Decoded(r))
  {
    var t := [0xff, c] + r;
    assert t[0] == 0xff && t[1] == c && t[2..] == r;
  }

  lemma DecodedPlain(c: Byte, r: seq<Byte>)
    requires 1 < c < 0xff
    ensures Decoded([c] + r) == Prepend([c - 1], Decoded(r))
  {
    var t := [c] + r;
    assert t[0] == c && t[1..] == r;
  }

  lemma DecodedNumber(c: Byte, r: seq<Byte>)
    requires c <= 1
    ensures var t := [c] + r; var k := Digits01(t);
      Decoded(t) == if k > MAX_DIGITS then Beyond else Prepend(Repeat(0, Number(t[..k]) - 1), Decoded(t[k..]))
  {
  }

  lemma DecodeByte(s: seq<Byte>)
    requires s != [] && s[0] != 0
    ensures Decoded(Encoded(s)) == Prepend([s[0]], Decoded(Encoded(s[1..])))
  {
    hide Decoded;
    if s[0] == 0xfe {
      DecodedEscape(0, Encoded(s[1..]));
    } else if s[0] == 0xff {
      DecodedEscape(1, Encoded(s[1..]));
    } else {
      DecodedPlain(s[0] + 1, Encoded(s[1..]));
    }
  }

  /** Decoding stays within an `int`, and then gives back the bytes, exactly when no run is too long. */
  lemma {:induction false} RoundTrip(s: seq<Byte>)
    ensures Decoded(Encoded(s)) == if Fits(s) then Done(s) else Beyond
    decreases |s|
  {
    if s == [] {
    } else if s[0] == 0 {
      DecodeRun(s);
      ZerosOnly(s);
      RoundTrip(s[Zeros(s)..]);
      hide Decoded, Encoded;
    } else {
      DecodeByte(s);
      RoundTrip(s[1..]);
      hide Decoded, Encoded;
      assert s == [s[0]] + s[1..];
    }
  }

  /** A run that is too long leads to a shift past the width of an `int`, on which nothing is said. */
  lemma LongRun(n: nat)
    requires n >= 0x7fffffff
    ensures Decoded(Encoded(Repeat(0, n))) == Beyond
  {
    var s := Repeat(0, n);
    AllZeros(n);
    RoundTrip(s);
    hide Decoded, Encoded, Zeros;
  }

  lemma {:induction false} AllZeros(n: nat)
    ensures Zeros(Repeat(0, n)) == n
  {
    if n > 0 {
      AllZeros(n - 1);
      assert Repeat(0, n)[1..] == Repeat(0, n - 1);
    }
  }

  // --- the programs: a stream with room for one byte pushed back

  const EOF := -1
  const NOT_CACHE := -2

  /** A byte just read, or the end, and what comes behind it. */
  ghost function Pending(c: int, rest: seq<Byte>): seq<Byte> {
    if 0 <= c < 256 then [c] + rest else []
  }

  lemma PendingIs(c: int, rest: seq<Byte>)
    ensures 0 <= c < 256 ==> Pending(c, rest) != [] && Pending(c, rest)[0] == c && Pending(c, rest)[1..] == rest
    ensures c == EOF ==> Pending(c, rest) == []
  {
  }

  class Stream {
    const input: seq<Byte>
    var next: nat
    var cache: int

    /** What is still to come. */
    ghost function Rest(): seq<Byte>
      requires Valid()
      reads this
    {
      if cache >= 0 then [cache] + input[next..] else input[next..]
    }

    ghost predicate Valid()
      reads this
    {
      next <= |input| && NOT_CACHE <= cache < 256 && (cache == EOF ==> next == |input|)
    }

    constructor (input: seq<Byte>)
      ensures Valid() && Rest() == input && cache == NOT_CACHE
    {
      this.input := input;
      next := 0;
      cache := NOT_CACHE;
    }

    method Get() returns (c: int)
      requires Valid()
      modifies this
      ensures Valid() && cache == NOT_CACHE && EOF <= c < 256 && (c == EOF ==> Rest() == [])
      ensures old(Rest()) == Pending(c, Rest())
    {
      if cache == NOT_CACHE {
        if next == |input| {
          return EOF;
        }
        next := next + 1;
        return input[next - 1];
      }
      c := cache;
      cache := NOT_CACHE;
    }

    method Unget(c: int) returns (ok: bool)
      requires Valid() && EOF <= c < 256 && (c == EOF ==> Rest() == [])
      modifies this
      ensures Valid() && ok == (old(cache) == NOT_CACHE)
      ensures Rest() == if ok then Pending(c, old(Rest())) else old(Rest())
    {
      ok := cache == NOT_CACHE;
      if ok {
        cache := c;
      }
    }
  }

  /** Writes the digits of a number, lowest first, up to its leading one. */
  method PutBits(n: nat) returns (out: seq<Byte>)
    requires n > 0
    ensures out == Bits(n)
  {
    out := [];
    var count := n;
    while count != 1
      invariant count > 0 && out + Bits(count) == Bits(n)
    {
      out := out + [count % 2];
      count := count / 2;
    }
  }

  lemma ZerosStep(r: seq<Byte>)
    requires r != [] && r[0] == 0
    ensures Zeros(r) == 1 + Zeros(r[1..]) && r[Zeros(r)..] == r[1..][Zeros(r[1..])..]
  {
  }

  lemma NoZeros(r: seq<Byte>)
    requires r == [] || r[0] != 0
    ensures Zeros(r) == 0 && r[0..] == r
  {
  }

  /** Reads on through a run of zeros, and puts the byte behind it back. */
  method CountZeros(source: Stream) returns (count: nat, ok: bool)
    requires source.Valid() && source.cache == NOT_CACHE
    modifies source
    ensures source.Valid() && ok && count == 1 + Zeros(old(source.Rest()))
    ensures source.Rest() == old(source.Rest())[Zeros(old(source.Rest()))..]
  {
    hide Zeros, Pending, Stream.Rest;
    ghost var r := source.Rest();
    ghost var left := r;
    count := 1;
    var next := source.Get();
    while next == 0
      invariant source.Valid() && source.cache == NOT_CACHE && EOF <= next < 256 && count > 0
      invariant left == Pending(next, source.Rest()) && (next == EOF ==> source.Rest() == [])
      invariant Zeros(r) == count - 1 + Zeros(left) && r[Zeros(r)..] == left[Zeros(left)..]
      decreases |left|
      modifies source
    {
      PendingIs(next, source.Rest());
      ZerosStep(left);
      left := left[1..];
      count := count + 1;
      next := source.Get();
    }
    PendingIs(next, source.Rest());
    NoZeros(left);
    ok := source.Unget(next);
  }

  /** One turn of the encoder's loop. */
  method EncodeNext(source: Stream, c: Byte) returns (out: seq<Byte>, ok: bool)
    requires source.Valid() && source.cache == NOT_CACHE
    modifies source
    ensures source.Valid() && ok && |source.Rest()| <= |old(source.Rest())|
    ensures out + Encoded(source.Rest()) == Encoded([c] + old(source.Rest()))
  {
    ghost var r := [c] + source.Rest();
    assert r[1..] == source.Rest();
    ok := true;
    if c == 0 {
      ZerosStep(r);
      hide Zeros, Bits;
      var count;
      count, ok := CountZeros(source);
      out := PutBits(count + 1);
    } else if c == 0xfe {
      out := [0xff, 0];
    } else if c == 0xff {
      out := [0xff, 1];
    } else {
      out := [c + 1];
    }
  }

  method Encode(source: Stream) returns (out: seq<Byte>, ok: bool)
    requires source.Valid()
    modifies source
    ensures ok && out == Encoded(old(source.Rest()))
  {
    hide Encoded;
    ghost var s := source.Rest();
    out := [];
    ok := true;
    while true
      invariant source.Valid() && ok && out + Encoded(source.Rest()) == Encoded(s)
      decreases |source.Rest()|
      modifies source
    {
      ghost var r := source.Rest();
      var c := source.Get();
      if c == EOF {
        EncodedEnd();
        return;
      }
      assert r == [c] + source.Rest();
      hide Pending;
      var chunk;
      chunk, ok := EncodeNext(source, c);
      if !ok {
        return;
      }
      out := out + chunk;
    }
  }

  lemma EncodedEnd()
    ensures Encoded([]) == []
  {
  }

  // --- the decoder

  lemma DigitsStep(t: seq<Byte>)
    requires t != [] && t[0] <= 1
    ensures Digits01(t) == 1 + Digits01(t[1..]) && t[Digits01(t)..] == t[1..][Digits01(t[1..])..]
    ensures t[..Digits01(t)] == [t[0]] + t[1..][..Digits01(t[1..])]
  {
    var k := Digits01(t[1..]);
    assert t[..1 + k] == [t[0]] + t[1..][..k];
  }

  lemma NoDigits(t: seq<Byte>)
    requires t == [] || t[0] > 1
    ensures Digits01(t) == 0 && t[0..] == t && t[..0] == []
  {
  }

  /** The digits read so far count for `count`, the next one for `power`. */
  lemma {:induction false} NumberSplit(a: seq<Byte>, b: seq<Byte>)
    requires Binary(a)
    ensures Number(a + b) == Number(a) - Two(|a|) + Two(|a|) * Number(b)
  {
    if a == [] {
      assert a + b == b;
    } else {
      NumberSplit(a[1..], b);
      assert (a + b)[1..] == a[1..] + b;
      assert Two(|a|) == 2 * Two(|a| - 1);
      Doubled(Two(|a| - 1), Number(b));
    }
  }

  lemma Doubled(p: nat, n: nat)
    ensures 2 * p * n == 2 * (p * n)
  {
  }

  /**
    Reads digits while there are any: `count` gathers them, and the leading
    one is put on top. Past the digits an `int` has room for the result is
    not defined.
   */
  method ReadNumber(source: Stream, c: Byte) returns (count: nat, fits: bool, ok: bool)
    requires source.Valid() && source.cache == NOT_CACHE && c <= 1
    modifies source
    ensures source.Valid() && ok && |source.Rest()| <= |old(source.Rest())|
    ensures var t := [c] + old(source.Rest());
      fits == (Digits01(t) <= MAX_DIGITS) && (fits ==>
        count == Number(t[..Digits01(t)]) && source.Rest() == t[Digits01(t)..])
  {
    hide Digits01, Two, Number, Pending, Stream.Rest;
    ghost var t := [c] + source.Rest();
    ghost var seen: seq<Byte>, left: seq<Byte> := [c], source.Rest();
    ok := true;
    count := c;
    var exp, power := 1, 2;
    assert t[1..] == left;
    DigitsStep(t);
    FirstDigit(c);
    var next := source.Get();
    while next != EOF && next <= 1
      invariant source.Valid() && source.cache == NOT_CACHE && EOF <= next < 256
      invariant left == Pending(next, source.Rest()) && (next == EOF ==> source.Rest() == [])
      invariant |seen| == exp && 1 <= exp && Binary(seen) && power == Two(exp) && count + power == Number(seen)
      invariant Digits01(t) == exp + Digits01(left) && t[Digits01(t)..] == left[Digits01(left)..]
      invariant t[..Digits01(t)] == seen + left[..Digits01(left)] && |left| <= |t|
      decreases |left|
      modifies source
    {
      PendingIs(next, source.Rest());
      DigitsStep(left);
      NextDigit(seen, next, count, power);
      assert seen + ([next] + left[1..][..Digits01(left[1..])]) == (seen + [next]) + left[1..][..Digits01(left[1..])];
      count := count + next * power;
      exp, power := exp + 1, 2 * power;
      seen, left := seen + [next], left[1..];
      next := source.Get();
    }
    PendingIs(next, source.Rest());
    NoDigits(left);
    ok := source.Unget(next);
    fits := exp <= MAX_DIGITS;
    assert seen + [] == seen;
    count := count + power;
  }

  lemma FirstDigit(c: Byte)
    requires c <= 1
    ensures Two(1) == 2 && Number([c]) == c + 2 && Binary([c])
  {
    assert Two(0) == 1 && Number([]) == 1;
    assert [c][1..] == [];
  }

  lemma NextDigit(seen: seq<Byte>, d: Byte, count: nat, power: nat)
    requires Binary(seen) && d <= 1 && power == Two(|seen|) && count + power == Number(seen)
    ensures Binary(seen + [d]) && 2 * power == Two(|seen| + 1)
    ensures count + d * power + 2 * power == Number(seen + [d])
  {
    NumberSplit(seen, [d]);
    FirstDigit(d);
  }

  method PutZeros(n: nat) returns (out: seq<Byte>)
    requires n > 0
    ensures out == Repeat(0, n - 1)
  {
    out := [];
    var count := n - 1;
    while count > 0
      invariant 0 <= count < n && out == Repeat(0, n - 1 - count)
    {
      out := out + [0];
      count := count - 1;
    }
  }

  /** One turn of the decoder's loop; `chunk.Done?` when it goes on. */
  method DecodeNext(source: Stream, c: Byte) returns (chunk: Outcome)
    requires source.Valid() && source.cache == NOT_CACHE
    modifies source
    ensures source.Valid() && |source.Rest()| <= |old(source.Rest())|
    ensures Decoded([c] + old(source.Rest())) ==
            if chunk.Done? then Prepend(chunk.bytes, Decoded(source.Rest())) else chunk
  {
    hide Decoded, Digits01, Number, Stream.Rest, Repeat;
    ghost var r := source.Rest();
    if c <= 1 {
      DecodedNumber(c, r);
      var count, fits, ok := ReadNumber(source, c);
      if !fits {
        return Beyond;
      }
      var zeros := PutZeros(count);
      chunk := Done(zeros);
    } else if c == 0xff {
      var d := source.Get();
      if d == EOF {
        EscapeEnds();
        return Short;
      }
      DecodedEscape(d, source.Rest());
      assert [c] + r == [0xff, d] + source.Rest();
      chunk := Done([if d != 0 then 0xff else 0xfe]);
    } else {
      DecodedPlain(c, r);
      chunk := Done([c - 1]);
    }
  }

  lemma EscapeEnds()
    ensures Decoded([0xff] + []) == Short
  {
  }

  method Decode(source: Stream) returns (result: Outcome)
    requires source.Valid()
    modifies source
    ensures result == Decoded(old(source.Rest()))
  {
    hide Decoded, Stream.Rest, Pending;
    ghost var t := source.Rest();
    var out := [];
    Joined([], [], Decoded(t));
    while true
      invariant source.Valid() && Prepend(out, Decoded(source.Rest())) == Decoded(t)
      decreases |source.Rest()|
      modifies source
    {
      ghost var r := source.Rest();
      var c := source.Get();
      PendingIs(c, source.Rest());
      if c == EOF {
        DecodedEnd();
        assert out + [] == out;
        return Done(out);
      }
      assert r == [c] + source.Rest();
      var chunk := DecodeNext(source, c);
      if !chunk.Done? {
        return chunk;
      }
      Joined(out, chunk.bytes, Decoded(source.Rest()));
      out := out + chunk.bytes;
    }
  }

  lemma DecodedEnd()
    ensures Decoded([]) == Done([])
  {
  }

  lemma Joined(a: seq<Byte>, b: seq<Byte>, r: Outcome)
    ensures Prepend(a, Prepend(b, r)) == Prepend(a + b, r) && Prepend([], r) == r
  {
    if r.Done? {
      assert a + (b + r.bytes) == a + b + r.bytes;
      assert [] + r.bytes == r.bytes;
    }
  }

  /** Decoding what was encoded gives the bytes back, whenever every run fits. */
  method Transport(bytes: seq<Byte>) returns (result: Outcome)
    ensures result == if Fits(bytes) then Done(bytes) else Beyond
  {
    var source := new Stream(bytes);
    var out, ok := Encode(source);
    var back := new Stream(out);
    result := Decode(back);
    RoundTrip(bytes);
  }
}
