/** Range coding with unbounded numbers.  A message narrows an interval whose low end
    is never rounded or split into bytes; its code is that low end written in base 256.
    The coder of RangeCoder.dfy is proved to emit exactly this code. */
module RangeSpec {
  import opened Octets
  import opened Wrappers
  import opened FrequencyTable
  import opened Radix

  const MAX_RANGE := 0xffffffff
  const MIN_RANGE := 0x01000000
  const WORD := 0x1_0000_0000

  /** The numbers [low, low + range), in units of 256 to the power -shifts. */
  datatype Interval = Interval(low: nat, range: nat, shifts: nat)

  ghost predicate Ready(iv: Interval) {
    && MIN_RANGE <= iv.range < WORD
    && Fits(iv)
  }

  /** Nothing ever leaves the initial interval, so the integer part of a code is one word. */
  ghost predicate Fits(iv: Interval) {
    0 < iv.range && iv.low + iv.range <= Pow(iv.shifts) * WORD
  }

  const INITIAL := Interval(0, MAX_RANGE, 0)

  ghost function Narrow(iv: Interval, f: seq<nat>, c: nat): Interval
    requires c < |f| && Total(f) > 0
  {
    var unit := iv.range / Total(f);
    Interval(iv.low + Cum(f, c) * unit, f[c] * unit, iv.shifts)
  }

  ghost function Shift(iv: Interval): Interval {
    Interval(256 * iv.low, 256 * iv.range, iv.shifts + 1)
  }

  ghost function Normalize(iv: Interval): Interval
    requires iv.range > 0
    decreases MIN_RANGE - iv.range
  {
    if iv.range >= MIN_RANGE then iv else Normalize(Shift(iv))
  }

  ghost predicate IsMessage(cs: seq<nat>) {
    forall i :: 0 <= i < |cs| ==> cs[i] < CHR_RANGE
  }

  /** The interval after a whole message, the model adapting after every symbol. */
  ghost function Run(iv: Interval, f: seq<nat>, cs: seq<nat>): Interval
    requires IsModel(f) && IsMessage(cs) && Ready(iv)
    decreases |cs|
  {
    if cs == [] then iv
    else
      UpdateKeepsModel(f, cs[0]);
      NarrowReady(iv, f, cs[0]);
      Run(Normalize(Narrow(iv, f, cs[0])), Update(f, cs[0]), cs[1..])
  }

  ghost function Message(s: seq<Byte>): (cs: seq<nat>)
    ensures IsMessage(cs)
  {
    seq(|s|, i requires 0 <= i < |s| => s[i]) + [CHR_EOS]
  }

  /** The code of a byte string under a model: one word plus one byte for every shift. */
  ghost function EncodedFrom(f: seq<nat>, s: seq<Byte>): seq<Byte>
    requires IsModel(f)
  {
    InitialReady();
    var iv := Run(INITIAL, f, Message(s));
    Digits(iv.low, iv.shifts + 4)
  }

  ghost function Encoded(s: seq<Byte>): seq<Byte> {
    UniformIsModel();
    EncodedFrom(Uniform(), s)
  }

  lemma InitialReady()
    ensures Ready(INITIAL)
  {
    assert Pow(0) == 1;
  }

  lemma UnitBounds(range: nat, f: seq<nat>, c: nat)
    requires IsModel(f) && c < CHR_RANGE && MIN_RANGE <= range
    ensures Total(f) > 0 && range / Total(f) > 0
    ensures 0 < f[c] * (range / Total(f)) < range
    ensures Cum(f, c) * (range / Total(f)) + f[c] * (range / Total(f)) <= range
  {
    IntervalInside(f, c);
    ShareBounds(range, Total(f), Cum(f, c), f[c]);
  }

  /** Dividing the range among the counts leaves every symbol something and loses nothing. */
  lemma ShareBounds(range: nat, t: nat, low: nat, n: nat)
    requires 0 < n < t && low + n <= t < FREQ_LIMIT && MIN_RANGE <= range
    ensures range / t > 0 && 0 < n * (range / t) < range
    ensures low * (range / t) + n * (range / t) <= range
  {
    var u := range / t;
    DivBounds(range, t);
    MulMonotone(1, n, u);
    MulMonotone(n + 1, t, u);
    MulMonotone(low + n, t, u);
    Distribute(n, 1, u);
    Distribute(low, n, u);
    assert t * u == u * t;
  }

  lemma NarrowFits(iv: Interval, f: seq<nat>, c: nat)
    requires IsModel(f) && c < CHR_RANGE && Ready(iv)
    ensures Total(f) > 0 && Fits(Narrow(iv, f, c))
    ensures iv.low <= Narrow(iv, f, c).low
    ensures Narrow(iv, f, c).low + Narrow(iv, f, c).range <= iv.low + iv.range
    ensures Narrow(iv, f, c).range < iv.range
  {
    UnitBounds(iv.range, f, c);
  }

  lemma {:induction false} NormalizeReady(iv: Interval)
    requires Fits(iv) && iv.range < WORD
    ensures Ready(Normalize(iv))
    decreases MIN_RANGE - iv.range
  {
    if iv.range < MIN_RANGE {
      assert Pow(iv.shifts + 1) * WORD == 256 * (Pow(iv.shifts) * WORD);
      NormalizeReady(Shift(iv));
    }
  }

  lemma NarrowReady(iv: Interval, f: seq<nat>, c: nat)
    requires IsModel(f) && c < CHR_RANGE && Ready(iv)
    ensures Total(f) > 0 && Narrow(iv, f, c).range > 0
    ensures Ready(Normalize(Narrow(iv, f, c)))
  {
    NarrowFits(iv, f, c);
    NormalizeReady(Narrow(iv, f, c));
  }

  /** The first symbol of what is left to encode, and the rest. */
  lemma RunStep(iv: Interval, f: seq<nat>, s: seq<Byte>)
    requires IsModel(f) && Ready(iv)
    ensures var c := if s == [] then CHR_EOS else s[0];
            && Total(f) > 0 && Narrow(iv, f, c).range > 0
            && Ready(Normalize(Narrow(iv, f, c))) && IsModel(Update(f, c))
            && Run(iv, f, Message(s)) ==
               if s == [] then Normalize(Narrow(iv, f, c))
               else Run(Normalize(Narrow(iv, f, c)), Update(f, c), Message(s[1..]))
  {
    var cs := Message(s);
    UpdateKeepsModel(f, cs[0]);
    NarrowReady(iv, f, cs[0]);
    assert s == [] ==> cs[1..] == [];
    assert s != [] ==> cs[1..] == Message(s[1..]);
  }

  // ----- Intervals nest -----

  /** v, read in units of 256 to the power -n, lies in the interval. */
  ghost predicate Within(iv: Interval, v: nat, n: nat) {
    && iv.shifts <= n
    && iv.low * Pow(n - iv.shifts) <= v < (iv.low + iv.range) * Pow(n - iv.shifts)
  }

  lemma ShiftWithin(iv: Interval, v: nat, n: nat)
    requires Within(Shift(iv), v, n)
    ensures Within(iv, v, n)
  {
    var p := Pow(n - iv.shifts - 1);
    ScaledSum(iv.low, 0, p);
    Scale(iv.low, p);
    ScaledSum(iv.low + iv.range, 0, p);
    Scale(iv.low + iv.range, p);
  }

  lemma {:induction false} NormalizeWithin(iv: Interval, v: nat, n: nat)
    requires iv.range > 0 && Within(Normalize(iv), v, n)
    ensures Within(iv, v, n)
    decreases MIN_RANGE - iv.range
  {
    if iv.range < MIN_RANGE {
      NormalizeWithin(Shift(iv), v, n);
      ShiftWithin(iv, v, n);
    }
  }

  lemma NarrowWithin(iv: Interval, f: seq<nat>, c: nat, v: nat, n: nat)
    requires IsModel(f) && c < CHR_RANGE && Ready(iv) && Total(f) > 0
    requires Within(Narrow(iv, f, c), v, n)
    ensures Within(iv, v, n)
  {
    NarrowFits(iv, f, c);
    var p, nv := Pow(n - iv.shifts), Narrow(iv, f, c);
    MulMonotone(iv.low, nv.low, p);
    MulMonotone(nv.low + nv.range, iv.low + iv.range, p);
  }

  /** The final low end lies in every interval passed on the way. */
  lemma {:induction false} RunWithin(iv: Interval, f: seq<nat>, cs: seq<nat>)
    requires IsModel(f) && IsMessage(cs) && Ready(iv)
    ensures var end := Run(iv, f, cs);
            Ready(end) && Within(iv, end.low, end.shifts)
    decreases |cs|
  {
    var end := Run(iv, f, cs);
    if cs == [] {
      assert Pow(0) == 1;
    } else {
      var c := cs[0];
      UpdateKeepsModel(f, c);
      NarrowReady(iv, f, c);
      var nv := Narrow(iv, f, c);
      RunWithin(Normalize(nv), Update(f, c), cs[1..]);
      NormalizeWithin(nv, end.low, end.shifts);
      NarrowWithin(iv, f, c, end.low, end.shifts);
    }
  }

  // ----- Decoding -----

  /** Where a decoder stands: what it has read of the code, relative to the interval. */
  datatype Reader = Reader(low: nat, range: nat, unread: seq<Byte>)

  /** How decoding ended: with the end-of-stream mark, or out of input. */
  datatype Decoded = Decoded(complete: bool, output: seq<Byte>, unread: seq<Byte>)

  ghost function Refill(r: Reader): Option<Reader>
    requires r.range > 0
    decreases |r.unread|
  {
    if r.range >= MIN_RANGE then Some(r)
    else if r.unread == [] then None
    else Refill(Reader((256 * r.low + r.unread[0]) % WORD, 256 * r.range, r.unread[1..]))
  }

  /** The interval of c starts at or below the code. */
  ghost predicate Reaches(r: Reader, f: seq<nat>, c: nat)
    requires c <= |f| && Total(f) > 0
  {
    Cum(f, c) * (r.range / Total(f)) <= r.low
  }

  /** The reader once symbol c has been taken out of it. */
  ghost function Take(r: Reader, f: seq<nat>, c: nat): (r': Reader)
    requires IsModel(f) && MIN_RANGE <= r.range && c < CHR_RANGE
    requires Total(f) > 0 && Reaches(r, f, c)
    ensures 0 < r'.range < r.range && r'.unread == r.unread
  {
    UnitBounds(r.range, f, c);
    var unit := r.range / Total(f);
    Reader(r.low - Cum(f, c) * unit, f[c] * unit, r.unread)
  }

  /** The symbol a reader stands on, for any code bytes whatever. */
  ghost function Next(r: Reader, f: seq<nat>): (c: nat)
    requires IsModel(f) && MIN_RANGE <= r.range
    ensures c < CHR_RANGE && Total(f) > 0 && Reaches(r, f, c)
  {
    UnitBounds(r.range, f, 0);
    var unit := r.range / Total(f);
    var v := r.low / unit;
    LocateFromBounds(f, v, 0);
    var c := Locate(f, v);
    assert Cum(f, c) * unit <= r.low by {
      DivBounds(r.low, unit);
      MulMonotone(Cum(f, c), v, unit);
    }
    c
  }

  lemma {:induction false} RefillShrinks(r: Reader)
    requires r.range > 0
    ensures Refill(r).Some? ==>
      var r' := Refill(r).value;
      && MIN_RANGE <= r'.range && |r'.unread| <= |r.unread|
      && (|r'.unread| == |r.unread| ==> r' == r)
      && (r.range < WORD ==> r'.range < WORD)
      && (r.low < WORD ==> r'.low < WORD)
    decreases |r.unread|
  {
    if r.range < MIN_RANGE && r.unread != [] {
      RefillShrinks(Reader((256 * r.low + r.unread[0]) % WORD, 256 * r.range, r.unread[1..]));
    }
  }

  ghost function DecodeFrom(r: Reader, f: seq<nat>): Decoded
    requires IsModel(f) && MIN_RANGE <= r.range
    decreases |r.unread|, r.range
  {
    var c := Next(r, f);
    var taken := Take(r, f, c);
    RefillShrinks(taken);
    UpdateKeepsModel(f, c);
    match Refill(taken)
    case None => Decoded(false, [], [])
    case Some(r') =>
      if c == CHR_EOS then Decoded(true, [], r'.unread)
      else
        var rest := DecodeFrom(r', Update(f, c));
        Decoded(rest.complete, [c] + rest.output, rest.unread)
  }

  ghost function Prepend(out: seq<Byte>, d: Decoded): Decoded {
    Decoded(d.complete, out + d.output, d.unread)
  }

  lemma PrependOne(out: seq<Byte>, c: Byte, d: Decoded)
    ensures Prepend(out, Prepend([c], d)) == Prepend(out + [c], d)
  {
    assert out + ([c] + d.output) == (out + [c]) + d.output;
  }

  /** One symbol of decoding; a step that reads no byte narrows the range instead. */
  lemma DecodeStep(r: Reader, f: seq<nat>)
    requires IsModel(f) && MIN_RANGE <= r.range
    ensures var c := Next(r, f);
            match Refill(Take(r, f, c)) {
              case None => DecodeFrom(r, f) == Decoded(false, [], [])
              case Some(r') =>
                && MIN_RANGE <= r'.range && IsModel(Update(f, c))
                && (|r'.unread| < |r.unread| || (r'.unread == r.unread && r'.range < r.range))
                && DecodeFrom(r, f) == if c == CHR_EOS then Decoded(true, [], r'.unread)
                                       else Prepend([c], DecodeFrom(r', Update(f, c)))
            }
  {
    RefillShrinks(Take(r, f, Next(r, f)));
    UpdateKeepsModel(f, Next(r, f));
  }

  /** The first four bytes of a code as one number. */
  function Word(code: seq<Byte>): nat
    requires |code| >= 4
  {
    code[0] as int * 0x1000000 + code[1] as int * 0x10000 + code[2] as int * 0x100 + code[3] as int
  }

  /** Decoding of arbitrary bytes. */
  ghost function Decode(code: seq<Byte>): Decoded {
    UniformIsModel();
    if |code| < 4 then Decoded(false, [], [])
    else DecodeFrom(Reader(Word(code), MAX_RANGE, code[4..]), Uniform())
  }

  // ----- Decoding a code gives the message back -----

  /** The reader of the code v (n digits after the word), relative to an interval. */
  ghost function At(iv: Interval, v: nat, n: nat): (r: Reader)
    requires Within(iv, v, n)
    ensures r.low < iv.range
  {
    AboveBetween(v, n - iv.shifts, iv.low, iv.low + iv.range);
    Reader(Above(v, n - iv.shifts) - iv.low, iv.range, Digits(v, n - iv.shifts))
  }

  /** Reading one byte is what shifting the interval calls for. */
  lemma ReadAt(iv: Interval, v: nat, n: nat)
    requires iv.range < MIN_RANGE && Within(Shift(iv), v, n)
    ensures Within(iv, v, n)
    ensures var r := At(iv, v, n);
            r.unread != []
            && Reader((256 * r.low + r.unread[0]) % WORD, 256 * r.range, r.unread[1..]) == At(Shift(iv), v, n)
  {
    ShiftWithin(iv, v, n);
    var k := n - iv.shifts - 1;
    var r := At(iv, v, n);
    assert r.unread == [Above(v, k) % 256] + Digits(v, k);
    assert 256 * r.low + r.unread[0] == At(Shift(iv), v, n).low < WORD;
  }

  lemma {:induction false} RefillAt(iv: Interval, v: nat, n: nat)
    requires iv.range > 0 && iv.range < WORD && Within(Normalize(iv), v, n)
    ensures Within(iv, v, n)
    ensures Refill(At(iv, v, n)) == Some(At(Normalize(iv), v, n))
    decreases MIN_RANGE - iv.range
  {
    NormalizeWithin(iv, v, n);
    if iv.range < MIN_RANGE {
      NormalizeWithin(Shift(iv), v, n);
      ReadAt(iv, v, n);
      RefillAt(Shift(iv), v, n);
    }
  }

  /** A code inside the narrowed interval of c makes the reader stand on c. */
  lemma NextAt(iv: Interval, f: seq<nat>, c: nat, v: nat, n: nat)
    requires IsModel(f) && c < CHR_RANGE && Ready(iv) && Total(f) > 0
    requires Within(Narrow(iv, f, c), v, n)
    ensures Within(iv, v, n) && Next(At(iv, v, n), f) == c
    ensures Take(At(iv, v, n), f, c) == At(Narrow(iv, f, c), v, n)
  {
    NarrowWithin(iv, f, c, v, n);
    UnitBounds(iv.range, f, c);
    AboveBetween(v, n - iv.shifts, Narrow(iv, f, c).low, Narrow(iv, f, c).low + Narrow(iv, f, c).range);
    var unit := iv.range / Total(f);
    var d := At(iv, v, n).low;
    var q := d / unit;
    Distribute(Cum(f, c), f[c], unit);
    DivBetween(d, unit, Cum(f, c), Cum(f, c) + f[c]);
    IntervalInside(f, c);
    LocateUnique(f, q, c);
  }

  /** From any interval on the way, the decoder reproduces the rest of the message. */
  lemma {:induction false} DecodeRun(iv: Interval, f: seq<nat>, s: seq<Byte>)
    requires IsModel(f) && Ready(iv)
    ensures var end := Run(iv, f, Message(s));
            Within(iv, end.low, end.shifts)
            && DecodeFrom(At(iv, end.low, end.shifts), f) == Decoded(true, s, [])
    decreases |s|
  {
    var c := if s == [] then CHR_EOS else s[0];
    var end := Run(iv, f, Message(s));
    RunStep(iv, f, s);
    RunWithin(iv, f, Message(s));
    NarrowFits(iv, f, c);
    var nv := Narrow(iv, f, c);
    if s == [] {
      assert Pow(0) == 1;
      SymbolRead(iv, f, c, end);
      assert Digits(end.low, 0) == [];
    } else {
      RunWithin(Normalize(nv), Update(f, c), Message(s[1..]));
      SymbolRead(iv, f, c, end);
      DecodeRun(Normalize(nv), Update(f, c), s[1..]);
    }
  }

  lemma SymbolRead(iv: Interval, f: seq<nat>, c: nat, end: Interval)
    requires IsModel(f) && c < CHR_RANGE && Ready(iv) && Total(f) > 0
    requires 0 < Narrow(iv, f, c).range < WORD
    requires Within(Normalize(Narrow(iv, f, c)), end.low, end.shifts)
    ensures Within(iv, end.low, end.shifts)
    ensures var r := At(iv, end.low, end.shifts);
            && Next(r, f) == c
            && Refill(Take(r, f, c)) == Some(At(Normalize(Narrow(iv, f, c)), end.low, end.shifts))
  {
    NormalizeWithin(Narrow(iv, f, c), end.low, end.shifts);
    NextAt(iv, f, c, end.low, end.shifts);
    RefillAt(Narrow(iv, f, c), end.low, end.shifts);
  }

  lemma CodeOf(f: seq<nat>, s: seq<Byte>)
    requires IsModel(f) && Ready(INITIAL)
    ensures var end := Run(INITIAL, f, Message(s));
            end.low < Pow(end.shifts) * WORD && EncodedFrom(f, s) == Digits(end.low, end.shifts + 4)
  {
    RunWithin(INITIAL, f, Message(s));
  }

  lemma StartAt(v: nat, n: nat)
    requires Within(INITIAL, v, n) && v < Pow(n) * WORD
    ensures var code := Digits(v, n + 4);
            At(INITIAL, v, n) == Reader(Word(code), MAX_RANGE, code[4..])
  {
    WordOfDigits(v, n);
  }

  lemma RoundTripFrom(f: seq<nat>, s: seq<Byte>)
    requires IsModel(f)
    ensures var code := EncodedFrom(f, s);
            |code| >= 4 && DecodeFrom(Reader(Word(code), MAX_RANGE, code[4..]), f) == Decoded(true, s, [])
  {
    InitialReady();
    var end := Run(INITIAL, f, Message(s));
    RunWithin(INITIAL, f, Message(s));
    DecodeRun(INITIAL, f, s);
    StartAt(end.low, end.shifts);
  }

  /** Every byte string comes back whole, and every byte of its code is consumed. */
  lemma RoundTrip(s: seq<Byte>)
    ensures Decode(Encoded(s)) == Decoded(true, s, [])
  {
    UniformIsModel();
    RoundTripFrom(Uniform(), s);
  }

  lemma TopWord(v: nat, n: nat)
    requires v < Pow(n) * WORD
    ensures Above(v, n) < WORD
  {
    assert Pow(n) * WORD == WORD * Pow(n);
    AboveBetween(v, n, 0, WORD);
  }

  lemma WordOfDigits(v: nat, n: nat)
    requires v < Pow(n) * WORD
    ensures Word(Digits(v, n + 4)) == Above(v, n)
    ensures Digits(v, n + 4)[4..] == Digits(v, n)
  {
    TopWord(v, n);
    BytesOfWord(Above(v, n));
    TopDigits(v, n);
  }

  lemma TopDigits(v: nat, n: nat)
    ensures var a := Above(v, n);
            Digits(v, n + 4) == [a / 256 / 256 / 256 % 256, a / 256 / 256 % 256, a / 256 % 256, a % 256] + Digits(v, n)
  {
    assert Above(v, n + 1) == Above(v, n) / 256;
    assert Above(v, n + 2) == Above(v, n + 1) / 256;
    assert Above(v, n + 3) == Above(v, n + 2) / 256;
    hide Above, Digits;
    FirstDigit(v, n);
    FirstDigit(v, n + 1);
    FirstDigit(v, n + 2);
    FirstDigit(v, n + 3);
  }

  lemma BytesOfWord(a: nat)
    requires a < WORD
    ensures (a / 256 / 256 / 256 % 256) * 0x1000000 + (a / 256 / 256 % 256) * 0x10000
            + (a / 256 % 256) * 0x100 + a % 256 == a
  {
  }
}
