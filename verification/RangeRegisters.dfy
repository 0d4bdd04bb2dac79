/** What the registers of the range coder stand for: the bytes already put, one pending
    byte, a run of pending 0xff bytes that a carry may still turn over, the carry, and low. */
module RangeRegisters {
  import opened Octets
  import opened Radix
  import opened RangeSpec

  const TOP_BYTE := 0x1000000

  datatype Regs = Regs(puts: seq<Byte>, buf: nat, count: nat, carry: bool, low: nat, range: nat)

  ghost function CarryIn(r: Regs): nat {
    if r.carry then 1 else 0
  }

  /** Value of the pending bytes: buf followed by count bytes 0xff. */
  ghost function Pending(buf: nat, count: nat): nat {
    (buf + 1) * Pow(count) - 1
  }

  /** Value of everything above low. */
  ghost function Head(puts: seq<Byte>, buf: nat, count: nat): nat {
    Value(puts) * Pow(count + 1) + Pending(buf, count)
  }

  /** The registers hold the exact low end of the interval, and a carry out of the
      interval's width has room to stop in the pending bytes. */
  ghost predicate Denotes(r: Regs, iv: Interval) {
    && r.range == iv.range && r.low < WORD && r.buf < 256
    && |r.puts| + r.count == iv.shifts
    && iv.low == (Head(r.puts, r.buf, r.count) + CarryIn(r)) * WORD + r.low
    && (Pending(r.buf, r.count) + CarryIn(r)) * WORD + r.low + r.range <= Pow(r.count + 1) * WORD
  }

  lemma PendingBytes(puts: seq<Byte>, buf: Byte, ch: Byte, count: nat)
    requires ch == 0 || ch == 255
    ensures Value(puts + [buf] + Repeat(ch, count)) ==
            Value(puts) * Pow(count + 1) + if ch == 0 then buf * Pow(count) else Pending(buf, count)
  {
    ValueConcat(puts + [buf], Repeat(ch, count));
    ValueSnoc(puts, buf);
    ValueRepeat(ch, count);
    var v, p := Value(puts), Pow(count);
    ScaledSum(v, buf, p);
    Scale(v, p);
    Distribute(buf, 1, p);
  }

  lemma StartDenotes()
    ensures Denotes(Regs([], 0, 0, false, 0, MAX_RANGE), INITIAL)
  {
    assert Pow(0) == 1 && Pow(1) == 256;
  }

  lemma RoomArith(b: nat, p: nat, low: nat, range: nat)
    requires ((b + 1) * p - 1 + 1) * WORD + low + range <= (256 * p) * WORD && range > 0
    ensures b + 1 < 256
  {
    assert (b + 1) * p < 256 * p;
    if b + 1 >= 256 { MulMonotone(256, b + 1, p); }
  }

  /** A carry stops in the pending byte, which stays a byte. */
  lemma CarryStops(r: Regs, iv: Interval)
    requires Denotes(r, iv) && r.carry && r.range > 0
    ensures r.buf + 1 < 256
  {
    RoomArith(r.buf, Pow(r.count), r.low, r.range);
  }

  /** With no 0xff pending, the carry only increments the pending byte. */
  lemma CarryIntoByte(r: Regs, iv: Interval)
    requires Denotes(r, iv) && r.carry && r.range > 0 && r.count == 0
    ensures Denotes(r.(carry := false, buf := r.buf + 1), iv)
  {
    CarryStops(r, iv);
    assert Pow(0) == 1;
  }

  lemma HeadAfterCarry(puts: seq<Byte>, b: Byte, count: nat)
    requires b > 0 && count > 0
    ensures Head(puts + [b] + Repeat(0, count - 1), 0, 0) == Head(puts, b - 1, count) + 1
  {
    PendingBytes(puts, b, 0, count - 1);
    var v, p := Value(puts), Pow(count - 1);
    assert Pow(0) == 1 && Pow(1) == 256;
    Scale(v, Pow(count));
    Scale(b, p);
  }

  /** Otherwise it increments that byte and turns every pending 0xff into a zero. */
  lemma CarryThroughRun(r: Regs, iv: Interval, puts: seq<Byte>)
    requires Denotes(r, iv) && r.carry && 0 < r.range < WORD && r.count > 0 && r.buf + 1 < 256
    requires puts == r.puts + [r.buf + 1] + Repeat(0, r.count - 1)
    ensures Denotes(r.(carry := false, puts := puts, buf := 0, count := 0), iv)
  {
    HeadAfterCarry(r.puts, r.buf + 1, r.count);
    assert Pow(0) == 1 && Pow(1) == 256;
  }

  lemma ShiftArith(head: nat, low: nat)
    requires low < WORD
    ensures 256 * (head * WORD + low) == (256 * head + low / TOP_BYTE) * WORD + low * 256 % WORD
  {
  }

  /** Low can no longer receive a carry from below: the pending bytes are final. */
  lemma ShiftSettles(r: Regs, iv: Interval, puts: seq<Byte>)
    requires Denotes(r, iv) && !r.carry && 0 < r.range < MIN_RANGE && r.low < 0xff * TOP_BYTE
    requires puts == r.puts + [r.buf] + Repeat(0xff, r.count)
    ensures Denotes(r.(puts := puts, buf := r.low / TOP_BYTE, count := 0,
                       low := r.low * 256 % WORD, range := r.range * 256), Shift(iv))
  {
    PendingBytes(r.puts, r.buf, 0xff, r.count);
    var head := Head(r.puts, r.buf, r.count);
    assert Pow(0) == 1 && Pow(1) == 256;
    assert Head(puts, r.low / TOP_BYTE, 0) == 256 * head + r.low / TOP_BYTE;
    ShiftArith(head, r.low);
  }

  lemma HeadDelayed(puts: seq<Byte>, buf: nat, count: nat)
    ensures Head(puts, buf, count + 1) == 256 * Head(puts, buf, count) + 255
    ensures Pending(buf, count + 1) == 256 * Pending(buf, count) + 255
  {
    Scale(buf + 1, Pow(count));
    Scale(Value(puts), Pow(count + 1));
  }

  lemma DelayArith(pend: nat, low: nat, range: nat, room: nat)
    requires pend * WORD + low + range <= room * WORD && 0xff * TOP_BYTE <= low < WORD
    ensures (256 * pend + 255) * WORD + low * 256 % WORD + range * 256 <= (256 * room) * WORD
  {
  }

  /** A top byte 0xff might still be turned over: it joins the run. */
  lemma ShiftDelays(r: Regs, iv: Interval)
    requires Denotes(r, iv) && !r.carry && r.low >= 0xff * TOP_BYTE
    ensures Denotes(r.(count := r.count + 1, low := r.low * 256 % WORD, range := r.range * 256), Shift(iv))
  {
    HeadDelayed(r.puts, r.buf, r.count);
    ShiftArith(Head(r.puts, r.buf, r.count), r.low);
    assert r.low / TOP_BYTE == 255;
    assert Pow(r.count + 2) == 256 * Pow(r.count + 1);
    DelayArith(Pending(r.buf, r.count), r.low, r.range, Pow(r.count + 1));
  }

  lemma AdvanceArith(head: nat, carry: nat, low: nat, prev: nat, step: nat)
    requires prev + step == carry * WORD + low
    ensures (head + carry) * WORD + low == head * WORD + prev + step
  {
  }

  /** Moving low up may wrap it around, which the carry records. */
  lemma Advance(r: Regs, iv: Interval, step: nat, width: nat)
    requires Denotes(r, iv) && !r.carry && 0 < width && step + width <= r.range < WORD
    ensures var low := (r.low + step) % WORD;
            Denotes(r.(low := low, carry := low < r.low, range := width),
                    Interval(iv.low + step, width, iv.shifts))
  {
    var low := (r.low + step) % WORD;
    var c := if low < r.low then 1 else 0;
    assert r.low + step == c * WORD + low;
    AdvanceArith(Head(r.puts, r.buf, r.count), c, low, r.low, step);
    AdvanceArith(Pending(r.buf, r.count), c, low, r.low, step);
  }

  /** The pending bytes, turned over if a carry is due, hold everything above low. */
  lemma Flushed(r: Regs, iv: Interval, body: seq<Byte>)
    requires Denotes(r, iv) && r.buf + CarryIn(r) < 256
    requires body == r.puts + [r.buf + CarryIn(r)] + Repeat(if r.carry then 0 else 0xff, r.count)
    ensures |body| == iv.shifts + 1 && Value(body) * WORD + r.low == iv.low
  {
    PendingBytes(r.puts, r.buf + CarryIn(r), if r.carry then 0 else 0xff, r.count);
    assert Value(body) == Head(r.puts, r.buf, r.count) + CarryIn(r);
  }

  lemma WordByBytes(w: nat)
    requires w < WORD
    ensures w == 0x1000000 * (w / 0x1000000) + 0x10000 * (w / 0x10000 % 256) + 0x100 * (w / 0x100 % 256) + w % 256
  {
    assert w / 0x10000 == w / 0x100 / 0x100;
    assert w / 0x1000000 == w / 0x10000 / 0x100;
  }

  /** The first byte put is always zero, so dropping it loses nothing. */
  lemma FirstByteIsZero(puts: seq<Byte>, n: nat)
    requires |puts| == n + 5 && Value(puts) < Pow(n) * WORD
    ensures puts[0] == 0 && Digits(Value(puts), n + 4) == puts[1..]
  {
    hide Value, Pow, Digits;
    ValueFirst(puts);
    NoOverflow(puts[0], Value(puts[1..]), n);
    DigitsOfValue(puts[1..]);
  }

  lemma NoOverflow(b: nat, v: nat, n: nat)
    requires b * Pow(n + 4) + v < Pow(n) * WORD
    ensures b == 0 && b * Pow(n + 4) + v == v
  {
    PowAdd(n, 4);
    assert Pow(4) == WORD;
    if b > 0 { MulMonotone(1, b, Pow(n + 4)); }
  }
}
