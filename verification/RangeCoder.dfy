/** The coder as the program runs it: fields updated in place, bytes put one at a time. */
module RangeCoder {
  import opened Octets
  import opened Wrappers
  import opened FrequencyTable
  import opened Radix
  import opened RangeSpec
  import opened RangeRegisters
  import opened Fenwick

  class Coder {
    var unread: seq<Byte>
    var output: seq<Byte>
    var dropping: bool
    var range: nat
    var low: nat
    var carry: bool
    var buf: nat
    var count: nat
    ghost var puts: seq<Byte>

    /** An encoder loses the first byte put to it; a decoder does not. */
    constructor (input: seq<Byte>, dropFirst: bool)
      ensures unread == input && output == [] && dropping == dropFirst
      ensures Registers() == Regs([], 0, 0, false, 0, MAX_RANGE)
    {
      unread, output, puts, dropping := input, [], [], dropFirst;
      range, low, carry, buf, count := MAX_RANGE, 0, false, 0, 0;
    }

    ghost function Registers(): Regs
      reads this
    {
      Regs(puts, buf, count, carry, low, range)
    }

    /** What reached the output is everything put, less the first byte. */
    ghost predicate Dropped()
      reads this
    {
      if dropping then puts == [] && output == [] else puts != [] && output == puts[1..]
    }

    method Get() returns (c: int)
      modifies this`unread
      ensures old(unread) == [] ==> c == -1 && unread == []
      ensures old(unread) != [] ==> c == old(unread)[0] && unread == old(unread)[1..]
    {
      if unread == [] {
        c := -1;
      } else {
        c := unread[0];
        unread := unread[1..];
      }
    }

    method Put(ch: Byte)
      modifies this`output, this`dropping, this`puts
      ensures puts == old(puts) + [ch] && !dropping
      ensures output == if old(dropping) then old(output) else old(output) + [ch]
    {
      if dropping {
        dropping := false;
      } else {
        output := output + [ch];
      }
      puts := puts + [ch];
    }

    method PutBuf(ch: Byte, n: nat)
      requires buf < 256 && Dropped()
      modifies this`output, this`dropping, this`puts
      ensures puts == old(puts) + [buf] + Repeat(ch, n) && Dropped()
    {
      Put(buf);
      for i := 0 to n
        invariant puts == old(puts) + [buf] + Repeat(ch, i) && Dropped()
      {
        Put(ch);
        assert Repeat(ch, i + 1) == Repeat(ch, i) + [ch];
      }
    }

    /** Turns over the pending bytes if a carry is due. */
    method SettleCarry(ghost iv: Interval)
      requires Denotes(Registers(), iv) && 0 < range < WORD && Dropped()
      modifies this
      ensures Denotes(Registers(), iv) && Dropped() && !carry
      ensures unread == old(unread)
    {
      if carry {
        ghost var r := Registers();
        CarryStops(r, iv);
        carry := false;
        buf := buf + 1;
        if count > 0 {
          PutBuf(0, count - 1);
          CarryThroughRun(r, iv, puts);
          buf := 0;
          count := 0;
        } else {
          CarryIntoByte(r, iv);
        }
      }
    }

    /** Moves the top byte of low out of the registers. */
    method ShiftOut(ghost iv: Interval)
      requires Denotes(Registers(), iv) && 0 < range < MIN_RANGE && !carry && Dropped()
      modifies this
      ensures Denotes(Registers(), Shift(iv)) && Dropped() && !carry
      ensures unread == old(unread)
    {
      ghost var r := Registers();
      if low < 0xff * TOP_BYTE {
        PutBuf(0xff, count);
        ShiftSettles(r, iv, puts);
        buf := low / TOP_BYTE;
        count := 0;
      } else {
        ShiftDelays(r, iv);
        count := count + 1;
      }
      low := low * 256 % WORD;
      range := range * 256;
    }

    /** Settles the carry, then shifts bytes out until the range is wide again. */
    method EncodeNormalize(ghost iv: Interval)
      requires Denotes(Registers(), iv) && 0 < iv.range < WORD && Dropped()
      modifies this
      ensures Denotes(Registers(), Normalize(iv)) && Dropped() && !carry
      ensures unread == old(unread)
    {
      SettleCarry(iv);
      ghost var cur := iv;
      while range < MIN_RANGE
        invariant Denotes(Registers(), cur) && Dropped() && !carry && 0 < cur.range < WORD
        invariant Normalize(cur) == Normalize(iv)
        invariant unread == old(unread)
        decreases MIN_RANGE - range
      {
        ShiftOut(cur);
        cur := Shift(cur);
      }
    }

    /** Narrows the interval to the share of one symbol and counts the symbol. */
    method EncodeSymbol(freq: Frequency, ch: nat, ghost iv: Interval)
      requires freq.Valid() && IsModel(freq.table) && ch < CHR_RANGE
      requires Denotes(Registers(), iv) && Ready(iv) && !carry && Dropped()
      modifies this, freq, freq.count
      ensures freq.Valid() && IsModel(freq.table) && freq.table == Update(old(freq.table), ch)
      ensures Total(old(freq.table)) > 0 && Narrow(iv, old(freq.table), ch).range > 0
      ensures Denotes(Registers(), Normalize(Narrow(iv, old(freq.table), ch))) && !carry && Dropped()
      ensures unread == old(unread)
    {
      assert range == iv.range < WORD && MIN_RANGE <= range;
      hide Denotes, Ready, Normalize, Update, IsModel, Cum;
      UnitBounds(range, freq.table, ch);
      ghost var r := Registers();
      var tmp := range / freq.sum;
      var prevLow := low;
      var cum := freq.Calc(ch);
      low := (low + cum * tmp) % WORD;
      carry := low < prevLow;
      var n := freq.Count(ch);
      range := n * tmp;
      Advance(r, iv, cum * tmp, range);
      EncodeNormalize(Narrow(iv, freq.table, ch));
      freq.UpdateModel(ch);
    }

    method PutDigit(b: Byte)
      requires Dropped()
      modifies this`output, this`dropping, this`puts
      ensures Dropped() && |puts| == |old(puts)| + 1
      ensures Value(puts) == 256 * Value(old(puts)) + b
    {
      ValueSnoc(puts, b);
      Put(b);
    }

    method PutWord(w: nat)
      requires w < WORD && Dropped()
      modifies this`output, this`dropping, this`puts
      ensures Dropped() && |puts| == |old(puts)| + 4
      ensures Value(puts) == Value(old(puts)) * WORD + w
    {
      hide Value, Dropped;
      PutDigit(w / 0x1000000);
      PutDigit(w / 0x10000 % 256);
      PutDigit(w / 0x100 % 256);
      PutDigit(w % 256);
      WordByBytes(w);
    }

    /** Writes out the pending bytes and the whole of low. */
    method Finish(ghost iv: Interval)
      requires Denotes(Registers(), iv) && range > 0 && Dropped()
      modifies this
      ensures Dropped() && |puts| == iv.shifts + 5 && Value(puts) == iv.low
    {
      ghost var r := Registers();
      var ch := 0xff;
      if carry {
        CarryStops(r, iv);
        carry := false;
        buf := buf + 1;
        ch := 0;
      }
      PutBuf(ch, count);
      Flushed(r, iv, puts);
      PutWord(low);
    }

    /** Encodes the whole input: the output is the exact code, and the byte dropped was 0. */
    method Encode(freq: Frequency)
      requires freq.Valid() && freq.table == Uniform()
      requires dropping && output == [] && Registers() == Regs([], 0, 0, false, 0, MAX_RANGE)
      modifies this, freq, freq.count
      ensures output == Encoded(old(unread)) && puts == [0] + output
    {
      UniformIsModel();
      EncodeWith(freq);
    }

    method EncodeWith(freq: Frequency)
      requires freq.Valid() && IsModel(freq.table)
      requires dropping && output == [] && Registers() == Regs([], 0, 0, false, 0, MAX_RANGE)
      modifies this, freq, freq.count
      ensures output == EncodedFrom(old(freq.table), old(unread)) && puts == [0] + output
    {
      hide Run, EncodedFrom, Digits, Denotes, Ready, IsModel, Pow, Value;
      InitialReady();
      ghost var end := Run(INITIAL, freq.table, Message(unread));
      CodeOf(freq.table, unread);
      StartDenotes();
      EncodeAll(freq, INITIAL, end);
      FirstByteIsZero(puts, end.shifts);
    }

    method EncodeAll(freq: Frequency, ghost start: Interval, ghost end: Interval)
      requires freq.Valid() && IsModel(freq.table)
      requires Denotes(Registers(), start) && Ready(start) && !carry && Dropped()
      requires end == Run(start, freq.table, Message(unread))
      modifies this, freq, freq.count
      ensures Dropped() && |puts| == end.shifts + 5 && Value(puts) == end.low
    {
      ghost var iv := EncodeBytes(freq, start, end);
      RunStep(iv, freq.table, []);
      EncodeSymbol(freq, CHR_EOS, iv);
      Finish(end);
    }

    /** One byte of the input leads on to where the whole of it leads. */
    method EncodeByte(freq: Frequency, c: Byte, ghost iv: Interval, ghost left: seq<Byte>)
      returns (ghost next: Interval)
      requires freq.Valid() && IsModel(freq.table) && left != [] && left[0] == c
      requires Denotes(Registers(), iv) && Ready(iv) && !carry && Dropped()
      modifies this, freq, freq.count
      ensures freq.Valid() && IsModel(freq.table) && unread == old(unread)
      ensures Denotes(Registers(), next) && Ready(next) && !carry && Dropped()
      ensures Run(next, freq.table, Message(left[1..])) == Run(iv, old(freq.table), Message(left))
    {
      hide Run, Denotes, Ready, IsModel, Narrow, Normalize, Update;
      RunStep(iv, freq.table, left);
      next := Normalize(Narrow(iv, freq.table, c));
      EncodeSymbol(freq, c, iv);
    }

    /** The loop over the input: what is still to come always leads to the same end. */
    method EncodeBytes(freq: Frequency, ghost start: Interval, ghost end: Interval)
      returns (ghost iv: Interval)
      requires freq.Valid() && IsModel(freq.table)
      requires Denotes(Registers(), start) && Ready(start) && !carry && Dropped()
      requires end == Run(start, freq.table, Message(unread))
      modifies this, freq, freq.count
      ensures freq.Valid() && IsModel(freq.table)
      ensures Denotes(Registers(), iv) && Ready(iv) && !carry && Dropped()
      ensures end == Run(iv, freq.table, Message([]))
    {
      hide Run, Denotes, Ready, IsModel, Message;
      iv := start;
      ghost var left := unread;
      var c := Get();
      while c != -1
        invariant freq.Valid() && IsModel(freq.table)
        invariant Denotes(Registers(), iv) && Ready(iv) && !carry && Dropped()
        invariant -1 <= c < 256
        invariant if c == -1 then left == [] else left == [c] + unread
        invariant Run(iv, freq.table, Message(left)) == end
        decreases |left|
      {
        iv := EncodeByte(freq, c, iv, left);
        left := left[1..];
        c := Get();
      }
    }

    ghost function Standing(): Reader
      reads this
    {
      Reader(low, range, unread)
    }

    /** Reads bytes until the range is wide again; fails at the end of the input. */
    method DecodeNormalize() returns (ok: bool)
      requires 0 < range < WORD && low < WORD
      modifies this`low, this`range, this`unread
      ensures match Refill(old(Standing())) {
                case Some(r) => ok && Standing() == r && range < WORD && low < WORD
                case None => !ok && unread == []
              }
    {
      RefillShrinks(Standing());
      while range < MIN_RANGE
        invariant 0 < range < WORD && low < WORD
        invariant Refill(Standing()) == Refill(old(Standing()))
        decreases |unread|
      {
        var c := Get();
        if c == -1 {
          return false;
        }
        low := (low * 256 + c) % WORD;
        range := range * 256;
      }
      ok := true;
    }

    method TakeSymbol(freq: Frequency) returns (i: nat)
      requires freq.Valid() && IsModel(freq.table)
      requires MIN_RANGE <= range && low < WORD
      modifies this`low, this`range
      ensures i == Next(old(Standing()), freq.table) && low <= old(low)
      ensures Standing() == Take(old(Standing()), freq.table, i)
    {
      UnitBounds(range, freq.table, 0);
      var tmp := range / freq.sum;
      var value := low / tmp;
      ghost var sym := Next(Standing(), freq.table);
      var n;
      i, n := freq.Descend(value);
      assert i == sym;
      low := low - n * tmp;
      var m := freq.Count(i);
      UnitBounds(range, freq.table, i);
      range := m * tmp;
    }

    /** Takes one symbol off the code. */
    method DecodeSymbol(freq: Frequency) returns (c: int)
      requires freq.Valid() && IsModel(freq.table)
      requires MIN_RANGE <= range < WORD && low < WORD
      modifies this, freq, freq.count
      ensures var sym := Next(old(Standing()), old(freq.table));
              match Refill(Take(old(Standing()), old(freq.table), sym)) {
                case Some(r) =>
                  && c == sym && Standing() == r && MIN_RANGE <= range < WORD && low < WORD
                  && freq.Valid() && IsModel(freq.table) && freq.table == Update(old(freq.table), c)
                case None => c == -1 && unread == []
              }
      ensures output == old(output) && dropping == old(dropping)
    {
      hide Next, Take, Refill, IsModel, Update, Reaches, Total;
      ghost var sym := Next(Standing(), freq.table);
      ghost var taken := Take(Standing(), freq.table, sym);
      var i := TakeSymbol(freq);
      RefillShrinks(taken);
      var ok := DecodeNormalize();
      if !ok {
        return -1;
      }
      freq.UpdateModel(i);
      c := i;
    }

    /** Decodes arbitrary bytes. */
    method Decode(freq: Frequency) returns (ok: bool)
      requires freq.Valid() && freq.table == Uniform()
      requires !dropping && output == [] && range == MAX_RANGE
      modifies this, freq, freq.count
      ensures Decoded(ok, output, unread) == RangeSpec.Decode(old(unread))
    {
      UniformIsModel();
      ok := ReadWord();
      if ok {
        ok := DecodeSymbols(freq);
      }
    }

    method ReadWord() returns (ok: bool)
      modifies this`low, this`unread
      ensures ok <==> |old(unread)| >= 4
      ensures ok ==> low == Word(old(unread)) && low < WORD && unread == old(unread)[4..]
      ensures !ok ==> unread == []
    {
      var c := Get();
      if c == -1 {
        return false;
      }
      low := c * 0x1000000;
      c := Get();
      if c == -1 {
        return false;
      }
      low := low + c * 0x10000;
      c := Get();
      if c == -1 {
        return false;
      }
      low := low + c * 0x100;
      c := Get();
      if c == -1 {
        return false;
      }
      low := low + c;
      ok := true;
    }

    method DecodeSymbols(freq: Frequency) returns (ok: bool)
      requires freq.Valid() && IsModel(freq.table) && MIN_RANGE <= range < WORD && low < WORD
      requires !dropping && output == []
      modifies this, freq, freq.count
      ensures Decoded(ok, output, unread) == DecodeFrom(old(Standing()), old(freq.table))
    {
      ghost var goal := DecodeFrom(Standing(), freq.table);
      while true
        invariant freq.Valid() && IsModel(freq.table) && MIN_RANGE <= range < WORD && low < WORD
        invariant !dropping
        invariant goal == Prepend(output, DecodeFrom(Standing(), freq.table))
        decreases |unread|, range
      {
        DecodeStep(Standing(), freq.table);
        var c := DecodeSymbol(freq);
        if c == -1 {
          return false;
        }
        if c == CHR_EOS {
          return true;
        }
        PrependOne(output, c, DecodeFrom(Standing(), freq.table));
        Put(c);
      }
    }
  }

  /** The two programs undo each other on every byte string: every byte of the code is read, and the byte
      that was dropped was 0. */
  method Transport(s: seq<Byte>) returns (ok: bool, t: seq<Byte>, code: seq<Byte>, left: seq<Byte>,
                   ghost puts: seq<Byte>)
    ensures ok && t == s && left == [] && puts == [0] + code
  {
    var freq := new Frequency();
    var encoder := new Coder(s, true);
    encoder.Encode(freq);
    code, puts := encoder.output, encoder.puts;
    freq := new Frequency();
    var decoder := new Coder(code, false);
    ok := decoder.Decode(freq);
    t, left := decoder.output, decoder.unread;
    RoundTrip(s);
  }
}
