/** The echo worklet (src/ts/worklets/audio_worklet_processors.ts): several delay/gain lines
    that turn a mono input into stereo output through two ring buffers. Samples are `real`s
    and delays are given as whole numbers of samples. */
module Echo {
  import opened Wrappers

  /** Samples per `process` call. */
  const RenderQuantum: nat := 128

  /** One `[delayLeft, gainLeft, delayRight, gainRight]` line, with delays already in samples. */
  datatype EchoLine = EchoLine(delayLeft: nat, gainLeft: real, delayRight: nat, gainRight: real)
  {
    function Delay(left: bool): nat
    {
      if left then delayLeft else delayRight
    }

    function Gain(left: bool): real
    {
      if left then gainLeft else gainRight
    }
  }

  function Max(a: nat, b: nat): nat
  {
    if a < b then b else a
  }

  /** The `reduce` over the echoes that starts from 0 and keeps the largest delay, left or right. */
  function MaxDelay(echoes: seq<EchoLine>): (r: nat)
    ensures forall k :: 0 <= k < |echoes| ==> echoes[k].delayLeft <= r && echoes[k].delayRight <= r
    ensures r == 0 || exists k :: 0 <= k < |echoes| && (r == echoes[k].delayLeft || r == echoes[k].delayRight)
  {
    if echoes == [] then 0
    else
      var last := echoes[|echoes| - 1];
      Max(Max(MaxDelay(echoes[..|echoes| - 1]), last.delayLeft), last.delayRight)
  }

  /** How far slot j lies ahead of slot `from` going round a ring of `length` slots. */
  function Ahead(j: nat, from: nat, length: nat): nat
    requires j < length && from < length
  {
    if from <= j then j - from else j + length - from
  }

  /** `n % length` for an `n` below twice the length: one step round the ring at most. */
  function Wrap(n: nat, length: nat): (r: nat)
    requires n < 2 * length
    ensures r < length
  {
    if n < length then n else n - length
  }

  lemma WrapIsMod(n: nat, length: nat)
    requires n < 2 * length
    ensures Wrap(n, length) == n % length
  {
    if n >= length {
      assert n == length + (n - length);
    }
  }

  /** One more step round the ring. */
  lemma WrapNext(n: nat, length: nat)
    requires n + 1 < 2 * length
    ensures Wrap(n + 1, length) == if Wrap(n, length) + 1 == length then 0 else Wrap(n, length) + 1
  {
  }

  /** The slot `t` places past `from` is `t` slots ahead of it, and it is the only one. */
  lemma WrapAhead(j: nat, from: nat, t: nat, length: nat)
    requires j < length && from < length && t < length
    ensures Ahead(Wrap(from + t, length), from, length) == t
    ensures Ahead(j, from, length) == t <==> j == Wrap(from + t, length)
  {
  }

  /** The same with the source's `%`. */
  lemma SlotAhead(j: nat, from: nat, t: nat, length: nat)
    requires j < length && from < length && t < length
    ensures Ahead((from + t) % length, from, length) == t
    ensures Ahead(j, from, length) == t <==> j == (from + t) % length
  {
    WrapIsMod(from + t, length);
    WrapAhead(j, from, t, length);
  }

  /** The input block multiplied by one gain. */
  function Scale(gain: real, input: seq<real>): (r: seq<real>)
    ensures |r| == |input|
  {
    seq(|input|, k requires 0 <= k < |input| => gain * input[k])
  }

  /** What one line adds at `ahead` slots past the read position once samples `0 .. count` of
      its scaled block have been written: `block[ahead - delay]` inside its window. */
  function Tap(delay: nat, block: seq<real>, ahead: nat, count: nat): real
    requires count <= |block|
  {
    if delay <= ahead < delay + count then block[ahead - delay] else 0.0
  }

  /** `buffer` is `base` plus the first `count` samples of one line's scaled block, delayed by
      `delay` and written ahead of read position `from`. */
  ghost predicate Accumulated(buffer: seq<real>, base: seq<real>, delay: nat, block: seq<real>, from: nat, count: nat)
  {
    && |buffer| == |base| && from < |base| && count <= |block|
    && forall j :: 0 <= j < |buffer| ==>
      buffer[j] == base[j] + Tap(delay, block, Ahead(j, from, |buffer|), count)
  }

  /** Writing sample i of the block adds its share to exactly one slot, `delay + i` past the
      read position, and leaves every other slot's total as it was. */
  lemma TapAtSlot(delay: nat, block: seq<real>, from: nat, length: nat, i: nat, j: nat, slot: nat)
    requires from < length && j < length && i < |block| && i + delay < length
    requires slot == Wrap(from + i + delay, length)
    ensures var ahead := Ahead(j, from, length);
      Tap(delay, block, ahead, i + 1) == Tap(delay, block, ahead, i) + (if j == slot then block[i] else 0.0)
  {
    WrapAhead(j, from, i + delay, length);
  }

  /** Adding sample i at its slot extends the accumulated prefix of the block by one. */
  lemma AccumulateStep(before: seq<real>, after: seq<real>, base: seq<real>, delay: nat, block: seq<real>,
                       from: nat, i: nat, slot: nat)
    requires Accumulated(before, base, delay, block, from, i)
    requires i < |block| && i + delay < |before|
    requires slot == Wrap(from + i + delay, |before|)
    requires after == before[slot := before[slot] + block[i]]
    ensures Accumulated(after, base, delay, block, from, i + 1)
  {
    forall j | 0 <= j < |after|
      ensures after[j] == base[j] + Tap(delay, block, Ahead(j, from, |after|), i + 1)
    {
      TapAtSlot(delay, block, from, |before|, i, j, slot);
    }
  }

  /** The buffer after the first `count` samples of one line's scaled block have been added:
      sample i goes `i + delay` slots past `from`. */
  function LineWrites(base: seq<real>, delay: nat, block: seq<real>, from: nat, count: nat): (r: seq<real>)
    requires from < |base| && count <= |block| && count + delay <= |base|
    ensures |r| == |base|
    decreases count
  {
    if count == 0 then base
    else
      var prev := LineWrites(base, delay, block, from, count - 1);
      var slot := Wrap(from + count - 1 + delay, |base|);
      prev[slot := prev[slot] + block[count - 1]]
  }

  lemma LineWritesStep(base: seq<real>, delay: nat, block: seq<real>, from: nat, count: nat)
    requires from < |base| && 0 < count <= |block| && count + delay <= |base|
    ensures var prev := LineWrites(base, delay, block, from, count - 1);
      var slot := Wrap(from + count - 1 + delay, |base|);
      LineWrites(base, delay, block, from, count) == prev[slot := prev[slot] + block[count - 1]]
  {
  }

  /** The writes of one line put `block[ahead - delay]` at each slot `ahead` places past the
      read position inside the line's window, and nothing elsewhere. */
  lemma {:induction false} LineWritesAccumulated(base: seq<real>, delay: nat, block: seq<real>, from: nat, count: nat)
    requires from < |base| && count <= |block| && count + delay <= |base|
    ensures Accumulated(LineWrites(base, delay, block, from, count), base, delay, block, from, count)
    decreases count
  {
    if count > 0 {
      LineWritesAccumulated(base, delay, block, from, count - 1);
      var prev := LineWrites(base, delay, block, from, count - 1);
      AccumulateStep(prev, LineWrites(base, delay, block, from, count), base, delay, block, from, count - 1,
                     Wrap(from + count - 1 + delay, |base|));
    }
  }

  /** `buffer` is `base` plus every line's scaled, delayed copy of the input block, written
      ahead of read position `from`. */
  ghost predicate Summed(buffer: seq<real>, base: seq<real>, echoes: seq<EchoLine>, left: bool, from: nat, input: seq<real>)
  {
    && |buffer| == |base| && from < |base| && |input| == RenderQuantum
    && forall j :: 0 <= j < |buffer| ==>
      buffer[j] == base[j] + EchoSum(echoes, left, Ahead(j, from, |buffer|), input)
  }

  /** Once line k's whole block is accumulated on top of the first k lines, the first k + 1
      lines are summed. */
  lemma SumStep(before: seq<real>, after: seq<real>, base: seq<real>, echoes: seq<EchoLine>, k: nat,
                left: bool, from: nat, input: seq<real>)
    requires k < |echoes|
    requires Summed(before, base, echoes[..k], left, from, input)
    requires Accumulated(after, before, echoes[k].Delay(left), Scale(echoes[k].Gain(left), input), from, RenderQuantum)
    ensures Summed(after, base, echoes[..k + 1], left, from, input)
  {
    assert echoes[..k + 1][..k] == echoes[..k] && echoes[..k + 1][k] == echoes[k];
  }

  lemma SummedIsAfterInput(buffer: seq<real>, base: seq<real>, echoes: seq<EchoLine>, left: bool, from: nat, input: seq<real>)
    requires Summed(buffer, base, echoes, left, from, input)
    ensures buffer == AfterInput(base, from, echoes, left, Some(input))
  {
  }

  /** Stepping round the ring: one past the last slot is slot 0. */
  lemma RingIncrement(a: nat, length: nat)
    requires a < length
    ensures (a + 1) % length == if a + 1 == length then 0 else a + 1
  {
  }

  /** The sum of every line's tap at `ahead` slots past the read position. */
  function EchoSum(echoes: seq<EchoLine>, left: bool, ahead: nat, input: seq<real>): real
    requires |input| == RenderQuantum
  {
    if echoes == [] then 0.0
    else
      EchoSum(echoes[..|echoes| - 1], left, ahead, input)
      + Tap(echoes[|echoes| - 1].Delay(left), Scale(echoes[|echoes| - 1].Gain(left), input), ahead, RenderQuantum)
  }

  /** A slot whose distance from the read position falls in no line's window receives nothing. */
  lemma {:induction false} EchoSumOutsideWindows(echoes: seq<EchoLine>, left: bool, ahead: nat, input: seq<real>)
    requires |input| == RenderQuantum
    requires forall k :: 0 <= k < |echoes| ==>
      !(echoes[k].Delay(left) <= ahead < echoes[k].Delay(left) + RenderQuantum)
    ensures EchoSum(echoes, left, ahead, input) == 0.0
  {
    if echoes != [] {
      EchoSumOutsideWindows(echoes[..|echoes| - 1], left, ahead, input);
    }
  }

  /** A buffer after an input block has been added at read position `from` (unchanged when
      there is no input). */
  function AfterInput(buffer: seq<real>, from: nat, echoes: seq<EchoLine>, left: bool, input: Option<seq<real>>): (r: seq<real>)
    requires from < |buffer|
    requires input.Some? ==> |input.value| == RenderQuantum
    ensures |r| == |buffer|
  {
    if input.None? then buffer
    else
      seq(|buffer|, j requires 0 <= j < |buffer| =>
        buffer[j] + EchoSum(echoes, left, Ahead(j, from, |buffer|), input.value))
  }

  /** How many samples one call emits: up to a render quantum, stopping at `lastWrite`. */
  function DrainCount(from: nat, lastWrite: nat, length: nat): (n: nat)
    requires from < length && lastWrite < length
    ensures n <= RenderQuantum
  {
    var pending := Ahead(lastWrite, from, length);
    if pending < RenderQuantum then pending else RenderQuantum
  }

  /** An output block after the first `count` samples were copied from the ring, starting at
      slot `from`. */
  ghost function Drained(out: seq<real>, ring: seq<real>, from: nat, count: nat): (r: seq<real>)
    requires from < |ring| && count <= |out| <= |ring|
    ensures |r| == |out|
  {
    seq(|out|, k requires 0 <= k < |out| => if k < count then ring[Wrap(from + k, |ring|)] else out[k])
  }

  /** The ring after the `count` slots from `from` on were read and cleared. */
  ghost function Cleared(ring: seq<real>, from: nat, count: nat): (r: seq<real>)
    requires from < |ring|
    ensures |r| == |ring|
  {
    seq(|ring|, j requires 0 <= j < |ring| => if Ahead(j, from, |ring|) < count then 0.0 else ring[j])
  }

  lemma DrainedStep(out: seq<real>, ring: seq<real>, from: nat, count: nat)
    requires from < |ring| && count < |out| <= |ring|
    ensures Drained(out, ring, from, count + 1) == Drained(out, ring, from, count)[count := ring[Wrap(from + count, |ring|)]]
  {
  }

  /** Clearing one more slot clears the slot `count` past `from`, which still held its value. */
  lemma ClearedStep(ring: seq<real>, from: nat, count: nat)
    requires from < |ring| && count < |ring|
    ensures Cleared(ring, from, count)[Wrap(from + count, |ring|)] == ring[Wrap(from + count, |ring|)]
    ensures Cleared(ring, from, count + 1) == Cleared(ring, from, count)[Wrap(from + count, |ring|) := 0.0]
  {
    forall j | 0 <= j < |ring|
      ensures Ahead(j, from, |ring|) == count <==> j == Wrap(from + count, |ring|)
    {
      WrapAhead(j, from, count, |ring|);
    }
  }

  /** The copied samples, read with the source's `%`. */
  lemma DrainedMeaning(out: seq<real>, ring: seq<real>, from: nat, count: nat)
    requires from < |ring| && count <= |out| <= |ring|
    ensures forall k :: 0 <= k < |out| ==>
      Drained(out, ring, from, count)[k] == if k < count then ring[(from + k) % |ring|] else out[k]
  {
    forall k | 0 <= k < count
      ensures Drained(out, ring, from, count)[k] == ring[(from + k) % |ring|]
    {
      WrapIsMod(from + k, |ring|);
    }
  }

  class EchoProcessor {
    const echoes: seq<EchoLine>
    const leftBuffer: array<real>
    const rightBuffer: array<real>
    const maxDelay: nat
    const bufferLength: nat
    var readIdx: nat
    var lastWriteIdx: nat

    /** The sizing the constructor sets up, and the ring positions staying inside it. */
    predicate Valid()
      reads this
    {
      && maxDelay == MaxDelay(echoes)
      && bufferLength == maxDelay + RenderQuantum + 1
      && leftBuffer != rightBuffer
      && leftBuffer.Length == bufferLength && rightBuffer.Length == bufferLength
      && readIdx < bufferLength && lastWriteIdx < bufferLength
    }

    constructor (echoes: seq<EchoLine>)
      ensures Valid()
      ensures this.echoes == echoes
      ensures fresh(leftBuffer) && fresh(rightBuffer)
      ensures forall j :: 0 <= j < bufferLength ==> leftBuffer[j] == 0.0 && rightBuffer[j] == 0.0
      ensures readIdx == 0 && lastWriteIdx == 0
    {
      this.echoes := echoes;
      maxDelay := MaxDelay(echoes);
      bufferLength := MaxDelay(echoes) + RenderQuantum + 1;
      leftBuffer := new real[MaxDelay(echoes) + RenderQuantum + 1](_ => 0.0);
      rightBuffer := new real[MaxDelay(echoes) + RenderQuantum + 1](_ => 0.0);
      readIdx := 0;
      lastWriteIdx := 0;
    }

    /** `process`: add the input block (when the input has a channel) through every line into
        both buffers, then emit, and clear, the slots from `readIdx` up to `lastWriteIdx`, at
        most one render quantum of them. Returns whether samples are still pending. */
    method Process(input: Option<seq<real>>, outLeft: array<real>, outRight: array<real>) returns (more: bool)
      requires Valid()
      requires input.Some? ==> |input.value| == RenderQuantum
      requires outLeft.Length == RenderQuantum && outRight.Length == RenderQuantum
      requires outLeft != outRight
      requires outLeft != leftBuffer && outLeft != rightBuffer
      requires outRight != leftBuffer && outRight != rightBuffer
      modifies this, leftBuffer, rightBuffer, outLeft, outRight
      ensures Valid()
      ensures lastWriteIdx ==
        if input.Some? then (old(readIdx) + RenderQuantum + maxDelay) % bufferLength else old(lastWriteIdx)
      ensures var n := DrainCount(old(readIdx), lastWriteIdx, bufferLength);
        && readIdx == Wrap(old(readIdx) + n, bufferLength)
        && var left := AfterInput(old(leftBuffer[..]), old(readIdx), echoes, true, input);
        && var right := AfterInput(old(rightBuffer[..]), old(readIdx), echoes, false, input);
        && outLeft[..] == Drained(old(outLeft[..]), left, old(readIdx), n)
        && outRight[..] == Drained(old(outRight[..]), right, old(readIdx), n)
        && leftBuffer[..] == Cleared(left, old(readIdx), n)
        && rightBuffer[..] == Cleared(right, old(readIdx), n)
      ensures more <==> readIdx != lastWriteIdx
    {
      if input.Some? {
        Deposit(input.value);
        lastWriteIdx := (readIdx + RenderQuantum + maxDelay) % bufferLength;
      }
      more := Drain(outLeft, outRight);
    }

    /** The emitting loop of `process`: copy up to a render quantum of samples from `readIdx`
        on, stopping at `lastWriteIdx`, clearing each slot read. */
    method Drain(outLeft: array<real>, outRight: array<real>) returns (more: bool)
      requires Valid()
      requires outLeft.Length == RenderQuantum && outRight.Length == RenderQuantum
      requires outLeft != outRight
      requires outLeft != leftBuffer && outLeft != rightBuffer
      requires outRight != leftBuffer && outRight != rightBuffer
      modifies this`readIdx, leftBuffer, rightBuffer, outLeft, outRight
      ensures Valid()
      ensures var n := DrainCount(old(readIdx), lastWriteIdx, bufferLength);
        && readIdx == Wrap(old(readIdx) + n, bufferLength)
        && outLeft[..] == Drained(old(outLeft[..]), old(leftBuffer[..]), old(readIdx), n)
        && outRight[..] == Drained(old(outRight[..]), old(rightBuffer[..]), old(readIdx), n)
        && leftBuffer[..] == Cleared(old(leftBuffer[..]), old(readIdx), n)
        && rightBuffer[..] == Cleared(old(rightBuffer[..]), old(readIdx), n)
      ensures more <==> readIdx != lastWriteIdx
    {
      var from := readIdx;
      ghost var n := DrainCount(from, lastWriteIdx, bufferLength);
      ghost var outLeft0, outRight0 := outLeft[..], outRight[..];
      ghost var left0, right0 := leftBuffer[..], rightBuffer[..];
      var i := 0;
      while i < RenderQuantum && readIdx != lastWriteIdx
        invariant 0 <= i <= n
        invariant readIdx == Wrap(from + i, bufferLength)
        invariant Ahead(readIdx, from, bufferLength) == i
        invariant outLeft[..] == Drained(outLeft0, left0, from, i)
        invariant outRight[..] == Drained(outRight0, right0, from, i)
        invariant leftBuffer[..] == Cleared(left0, from, i)
        invariant rightBuffer[..] == Cleared(right0, from, i)
        decreases RenderQuantum - i
      {
        SlotAhead(lastWriteIdx, from, i, bufferLength);
        DrainedStep(outLeft0, left0, from, i);
        DrainedStep(outRight0, right0, from, i);
        ClearedStep(left0, from, i);
        ClearedStep(right0, from, i);
        EmitSample(leftBuffer, outLeft, i, readIdx);
        EmitSample(rightBuffer, outRight, i, readIdx);
        WrapNext(from + i, bufferLength);
        Advance();
        i := i + 1;
        WrapAhead(readIdx, from, i, bufferLength);
      }
      SlotAhead(lastWriteIdx, from, i, bufferLength);
      assert readIdx == lastWriteIdx ==> Ahead(lastWriteIdx, from, bufferLength) == i;
      assert i == n;
      more := readIdx != lastWriteIdx;
    }

    /** The read position moves one slot round the ring. */
    method Advance()
      requires Valid()
      modifies this`readIdx
      ensures Valid()
      ensures readIdx == if old(readIdx) + 1 == bufferLength then 0 else old(readIdx) + 1
    {
      RingIncrement(readIdx, bufferLength);
      readIdx := (readIdx + 1) % bufferLength;
    }

    /** The two nested loops of `process` that add every line's delayed, scaled copy of the
        input block into the buffers, ahead of `readIdx`. */
    method Deposit(input: seq<real>)
      requires Valid()
      requires |input| == RenderQuantum
      modifies leftBuffer, rightBuffer
      ensures leftBuffer[..] == AfterInput(old(leftBuffer[..]), readIdx, echoes, true, Some(input))
      ensures rightBuffer[..] == AfterInput(old(rightBuffer[..]), readIdx, echoes, false, Some(input))
    {
      for k := 0 to |echoes|
        invariant Summed(leftBuffer[..], old(leftBuffer[..]), echoes[..k], true, readIdx, input)
        invariant Summed(rightBuffer[..], old(rightBuffer[..]), echoes[..k], false, readIdx, input)
      {
        ghost var before := leftBuffer[..];
        ghost var beforeRight := rightBuffer[..];
        WriteFits(echoes, k, RenderQuantum - 1);
        AddLine(echoes[k], input);
        LineWritesAccumulated(before, echoes[k].delayLeft, Scale(echoes[k].gainLeft, input), readIdx, RenderQuantum);
        LineWritesAccumulated(beforeRight, echoes[k].delayRight, Scale(echoes[k].gainRight, input), readIdx, RenderQuantum);
        SumStep(before, leftBuffer[..], old(leftBuffer[..]), echoes, k, true, readIdx, input);
        SumStep(beforeRight, rightBuffer[..], old(rightBuffer[..]), echoes, k, false, readIdx, input);
      }
      assert echoes[..|echoes|] == echoes;
      SummedIsAfterInput(leftBuffer[..], old(leftBuffer[..]), echoes, true, readIdx, input);
      SummedIsAfterInput(rightBuffer[..], old(rightBuffer[..]), echoes, false, readIdx, input);
    }

    /** The inner loop of the deposit for line k: `input[i]` scaled by the line's gains goes
        `i + delay` slots past `readIdx` in each buffer, added to what is there. */
    method AddLine(line: EchoLine, input: seq<real>)
      requires Valid() && |input| == RenderQuantum
      requires line.delayLeft + RenderQuantum <= bufferLength && line.delayRight + RenderQuantum <= bufferLength
      modifies leftBuffer, rightBuffer
      ensures leftBuffer[..] == LineWrites(old(leftBuffer[..]), line.delayLeft, Scale(line.gainLeft, input), readIdx, RenderQuantum)
      ensures rightBuffer[..] == LineWrites(old(rightBuffer[..]), line.delayRight, Scale(line.gainRight, input), readIdx, RenderQuantum)
    {
      for i := 0 to RenderQuantum
        invariant leftBuffer[..] == LineWrites(old(leftBuffer[..]), line.delayLeft, Scale(line.gainLeft, input), readIdx, i)
        invariant rightBuffer[..] == LineWrites(old(rightBuffer[..]), line.delayRight, Scale(line.gainRight, input), readIdx, i)
      {
        AddTap(leftBuffer, readIdx, line.delayLeft, line.gainLeft, input, i, old(leftBuffer[..]));
        AddTap(rightBuffer, readIdx, line.delayRight, line.gainRight, input, i, old(rightBuffer[..]));
      }
    }
  }

  /** The body of the emitting loop for one buffer: copy the slot being read to the output
      and clear it. */
  method EmitSample(buffer: array<real>, out: array<real>, i: nat, slot: nat)
    requires buffer != out && i < out.Length && slot < buffer.Length
    modifies buffer, out
    ensures out[..] == old(out[..])[i := old(buffer[slot])]
    ensures buffer[..] == old(buffer[..])[slot := 0.0]
  {
    out[i] := buffer[slot];
    buffer[slot] := 0.0;
  }

  /** The body of the inner deposit loop for one buffer: `input[i]` scaled by the gain is
      added `i + delay` slots past `from`, wrapping round the ring. */
  method AddTap(buffer: array<real>, from: nat, delay: nat, gain: real, input: seq<real>, i: nat, ghost base: seq<real>)
    requires from < buffer.Length && |base| == buffer.Length
    requires i < |input| && i + 1 + delay <= buffer.Length
    requires buffer[..] == LineWrites(base, delay, Scale(gain, input), from, i)
    modifies buffer
    ensures buffer[..] == LineWrites(base, delay, Scale(gain, input), from, i + 1)
  {
    var slot := (from + i + delay) % buffer.Length;
    WrapIsMod(from + i + delay, buffer.Length);
    LineWritesStep(base, delay, Scale(gain, input), from, i + 1);
    assert Scale(gain, input)[i] == gain * input[i];
    buffer[slot] := buffer[slot] + gain * input[i];
    assert buffer[..] == old(buffer[..])[slot := old(buffer[slot]) + gain * input[i]];
  }

  /** Every write lands at most `maxDelay + 127` slots past the read position, short of the
      slot `maxDelay + 128` past it where `lastWriteIdx` is then set: a block never wraps round
      onto samples still to be read out of order. */
  lemma WriteFits(echoes: seq<EchoLine>, k: nat, i: nat)
    requires k < |echoes| && i < RenderQuantum
    ensures i + echoes[k].delayLeft < MaxDelay(echoes) + RenderQuantum
    ensures i + echoes[k].delayRight < MaxDelay(echoes) + RenderQuantum
  {
  }

  /** After an input block `lastWriteIdx` is the slot just behind `readIdx`, one past the
      furthest slot any line wrote, so the whole quantum is emitted. */
  lemma InputBlockDrainsFullQuantum(echoes: seq<EchoLine>, from: nat)
    requires from < MaxDelay(echoes) + RenderQuantum + 1
    ensures var length := MaxDelay(echoes) + RenderQuantum + 1;
      var lastWrite := (from + RenderQuantum + MaxDelay(echoes)) % length;
      && Ahead(lastWrite, from, length) == length - 1
      && DrainCount(from, lastWrite, length) == RenderQuantum
  {
    var length := MaxDelay(echoes) + RenderQuantum + 1;
    SlotAhead(0, from, length - 1, length);
  }

  /** On an all-zero buffer read from slot 0, sample i of the first block holds exactly the
      echo sum at distance i. */
  lemma FirstBlockSlot(buffer: seq<real>, echoes: seq<EchoLine>, left: bool, input: seq<real>, i: nat)
    requires |buffer| == MaxDelay(echoes) + RenderQuantum + 1 && |input| == RenderQuantum && i < RenderQuantum
    requires forall j :: 0 <= j < |buffer| ==> buffer[j] == 0.0
    ensures AfterInput(buffer, 0, echoes, left, Some(input))[Wrap(0 + i, |buffer|)] == EchoSum(echoes, left, i, input)
  {
    assert Ahead(i, 0, |buffer|) == i;
  }

  /** The whole first output block of one channel. */
  lemma FirstBlockOutput(buffer: seq<real>, echoes: seq<EchoLine>, left: bool, input: seq<real>, out0: seq<real>, out: seq<real>)
    requires |buffer| == MaxDelay(echoes) + RenderQuantum + 1 && |input| == RenderQuantum
    requires forall j :: 0 <= j < |buffer| ==> buffer[j] == 0.0
    requires |out0| == RenderQuantum
    requires out == Drained(out0, AfterInput(buffer, 0, echoes, left, Some(input)), 0, RenderQuantum)
    ensures forall i :: 0 <= i < RenderQuantum ==> out[i] == EchoSum(echoes, left, i, input)
  {
    forall i | 0 <= i < RenderQuantum
      ensures out[i] == EchoSum(echoes, left, i, input)
    {
      FirstBlockSlot(buffer, echoes, left, input, i);
    }
  }

  /** After the first block the read position is 128 and the last write position is
      `maxDelay + 128`: samples stay pending exactly when some line has a delay. */
  lemma FirstBlockPending(maxDelay: nat)
    ensures var length := maxDelay + RenderQuantum + 1;
      (0 + RenderQuantum) % length != (0 + RenderQuantum + maxDelay) % length <==> maxDelay > 0
  {
    var length := maxDelay + RenderQuantum + 1;
    WrapIsMod(0 + RenderQuantum, length);
    WrapIsMod(0 + RenderQuantum + maxDelay, length);
  }

  /** The first block through a new processor comes out as the sum over lines of each gain
      times the input delayed by that line's delay: `out[i] = sum of gain * input[i - delay]`;
      more is pending exactly when some line delays. */
  method FirstBlock(echoes: seq<EchoLine>, input: seq<real>) returns (left: seq<real>, right: seq<real>, more: bool)
    requires |input| == RenderQuantum
    ensures |left| == RenderQuantum && |right| == RenderQuantum
    ensures forall i :: 0 <= i < RenderQuantum ==>
      left[i] == EchoSum(echoes, true, i, input) && right[i] == EchoSum(echoes, false, i, input)
    ensures more <==> MaxDelay(echoes) > 0
  {
    var p := new EchoProcessor(echoes);
    var outLeft := new real[RenderQuantum];
    var outRight := new real[RenderQuantum];
    ghost var outLeft0, outRight0 := outLeft[..], outRight[..];
    ghost var zeroLeft := p.leftBuffer[..];
    ghost var zeroRight := p.rightBuffer[..];
    InputBlockDrainsFullQuantum(echoes, 0);
    FirstBlockPending(p.maxDelay);
    more := p.Process(Some(input), outLeft, outRight);
    assert DrainCount(0, p.lastWriteIdx, p.bufferLength) == RenderQuantum;
    left := outLeft[..];
    right := outRight[..];
    FirstBlockOutput(zeroLeft, echoes, true, input, outLeft0, left);
    FirstBlockOutput(zeroRight, echoes, false, input, outRight0, right);
  }

  /** A new processor given no input emits nothing, leaves its output untouched and reports
      that it is idle. */
  method IdleStaysIdle(echoes: seq<EchoLine>) returns (more: bool, left: seq<real>)
    ensures !more
    ensures left == seq(RenderQuantum, _ => 1.0)
  {
    var p := new EchoProcessor(echoes);
    var outLeft := new real[RenderQuantum](_ => 1.0);
    var outRight := new real[RenderQuantum](_ => 1.0);
    assert DrainCount(0, 0, p.bufferLength) == 0;
    more := p.Process(None, outLeft, outRight);
    left := outLeft[..];
  }
}
