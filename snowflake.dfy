/** The Snowflake id generator: 41 bits of milliseconds since the epoch
    START_TIME, 5 bits of data-center id, 5 bits of worker id and a 12-bit
    sequence within the millisecond. The system clock is an input. */
module Snowflake {
  import opened Wrappers
  import opened JavaValues

  const START_TIME: int := 946656000000
  const DATA_CENTER_ID_BITS: int := 5
  const WORKER_ID_BITS: int := 5
  const SEQUENCE_BITS: int := 12
  const MAX_WORKER_ID: int := 31
  const MAX_DATA_CENTER_ID: int := 31
  const WORKER_ID_SHIFT: int := 12
  const DATA_CENTER_ID_SHIFT: int := 17
  const TIMESTAMP_LEFT_SHIFT: int := 22
  const SEQUENCE_MASK: int := 4095

  const ALL_ONES: bv64 := 0xFFFF_FFFF_FFFF_FFFF

  /** The masks are computed as `~(-1L << bits)`; the shifts are sums of
      the field widths. */
  lemma MaskConstants()
    ensures (!(ALL_ONES << 5)) as int == MAX_WORKER_ID == MAX_DATA_CENTER_ID
    ensures (!(ALL_ONES << 12)) as int == SEQUENCE_MASK
    ensures WORKER_ID_SHIFT == SEQUENCE_BITS
    ensures DATA_CENTER_ID_SHIFT == WORKER_ID_SHIFT + WORKER_ID_BITS
    ensures TIMESTAMP_LEFT_SHIFT == DATA_CENTER_ID_SHIFT + DATA_CENTER_ID_BITS
  {
  }

  /** `(sequence + 1) & SEQUENCE_MASK` is the increment modulo 4096. */
  lemma MaskIsModulo(x: bv64)
    ensures x & 0xFFF == x % 0x1000
  {
  }

  /** The three low fields occupy disjoint bits below bit 22, so the `|` of
      the shifted fields is their sum. */
  lemma FieldsDisjoint(time: bv64, dataCenter: bv64, worker: bv64, sequence: bv64)
    requires dataCenter < 32 && worker < 32 && sequence < 4096
    ensures (time << 22) | (dataCenter << 17) | (worker << 12) | sequence
         == (time << 22) + (dataCenter << 17) + (worker << 12) + sequence
  {
  }

  /** The id `next` returns, with `<<` and `|` written as the Java `long`
      arithmetic they amount to (see `FieldsDisjoint`). */
  function Compose(offsetTime: int, dataCenterId: int, workerId: int, sequence: int): int {
    WrapLong(offsetTime * 0x40_0000 + dataCenterId * 0x2_0000 + workerId * 0x1000 + sequence)
  }

  /** The fields read back from an id by `>>` and `&`. */
  function TimeOf(id: int): int { id / 0x40_0000 }
  function DataCenterOf(id: int): int { (id / 0x2_0000) % 32 }
  function WorkerOf(id: int): int { (id / 0x1000) % 32 }
  function SequenceOf(id: int): int { id % 0x1000 }

  predicate FieldsInRange(offsetTime: int, dataCenterId: int, workerId: int, sequence: int) {
    0 <= offsetTime < 0x200_0000_0000 && 0 <= dataCenterId <= MAX_DATA_CENTER_ID
    && 0 <= workerId <= MAX_WORKER_ID && 0 <= sequence <= SEQUENCE_MASK
  }

  /** Every field of an id decodes back, while the time fits its 41 bits. */
  lemma ComposeDecodes(offsetTime: int, dataCenterId: int, workerId: int, sequence: int)
    requires FieldsInRange(offsetTime, dataCenterId, workerId, sequence)
    ensures var id := Compose(offsetTime, dataCenterId, workerId, sequence);
      id >= 0 && TimeOf(id) == offsetTime && DataCenterOf(id) == dataCenterId
      && WorkerOf(id) == workerId && SequenceOf(id) == sequence
  {
    var t, d, w, s := offsetTime, dataCenterId, workerId, sequence;
    var id := t * 0x40_0000 + d * 0x2_0000 + w * 0x1000 + s;
    assert Compose(t, d, w, s) == id;
    DivMod(d * 0x2_0000 + w * 0x1000 + s, 0x40_0000, t);
    DivMod(w * 0x1000 + s, 0x2_0000, t * 32 + d);
    DivMod(d, 32, t);
    DivMod(s, 0x1000, t * 1024 + d * 32 + w);
    DivMod(w, 32, t * 32 + d);
  }

  /** Later (time, sequence) pairs give larger ids. */
  lemma ComposeIncreases(t0: int, s0: int, t1: int, s1: int, dataCenterId: int, workerId: int)
    requires FieldsInRange(t0, dataCenterId, workerId, s0) && FieldsInRange(t1, dataCenterId, workerId, s1)
    requires t1 > t0 || (t1 == t0 && s1 > s0)
    ensures Compose(t1, dataCenterId, workerId, s1) > Compose(t0, dataCenterId, workerId, s0)
  {
  }

  /** The system clock, as the sequence of values its successive readings
      return. */
  class Clock {
    const reading: nat -> int
    var readCount: nat

    constructor (reading: nat -> int)
      ensures this.reading == reading && readCount == 0
    {
      this.reading := reading;
      readCount := 0;
    }

    /** Some reading from index `from` on is later than `last`. */
    ghost predicate LaterReading(from: nat, last: int) {
      exists k: nat :: from <= k && reading(k) > last
    }

    /** Whatever has been read, the clock eventually passes any time. */
    ghost predicate Advancing() {
      forall from: nat, last: int :: LaterReading(from, last)
    }

    /** `currentTimeMillis`. */
    method Now() returns (t: int)
      modifies this
      ensures readCount == old(readCount) + 1 && t == reading(old(readCount))
    {
      t := reading(readCount);
      readCount := readCount + 1;
    }
  }

  const BACKWARDS_PREFIX := "Clock moved backwards, refusing to generate id for ["

  function BackwardsMessage(offset: int): string {
    BACKWARDS_PREFIX + IntToString(offset) + "ms]"
  }

  class Generator {
    const workerId: int
    const dataCenterId: int
    const timeOffset: int
    var sequence: int
    var lastTimestamp: int

    ghost predicate Valid()
      reads this
    {
      0 <= dataCenterId <= MAX_DATA_CENTER_ID && 0 <= workerId <= MAX_WORKER_ID
      && 0 <= sequence <= SEQUENCE_MASK
    }

    constructor (dataCenterId: int, workerId: int, timeOffset: int)
      requires 0 <= dataCenterId <= MAX_DATA_CENTER_ID && 0 <= workerId <= MAX_WORKER_ID
      ensures Valid()
      ensures this.dataCenterId == dataCenterId && this.workerId == workerId && this.timeOffset == timeOffset
      ensures sequence == 0 && lastTimestamp == -1
    {
      this.dataCenterId := dataCenterId;
      this.workerId := workerId;
      this.timeOffset := timeOffset;
      sequence := 0;
      lastTimestamp := -1;
    }

    /** The id of the last successful `next`. */
    function LastId(): int
      reads this
    {
      Compose(lastTimestamp - START_TIME, dataCenterId, workerId, sequence)
    }

    /** `tilNextMillis`: reads the clock until it passes `last`. */
    method TilNextMillis(clock: Clock, last: int) returns (t: int)
      requires clock.LaterReading(clock.readCount, last)
      modifies clock
      ensures t > last
      ensures clock.readCount > old(clock.readCount) && t == clock.reading(clock.readCount - 1)
      ensures forall k :: old(clock.readCount) <= k < clock.readCount - 1 ==> clock.reading(k) <= last
    {
      ghost var target: nat :| clock.readCount <= target && clock.reading(target) > last;
      t := clock.Now();
      while t <= last
        invariant old(clock.readCount) < clock.readCount <= target + 1
        invariant t == clock.reading(clock.readCount - 1)
        invariant forall k :: old(clock.readCount) <= k < clock.readCount - 1 ==> clock.reading(k) <= last
        decreases target + 1 - clock.readCount
      {
        t := clock.Now();
      }
    }

    /** `next`. `secondStart` decides the random start of a new
        millisecond's sequence: 2 when set, 1 otherwise. */
    method Next(clock: Clock, secondStart: bool) returns (r: Outcome<int>)
      requires Valid() && clock.Advancing()
      modifies this, clock
      ensures Valid()
      ensures var t0 := clock.reading(old(clock.readCount));
        var t1 := clock.reading(old(clock.readCount) + 1);
        r.Err? <==> (t0 < old(lastTimestamp)
                     && (old(lastTimestamp) - t0 > timeOffset || t1 < old(lastTimestamp)))
      ensures r.Err? ==> sequence == old(sequence) && lastTimestamp == old(lastTimestamp)
      ensures r.Err? ==> r.error.Runtime?
      ensures r.Ok? ==> r.value == LastId()
      ensures r.Ok? ==> lastTimestamp > old(lastTimestamp) || (lastTimestamp == old(lastTimestamp) && sequence == old(sequence) + 1)
      ensures r.Ok? && lastTimestamp > old(lastTimestamp) ==>
        sequence == (if secondStart then 2 else 1) || (sequence == 0 && old(sequence) == SEQUENCE_MASK)
      ensures r.Ok? && clock.reading(old(clock.readCount)) > old(lastTimestamp) ==>
        lastTimestamp == clock.reading(old(clock.readCount)) && sequence == (if secondStart then 2 else 1)
      ensures r.Ok? ==> old(clock.readCount) < clock.readCount && lastTimestamp == clock.reading(clock.readCount - 1)
    {
      var now := CheckedNow(clock);
      if now.Err? {
        return Err(now.error);
      }
      var current := now.value;
      if lastTimestamp == current {
        sequence := (sequence + 1) % (SEQUENCE_MASK + 1);
        if sequence == 0 {
          assert clock.LaterReading(clock.readCount, lastTimestamp);
          current := TilNextMillis(clock, lastTimestamp);
        }
      } else {
        sequence := if secondStart then 2 else 1;
      }
      lastTimestamp := current;
      return Ok(LastId());
    }

    /** The first part of `next`: the clock reading, refused when the clock
        went back by more than `timeOffset`, or is still behind after the
        wait. */
    method CheckedNow(clock: Clock) returns (r: Outcome<int>)
      modifies clock
      ensures var t0 := clock.reading(old(clock.readCount));
        var t1 := clock.reading(old(clock.readCount) + 1);
        && (r.Err? <==> (t0 < lastTimestamp && (lastTimestamp - t0 > timeOffset || t1 < lastTimestamp)))
        && (r.Err? ==> r.error.Runtime?)
        && (r.Ok? && t0 >= lastTimestamp ==> r.value == t0)
        && (r.Ok? && t0 < lastTimestamp ==> r.value == t1)
      ensures r.Ok? ==> r.value >= lastTimestamp
      ensures r.Ok? ==> old(clock.readCount) < clock.readCount && r.value == clock.reading(clock.readCount - 1)
    {
      var current := clock.Now();
      if current < lastTimestamp {
        var offset := lastTimestamp - current;
        if offset > timeOffset {
          return Err(Runtime(BackwardsMessage(offset)));
        }
        // After waiting twice the offset, the clock is read again.
        current := clock.Now();
        if current < lastTimestamp {
          return Err(Runtime(BackwardsMessage(offset)));
        }
      }
      return Ok(current);
    }
  }

  const DATA_CENTER_MESSAGE := "Data Center Id can't be greater than 31 or less than 0"
  const WORKER_MESSAGE := "Worker Id can't be greater than 31 or less than 0"

  /** `new Snowflake(dataCenterId, workerId, timeOffset)`: ids outside 0..31
      are refused. */
  method NewGenerator(dataCenterId: int, workerId: int, timeOffset: int) returns (r: Outcome<Generator>)
    ensures r.Ok? <==> 0 <= dataCenterId <= MAX_DATA_CENTER_ID && 0 <= workerId <= MAX_WORKER_ID
    ensures r.Ok? ==> fresh(r.value) && r.value.Valid()
    ensures r.Ok? ==> r.value.dataCenterId == dataCenterId && r.value.workerId == workerId
    ensures r.Ok? ==> r.value.timeOffset == timeOffset
    ensures r.Ok? ==> r.value.sequence == 0 && r.value.lastTimestamp == -1
    ensures r.Err? ==> r.error.IllegalArgument?
  {
    if dataCenterId > MAX_DATA_CENTER_ID || dataCenterId < 0 {
      return Err(IllegalArgument(DATA_CENTER_MESSAGE));
    }
    if workerId > MAX_WORKER_ID || workerId < 0 {
      return Err(IllegalArgument(WORKER_MESSAGE));
    }
    var g := new Generator(dataCenterId, workerId, timeOffset);
    return Ok(g);
  }

  /** Two successful calls in a row, a fresh generator's first two
      included, return increasing ids while the clock reads no earlier than
      START_TIME and stays within the 41-bit range after it. */
  method NextTwice(g: Generator, clock: Clock, first: bool, second: bool) returns (a: Outcome<int>, b: Outcome<int>)
    requires g.Valid() && clock.Advancing()
    modifies g, clock
    ensures var readsFromStart := forall k :: old(clock.readCount) <= k ==> START_TIME <= clock.reading(k);
      a.Ok? && b.Ok? && readsFromStart && g.lastTimestamp - START_TIME < 0x200_0000_0000 ==> b.value > a.value
  {
    a := g.Next(clock, first);
    if a.Err? {
      b := a;
      return;
    }
    var t0, s0 := g.lastTimestamp, g.sequence;
    b := g.Next(clock, second);
    if b.Ok? && (forall k :: old(clock.readCount) <= k ==> START_TIME <= clock.reading(k)) &&
       g.lastTimestamp - START_TIME < 0x200_0000_0000 {
      ComposeIncreases(t0 - START_TIME, s0, g.lastTimestamp - START_TIME, g.sequence, g.dataCenterId, g.workerId);
    }
  }
}
