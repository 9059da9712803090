/**
 The two packed 64-bit words of AlarmManager, as records together with their
 arithmetic packing.  The state machine works on the records; the lemmas here
 show that every atomic operation of the source on the packed word is the
 record operation, so no carry and no stray bit is hidden by the record view.
 */
module AlarmWords {
  import opened Numbers

  const BEGIN_DELTA: nat := 0x1_0000_0001
  const SEQUENCE_DELTA: nat := 0x1_0000_0000

  /** A low field below its radix can be divided off. */
  lemma FieldSplit(low: nat, high: nat, radix: nat)
    requires low < radix
    requires radix in {256, TWO16, TWO31, TWO32, TWO48, TWO56, TWO63}
    ensures (low + high * radix) / radix == high
    ensures (low + high * radix) % radix == low
  {
    if radix == 256 {
      assert (low + high * 256) / 256 == high;
    } else if radix == TWO16 {
      assert (low + high * TWO16) / TWO16 == high;
    } else if radix == TWO31 {
      assert (low + high * TWO31) / TWO31 == high;
    } else if radix == TWO32 {
      assert (low + high * TWO32) / TWO32 == high;
    } else if radix == TWO48 {
      assert (low + high * TWO48) / TWO48 == high;
    } else if radix == TWO56 {
      assert (low + high * TWO56) / TWO56 == high;
    } else {
      assert (low + high * TWO63) / TWO63 == high;
    }
  }

  // ---------------------------------------------------------------- intent

  /** m_motionSafetyIntentState: sequence, RESERVED bit, active count. */
  datatype Intent = Intent(sequence: nat, reserved: bool, active: int)

  predicate FitsIntent(w: Intent) {
    w.sequence < TWO32 && 0 <= w.active < TWO31
  }

  function PackIntent(w: Intent): int {
    w.sequence * TWO32 + (if w.reserved then TWO31 else 0) + w.active
  }

  function Begin(w: Intent): Intent {
    Intent((w.sequence + 1) % TWO32, w.reserved, w.active + 1)
  }

  function Leave(w: Intent): Intent {
    w.(active := w.active - 1)
  }

  function Advance(w: Intent): Intent {
    w.(sequence := (w.sequence + 1) % TWO32)
  }

  /** uint64 fetch_add. */
  function FetchAdd(word: int, delta: nat): nat {
    (word + delta) % TWO64
  }

  /** Unpacking by the source's masks: active mask, RESERVED bit, sequence. */
  function UnpackIntent(word: nat): (w: Intent) {
    Intent(word / TWO32, word / TWO31 % 2 == 1, word % TWO31)
  }

  /** No two records share a packed word, and the masks recover the record. */
  lemma PackingIsInjective(a: Intent, b: Intent)
    requires FitsIntent(a) && FitsIntent(b)
    ensures 0 <= PackIntent(a) < TWO64
    ensures UnpackIntent(PackIntent(a)) == a
    ensures PackIntent(a) == PackIntent(b) <==> a == b
  {
    UnpackPack(a);
    UnpackPack(b);
  }

  lemma UnpackPack(a: Intent)
    requires FitsIntent(a)
    ensures 0 <= PackIntent(a) < TWO64
    ensures UnpackIntent(PackIntent(a)) == a
  {
    var bit := if a.reserved then 1 else 0;
    FieldSplit(a.active + bit * TWO31, a.sequence, TWO32);
    FieldSplit(a.active, a.sequence * 2 + bit, TWO31);
    assert PackIntent(a) == a.active + (a.sequence * 2 + bit) * TWO31;
  }

  lemma NextSequence(w: Intent)
    requires FitsIntent(w)
    ensures (w.sequence + 1) % TWO32 == if w.sequence + 1 == TWO32 then 0 else w.sequence + 1
  {
  }

  lemma PackedBegin(w: Intent)
    requires FitsIntent(w)
    ensures FetchAdd(PackIntent(w), BEGIN_DELTA) == PackIntent(Begin(w)) % TWO64
  {
    NextSequence(w);
  }

  lemma PackedBeginFits(w: Intent)
    requires FitsIntent(w)
    ensures w.active + 1 < TWO31 <==> FitsIntent(Begin(w))
    ensures w.active + 1 < TWO31 ==> PackIntent(Begin(w)) % TWO64 == PackIntent(Begin(w))
  {
    if w.active + 1 < TWO31 {
      UnpackPack(Begin(w));
    }
  }

  /** At 2^31 - 1 the carry of an increment sets a clear RESERVED bit. */
  lemma PackedCarry(w: Intent)
    requires FitsIntent(w) && w.active + 1 == TWO31 && !w.reserved
    ensures UnpackIntent(FetchAdd(PackIntent(w), BEGIN_DELTA)).reserved
  {
    PackedBegin(w);
    var carried := Intent(Begin(w).sequence, true, 0);
    assert PackIntent(Begin(w)) == PackIntent(carried);
    UnpackPack(carried);
  }

  lemma PackedAdvance(w: Intent)
    requires FitsIntent(w)
    ensures FetchAdd(PackIntent(w), SEQUENCE_DELTA) == PackIntent(Advance(w)) && FitsIntent(Advance(w))
  {
    NextSequence(w);
    UnpackPack(Advance(w));
  }

  /**
   The four read-modify-write operations on the packed word.  The increment is
   the record operation exactly while the count stays below 2^31; at 2^31 - 1
   the carry lands in the RESERVED bit.
   */
  lemma PackedOperations(w: Intent)
    requires FitsIntent(w)
    ensures FetchAdd(PackIntent(w), BEGIN_DELTA) == PackIntent(Begin(w)) % TWO64
    ensures w.active + 1 < TWO31 <==> FitsIntent(Begin(w))
    ensures w.active + 1 < TWO31 ==> FetchAdd(PackIntent(w), BEGIN_DELTA) == PackIntent(Begin(w))
    ensures w.active + 1 == TWO31 && !w.reserved ==>
              UnpackIntent(FetchAdd(PackIntent(w), BEGIN_DELTA)).reserved
    ensures w.active > 0 ==> PackIntent(w) - 1 == PackIntent(Leave(w)) && FitsIntent(Leave(w))
    ensures FetchAdd(PackIntent(w), SEQUENCE_DELTA) == PackIntent(Advance(w)) && FitsIntent(Advance(w))
    ensures w.reserved ==> PackIntent(w) - TWO31 == PackIntent(w.(reserved := false))
  {
    hide FetchAdd;
    PackedBegin(w);
    PackedBeginFits(w);
    if w.active + 1 == TWO31 && !w.reserved {
      PackedCarry(w);
    }
    PackedAdvance(w);
  }

  // -------------------------------------------------------------- deferred

  /** One alarm payload; every field is a 32-bit int of the source. */
  datatype Alarm = Alarm(code: int, line: int, axis: int)

  predicate IsInt32(x: int) { -0x8000_0000 <= x < 0x8000_0000 }

  predicate FitsAlarm(a: Alarm) { IsInt32(a.code) && IsInt32(a.line) && IsInt32(a.axis) }

  /** The alarms whose three fields survive the packed truncation. */
  predicate Representable(a: Alarm) {
    && 0 <= a.code < TWO16
    && IsInt32(a.line)
    && -128 <= a.axis < 128
  }

  /** The three payload fields of the deferred word, as unsigned bit fields. */
  datatype Payload = Payload(code: nat, line: nat, axis: nat)

  /** The deferred word: overflow bit, seven-bit count, first payload. */
  datatype Deferred = Deferred(overflow: bool, count: nat, payload: Payload)

  const NO_PAYLOAD := Payload(0, 0, 0)
  const NO_DEFERRED := Deferred(false, 0, NO_PAYLOAD)
  const COUNT_MAX: nat := 0x7F

  predicate FitsPayload(p: Payload) {
    p.code < TWO16 && p.line < TWO32 && p.axis < 256
  }

  predicate FitsDeferred(d: Deferred) {
    d.count <= COUNT_MAX && FitsPayload(d.payload)
  }

  /** static_cast to uint16, uint32 and uint8. */
  function Truncate(a: Alarm): (p: Payload)
    ensures FitsPayload(p)
  {
    Payload(a.code % TWO16, a.line % TWO32, a.axis % 256)
  }

  /** Zero extension of the code, sign extension of line and axis. */
  function Extend(p: Payload): Alarm {
    Alarm(p.code,
          if p.line < TWO31 then p.line else p.line - TWO32,
          if p.axis < 128 then p.axis else p.axis - 256)
  }

  /** The payload comes back unchanged exactly for the representable alarms. */
  lemma PayloadRoundTrip(a: Alarm)
    requires FitsAlarm(a)
    ensures Extend(Truncate(a)) == a <==> Representable(a)
    ensures Extend(Truncate(a)).line == a.line
  {
  }

  /** One deferral: first payload kept, count saturates into the overflow bit. */
  function Coalesce(d: Deferred, p: Payload): Deferred {
    if d.count == 0 then Deferred(d.overflow, 1, p)
    else if d.count < COUNT_MAX then d.(count := d.count + 1)
    else d.(overflow := true)
  }

  function PackPayload(p: Payload): nat {
    p.code + p.line * TWO16 + p.axis * TWO48
  }

  function PackDeferred(d: Deferred): nat {
    PackPayload(d.payload) + d.count * TWO56 + (if d.overflow then TWO63 else 0)
  }

  /** The desired word of the retry loop, in the shifts and masks of the source. */
  function DesiredWord(observed: nat, payload: nat): nat {
    var count := observed / TWO56 % 0x80;
    var overflow := observed / TWO63 % 2;
    if count == 0 then overflow * TWO63 + payload + TWO56
    else if count < COUNT_MAX then observed - count * TWO56 + (count + 1) * TWO56
    else if overflow == 1 then observed else observed + TWO63
  }

  lemma PackedTop(d: Deferred)
    requires FitsDeferred(d)
    ensures PackDeferred(d) / TWO56 == d.count + (if d.overflow then 0x80 else 0)
    ensures PackDeferred(d) / TWO63 == (if d.overflow then 1 else 0)
  {
    var low := PackPayload(d.payload);
    assert low < TWO56;
    FieldSplit(low, d.count + (if d.overflow then 0x80 else 0), TWO56);
    FieldSplit(low + d.count * TWO56, if d.overflow then 1 else 0, TWO63);
  }

  lemma PackedPayload(d: Deferred)
    requires FitsDeferred(d)
    ensures PackDeferred(d) % TWO16 == d.payload.code
    ensures PackDeferred(d) / TWO16 % TWO32 == d.payload.line
    ensures PackDeferred(d) / TWO48 % 256 == d.payload.axis
  {
    var p := d.payload;
    var top := d.count + (if d.overflow then 0x80 else 0);
    var word := PackDeferred(d);
    assert word == p.code + (p.line + (p.axis + top * 256) * TWO32) * TWO16;
    FieldSplit(p.code, p.line + (p.axis + top * 256) * TWO32, TWO16);
    FieldSplit(p.line, p.axis + top * 256, TWO32);
    assert word == (p.code + p.line * TWO16) + (p.axis + top * 256) * TWO48;
    FieldSplit(p.code + p.line * TWO16, p.axis + top * 256, TWO48);
    FieldSplit(p.axis, top, 256);
  }

  /** The masks and shifts of the source recover every field of the word. */
  lemma PackedFields(d: Deferred)
    requires FitsDeferred(d)
    ensures PackDeferred(d) / TWO56 % 0x80 == d.count
    ensures PackDeferred(d) / TWO63 % 2 == (if d.overflow then 1 else 0)
    ensures PackDeferred(d) % TWO16 == d.payload.code
    ensures PackDeferred(d) / TWO16 % TWO32 == d.payload.line
    ensures PackDeferred(d) / TWO48 % 256 == d.payload.axis
    ensures PackDeferred(d) == 0 <==> d == NO_DEFERRED
  {
    PackedTop(d);
    PackedPayload(d);
  }

  /** The packed retry loop computes the record operation, and loses nothing. */
  lemma PackedCoalesce(d: Deferred, p: Payload)
    requires FitsDeferred(d) && FitsPayload(p)
    ensures DesiredWord(PackDeferred(d), PackPayload(p)) == PackDeferred(Coalesce(d, p))
    ensures FitsDeferred(Coalesce(d, p))
    ensures Coalesce(d, p) != NO_DEFERRED
  {
    PackedFields(d);
  }

  /** The units one pending word will add to the update counter when promoted. */
  function Units(d: Deferred): nat {
    d.count + (if d.overflow then 1 else 0)
  }
}
