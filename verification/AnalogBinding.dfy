/**
 EDM analog inputs: 1-based A/D numbering over array layouts, and the extraction of
 a 16-bit code that may begin at any bit of the process image.
 */
module AnalogBinding {
  import opened AnalogPublisher
  import opened Numbers

  // --------------------------------------------------------- A/D numbering

  datatype DataType = Int16 | UInt16 | OtherType

  datatype Layout = Layout(
    analogInput: bool, dataType: DataType, cyclic: bool, inputBitOffset: int, slaveIndex: int,
    inputBitLength: nat, elementBits: nat, channelCount: nat, deviceId: nat)

  datatype Binding = Binding(
    adIndex: nat, deviceId: nat, channelCount: nat, slaveIndex: int, inputBitOffset: int,
    configured: bool, unsignedRaw: bool, reason: Reason)

  /** How many A/D numbers a layout takes; an unsupported one still keeps a place. */
  function Channels(l: Layout): nat {
    if !l.analogInput then 0 else if l.channelCount == 0 then 1 else l.channelCount
  }

  function Total(layouts: seq<Layout>, n: nat): nat
    requires n <= |layouts|
  {
    if n == 0 then 0 else Total(layouts, n - 1) + Channels(layouts[n - 1])
  }

  /** A/D number adIndex is channel number channel, from 0, of layout i. */
  predicate Numbered(layouts: seq<Layout>, adIndex: nat, i: nat, channel: nat) {
    i < |layouts| && channel < Channels(layouts[i]) && adIndex == Total(layouts, i) + channel + 1
  }

  lemma {:induction false} TotalGrows(layouts: seq<Layout>, m: nat, n: nat)
    requires m <= n <= |layouts|
    ensures Total(layouts, m) <= Total(layouts, n)
    decreases n
  {
    if m < n {
      TotalGrows(layouts, m, n - 1);
    }
  }

  /** An A/D number names one channel of one layout. */
  lemma NumberedIsUnique(layouts: seq<Layout>, adIndex: nat, i: nat, c: nat, j: nat, d: nat)
    requires Numbered(layouts, adIndex, i, c) && Numbered(layouts, adIndex, j, d)
    ensures i == j && c == d
  {
    if i < j {
      TotalGrows(layouts, i + 1, j);
    } else if j < i {
      TotalGrows(layouts, j + 1, i);
    }
  }

  /** The layout conditions under which a channel can be read. */
  predicate Readable(l: Layout, channel: nat, imageBytes: nat) {
    && !l.dataType.OtherType? && l.cyclic && l.elementBits == 16 && l.channelCount != 0 && l.inputBitOffset >= 0
    && l.inputBitLength == l.channelCount * 16
    && l.inputBitOffset + channel * 16 <= 0x7FFF_FFFF
    && l.inputBitOffset + channel * 16 + 16 <= imageBytes * 8
    && l.inputBitOffset + l.inputBitLength <= imageBytes * 8
    && l.slaveIndex >= 0 && l.deviceId != 0
  }

  /** Selects the layout of an A/D number in one pass and judges it. */
  method Resolve(layouts: seq<Layout>, adIndex: nat, expectedDeviceId: nat, imageBytes: nat, contract: bool)
    returns (result: Binding)
    ensures result.adIndex == adIndex
    ensures result.channelCount == if Total(layouts, |layouts|) > MAX32 then MAX32 else Total(layouts, |layouts|)
    ensures adIndex == 0 ==> result.reason.NotConfigured? && !result.configured
    ensures adIndex != 0 ==>
              (result.reason.BindingMissing? <==>
                 !exists i: nat, channel: nat :: Numbered(layouts, adIndex, i, channel))
    ensures forall i: nat, channel: nat :: Numbered(layouts, adIndex, i, channel) ==>
              var l := layouts[i];
              && result.deviceId == l.deviceId && result.slaveIndex == l.slaveIndex
              && result.unsignedRaw == l.dataType.UInt16?
              && (result.configured <==> Readable(l, channel, imageBytes) && contract
                                         && (expectedDeviceId == 0 || expectedDeviceId == l.deviceId))
              && (Readable(l, channel, imageBytes) ==> result.inputBitOffset == l.inputBitOffset + channel * 16)
              && result.reason == (if !Readable(l, channel, imageBytes) then UnsupportedLayout
                                   else if expectedDeviceId != 0 && expectedDeviceId != l.deviceId then IdentityMismatch
                                   else if !contract then ContractInvalid else AwaitSample)
    ensures result.configured ==> exists i: nat, channel: nat :: Numbered(layouts, adIndex, i, channel)
  {
    result := Binding(adIndex, 0, 0, -1, -1, false, false, NotConfigured);
    var found, selected: nat, selectedChannel: nat, total: nat := false, 0, 0, 0;
    var i := 0;
    while i < |layouts|
      invariant 0 <= i <= |layouts| && total == Total(layouts, i)
      invariant found ==> selected < i && adIndex != 0 && Numbered(layouts, adIndex, selected, selectedChannel)
      invariant !found && adIndex != 0 ==> forall k: nat, c: nat :: k < i ==> !Numbered(layouts, adIndex, k, c)
    {
      var layout := layouts[i];
      if layout.analogInput {
        var channels := if layout.channelCount == 0 then 1 else layout.channelCount;
        if adIndex != 0 && adIndex > total && adIndex <= total + channels {
          assert Numbered(layouts, adIndex, i, adIndex - total - 1);
          found, selected, selectedChannel := true, i, adIndex - total - 1;
        }
        total := total + channels;
      }
      i := i + 1;
    }
    result := result.(channelCount := if total > MAX32 then MAX32 else total);
    if adIndex == 0 {
      return;
    }
    if !found {
      return result.(reason := BindingMissing);
    }
    forall j: nat, c: nat | Numbered(layouts, adIndex, j, c) ensures j == selected && c == selectedChannel {
      NumberedIsUnique(layouts, adIndex, j, c, selected, selectedChannel);
    }
    result := Judge(layouts[selected], selectedChannel, result, expectedDeviceId, imageBytes, contract);
  }

  /** The layout, identity and contract tests of the selected channel, in this order. */
  method Judge(l: Layout, channel: nat, started: Binding, expectedDeviceId: nat, imageBytes: nat, contract: bool)
    returns (result: Binding)
    requires !started.configured
    ensures result.adIndex == started.adIndex && result.channelCount == started.channelCount
    ensures result.deviceId == l.deviceId && result.slaveIndex == l.slaveIndex
          && result.unsignedRaw == l.dataType.UInt16?
    ensures result.configured <==> Readable(l, channel, imageBytes) && contract
                                   && (expectedDeviceId == 0 || expectedDeviceId == l.deviceId)
    ensures Readable(l, channel, imageBytes) ==> result.inputBitOffset == l.inputBitOffset + channel * 16
    ensures result.reason == (if !Readable(l, channel, imageBytes) then UnsupportedLayout
                              else if expectedDeviceId != 0 && expectedDeviceId != l.deviceId then IdentityMismatch
                              else if !contract then ContractInvalid else AwaitSample)
  {
    result := started.(deviceId := l.deviceId, slaveIndex := l.slaveIndex, unsignedRaw := l.dataType.UInt16?);
    if !Readable(l, channel, imageBytes) {
      return result.(reason := UnsupportedLayout);
    }
    result := result.(inputBitOffset := l.inputBitOffset + channel * 16);
    if expectedDeviceId != 0 && expectedDeviceId != result.deviceId {
      return result.(reason := IdentityMismatch);
    }
    if !contract {
      return result.(reason := ContractInvalid);
    }
    return result.(configured := true, reason := AwaitSample);
  }

  // ------------------------------------------------------- 16-bit extraction

  type byte = x: nat | x < 256

  /** The process image as one number, least significant byte first. */
  function Number(image: seq<byte>): nat {
    if image == [] then 0 else image[0] + 256 * Number(image[1..])
  }

  function PowerOfTwo(n: nat): (p: nat)
    ensures p > 0
  {
    if n == 0 then 1 else 2 * PowerOfTwo(n - 1)
  }

  /** The 16 bits of the image that begin at a bit offset. */
  function Field(image: seq<byte>, offset: nat): nat {
    (Number(image) / PowerOfTwo(offset)) % 65536
  }

  lemma NestedDivision(x: nat, p: nat, r: nat)
    requires p > 0 && r < 256
    ensures (r + 256 * x) / (256 * p) == x / p
  {
    var q, s := Division(x, p);
    var k, m := Division(r + 256 * x, 256 * p);
    TimesMono(256, s + 1, p);
    assert 256 * (p * q) == (256 * p) * q;
    QuotientUnique(256 * p, q, r + 256 * s, k, m);
  }

  lemma FieldSkipsByte(image: seq<byte>, offset: nat)
    requires image != []
    ensures Field(image, offset + 8) == Field(image[1..], offset)
  {
    hide PowerOfTwo;
    PowerOfByte(offset);
    NestedDivision(Number(image[1..]), PowerOfTwo(offset), image[0]);
  }

  /** Whole bytes below the offset do not matter. */
  lemma {:induction false} FieldSkipsBytes(image: seq<byte>, k: nat, shift: nat)
    requires k <= |image|
    ensures Field(image, 8 * k + shift) == Field(image[k..], shift)
    decreases k
  {
    hide Field;
    if k > 0 {
      FieldSkipsByte(image, 8 * (k - 1) + shift);
      FieldSkipsBytes(image[1..], k - 1, shift);
      assert image[1..][k - 1..] == image[k..];
      assert 8 * k + shift == 8 * (k - 1) + shift + 8;
    } else {
      assert image[0..] == image;
    }
  }

  lemma PowerOfByte(n: nat)
    ensures PowerOfTwo(n + 8) == 256 * PowerOfTwo(n)
  {
    assert PowerOfTwo(n + 8) == 2 * PowerOfTwo(n + 7) == 4 * PowerOfTwo(n + 6) == 8 * PowerOfTwo(n + 5);
    assert PowerOfTwo(n + 5) == 2 * PowerOfTwo(n + 4) == 4 * PowerOfTwo(n + 3) == 8 * PowerOfTwo(n + 2);
    assert PowerOfTwo(n + 2) == 2 * PowerOfTwo(n + 1) == 4 * PowerOfTwo(n);
  }

  lemma Complement(shift: nat)
    requires shift <= 8
    ensures PowerOfTwo(shift) * PowerOfTwo(8 - shift) == 256
  {
    PowerOfByte(0);
    assert PowerOfTwo(8) == 256;
    if shift > 0 {
      Complement(shift - 1);
      var p, k := PowerOfTwo(shift - 1), PowerOfTwo(8 - shift);
      assert PowerOfTwo(shift) == 2 * p && PowerOfTwo(8 - (shift - 1)) == 2 * k;
      assert p * (2 * k) == (2 * p) * k;
    }
  }

  /** Three bytes decide the field that begins in the first of them. */
  lemma FieldOfThree(low: nat, rest: nat, p: nat, k: nat)
    requires p > 0 && p * k == 256
    ensures ((low + 0x100_0000 * rest) / p) % 65536 == (low / p) % 65536
  {
    var q, s := Division(low, p);
    calc {
      0x100_0000 * rest;
      65536 * ((p * k) * rest);
      p * (65536 * (k * rest));
    }
    assert p * (q + 65536 * (k * rest)) == p * q + p * (65536 * (k * rest));
    DivideUnique(low + 0x100_0000 * rest, p, q + 65536 * (k * rest), s);
  }

  function Packed(tail: seq<byte>, shift: nat): nat
    requires shift < 8 && 8 * |tail| >= shift + 16
  {
    (tail[0] as nat) + 256 * (tail[1] as nat) + if shift != 0 then 65536 * (tail[2] as nat) else 0
  }

  lemma NumberOfThree(tail: seq<byte>, shift: nat)
    requires |tail| >= 3 && 0 < shift < 8
    ensures Number(tail) == Packed(tail, shift) + 0x100_0000 * Number(tail[3..])
  {
    assert tail[1..][1..] == tail[2..] && tail[2..][1..] == tail[3..];
    assert Number(tail[1..]) == tail[1] + 256 * Number(tail[2..]);
    assert Number(tail[2..]) == tail[2] + 256 * Number(tail[3..]);
  }

  lemma NumberOfTwo(tail: seq<byte>)
    requires |tail| >= 2
    ensures Number(tail) == Packed(tail, 0) + 65536 * Number(tail[2..])
  {
    assert tail[1..][1..] == tail[2..];
    assert Number(tail[1..]) == tail[1] + 256 * Number(tail[2..]);
  }

  /** Two bytes without a shift, three with one, hold the whole field. */
  lemma TailField(tail: seq<byte>, shift: nat)
    requires shift < 8 && 8 * |tail| >= shift + 16
    ensures Field(tail, shift) == (Packed(tail, shift) / PowerOfTwo(shift)) % 65536
  {
    hide Packed, Number;
    if shift == 0 {
      NumberOfTwo(tail);
      assert PowerOfTwo(0) == 1;
    } else {
      NumberOfThree(tail, shift);
      Complement(shift);
      FieldOfThree(Packed(tail, shift), Number(tail[3..]), PowerOfTwo(shift), PowerOfTwo(8 - shift));
    }
  }

  /** The field as a two's complement value. */
  function Signed(code: nat): int { if code <= 0x7FFF then code else code - 65536 }

  /**
   Reads exactly the 16 bits from the offset on, without touching a byte outside the image:
   the same number the bits have in the whole image, unsigned or as two's complement.
   */
  method ReadRaw16(image: seq<byte>, inputBitOffset: int, unsignedRaw: bool) returns (ok: bool, rawCode: int)
    ensures ok <==> 0 <= inputBitOffset && inputBitOffset + 16 <= 8 * |image|
    ensures ok ==> rawCode == if unsignedRaw then Field(image, inputBitOffset) else Signed(Field(image, inputBitOffset))
    ensures !ok ==> rawCode == 0
  {
    if inputBitOffset < 0 || inputBitOffset + 16 > |image| * 8 {
      return false, 0;
    }
    var first, shift := inputBitOffset / 8, inputBitOffset % 8;
    hide PowerOfTwo, Field, Number;
    var packed: nat := (image[first] as nat) + 256 * (image[first + 1] as nat);
    if shift != 0 {
      packed := packed + 65536 * (image[first + 2] as nat);
    }
    var code := (packed / PowerOfTwo(shift)) % 65536;
    FieldSkipsBytes(image, first, shift);
    TailField(image[first..], shift);
    rawCode := if unsignedRaw || code <= 0x7FFF then code else code - 65536;
    ok := true;
  }

  /** A configured binding can always be read, and what is read are the 16 bits of its own channel. */
  method ReadConfigured(layouts: seq<Layout>, adIndex: nat, expectedDeviceId: nat, contract: bool, image: seq<byte>)
    returns (binding: Binding, ok: bool, rawCode: int)
    ensures binding.configured ==> ok && binding.inputBitOffset >= 0
    ensures binding.configured ==>
              exists i: nat, channel: nat :: Numbered(layouts, adIndex, i, channel)
                && binding.inputBitOffset == layouts[i].inputBitOffset + channel * 16
                && rawCode == if layouts[i].dataType.UInt16? then Field(image, binding.inputBitOffset)
                              else Signed(Field(image, binding.inputBitOffset))
  {
    hide Field, Total;
    binding := Resolve(layouts, adIndex, expectedDeviceId, |image|, contract);
    ok, rawCode := ReadRaw16(image, binding.inputBitOffset, binding.unsignedRaw);
    if binding.configured {
      var i: nat, channel: nat :| Numbered(layouts, adIndex, i, channel);
      assert Readable(layouts[i], channel, |image|);
    }
  }
}
