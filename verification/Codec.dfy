/** Packing of 12-bit samples and little-endian words into byte buffers.

    Masks and shifts of unsigned words are written as remainders and quotients. */
module Codec {
  import opened Wrappers

  type u8 = x: int | 0 <= x < 0x100
  type u16 = x: int | 0 <= x < 0x1_0000
  type u32 = x: int | 0 <= x < 0x1_0000_0000

  const U12_MAX: nat := 0x0FFF

  datatype EncodeError = EmptySamples | BufferTooSmall | TooManySamples | ValueOutOfRange

  // ---------------------------------------------------------------------------
  // Specification: the same number in base 256 and in base 4096
  // ---------------------------------------------------------------------------

  ghost predicate ValidSamples(samples: seq<u16>) {
    forall i :: 0 <= i < |samples| ==> samples[i] <= U12_MAX
  }

  lemma ValidParts(a: seq<u16>, b: seq<u16>)
    ensures ValidSamples(a + b) <==> ValidSamples(a) && ValidSamples(b)
  {
    assert forall i :: 0 <= i < |a| ==> a[i] == (a + b)[i];
    assert forall i :: 0 <= i < |b| ==> b[i] == (a + b)[|a| + i];
  }

  /** The number whose digits in base `b`, lowest first, are `digits`. */
  ghost function Number(digits: seq<nat>, b: nat): nat {
    if digits == [] then 0 else digits[0] + b * Number(digits[1..], b)
  }

  function LowByte(first: u16): u8 {
    first % 256
  }

  /** The high nibble of the first sample below the low nibble of the second. */
  function SharedByte(first: u16, second: u16): u8
    requires first <= U12_MAX
  {
    first / 256 + second % 16 * 16
  }

  function HighByte(second: u16): u8
    requires second <= U12_MAX
  {
    second / 16
  }

  function PairBytes(first: u16, second: u16): (bytes: seq<u8>)
    requires first <= U12_MAX && second <= U12_MAX
    ensures |bytes| == 3
  {
    [LowByte(first), SharedByte(first, second), HighByte(second)]
  }

  function LastBytes(sample: u16): (bytes: seq<u8>)
    requires sample <= U12_MAX
    ensures |bytes| == 2
  {
    [LowByte(sample), SharedByte(sample, 0)]
  }

  /** Two samples in three bytes, an odd last sample in two. */
  function Pack(samples: seq<u16>): (bytes: seq<u8>)
    requires ValidSamples(samples)
    ensures |bytes| == |samples| / 2 * 3 + |samples| % 2 * 2
  {
    if samples == [] then []
    else if |samples| == 1 then LastBytes(samples[0])
    else PairBytes(samples[0], samples[1]) + Pack(samples[2..])
  }

  lemma NumberOfTwo(d0: nat, d1: nat, rest: seq<nat>, b: nat)
    ensures Number([d0, d1] + rest, b) == d0 + b * (d1 + b * Number(rest, b))
  {
    var digits := [d0, d1] + rest;
    assert digits[1..] == [d1] + rest;
    assert digits[1..][1..] == rest;
  }

  lemma PairNumber(first: u16, second: u16, n: nat)
    requires first <= U12_MAX && second <= U12_MAX
    ensures LowByte(first) + 256 * (SharedByte(first, second) + 256 * (HighByte(second) + 256 * n))
         == first + 4096 * (second + 4096 * n)
    ensures LowByte(first) + 256 * SharedByte(first, 0) == first
  {
  }

  /** The packed bytes and the samples spell the same number. */
  lemma {:induction false} PackKeepsNumber(samples: seq<u16>)
    requires ValidSamples(samples)
    ensures Number(Pack(samples), 256) == Number(samples, 4096)
    decreases |samples|
  {
    hide LowByte, SharedByte, HighByte;
    var bytes := Pack(samples);
    if |samples| == 1 {
      PairNumber(samples[0], 0, 0);
      assert bytes == [bytes[0], bytes[1]] + [] && samples[1..] == [];
      NumberOfTwo(bytes[0], bytes[1], [], 256);
    } else if |samples| > 1 {
      var rest := Pack(samples[2..]);
      PackKeepsNumber(samples[2..]);
      PairNumber(samples[0], samples[1], Number(rest, 256));
      assert bytes == [bytes[0], bytes[1]] + ([bytes[2]] + rest);
      NumberOfTwo(bytes[0], bytes[1], [bytes[2]] + rest, 256);
      assert ([bytes[2]] + rest)[1..] == rest;
      assert samples == [samples[0], samples[1]] + samples[2..];
      NumberOfTwo(samples[0], samples[1], samples[2..], 4096);
    }
  }

  /** Digits below the base are determined by their number and their count. */
  lemma {:induction false} DigitsUnique(a: seq<nat>, c: seq<nat>, b: nat)
    requires b > 0 && |a| == |c| && Number(a, b) == Number(c, b)
    requires forall i :: 0 <= i < |a| ==> a[i] < b && c[i] < b
    ensures a == c
  {
    if a != [] {
      var x, y := Number(a[1..], b), Number(c[1..], b);
      QuotientsAgree(x, y, a[0], c[0], b);
      DigitsUnique(a[1..], c[1..], b);
      assert a == [a[0]] + a[1..] && c == [c[0]] + c[1..];
    }
  }

  lemma QuotientsAgree(x: nat, y: nat, r: nat, q: nat, b: nat)
    requires r < b && q < b && r + b * x == q + b * y
    ensures x == y && r == q
  {
    assert x < y ==> b * (x + 1) <= b * y;
    assert y < x ==> b * (y + 1) <= b * x;
  }

  function EncodedU12Len(count: nat): Result<nat, EncodeError> {
    if count == 0 then Err(EmptySamples)
    else Ok(count / 2 * 3 + (if count % 2 != 0 then 2 else 0))
  }

  /** The byte length determines the sample count. */
  lemma LengthDeterminesCount(m: nat, n: nat)
    ensures EncodedU12Len(m) == EncodedU12Len(n) ==> m == n
  {
  }

  /** Packing is injective: length and number together determine the samples. */
  lemma PackInjective(a: seq<u16>, b: seq<u16>)
    requires ValidSamples(a) && ValidSamples(b) && Pack(a) == Pack(b)
    ensures a == b
  {
    LengthDeterminesCount(|a|, |b|);
    PackKeepsNumber(a);
    PackKeepsNumber(b);
    DigitsUnique(a, b, 4096);
  }

  // ---------------------------------------------------------------------------
  // Unpacking
  // ---------------------------------------------------------------------------

  /** The byte strings that are the packing of some samples. */
  ghost predicate WellFormed(bytes: seq<u8>) {
    |bytes| % 3 == 0 || (|bytes| % 3 == 2 && bytes[|bytes| - 1] < 16)
  }

  function FirstOf(b0: u8, b1: u8): u16 {
    (b0 as int) + (b1 as int) % 16 * 256
  }

  function SecondOf(b1: u8, b2: u8): u16 {
    (b1 as int) / 16 + (b2 as int) * 16
  }

  function Unpack(bytes: seq<u8>): (samples: seq<u16>) {
    if |bytes| < 2 then []
    else if |bytes| == 2 then [FirstOf(bytes[0], bytes[1])]
    else [FirstOf(bytes[0], bytes[1]), SecondOf(bytes[1], bytes[2])] + Unpack(bytes[3..])
  }

  lemma PairUnpacks(first: u16, second: u16)
    requires first <= U12_MAX && second <= U12_MAX
    ensures FirstOf(LowByte(first), SharedByte(first, second)) == first
    ensures SecondOf(SharedByte(first, second), HighByte(second)) == second
  {
    var shared := SharedByte(first, second);
    assert shared % 16 == first / 256 && shared / 16 == second % 16;
  }

  lemma BytesRepack(b0: u8, b1: u8, b2: u8)
    ensures FirstOf(b0, b1) <= U12_MAX && SecondOf(b1, b2) <= U12_MAX
    ensures LowByte(FirstOf(b0, b1)) == b0 && HighByte(SecondOf(b1, b2)) == b2
    ensures SharedByte(FirstOf(b0, b1), SecondOf(b1, b2)) == b1
    ensures b1 < 16 ==> SharedByte(FirstOf(b0, b1), 0) == b1
  {
  }

  lemma {:induction false} UnpackPack(samples: seq<u16>)
    requires ValidSamples(samples)
    ensures Unpack(Pack(samples)) == samples
    decreases |samples|
  {
    hide LowByte, SharedByte, HighByte, FirstOf, SecondOf;
    if |samples| == 1 {
      PairUnpacks(samples[0], 0);
    } else if |samples| > 1 {
      PairUnpacks(samples[0], samples[1]);
      UnpackPack(samples[2..]);
      assert Pack(samples)[3..] == Pack(samples[2..]);
      assert samples == [samples[0], samples[1]] + samples[2..];
    }
  }

  lemma {:induction false} PackIsWellFormed(samples: seq<u16>)
    requires ValidSamples(samples)
    ensures WellFormed(Pack(samples))
    decreases |samples|
  {
    if |samples| > 1 {
      PackIsWellFormed(samples[2..]);
    }
  }

  lemma WellFormedTail(bytes: seq<u8>)
    requires WellFormed(bytes) && |bytes| > 2
    ensures WellFormed(bytes[3..]) && |bytes| != 4
  {
  }

  lemma {:induction false} PackUnpack(bytes: seq<u8>)
    requires WellFormed(bytes)
    ensures ValidSamples(Unpack(bytes)) && Pack(Unpack(bytes)) == bytes
    decreases |bytes|
  {
    hide LowByte, SharedByte, HighByte, FirstOf, SecondOf;
    if |bytes| == 2 {
      BytesRepack(bytes[0], bytes[1], 0);
    } else if |bytes| > 2 {
      var rest := Unpack(bytes[3..]);
      var pair := [FirstOf(bytes[0], bytes[1]), SecondOf(bytes[1], bytes[2])];
      BytesRepack(bytes[0], bytes[1], bytes[2]);
      WellFormedTail(bytes);
      PackUnpack(bytes[3..]);
      ValidParts(pair, rest);
      hide WellFormed, ValidSamples;
      assert Unpack(bytes) == pair + rest && (pair + rest)[2..] == rest;
      assert bytes == PairBytes(pair[0], pair[1]) + bytes[3..];
    }
  }

  /** Exactly the well-formed byte strings are packings. */
  lemma PackingsAreWellFormed(bytes: seq<u8>)
    ensures WellFormed(bytes) <==> exists samples :: ValidSamples(samples) && Pack(samples) == bytes
  {
    if WellFormed(bytes) {
      PackUnpack(bytes);
    }
    forall samples | ValidSamples(samples) && Pack(samples) == bytes
      ensures WellFormed(bytes)
    {
      PackIsWellFormed(samples);
    }
  }

  lemma PackUnfold(samples: seq<u16>)
    requires ValidSamples(samples) && |samples| >= 2
    ensures ValidSamples(samples[2..])
    ensures Pack(samples) == PairBytes(samples[0], samples[1]) + Pack(samples[2..])
  {
  }

  lemma {:induction false} PackAppend(a: seq<u16>, b: seq<u16>)
    requires ValidSamples(a + b) && |a| % 2 == 0
    ensures ValidSamples(a) && ValidSamples(b) && Pack(a + b) == Pack(a) + Pack(b)
    decreases |a|
  {
    ValidParts(a, b);
    if a == [] {
      assert a + b == b;
    } else {
      assert (a + b)[2..] == a[2..] + b;
      PackUnfold(a);
      PackUnfold(a + b);
      hide ValidSamples, PairBytes, Pack;
      PackAppend(a[2..], b);
      assert Pack(a + b) == PairBytes(a[0], a[1]) + (Pack(a[2..]) + Pack(b));
    }
  }

  // ---------------------------------------------------------------------------
  // The buffer operations
  // ---------------------------------------------------------------------------

  function ToLeBytes16(value: u16): (bytes: seq<u8>)
    ensures |bytes| == 2
  {
    [value % 0x100, value / 0x100]
  }

  function ToLeBytes32(value: u32): (bytes: seq<u8>)
    ensures |bytes| == 4
  {
    ToLeBytes16(value % 0x1_0000) + ToLeBytes16(value / 0x1_0000)
  }

  function FromLeBytes16(bytes: seq<u8>): u16
    requires |bytes| == 2
  {
    (bytes[0] as int) + 0x100 * (bytes[1] as int)
  }

  function FromLeBytes32(bytes: seq<u8>): u32
    requires |bytes| == 4
  {
    (FromLeBytes16(bytes[..2]) as int) + 0x1_0000 * (FromLeBytes16(bytes[2..]) as int)
  }

  lemma Word16RoundTrip(value: u16)
    ensures FromLeBytes16(ToLeBytes16(value)) == value
  {
  }

  lemma Word32RoundTrip(value: u32)
    ensures FromLeBytes32(ToLeBytes32(value)) == value
  {
    var bytes := ToLeBytes32(value);
    assert bytes[..2] == ToLeBytes16(value % 0x1_0000) && bytes[2..] == ToLeBytes16(value / 0x1_0000);
  }

  /** The lowest byte comes first: read in base 256 the bytes are the word. */
  lemma WordsAreLittleEndian(low: u16, value: u32)
    ensures Number(ToLeBytes16(low), 256) == low && Number(ToLeBytes32(value), 256) == value
  {
    var a, b := ToLeBytes16(value % 0x1_0000), ToLeBytes16(value / 0x1_0000);
    NumberOfPair(low);
    NumberOfPair(value % 0x1_0000);
    NumberOfPair(value / 0x1_0000);
    assert a + b == [a[0], a[1]] + b && a == [a[0], a[1]] + [];
    NumberOfTwo(a[0], a[1], b, 256);
    NumberOfTwo(a[0], a[1], [], 256);
    hide ToLeBytes16;
  }

  lemma NumberOfPair(word: u16)
    ensures Number(ToLeBytes16(word), 256) == word
  {
    var bytes := ToLeBytes16(word);
    assert bytes == [bytes[0], bytes[1]] + [];
    NumberOfTwo(bytes[0], bytes[1], [], 256);
  }

  /** The buffer with `bytes` laid over it from `at` on. */
  function Overlay(buffer: seq<u8>, at: nat, bytes: seq<u8>): (r: seq<u8>)
    requires at + |bytes| <= |buffer|
    ensures |r| == |buffer|
  {
    buffer[..at] + bytes + buffer[at + |bytes|..]
  }

  lemma OverlayTwice(buffer: seq<u8>, at: nat, a: seq<u8>, b: seq<u8>)
    requires at + |a| + |b| <= |buffer|
    ensures Overlay(Overlay(buffer, at, a), at + |a|, b) == Overlay(buffer, at, a + b)
  {
  }

  lemma FourBytes(before: seq<u8>, after: seq<u8>, at: nat, bytes: seq<u8>)
    requires |bytes| == 4 && at + 4 <= |before| == |after|
    requires after[..at] == before[..at] && after[at + 4..] == before[at + 4..] && after[at..at + 4] == bytes
    ensures after == Overlay(before, at, bytes)
  {
    assert after == after[..at] + after[at..at + 4] + after[at + 4..];
  }

  /** Writes into the slice of `out` from `from` to `to`. */
  method WriteU16Le(out: array<u8>, from: nat, to: nat, value: u16) returns (r: Result<(), EncodeError>)
    requires from <= to <= out.Length
    modifies out
    ensures r == if to - from < 2 then Err(BufferTooSmall) else Ok(())
    ensures out[..] == if r.Ok? then Overlay(old(out[..]), from, ToLeBytes16(value)) else old(out[..])
  {
    if to - from < 2 {
      return Err(BufferTooSmall);
    }
    out[from], out[from + 1] := value % 0x100, value / 0x100;
    r := Ok(());
  }

  method WriteU32Le(out: array<u8>, from: nat, to: nat, value: u32) returns (r: Result<(), EncodeError>)
    requires from <= to <= out.Length
    modifies out
    ensures r == if to - from < 4 then Err(BufferTooSmall) else Ok(())
    ensures out[..] == if r.Ok? then Overlay(old(out[..]), from, ToLeBytes32(value)) else old(out[..])
  {
    if to - from < 4 {
      return Err(BufferTooSmall);
    }
    var low, high := value % 0x1_0000, value / 0x1_0000;
    hide Overlay;
    out[from], out[from + 1] := low % 0x100, low / 0x100;
    out[from + 2], out[from + 3] := high % 0x100, high / 0x100;
    FourBytes(old(out[..]), out[..], from, ToLeBytes32(value));
    r := Ok(());
  }

  /** How many whole pairs precede the first pair with a sample out of range. */
  function GoodPairs(samples: seq<u16>): (n: nat)
    ensures 2 * n <= |samples| && ValidSamples(samples[..2 * n])
    ensures ValidSamples(samples) ==> n == |samples| / 2
  {
    if |samples| < 2 || samples[0] > U12_MAX || samples[1] > U12_MAX then 0
    else
      var n := GoodPairs(samples[2..]);
      assert forall i :: 2 <= i < 2 * n + 2 ==> samples[i] == samples[2..][..2 * n][i - 2];
      assert ValidSamples(samples) ==> forall i :: 0 <= i < |samples| - 2 ==> samples[2..][i] == samples[i + 2];
      n + 1
  }

  function PackResult(samples: seq<u16>, room: nat): Result<nat, EncodeError> {
    match EncodedU12Len(|samples|)
    case Err(e) => Err(e)
    case Ok(needed) =>
      if room < needed then Err(BufferTooSmall)
      else if exists i :: 0 <= i < |samples| && samples[i] > U12_MAX then Err(ValueOutOfRange)
      else Ok(needed)
  }

  /** What `PackU12` leaves in the buffer: the packing, or on a sample out of range the
      packing of the whole pairs before it. */
  function PackedBytes(samples: seq<u16>, room: nat): (bytes: seq<u8>)
    ensures |bytes| <= room
  {
    match PackResult(samples, room)
    case Ok(_) => assert ValidSamples(samples); Pack(samples)
    case Err(ValueOutOfRange) => Pack(samples[..2 * GoodPairs(samples)])
    case Err(_) => []
  }

  lemma GoodPairsStep(samples: seq<u16>, k: nat)
    requires 2 * k + 2 <= |samples|
    requires samples[2 * k] <= U12_MAX && samples[2 * k + 1] <= U12_MAX
    ensures GoodPairs(samples[2 * k..]) == 1 + GoodPairs(samples[2 * k + 2..])
  {
    assert samples[2 * k..][2..] == samples[2 * k + 2..];
  }

  /** The buffer `now` is `before` with the first `k` pairs packed into it. */
  ghost predicate PairsPacked(now: seq<u8>, before: seq<u8>, from: nat, samples: seq<u16>, k: nat) {
    && 2 * k <= |samples| && ValidSamples(samples[..2 * k])
    && |Pack(samples[..2 * k])| == 3 * k && from + 3 * k <= |before|
    && now == Overlay(before, from, Pack(samples[..2 * k]))
    && GoodPairs(samples) == k + GoodPairs(samples[2 * k..])
  }

  lemma NothingPacked(before: seq<u8>, from: nat, samples: seq<u16>)
    requires from <= |before|
    ensures PairsPacked(before, before, from, samples, 0)
  {
    assert samples[0..] == samples;
  }

  lemma PackPair(samples: seq<u16>, k: nat)
    requires 2 * k + 2 <= |samples| && ValidSamples(samples[..2 * k])
    requires samples[2 * k] <= U12_MAX && samples[2 * k + 1] <= U12_MAX
    ensures ValidSamples(samples[..2 * k + 2])
    ensures Pack(samples[..2 * k + 2]) == Pack(samples[..2 * k]) + PairBytes(samples[2 * k], samples[2 * k + 1])
  {
    var pair := [samples[2 * k], samples[2 * k + 1]];
    assert samples[..2 * k + 2] == samples[..2 * k] + pair;
    ValidParts(samples[..2 * k], pair);
    PackAppend(samples[..2 * k], pair);
    assert pair[2..] == [];
  }

  lemma PackOneMorePair(now: seq<u8>, before: seq<u8>, from: nat, samples: seq<u16>, k: nat)
    requires PairsPacked(now, before, from, samples, k)
    requires 2 * k + 2 <= |samples| && from + 3 * k + 3 <= |before|
    requires samples[2 * k] <= U12_MAX && samples[2 * k + 1] <= U12_MAX
    ensures PairsPacked(Overlay(now, from + 3 * k, PairBytes(samples[2 * k], samples[2 * k + 1])),
                        before, from, samples, k + 1)
  {
    PackPair(samples, k);
    GoodPairsStep(samples, k);
    OverlayTwice(before, from, Pack(samples[..2 * k]), PairBytes(samples[2 * k], samples[2 * k + 1]));
    hide Overlay, Pack, PairBytes, GoodPairs, ValidSamples;
  }

  lemma PackLastSample(now: seq<u8>, before: seq<u8>, from: nat, samples: seq<u16>, k: nat)
    requires PairsPacked(now, before, from, samples, k)
    requires 2 * k + 1 == |samples| && samples[2 * k] <= U12_MAX && from + 3 * k + 2 <= |before|
    ensures ValidSamples(samples) && |Pack(samples)| == 3 * k + 2
    ensures Overlay(now, from + 3 * k, LastBytes(samples[2 * k])) == Overlay(before, from, Pack(samples))
  {
    var last := [samples[2 * k]];
    assert samples == samples[..2 * k] + last;
    ValidParts(samples[..2 * k], last);
    PackAppend(samples[..2 * k], last);
    OverlayTwice(before, from, Pack(samples[..2 * k]), LastBytes(samples[2 * k]));
  }

  method PutPair(out: array<u8>, at: nat, first: u16, second: u16)
    requires at + 3 <= out.Length && first <= U12_MAX && second <= U12_MAX
    modifies out
    ensures out[..] == Overlay(old(out[..]), at, PairBytes(first, second))
  {
    out[at] := LowByte(first);
    out[at + 1] := SharedByte(first, second);
    out[at + 2] := HighByte(second);
  }

  method PutNextPair(samples: seq<u16>, out: array<u8>, ghost before: seq<u8>, ghost from: nat,
                     dst: nat, first: u16, second: u16, ghost k: nat)
    requires PairsPacked(out[..], before, from, samples, k)
    requires 2 * k + 2 <= |samples| && dst == from + 3 * k && dst + 3 <= |before| == out.Length
    requires first == samples[2 * k] <= U12_MAX && second == samples[2 * k + 1] <= U12_MAX
    modifies out
    ensures PairsPacked(out[..], before, from, samples, k + 1)
  {
    PackOneMorePair(out[..], before, from, samples, k);
    hide PairsPacked, Overlay, PairBytes;
    PutPair(out, dst, first, second);
  }

  method PutLast(out: array<u8>, at: nat, sample: u16)
    requires at + 2 <= out.Length && sample <= U12_MAX
    modifies out
    ensures out[..] == Overlay(old(out[..]), at, LastBytes(sample))
  {
    out[at] := LowByte(sample);
    out[at + 1] := SharedByte(sample, 0);
  }

  /** Packs whole pairs until one has a sample out of range. */
  method PackPairs(samples: seq<u16>, out: array<u8>, from: nat, ghost pairs: nat)
    returns (src: nat, dst: nat, ghost k: nat)
    requires 2 * pairs <= |samples| <= 2 * pairs + 1 && from + 3 * pairs <= out.Length
    modifies out
    ensures src == 2 * k && dst == from + 3 * k && k <= pairs
    ensures PairsPacked(out[..], old(out[..]), from, samples, k)
    ensures src <= |samples|
    ensures src + 1 < |samples| ==> samples[src] > U12_MAX || samples[src + 1] > U12_MAX
  {
    ghost var before := out[..];
    NothingPacked(before, from, samples);
    hide PairsPacked, Overlay, PairBytes;
    src, dst, k := 0, from, 0;
    while src + 1 < |samples|
      invariant src == 2 * k && dst == from + 3 * k && k <= pairs
      invariant PairsPacked(out[..], before, from, samples, k)
    {
      var first := samples[src];
      var second := samples[src + 1];
      if first > U12_MAX || second > U12_MAX {
        break;
      }
      PutNextPair(samples, out, before, from, dst, first, second, k);
      src, dst, k := src + 2, dst + 3, k + 1;
    }
  }

  /** The outcome once the pairs are packed and no sample is left. */
  lemma AllPacked(now: seq<u8>, before: seq<u8>, from: nat, samples: seq<u16>, k: nat)
    requires PairsPacked(now, before, from, samples, k) && 2 * k == |samples|
    ensures ValidSamples(samples) && |Pack(samples)| == 3 * k && now == Overlay(before, from, Pack(samples))
  {
    assert samples[..2 * k] == samples;
  }

  /** The outcome when the pair behind the packed ones, or the last sample, is out of range. */
  lemma StoppedEarly(now: seq<u8>, before: seq<u8>, from: nat, samples: seq<u16>, k: nat, bad: nat)
    requires PairsPacked(now, before, from, samples, k)
    requires 2 * k <= bad < |samples| && bad <= 2 * k + 1 && samples[bad] > U12_MAX
    ensures !ValidSamples(samples) && 2 * GoodPairs(samples) == 2 * k
    ensures now == Overlay(before, from, Pack(samples[..2 * GoodPairs(samples)]))
  {
    hide Overlay, Pack, GoodPairs;
    BadIsInvalid(samples, bad);
    var rest := samples[2 * k..];
    assert rest[bad - 2 * k] > U12_MAX;
    hide ValidSamples;
    NoGoodPair(rest);
  }

  lemma NoGoodPair(samples: seq<u16>)
    requires |samples| < 2 || samples[0] > U12_MAX || samples[1] > U12_MAX
    ensures GoodPairs(samples) == 0
  {
  }

  lemma BadIsInvalid(samples: seq<u16>, bad: nat)
    requires bad < |samples| && samples[bad] > U12_MAX
    ensures !ValidSamples(samples)
  {
  }

  lemma PackOutcome(samples: seq<u16>, room: nat)
    ensures samples == [] ==> PackResult(samples, room) == Err(EmptySamples) && PackedBytes(samples, room) == []
    ensures samples != [] ==>
              var needed := EncodedU12Len(|samples|).value;
              && (room < needed ==>
                    PackResult(samples, room) == Err(BufferTooSmall) && PackedBytes(samples, room) == [])
              && (room >= needed ==>
                    if ValidSamples(samples)
                    then PackResult(samples, room) == Ok(needed) && PackedBytes(samples, room) == Pack(samples)
                    else && PackResult(samples, room) == Err(ValueOutOfRange)
                         && PackedBytes(samples, room) == Pack(samples[..2 * GoodPairs(samples)]))
  {
  }

  lemma OverlayNothing(buffer: seq<u8>, from: nat)
    requires from <= |buffer|
    ensures Overlay(buffer, from, []) == buffer
  {
  }

  /** Packs into the slice of `out` that starts at `from`; bytes outside the packing keep
      their values. */
  method PackU12(samples: seq<u16>, out: array<u8>, from: nat) returns (r: Result<nat, EncodeError>)
    requires from <= out.Length
    modifies out
    ensures r == PackResult(samples, out.Length - from)
    ensures out[..] == Overlay(old(out[..]), from, PackedBytes(samples, out.Length - from))
  {
    ghost var before := out[..];
    PackOutcome(samples, out.Length - from);
    OverlayNothing(before, from);
    hide Overlay, Pack, PairBytes, LastBytes, PackResult, PackedBytes, PairsPacked, ValidSamples, GoodPairs;
    if samples == [] {
      return Err(EmptySamples);
    }
    var needed := EncodedU12Len(|samples|).value;
    if out.Length - from < needed {
      return Err(BufferTooSmall);
    }
    var src, dst, k := PackPairs(samples, out, from, |samples| / 2);
    if src + 1 < |samples| {
      StoppedEarly(out[..], before, from, samples, k, if samples[src] > U12_MAX then src else src + 1);
      return Err(ValueOutOfRange);
    }
    if src < |samples| {
      var sample := samples[src];
      if sample > U12_MAX {
        StoppedEarly(out[..], before, from, samples, k, src);
        return Err(ValueOutOfRange);
      }
      PackLastSample(out[..], before, from, samples, k);
      PutLast(out, dst, sample);
    } else {
      AllPacked(out[..], before, from, samples, k);
    }
    r := Ok(needed);
  }
}
