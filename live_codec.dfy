/** The audio helpers at the top of components/views/LiveView.tsx: bytes to
    and from a binary string, the browser's `btoa`/`atob` (the base64
    alphabet of section 4 of RFC 4648, decoded the forgiving way the HTML
    standard prescribes), the little-endian 16-bit PCM view, the channel
    de-interleave of `decodeAudioData` and the framing of `createBlob`. */
module LiveCodec {
  import opened Wrappers

  type Byte = x: int | 0 <= x < 256
  type Int16 = x: int | -32768 <= x < 32768

  /** The exceptions the helpers can raise: `InvalidCharacterError` from
      `btoa`/`atob`, `RangeError` from an `Int16Array` view over an odd
      number of bytes, `NotSupportedError` from `createBuffer` with no frames. */
  datatype CodecError = InvalidCharacter | OddByteLength | EmptyBuffer

  // ---------------------------------------------------------------------
  // Binary strings: one UTF-16 code unit per byte
  // ---------------------------------------------------------------------

  /** The string `String.fromCharCode` builds from the bytes, one by one. */
  function BinaryString(bytes: seq<Byte>): (s: string)
    ensures |s| == |bytes|
  {
    seq(|bytes|, i requires 0 <= i < |bytes| => bytes[i] as char)
  }

  predicate IsBinaryString(s: string) {
    forall k :: 0 <= k < |s| ==> s[k] as int < 256
  }

  /** What storing each `charCodeAt` in a `Uint8Array` keeps: the code
      modulo 256 (ToUint8, section 7.1.11 of ECMA-262). */
  function StoredBytes(s: string): (bytes: seq<Byte>)
    ensures |bytes| == |s|
  {
    seq(|s|, i requires 0 <= i < |s| => s[i] as int % 256)
  }

  lemma {:induction false} StoredBytesOfBinaryString(bytes: seq<Byte>)
    ensures IsBinaryString(BinaryString(bytes))
    ensures StoredBytes(BinaryString(bytes)) == bytes
  {
    var s := BinaryString(bytes);
    forall k | 0 <= k < |bytes| ensures s[k] as int == bytes[k] && StoredBytes(s)[k] == bytes[k] {
      assert s[k] == bytes[k] as char;
    }
  }

  lemma BinaryStringOfStoredBytes(s: string)
    requires IsBinaryString(s)
    ensures BinaryString(StoredBytes(s)) == s
  {
  }

  // ---------------------------------------------------------------------
  // btoa / atob: base64 with the alphabet of section 4 of RFC 4648
  // ---------------------------------------------------------------------

  predicate IsBase64Digit(c: char) {
    ('A' <= c <= 'Z') || ('a' <= c <= 'z') || ('0' <= c <= '9') || c == '+' || c == '/'
  }

  /** The character for a 6-bit value (Table 1 of RFC 4648). */
  function Digit(v: int): (c: char)
    requires 0 <= v < 64
    ensures IsBase64Digit(c)
  {
    if v < 26 then (65 + v) as char
    else if v < 52 then (97 + v - 26) as char
    else if v < 62 then (48 + v - 52) as char
    else if v == 62 then '+'
    else '/'
  }

  /** The 6-bit value of an alphabet character; the inverse of Digit. */
  function DigitValue(c: char): (v: int)
    requires IsBase64Digit(c)
    ensures 0 <= v < 64 && Digit(v) == c
  {
    if 'A' <= c <= 'Z' then c as int - 65
    else if 'a' <= c <= 'z' then c as int - 97 + 26
    else if '0' <= c <= '9' then c as int - 48 + 52
    else if c == '+' then 62
    else 63
  }

  lemma DigitValueOfDigit(v: int)
    requires 0 <= v < 64
    ensures DigitValue(Digit(v)) == v
  {
  }

  /** Four characters for three bytes, most significant bits first. */
  function EncodeQuantum(b0: Byte, b1: Byte, b2: Byte): (q: string)
    ensures |q| == 4
  {
    [Digit(b0 / 4), Digit(b0 % 4 * 16 + b1 / 16), Digit(b1 % 16 * 4 + b2 / 64), Digit(b2 % 64)]
  }

  /** The encoding without its `=` padding: a final group of one byte gives
      two characters, a final group of two bytes three. */
  function EncodeBody(bytes: seq<Byte>): string
    decreases |bytes|
  {
    if |bytes| >= 3 then EncodeQuantum(bytes[0], bytes[1], bytes[2]) + EncodeBody(bytes[3..])
    else if |bytes| == 2 then [Digit(bytes[0] / 4), Digit(bytes[0] % 4 * 16 + bytes[1] / 16), Digit(bytes[1] % 16 * 4)]
    else if |bytes| == 1 then [Digit(bytes[0] / 4), Digit(bytes[0] % 4 * 16)]
    else []
  }

  function Padding(n: nat): string {
    if n % 3 == 1 then "==" else if n % 3 == 2 then "=" else ""
  }

  function Base64Encode(bytes: seq<Byte>): string {
    EncodeBody(bytes) + Padding(|bytes|)
  }

  /** `btoa(s)`: fails on any code unit above 255, otherwise encodes the
      string's code units as bytes. */
  function Btoa(s: string): Result<string, CodecError> {
    if IsBinaryString(s) then Success(Base64Encode(StoredBytes(s))) else Failure(InvalidCharacter)
  }

  /** ASCII white space, which forgiving-base64 decode removes first. */
  predicate IsAsciiWhitespace(c: char) {
    c == '\t' || c == '\n' || c == '\U{000C}' || c == '\r' || c == ' '
  }

  function RemoveAsciiWhitespace(s: string): (r: string)
    ensures |r| <= |s|
    ensures forall k :: 0 <= k < |r| ==> !IsAsciiWhitespace(r[k])
  {
    if s == [] then []
    else if IsAsciiWhitespace(s[0]) then RemoveAsciiWhitespace(s[1..])
    else [s[0]] + RemoveAsciiWhitespace(s[1..])
  }

  /** A length that is a multiple of four loses one or two trailing `=`. */
  function DropPadding(s: string): string {
    if |s| % 4 != 0 then s
    else if |s| >= 2 && s[|s| - 2] == '=' && s[|s| - 1] == '=' then s[..|s| - 2]
    else if |s| >= 1 && s[|s| - 1] == '=' then s[..|s| - 1]
    else s
  }

  predicate AllDigits(s: string) {
    forall k :: 0 <= k < |s| ==> IsBase64Digit(s[k])
  }

  /** Three bytes from four alphabet values. */
  function DecodeQuantum(v0: int, v1: int, v2: int, v3: int): (bytes: seq<Byte>)
    requires 0 <= v0 < 64 && 0 <= v1 < 64 && 0 <= v2 < 64 && 0 <= v3 < 64
    ensures |bytes| == 3
  {
    [v0 * 4 + v1 / 16, v1 % 16 * 16 + v2 / 4, v2 % 4 * 64 + v3]
  }

  /** The bytes of unpadded base64 text; a trailing group of three
      characters carries 18 bits (two bytes, the last two bits dropped), one
      of two characters 12 bits (one byte, the last four bits dropped). */
  function DecodeBody(s: string): (bytes: seq<Byte>)
    requires AllDigits(s) && |s| % 4 != 1
    decreases |s|
  {
    if |s| >= 4 then
      DecodeQuantum(DigitValue(s[0]), DigitValue(s[1]), DigitValue(s[2]), DigitValue(s[3])) + DecodeBody(s[4..])
    else if |s| == 3 then
      DecodeQuantum(DigitValue(s[0]), DigitValue(s[1]), DigitValue(s[2]), 0)[..2]
    else if |s| == 2 then
      DecodeQuantum(DigitValue(s[0]), DigitValue(s[1]), 0, 0)[..1]
    else []
  }

  /** `atob(s)`: forgiving-base64 decode (white space removed, one or two
      `=` dropped from a length that is a multiple of four, then failure on
      a length of the form 4k+1 or on any character outside the alphabet),
      returning the bytes as a binary string. */
  function Atob(s: string): Result<string, CodecError> {
    var data := DropPadding(RemoveAsciiWhitespace(s));
    if |data| % 4 == 1 || !AllDigits(data) then Failure(InvalidCharacter)
    else Success(BinaryString(DecodeBody(data)))
  }

  lemma QuantumRoundTrip(b0: Byte, b1: Byte, b2: Byte)
    ensures var q := EncodeQuantum(b0, b1, b2);
      DecodeQuantum(DigitValue(q[0]), DigitValue(q[1]), DigitValue(q[2]), DigitValue(q[3])) == [b0, b1, b2]
  {
    var v0, v1, v2, v3 := b0 / 4, b0 % 4 * 16 + b1 / 16, b1 % 16 * 4 + b2 / 64, b2 % 64;
    DigitValueOfDigit(v0); DigitValueOfDigit(v1); DigitValueOfDigit(v2); DigitValueOfDigit(v3);
    assert v1 / 16 == b0 % 4 && v1 % 16 == b1 / 16;
    assert v2 / 4 == b1 % 16 && v2 % 4 == b2 / 64;
  }

  lemma {:induction false} EncodeBodyShape(bytes: seq<Byte>)
    ensures AllDigits(EncodeBody(bytes))
    ensures |EncodeBody(bytes)| % 4 == (if |bytes| % 3 == 0 then 0 else |bytes| % 3 + 1)
  {
    EncodeBodyDigits(bytes);
    EncodeBodyLength(bytes);
    QuadrupleRemainder(|bytes| / 3, if |bytes| % 3 == 0 then 0 else |bytes| % 3 + 1);
  }

  lemma QuadrupleRemainder(k: nat, c: nat)
    requires c < 4
    ensures (4 * k + c) % 4 == c
  {
  }

  lemma {:induction false} EncodeBodyDigits(bytes: seq<Byte>)
    ensures AllDigits(EncodeBody(bytes))
    decreases |bytes|
  {
    if |bytes| >= 3 {
      EncodeBodyDigits(bytes[3..]);
      var q, rest := EncodeQuantum(bytes[0], bytes[1], bytes[2]), EncodeBody(bytes[3..]);
      assert EncodeBody(bytes) == q + rest;
      forall k | 0 <= k < |q + rest| ensures IsBase64Digit((q + rest)[k]) {
        if k >= 4 { assert (q + rest)[k] == rest[k - 4]; }
      }
    }
  }

  /** Four characters per whole group of three bytes, then two or three
      for a final group of one or two. */
  lemma {:induction false} EncodeBodyLength(bytes: seq<Byte>)
    ensures |EncodeBody(bytes)| == 4 * (|bytes| / 3) + (if |bytes| % 3 == 0 then 0 else |bytes| % 3 + 1)
    decreases |bytes|
  {
    if |bytes| >= 3 {
      EncodeBodyLength(bytes[3..]);
      assert |bytes| / 3 == |bytes[3..]| / 3 + 1 && |bytes| % 3 == |bytes[3..]| % 3;
    }
  }

  lemma {:induction false} DecodeEncodeBody(bytes: seq<Byte>)
    ensures AllDigits(EncodeBody(bytes)) && |EncodeBody(bytes)| % 4 != 1
    ensures DecodeBody(EncodeBody(bytes)) == bytes
    decreases |bytes|
  {
    EncodeBodyShape(bytes);
    if |bytes| >= 3 {
      DecodeEncodeBody(bytes[3..]);
      DecodeFirstQuantum(bytes);
    } else if |bytes| == 2 {
      TailRoundTrip(bytes[0], bytes[1]);
    } else if |bytes| == 1 {
      TailRoundTrip(bytes[0], 0);
    }
  }

  lemma DecodeFirstQuantum(bytes: seq<Byte>)
    requires |bytes| >= 3
    requires AllDigits(EncodeBody(bytes)) && |EncodeBody(bytes)| % 4 != 1
    requires AllDigits(EncodeBody(bytes[3..])) && |EncodeBody(bytes[3..])| % 4 != 1
    requires DecodeBody(EncodeBody(bytes[3..])) == bytes[3..]
    ensures DecodeBody(EncodeBody(bytes)) == bytes
  {
    var s := EncodeBody(bytes);
    var q, rest := EncodeQuantum(bytes[0], bytes[1], bytes[2]), EncodeBody(bytes[3..]);
    QuantumRoundTrip(bytes[0], bytes[1], bytes[2]);
    assert s == q + rest;
    assert s[..4] == q && s[4..] == rest;
    assert DecodeBody(s) == [bytes[0], bytes[1], bytes[2]] + DecodeBody(rest);
    assert bytes == [bytes[0], bytes[1], bytes[2]] + bytes[3..];
  }

  lemma TailRoundTrip(b0: Byte, b1: Byte)
    ensures var v0, v1, v2 := b0 / 4, b0 % 4 * 16 + b1 / 16, b1 % 16 * 4;
      DecodeQuantum(v0, v1, v2, 0)[..2] == [b0, b1]
      && DigitValue(Digit(v0)) == v0 && DigitValue(Digit(v1)) == v1 && DigitValue(Digit(v2)) == v2
  {
    var v0, v1, v2 := b0 / 4, b0 % 4 * 16 + b1 / 16, b1 % 16 * 4;
    DigitValueOfDigit(v0); DigitValueOfDigit(v1); DigitValueOfDigit(v2);
    assert v1 / 16 == b0 % 4 && v1 % 16 == b1 / 16;
    assert v2 / 4 == b1 % 16;
  }

  /** Decoding what `btoa` produced gives back the same binary string. */
  lemma {:induction false} AtobInvertsBtoa(s: string)
    requires IsBinaryString(s)
    ensures Btoa(s).Success? && Atob(Btoa(s).value) == Success(s)
  {
    AtobOfBase64Encode(StoredBytes(s));
    BinaryStringOfStoredBytes(s);
  }

  lemma {:induction false} AtobOfBase64Encode(bytes: seq<Byte>)
    ensures Atob(Base64Encode(bytes)) == Success(BinaryString(bytes))
  {
    var body := EncodeBody(bytes);
    DecodeEncodeBody(bytes);
    PaddedShape(bytes);
    StripOnlyRemovesWhitespace(Base64Encode(bytes));
  }

  lemma {:induction false} PaddedShape(bytes: seq<Byte>)
    ensures var text := Base64Encode(bytes);
      && (forall k :: 0 <= k < |text| ==> IsBase64Digit(text[k]) || text[k] == '=')
      && DropPadding(text) == EncodeBody(bytes)
  {
    var body, pad := EncodeBody(bytes), Padding(|bytes|);
    var text := body + pad;
    EncodeBodyShape(bytes);
    forall k | 0 <= k < |text| ensures IsBase64Digit(text[k]) || text[k] == '=' {
      if k < |body| { assert text[k] == body[k]; } else { assert text[k] == pad[k - |body|]; }
    }
    DropPaddingOf(body, pad, |bytes| % 3);
  }

  lemma DropPaddingOf(body: string, pad: string, r: nat)
    requires AllDigits(body) && r < 3
    requires |body| % 4 == (if r == 0 then 0 else r + 1)
    requires pad == (if r == 1 then "==" else if r == 2 then "=" else "")
    ensures DropPadding(body + pad) == body
  {
    var text := body + pad;
    if r == 1 {
      assert |text| % 4 == 0;
      assert text[..|text| - 2] == body;
    } else if r == 2 {
      assert |text| % 4 == 0;
      assert text[..|text| - 1] == body;
      assert text[|text| - 2] == body[|body| - 1];
    } else {
      assert text == body;
      if |body| >= 1 { assert text[|text| - 1] == body[|body| - 1]; }
    }
  }

  lemma {:induction false} StripOnlyRemovesWhitespace(s: string)
    requires forall k :: 0 <= k < |s| ==> !IsAsciiWhitespace(s[k])
    ensures RemoveAsciiWhitespace(s) == s
  {
    if s != [] {
      StripOnlyRemovesWhitespace(s[1..]);
      assert s == [s[0]] + s[1..];
    }
  }

  // ---------------------------------------------------------------------
  // encode / decode (LiveView.tsx lines 7-24)
  // ---------------------------------------------------------------------

  /** `encode(bytes)`: the binary string of the bytes, passed to `btoa`. */
  method Encode(bytes: array<Byte>) returns (encoded: string)
    ensures Btoa(BinaryString(bytes[..])) == Success(encoded)
  {
    var binary := "";
    var i := 0;
    while i < bytes.Length
      invariant 0 <= i <= bytes.Length
      invariant binary == BinaryString(bytes[..i])
    {
      binary := binary + [bytes[i] as char];
      i := i + 1;
    }
    assert bytes[..i] == bytes[..];
    StoredBytesOfBinaryString(bytes[..]);
    encoded := Btoa(binary).value;
  }

  /** `decode(base64)`: `atob`, then each code unit stored in a fresh
      `Uint8Array`; `atob`'s exception propagates. */
  method Decode(base64: string) returns (r: Result<array<Byte>, CodecError>)
    ensures r.Failure? <==> Atob(base64).Failure?
    ensures r.Failure? ==> r.error == Atob(base64).error
    ensures r.Success? ==> fresh(r.value) && r.value[..] == StoredBytes(Atob(base64).value)
  {
    var binary := Atob(base64);
    if binary.Failure? {
      return Failure(binary.error);
    }
    var s := binary.value;
    var bytes := new Byte[|s|];
    for i := 0 to |s|
      invariant forall k :: 0 <= k < i ==> bytes[k] == s[k] as int % 256
    {
      bytes[i] := s[i] as int % 256;
    }
    return Success(bytes);
  }

  /** `decode(encode(bytes))` gives back an array with the same bytes. */
  method EncodeThenDecode(bytes: array<Byte>) returns (decoded: array<Byte>)
    ensures decoded.Length == bytes.Length && decoded[..] == bytes[..]
  {
    var text := Encode(bytes);
    StoredBytesOfBinaryString(bytes[..]);
    AtobInvertsBtoa(BinaryString(bytes[..]));
    var r := Decode(text);
    decoded := r.value;
  }

  // ---------------------------------------------------------------------
  // 16-bit little-endian PCM (Int16Array views over a byte buffer)
  // ---------------------------------------------------------------------

  function LowByte(w: Int16): Byte { w % 65536 % 256 }
  function HighByte(w: Int16): Byte { w % 65536 / 256 }

  /** The bytes under an `Int16Array`, two per word, low byte first. */
  function LittleEndian(words: seq<Int16>): (bytes: seq<Byte>)
    ensures |bytes| == 2 * |words|
  {
    seq(2 * |words|, i requires 0 <= i < 2 * |words| =>
      if i % 2 == 0 then LowByte(words[i / 2]) else HighByte(words[i / 2]))
  }

  /** Word `k` of an `Int16Array` view: bytes 2k and 2k+1, two's complement. */
  function WordAt(bytes: seq<Byte>, k: nat): Int16
    requires 2 * k + 1 < |bytes|
  {
    var u := bytes[2 * k] as int + 256 * bytes[2 * k + 1] as int;
    if u >= 32768 then u - 65536 else u
  }

  /** `new Int16Array(buffer)` over an even number of bytes. */
  function Int16View(bytes: seq<Byte>): (words: seq<Int16>)
    requires |bytes| % 2 == 0
    ensures |words| == |bytes| / 2
  {
    seq(|bytes| / 2, k requires 0 <= k < |bytes| / 2 => WordAt(bytes, k))
  }

  lemma WordRoundTrip(w: Int16)
    ensures var u := LowByte(w) + 256 * HighByte(w); (if u >= 32768 then u - 65536 else u) == w
  {
  }

  lemma ByteRoundTrip(lo: Byte, hi: Byte)
    ensures var u := lo + 256 * hi; var w: Int16 := if u >= 32768 then u - 65536 else u;
      LowByte(w) == lo && HighByte(w) == hi
  {
  }

  /** Viewing the bytes of a word array as words gives the words back. */
  lemma {:induction false} Int16ViewOfLittleEndian(words: seq<Int16>)
    ensures Int16View(LittleEndian(words)) == words
  {
    var bytes := LittleEndian(words);
    forall k | 0 <= k < |words| ensures Int16View(bytes)[k] == words[k] {
      assert bytes[2 * k] == LowByte(words[k]) && bytes[2 * k + 1] == HighByte(words[k]);
      WordRoundTrip(words[k]);
    }
  }

  /** And the bytes under a word view are the bytes it was made from. */
  lemma {:induction false} LittleEndianOfInt16View(bytes: seq<Byte>)
    requires |bytes| % 2 == 0
    ensures LittleEndian(Int16View(bytes)) == bytes
  {
    var words := Int16View(bytes);
    forall i | 0 <= i < |bytes| ensures LittleEndian(words)[i] == bytes[i] {
      var k := i / 2;
      ByteRoundTrip(bytes[2 * k], bytes[2 * k + 1]);
      assert words[k] == WordAt(bytes, k);
    }
  }

  // ---------------------------------------------------------------------
  // decodeAudioData (lines 26-43) and createBlob (lines 45-55)
  // ---------------------------------------------------------------------

  /** An AudioBuffer whose channel data are kept as the int16 words they
      were read from (the division by 32768 is not modelled). */
  datatype AudioBuffer = AudioBuffer(sampleRate: nat, length: nat, channels: seq<seq<Int16>>)

  lemma InterleavedIndexInRange(i: nat, c: nat, n: nat, total: nat)
    requires 0 < n && c < n && i < total / n
    ensures i * n + c < total
  {
    assert (i + 1) * n <= total / n * n <= total;
  }

  /** Sample `i` of channel `c` in interleaved words: word `i * n + c`. */
  function ChannelSample(words: seq<Int16>, n: nat, c: nat, i: nat): Int16
    requires 0 < n && c < n && i < |words| / n
  {
    InterleavedIndexInRange(i, c, n, |words|);
    words[i * n + c]
  }

  /** The inner loop of `decodeAudioData`: one channel's samples taken out
      of the interleaved words into that channel's data. */
  method ReadChannel(words: seq<Int16>, numChannels: nat, channel: nat) returns (samples: seq<Int16>)
    requires 0 < numChannels && channel < numChannels
    ensures |samples| == |words| / numChannels
    ensures forall i :: 0 <= i < |samples| ==> samples[i] == ChannelSample(words, numChannels, channel, i)
  {
    var frameCount := |words| / numChannels;
    var channelData := new Int16[frameCount];
    for i := 0 to frameCount
      invariant forall j :: 0 <= j < i ==> channelData[j] == ChannelSample(words, numChannels, channel, j)
    {
      InterleavedIndexInRange(i, channel, numChannels, |words|);
      channelData[i] := words[i * numChannels + channel];
    }
    samples := channelData[..];
  }

  /** `decodeAudioData(data, ctx, sampleRate, numChannels)`: the frame count
      is the word count over the channel count, rounded down as
      `createBuffer` does; sample `i` of channel `c` is word
      `i * numChannels + c`. */
  method DecodeAudioData(data: array<Byte>, sampleRate: nat, numChannels: nat)
    returns (r: Result<AudioBuffer, CodecError>)
    requires 0 < numChannels && 0 < sampleRate
    ensures data.Length % 2 == 1 ==> r == Failure(OddByteLength)
    ensures data.Length % 2 == 0 && data.Length / 2 / numChannels == 0 ==> r == Failure(EmptyBuffer)
    ensures data.Length % 2 == 0 && data.Length / 2 / numChannels > 0 ==> r.Success?
    ensures r.Success? ==>
      && data.Length % 2 == 0
      && r.value.sampleRate == sampleRate
      && r.value.length == data.Length / 2 / numChannels
      && |r.value.channels| == numChannels
      && (forall c :: 0 <= c < numChannels ==> |r.value.channels[c]| == r.value.length)
      && (forall c, i :: 0 <= c < numChannels && 0 <= i < r.value.length ==>
            r.value.channels[c][i] == ChannelSample(Int16View(data[..]), numChannels, c, i))
  {
    if data.Length % 2 == 1 {
      return Failure(OddByteLength);
    }
    var words := Int16View(data[..]);
    var frameCount := |words| / numChannels;
    if frameCount == 0 {
      return Failure(EmptyBuffer);
    }
    var channels: seq<seq<Int16>> := [];
    for channel := 0 to numChannels
      invariant |channels| == channel
      invariant forall c :: 0 <= c < channel ==> |channels[c]| == frameCount
      invariant forall c, i :: 0 <= c < channel && 0 <= i < frameCount ==>
        channels[c][i] == ChannelSample(words, numChannels, c, i)
    {
      var channelData := ReadChannel(words, numChannels, channel);
      channels := channels + [channelData];
    }
    return Success(AudioBuffer(sampleRate, frameCount, channels));
  }

  /** Truncation toward zero, the first step of ToInt16. */
  function Truncate(x: real): (n: int)
    ensures x >= 0.0 ==> n as real <= x < n as real + 1.0
    ensures x < 0.0 ==> n as real - 1.0 < x <= n as real
  {
    if x >= 0.0 then x.Floor else -((-x).Floor)
  }

  /** ToInt16 (section 7.1.8 of ECMA-262) of an integer: the representative
      of n modulo 2^16 in [-32768, 32767]. */
  function ToInt16(n: int): (r: Int16)
    ensures (n - r) % 65536 == 0
    ensures -32768 <= n < 32768 ==> r == n
  {
    var m := n % 65536;
    if m >= 32768 then m - 65536 else m
  }

  /** `int16[i] = data[i] * 32768`: a float32 sample times 32768 is exact,
      then the store truncates and wraps. */
  function SampleToInt16(x: real): Int16 {
    ToInt16(Truncate(x * 32768.0))
  }

  function Int16Samples(samples: seq<real>): (words: seq<Int16>)
    ensures |words| == |samples|
  {
    seq(|samples|, i requires 0 <= i < |samples| => SampleToInt16(samples[i]))
  }

  /** A sample in [-1, 1) is stored without wrapping, within one step of
      16-bit quantisation of its value. */
  lemma SampleInRange(x: real)
    requires -1.0 <= x < 1.0
    ensures SampleToInt16(x) == Truncate(x * 32768.0)
    ensures -1.0 / 32768.0 < SampleToInt16(x) as real / 32768.0 - x < 1.0 / 32768.0
  {
    var n := Truncate(x * 32768.0);
    assert -32768.0 <= x * 32768.0 < 32768.0;
    assert -32768 <= n < 32768;
  }

  /** A full-scale sample of exactly 1.0 is not clamped: it wraps to the
      most negative word. */
  lemma FullScaleSampleWraps()
    ensures SampleToInt16(1.0) == -32768
  {
    assert Truncate(1.0 * 32768.0) == 32768;
  }

  datatype Blob = Blob(data: string, mimeType: string)

  const PcmMimeType: string := "audio/pcm;rate=16000"

  /** `createBlob(data)`: each sample scaled into a word, the words' bytes
      (two per sample) encoded, tagged 16 kHz PCM. */
  method CreateBlob(samples: array<real>) returns (blob: Blob)
    ensures blob.mimeType == PcmMimeType
    ensures var wire := LittleEndian(Int16Samples(samples[..]));
      |wire| == 2 * samples.Length && Btoa(BinaryString(wire)) == Success(blob.data)
  {
    var l := samples.Length;
    var int16 := new Int16[l];
    for i := 0 to l
      invariant forall k :: 0 <= k < i ==> int16[k] == SampleToInt16(samples[k])
    {
      int16[i] := SampleToInt16(samples[i]);
    }
    assert int16[..] == Int16Samples(samples[..]);
    var wire := LittleEndian(int16[..]);
    var bytes := new Byte[|wire|](i requires 0 <= i < |wire| => wire[i]);
    assert bytes[..] == wire;
    var data := Encode(bytes);
    blob := Blob(data, PcmMimeType);
  }

  /** What the far end recovers from the wire text of a blob: the same
      words that were framed, in the same order. */
  lemma {:induction false} WireRoundTrip(words: seq<Int16>)
    ensures Int16View(LittleEndian(words)) == words
    ensures Btoa(BinaryString(LittleEndian(words))) == Success(Base64Encode(LittleEndian(words)))
    ensures Atob(Base64Encode(LittleEndian(words))) == Success(BinaryString(LittleEndian(words)))
    ensures StoredBytes(BinaryString(LittleEndian(words))) == LittleEndian(words)
  {
    var wire := LittleEndian(words);
    BtoaOfBinaryString(wire);
    AtobOfBase64Encode(wire);
    StoredBytesOfBinaryString(wire);
    Int16ViewOfLittleEndian(words);
  }

  lemma BtoaOfBinaryString(bytes: seq<Byte>)
    ensures Btoa(BinaryString(bytes)) == Success(Base64Encode(bytes))
  {
    StoredBytesOfBinaryString(bytes);
  }
}
