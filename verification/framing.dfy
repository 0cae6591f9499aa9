/** The log file: every entry is a frame, which is the length of its encoding in hexadecimal, right-aligned
    in eight characters, a newline, and the encoding. */
module Framing {
  import opened Types
  import opened LogStorage

  type bytes = seq<byte>

  const BLANK: byte := 32
  const NEWLINE: byte := 10

  /** How entries are encoded.  The encoding itself is not part of this model. */
  datatype Codec = Codec(encode: Entry -> bytes, decode: bytes -> Option<Entry>)

  /** Decoding undoes encoding. */
  ghost predicate Lossless(c: Codec) {
    forall e: Entry :: c.decode(c.encode(e)) == Some(e)
  }

  /** The length of the encoding fits in eight hexadecimal digits. */
  predicate Fits(c: Codec, e: Entry) {
    |c.encode(e)| < 0x1_0000_0000
  }

  ghost predicate AllFit(c: Codec, log: Log) {
    forall i :: i in log.entries ==> Fits(c, log.entries[i])
  }

  // ---------------------------------------------------------------------------------------------
  // Hexadecimal numbers
  // ---------------------------------------------------------------------------------------------

  function Digit(d: nat): byte
    requires d < 16
  {
    if d < 10 then (48 + d) as byte else (87 + d) as byte
  }

  function DigitValue(b: byte): Option<nat> {
    if 48 <= b <= 57 then Some(b as int - 48)
    else if 97 <= b <= 102 then Some(b as int - 87)
    else if 65 <= b <= 70 then Some(b as int - 55)
    else None
  }

  function Hex(n: nat): bytes {
    if n < 16 then [Digit(n)] else Hex(n / 16) + [Digit(n % 16)]
  }

  function HexValue(s: bytes): nat {
    if s == [] then 0
    else 16 * HexValue(s[..|s| - 1]) + match DigitValue(s[|s| - 1]) case None => 0 case Some(d) => d
  }

  function Blanks(k: nat): bytes {
    if k == 0 then [] else [BLANK] + Blanks(k - 1)
  }

  /** At least eight characters, more when the number needs more. */
  function Header(n: nat): bytes {
    (if |Hex(n)| < 8 then Blanks(8 - |Hex(n)|) else []) + Hex(n) + [NEWLINE]
  }

  function Frame(c: Codec, e: Entry): bytes {
    Header(|c.encode(e)|) + c.encode(e)
  }

  ghost predicate AllDigits(s: bytes) {
    forall i :: 0 <= i < |s| ==> DigitValue(s[i]).Some?
  }

  lemma {:induction false} HexIsRead(n: nat)
    ensures HexValue(Hex(n)) == n && Hex(n) != [] && AllDigits(Hex(n))
  {
    if n >= 16 {
      HexIsRead(n / 16);
      assert Hex(n)[..|Hex(n)| - 1] == Hex(n / 16);
    } else {
      assert Hex(n)[..0] == [];
    }
  }

  /** A number below 2^32 has at most eight digits. */
  lemma HexIsShort(n: nat)
    requires n < 0x1_0000_0000
    ensures |Hex(n)| <= 8
  {
    var n1 := n / 16;
    var n2 := n1 / 16;
    var n3 := n2 / 16;
    var n4 := n3 / 16;
    var n5 := n4 / 16;
    var n6 := n5 / 16;
    var n7 := n6 / 16;
    assert n7 < 16 && |Hex(n7)| == 1;
    assert |Hex(n6)| <= 2;
    assert |Hex(n5)| <= 3;
    assert |Hex(n4)| <= 4;
    assert |Hex(n3)| <= 5;
    assert |Hex(n2)| <= 6;
    assert |Hex(n1)| <= 7;
  }

  lemma {:induction false} BlanksAre(k: nat)
    ensures |Blanks(k)| == k && forall i :: 0 <= i < k ==> Blanks(k)[i] == BLANK
  {
    if k > 0 {
      BlanksAre(k - 1);
    }
  }

  // ---------------------------------------------------------------------------------------------
  // Reading a frame
  // ---------------------------------------------------------------------------------------------

  function SkipBlanks(s: bytes): bytes {
    if s != [] && s[0] == BLANK then SkipBlanks(s[1..]) else s
  }

  /** How many of the first `width` characters are digits, from the left. */
  function CountDigits(s: bytes, width: nat): nat {
    if width == 0 || s == [] || DigitValue(s[0]).None? then 0 else 1 + CountDigits(s[1..], width - 1)
  }

  datatype HeaderRead = Length(length: nat, rest: bytes) | NoMoreHeader | BadHeader

  /** Blanks, up to eight digits, and a newline; the end of the file may take the place of the newline. */
  function ReadHeader(s: bytes): HeaderRead {
    var t := SkipBlanks(s);
    if t == [] then NoMoreHeader
    else
      var k := CountDigits(t, 8);
      CountDigitsFits(t, 8);
      if k == 0 then BadHeader
      else if k == |t| then Length(HexValue(t), [])
      else if t[k] == NEWLINE then Length(HexValue(t[..k]), t[k + 1..])
      else BadHeader
  }

  datatype FrameRead = Read(entry: Entry, count: nat, rest: bytes) | EndOfFile | Broken

  /** A frame, or the end of the file: that is met before a header or before the first byte of a payload. */
  function ReadFrame(c: Codec, s: bytes): FrameRead {
    match ReadHeader(s)
    case NoMoreHeader => EndOfFile
    case BadHeader => Broken
    case Length(n, t) =>
      if n > 0 && t == [] then EndOfFile
      else if |t| < n then Broken
      else match c.decode(t[..n])
        case None => Broken
        case Some(e) => Read(e, n + 9, t[n..])
  }

  lemma {:induction false} CountDigitsFits(s: bytes, width: nat)
    ensures CountDigits(s, width) <= width && CountDigits(s, width) <= |s|
    ensures AllDigits(s[..CountDigits(s, width)])
  {
    if width > 0 && s != [] && DigitValue(s[0]).Some? {
      CountDigitsFits(s[1..], width - 1);
      var k := CountDigits(s[1..], width - 1);
      assert s[..k + 1] == [s[0]] + s[1..][..k];
    }
  }

  lemma {:induction false} CountDigitsStops(digits: bytes, rest: bytes, width: nat)
    requires AllDigits(digits) && |digits| <= width && (|digits| == width || rest == [] || DigitValue(rest[0]).None?)
    ensures CountDigits(digits + rest, width) == |digits|
  {
    if digits != [] {
      assert (digits + rest)[1..] == digits[1..] + rest;
      CountDigitsStops(digits[1..], rest, width - 1);
    } else {
      assert digits + rest == rest;
    }
  }

  lemma {:induction false} SkipsBlanks(k: nat, rest: bytes)
    requires rest != [] && rest[0] != BLANK
    ensures SkipBlanks(Blanks(k) + rest) == rest
  {
    if k == 0 {
      assert Blanks(0) + rest == rest;
    } else {
      assert (Blanks(k) + rest)[1..] == Blanks(k - 1) + rest;
      SkipsBlanks(k - 1, rest);
    }
  }

  lemma HeaderIsRead(n: nat, rest: bytes)
    requires n < 0x1_0000_0000
    ensures ReadHeader(Header(n) + rest) == Length(n, rest) && |Header(n)| == 9
  {
    var h := Hex(n);
    HexIsRead(n);
    HexIsShort(n);
    var k := 8 - |h|;
    BlanksAre(k);
    var tail := h + ([NEWLINE] + rest);
    assert Blanks(0) == [];
    assert Header(n) == Blanks(k) + h + [NEWLINE];
    assert Header(n) + rest == Blanks(k) + tail;
    assert DigitValue(tail[0]).Some?;
    SkipsBlanks(k, tail);
    CountDigitsStops(h, [NEWLINE] + rest, 8);
    assert tail[..|h|] == h && tail[|h|] == NEWLINE && tail[|h| + 1..] == rest;
  }

  /** Reading gives back the entry that a frame was written for, and stops at the end of the frame. */
  lemma FrameIsRead(c: Codec, e: Entry, rest: bytes)
    requires Lossless(c) && Fits(c, e)
    ensures ReadFrame(c, Frame(c, e) + rest) == Read(e, |c.encode(e)| + 9, rest)
    ensures |Frame(c, e)| == |c.encode(e)| + 9
  {
    var payload := c.encode(e);
    assert c.decode(payload) == Some(e) && |payload| < 0x1_0000_0000;
    HeaderIsRead(|payload|, payload + rest);
    assert Frame(c, e) + rest == Header(|payload|) + (payload + rest);
    assert (payload + rest)[..|payload|] == payload && (payload + rest)[|payload|..] == rest;
  }

  /** A frame that was torn inside its payload is noticed; one that was torn inside its header reads as the
      end of the file. */
  lemma TornFrame(c: Codec, e: Entry, k: nat)
    requires Lossless(c) && Fits(c, e) && c.encode(e) != [] && k < |Frame(c, e)|
    ensures ReadFrame(c, Frame(c, e)[..k]) == if k <= 9 then EndOfFile else Broken
  {
    var payload := c.encode(e);
    var n := |payload|;
    FrameIsRead(c, e, []);
    HeaderIsRead(n, payload);
    if k >= 9 {
      HeaderIsRead(n, payload[..k - 9]);
      assert Frame(c, e)[..k] == Header(n) + payload[..k - 9];
    } else {
      TornHeader(n, k);
      assert Frame(c, e)[..k] == Header(n)[..k];
    }
  }

  lemma TornHeader(n: nat, k: nat)
    requires 0 < n < 0x1_0000_0000 && |Header(n)| == 9 && k < 9
    ensures ReadHeader(Header(n)[..k]).NoMoreHeader?
         || (ReadHeader(Header(n)[..k]).Length? && ReadHeader(Header(n)[..k]).length > 0 && ReadHeader(Header(n)[..k]).rest == [])
  {
    var h := Hex(n);
    HexIsRead(n);
    HexIsShort(n);
    var b := 8 - |h|;
    BlanksAre(b);
    assert Header(n) == Blanks(b) + h + [NEWLINE];
    if k <= b {
      BlanksAre(k);
      assert Header(n)[..k] == Blanks(k);
      OnlyBlanks(k);
    } else {
      var t := h[..k - b];
      assert Header(n)[..k] == Blanks(b) + t;
      SkipsBlanks(b, t);
      CountDigitsStops(t, [], 8);
      assert t + [] == t;
      LeadingDigit(n);
      PrefixIsPositive(h, k - b);
    }
  }

  lemma {:induction false} OnlyBlanks(k: nat)
    ensures SkipBlanks(Blanks(k)) == []
  {
    if k > 0 {
      assert Blanks(k)[1..] == Blanks(k - 1);
      OnlyBlanks(k - 1);
    }
  }

  lemma {:induction false} LeadingDigit(n: nat)
    requires n > 0
    ensures Hex(n) != [] && DigitValue(Hex(n)[0]) != Some(0)
  {
    if n >= 16 {
      LeadingDigit(n / 16);
    }
  }

  lemma {:induction false} PrefixIsPositive(s: bytes, k: nat)
    requires 0 < k <= |s| && AllDigits(s) && DigitValue(s[0]) != Some(0)
    ensures HexValue(s[..k]) > 0
  {
    var t := s[..k];
    if k > 1 {
      PrefixIsPositive(s, k - 1);
      assert t[..k - 1] == s[..k - 1];
    } else {
      assert t[..0] == [];
    }
  }

  // ---------------------------------------------------------------------------------------------
  // Reading the whole file
  // ---------------------------------------------------------------------------------------------

  /** The frames of the entries first..last. */
  ghost function Frames(c: Codec, log: Log, first: nat, last: nat): bytes
    requires Dense(log) && 1 <= first && last <= log.maximumIndex
    decreases last + 1 - first
  {
    if last < first then [] else Frames(c, log, first, last - 1) + Frame(c, log.entries[last])
  }

  /** The bytes that reading them reports: the payloads and nine for each. */
  ghost function Payload(c: Codec, log: Log, first: nat, last: nat): nat
    requires Dense(log) && 1 <= first && last <= log.maximumIndex
    decreases last + 1 - first
  {
    if last < first then 0 else Payload(c, log, first, last - 1) + |c.encode(log.entries[last])|
  }

  datatype Reloaded = Reloaded(log: Log, count: nat, broken: bool)

  lemma {:induction false} SkipShrinks(s: bytes)
    ensures |SkipBlanks(s)| <= |s|
  {
    if s != [] && s[0] == BLANK {
      SkipShrinks(s[1..]);
    }
  }

  lemma ReadShrinks(c: Codec, s: bytes)
    ensures ReadFrame(c, s).Read? ==> |ReadFrame(c, s).rest| < |s|
  {
    SkipShrinks(s);
    var t := SkipBlanks(s);
    CountDigitsFits(t, 8);
    if ReadHeader(s).Length? {
      assert |ReadHeader(s).rest| < |t|;
    }
  }

  function ReloadFrom(c: Codec, log: Log, count: nat, s: bytes): Reloaded
    decreases |s|
  {
    ReadShrinks(c, s);
    match ReadFrame(c, s)
    case EndOfFile => Reloaded(log, count, false)
    case Broken => Reloaded(log, count, true)
    case Read(e, k, rest) => ReloadFrom(c, Insert(log, e), count + k, rest)
  }

  /** The first k entries of a log. */
  ghost function Truncated(log: Log, k: nat): Log
    requires Dense(log) && k <= log.maximumIndex
  {
    Log(map i | 1 <= i <= k :: log.entries[i], k)
  }

  lemma FramesPeel(c: Codec, log: Log, first: nat, last: nat)
    requires Dense(log) && 1 <= first <= last <= log.maximumIndex
    ensures Frames(c, log, first, last) == Frame(c, log.entries[first]) + Frames(c, log, first + 1, last)
    ensures Payload(c, log, first, last) == |c.encode(log.entries[first])| + Payload(c, log, first + 1, last)
    decreases last
  {
    hide Frame;
    if first < last {
      FramesPeel(c, log, first, last - 1);
      var middle := Frames(c, log, first + 1, last - 1);
      assert Frames(c, log, first, last) == (Frame(c, log.entries[first]) + middle) + Frame(c, log.entries[last]);
      assert Frames(c, log, first + 1, last) == middle + Frame(c, log.entries[last]);
    } else {
      assert Frames(c, log, first, last - 1) == [] && Frames(c, log, first + 1, last) == [];
    }
  }

  lemma ReloadStep(c: Codec, log: Log, count: nat, s: bytes, e: Entry, k: nat, rest: bytes)
    requires ReadFrame(c, s) == Read(e, k, rest)
    ensures ReloadFrom(c, log, count, s) == ReloadFrom(c, Insert(log, e), count + k, rest)
  {
  }

  /** Reading on from entry first yields the rest of the log, whatever follows it is read next. */
  lemma {:induction false} ReloadReads(c: Codec, log: Log, first: nat, last: nat, count: nat, rest: bytes)
    requires Lossless(c) && Dense(log) && AllFit(c, log) && 1 <= first <= last + 1 && last <= log.maximumIndex
    ensures ReloadFrom(c, Truncated(log, first - 1), count, Frames(c, log, first, last) + rest)
         == ReloadFrom(c, Truncated(log, last), count + Payload(c, log, first, last) + 9 * (last + 1 - first), rest)
    decreases last + 1 - first
  {
    hide ReadFrame, Frame, ReloadFrom;
    if first == last + 1 {
      assert Frames(c, log, first, last) + rest == rest;
    } else {
      var e := log.entries[first];
      var others := Frames(c, log, first + 1, last) + rest;
      FramesPeel(c, log, first, last);
      assert Frames(c, log, first, last) + rest == Frame(c, e) + others;
      FrameIsRead(c, e, others);
      assert Insert(Truncated(log, first - 1), e) == Truncated(log, first);
      ReloadStep(c, Truncated(log, first - 1), count, Frame(c, e) + others, e, |c.encode(e)| + 9, others);
      ReloadReads(c, log, first + 1, last, count + |c.encode(e)| + 9, rest);
    }
  }

  /** Reloading the frames of 1..k yields exactly that log, and reports the payload bytes plus nine for
      every entry. */
  lemma ReloadIsLog(c: Codec, log: Log, k: nat)
    requires Lossless(c) && Dense(log) && AllFit(c, log) && k <= log.maximumIndex
    ensures ReloadFrom(c, EMPTY_LOG, 0, Frames(c, log, 1, k)) == Reloaded(Truncated(log, k), Payload(c, log, 1, k) + 9 * k, false)
    ensures |Frames(c, log, 1, k)| == Payload(c, log, 1, k) + 9 * k
  {
    assert Truncated(log, 0) == EMPTY_LOG;
    ReloadReads(c, log, 1, k, 0, []);
    assert Frames(c, log, 1, k) + [] == Frames(c, log, 1, k);
    FramesLength(c, log, k);
  }

  lemma {:induction false} FramesLength(c: Codec, log: Log, k: nat)
    requires Lossless(c) && Dense(log) && AllFit(c, log) && k <= log.maximumIndex
    ensures |Frames(c, log, 1, k)| == Payload(c, log, 1, k) + 9 * k
  {
    if k > 0 {
      FramesLength(c, log, k - 1);
      FrameIsRead(c, log.entries[k], []);
    }
  }

  /** A file whose last frame was torn: what was complete is always read back; the tear is reported
      exactly when it lies inside the payload. */
  lemma TornFile(c: Codec, log: Log, k: nat, cut: nat)
    requires Lossless(c) && Dense(log) && AllFit(c, log) && k < log.maximumIndex
    requires c.encode(log.entries[k + 1]) != [] && cut < |Frame(c, log.entries[k + 1])|
    ensures var r := ReloadFrom(c, EMPTY_LOG, 0, Frames(c, log, 1, k) + Frame(c, log.entries[k + 1])[..cut]);
            r.log == Truncated(log, k) && (r.broken <==> cut > 9)
  {
    assert Truncated(log, 0) == EMPTY_LOG;
    var torn := Frame(c, log.entries[k + 1])[..cut];
    ReloadReads(c, log, 1, k, 0, torn);
    TornFrame(c, log.entries[k + 1], cut);
  }
}
