/** PC-Link frames: built by the command layer and the gateway, cut out of the serial
    stream and checked by the listener (`protocol.py`, `gateway.py`, `listener.py`). */
module Framing {
  import opened Wrappers
  import opened Bits
  import opened Crc
  import opened Hex

  /** `frame`: length, payload, both checksums; a payload that is not hex raises. */
  function Frame(payload: string): (r: Option<string>) {
    match FromHex(payload)
    case None => None
    case Some(data) =>
      Some(Stamp("$" + IntToHex(|payload| + 10, 2) + payload + IntToHex(Crc16(data), 4)))
  }

  /** The PC-Link's own checksum over the text it forwards. */
  function Stamp(body: string): string {
    body + IntToHex(Crc8(body), 2)
  }

  /** `make_pc_link_command`; an address over sixteen bits raises. */
  function MakePcLinkCommand(func: nat, addr: nat, args: seq<Byte>): Option<string> {
    if addr >= 0x10000 then None
    else Frame(IntToHex(func, 2) + ToHex([addr % 256, addr / 256]) + ToHex(args))
  }

  /** Python's `s[from:to]`, clamped to the text. */
  function Slice(s: string, from: int, to: int): string {
    var lo := if from < 0 then 0 else if from > |s| then |s| else from;
    var hi := if to < lo then lo else if to > |s| then |s| else to;
    s[lo..hi]
  }

  lemma SliceIs(s: string, from: nat, to: nat)
    requires from <= to <= |s|
    ensures Slice(s, from, to) == s[from..to]
  {
  }

  /** `reply_payload` */
  function ReplyPayload(message: string): seq<Byte> {
    match ParseInt(Slice(message, 1, 3))
    case None => []
    case Some(v) =>
      if v <= 10 then []
      else
        match FromHex(Slice(message, 3, 3 + (v - 10)))
        case None => []
        case Some(data) => data
  }

  // ---- validation --------------------------------------------------------------------

  predicate HasCrc16(message: string) {
    Slice(message, 0, 3) in {"$18", "$1C", "$2E", "$1E"}
  }

  predicate AllF(payload: string) {
    payload != "" && forall i :: 0 <= i < |payload| ==> payload[i] == 'F'
  }

  /** The text carries the CRC-16 of its payload, or is of a kind that carries none. */
  predicate PayloadChecks(message: string) {
    HasCrc16(message) ==>
      var payload := Slice(message, 3, |message| - 6);
      (payload == "" || AllF(payload) ||
       match FromHex(payload)
       case None => false
       case Some(data) => IntToHex(Crc16(data), 4) == UpperText(Slice(message, |message| - 6, |message| - 2)))
  }

  predicate FrameValid(message: string) {
    || (|message| == 5 && Slice(message, 0, 3) == "$05")
    || match ParseInt(Slice(message, 1, 3))
       case None => false
       case Some(total) =>
         && |message| + 1 == total
         && IntToHex(Crc8(Slice(message, 0, |message| - 2)), 2) == UpperText(Slice(message, |message| - 2, |message|))
         && PayloadChecks(message)
  }

  function Dollars(s: string): nat {
    if s == "" then 0 else (if s[0] == '$' then 1 else 0) + Dollars(s[1..])
  }

  /** The text from its last `$` on; all of it when there is at most one. */
  function LastFrame(message: string): string
    decreases |message|
  {
    if Dollars(message) <= 1 || message == "" then message else LastFrame(message[NextDollar(message)..])
  }

  /** Where the next `$` after the first character is (`message.find("$", 1)`). */
  function NextDollar(message: string): (i: nat)
    requires Dollars(message) > 1
    ensures 0 < i < |message| && message[i] == '$'
    ensures forall j :: 0 < j < i ==> message[j] != '$'
  {
    FirstDollar(message, 1)
  }

  function FirstDollar(message: string, from: nat): (i: nat)
    requires from <= |message| && Dollars(message[from..]) > 0
    ensures from <= i < |message| && message[i] == '$'
    ensures forall j :: from <= j < i ==> message[j] != '$'
    decreases |message| - from
  {
    if message[from] == '$' then from else
      assert message[from..][1..] == message[from + 1..];
      FirstDollar(message, from + 1)
  }

  /** `validate_crc` */
  method ValidateCrc(text: string) returns (ok: bool)
    ensures ok == FrameValid(LastFrame(text))
  {
    var message := text;
    while Dollars(message) > 1
      invariant LastFrame(message) == LastFrame(text)
      decreases |message|
    {
      message := message[NextDollar(message)..];
    }
    if |message| == 5 && Slice(message, 0, 3) == "$05" {
      return true;
    }
    var total := ParseInt(Slice(message, 1, 3));
    if total.None? || |message| + 1 != total.value {
      return false;
    }
    var crc8 := CalcCrc2(Slice(message, 0, |message| - 2));
    if IntToHex(crc8, 2) != UpperText(Slice(message, |message| - 2, |message|)) {
      return false;
    }
    if HasCrc16(message) {
      var payload := Slice(message, 3, |message| - 6);
      if payload != "" && !AllF(payload) {
        var data := FromHex(payload);
        if data.None? {
          return false;
        }
        var crc16 := CalcCrc1(data.value);
        if IntToHex(crc16, 4) != UpperText(Slice(message, |message| - 6, |message| - 2)) {
          return false;
        }
      }
    }
    return true;
  }

  // ---- what the builders make, the listener accepts ---------------------------------------

  lemma {:induction false} DollarsConcat(a: string, b: string)
    ensures Dollars(a + b) == Dollars(a) + Dollars(b)
    decreases |a|
  {
    if a == "" {
      assert a + b == b;
    } else {
      assert (a + b)[1..] == a[1..] + b;
      DollarsConcat(a[1..], b);
    }
  }

  lemma {:induction false} NoDollars(s: string)
    requires '$' !in s
    ensures Dollars(s) == 0
    decreases |s|
  {
    if s != "" {
      NoDollars(s[1..]);
    }
  }

  /** The parts a frame is made of, and where each sits. */
  lemma FrameParts(payload: string, data: seq<Byte>) returns (len: string, crc16: string, crc8: string)
    requires FromHex(payload) == Some(data)
    ensures len == IntToHex(|payload| + 10, 2) && crc16 == IntToHex(Crc16(data), 4) && |crc16| == 4 && |crc8| == 2
    ensures Frame(payload) == Some("$" + len + payload + crc16 + crc8)
    ensures crc8 == IntToHex(Crc8("$" + len + payload + crc16), 2)
    ensures forall c :: c in len + payload + crc16 + crc8 ==> DigitValue(c).Some?
    ensures LastFrame("$" + len + payload + crc16 + crc8) == "$" + len + payload + crc16 + crc8
  {
    hide Crc16, Crc8, FromHex, IntToHex, Dollars;
    len, crc16 := IntToHex(|payload| + 10, 2), IntToHex(Crc16(data), 4);
    crc8 := IntToHex(Crc8("$" + len + payload + crc16), 2);
    HexWidth(Crc16(data));
    HexWidth(Crc8("$" + len + payload + crc16));
    FromHexDigits(payload);
    var tail := len + payload + crc16 + crc8;
    assert forall c :: c in tail ==> c in len || c in payload || c in crc16 || c in crc8;
    assert DigitValue('$').None?;
    NoDollars(tail);
    DollarsConcat("$", tail);
    OneDollar();
    assert "$" + len + payload + crc16 + crc8 == "$" + tail;
  }

  /** The frame checked is the text from its last `$` on, or all of it when there are not two. */
  lemma {:induction false} LastFrameIs(message: string, last: nat)
    requires last < |message| && message[last] == '$' && '$' !in message[last + 1..]
    ensures LastFrame(message) == if '$' in message[..last] then message[last..] else message
    decreases |message|
  {
    hide Dollars;
    OneMore(message, last);
    if '$' in message[..last] {
      var i := NextDollar(message);
      assert i <= last;
      var rest := message[i..];
      assert rest[last - i] == '$' && rest[last - i + 1..] == message[last + 1..] && rest[last - i..] == message[last..];
      LastFrameIs(rest, last - i);
      if i == last {
        assert rest == message[last..];
      } else {
        assert rest[..last - i][0] == '$';
      }
    }
  }

  lemma OneMore(message: string, last: nat)
    requires last < |message| && message[last] == '$' && '$' !in message[last + 1..]
    ensures Dollars(message) > 1 <==> '$' in message[..last]
  {
    assert message == message[..last] + message[last..] && message[last..][1..] == message[last + 1..];
    DollarsConcat(message[..last], message[last..]);
    NoDollars(message[last + 1..]);
    if '$' in message[..last] { SomeDollars(message[..last]); } else { NoDollars(message[..last]); }
  }

  lemma {:induction false} SomeDollars(s: string)
    requires '$' in s
    ensures Dollars(s) > 0
    decreases |s|
  {
    if s[0] != '$' {
      SomeDollars(s[1..]);
    }
  }

  lemma OneDollar()
    ensures Dollars("$") == 1
  {
    assert "$"[1..] == "";
  }

  lemma {:induction false} UpperPlain(s: string)
    requires Plain(s)
    ensures UpperText(s) == s
  {
    assert forall i :: 0 <= i < |s| ==> s[i] in s;
  }

  lemma {:induction false} ParseThreeDigits(v: nat)
    requires 0x100 <= v
    ensures |IntToHex(v, 2)| >= 3
    ensures ParseInt(IntToHex(v, 2)[..2]).Some? && ParseInt(IntToHex(v, 2)[..2]).value < 256
  {
    HexWidth(v);
    var s := IntToHex(v, 2)[..2];
    assert s[0] in IntToHex(v, 2) && s[1] in IntToHex(v, 2);
    assert s[..1] == [s[0]];
    assert ParseInt(s[..1]) == DigitValue(s[0]);
  }

  lemma CutParts(head: string, payload: string, crc16: string, crc8: string)
    requires |head| == 3 && |crc16| == 4 && |crc8| == 2
    ensures var f := head + payload + crc16 + crc8;
      && Slice(f, 0, 3) == head && Slice(f, 1, 3) == head[1..] && Slice(f, 3, |f| - 6) == payload
      && Slice(f, |f| - 6, |f| - 2) == crc16 && Slice(f, |f| - 2, |f|) == crc8
      && Slice(f, 0, |f| - 2) == head + payload + crc16
  {
    var f := head + payload + crc16 + crc8;
    SliceIs(f, 0, 3);
    SliceIs(f, 1, 3);
    assert f[0..3] == head && f[1..3] == head[1..];
    SliceIs(f, 3, |f| - 6);
    assert f[3..|f| - 6] == payload;
    SliceIs(f, |f| - 6, |f| - 2);
    assert f[|f| - 6..|f| - 2] == crc16;
    SliceIs(f, |f| - 2, |f|);
    SliceIs(f, 0, |f| - 2);
    assert f[0..|f| - 2] == head + payload + crc16 && f[|f| - 2..|f|] == crc8;
  }

  /** What the check comes to on a text of head, payload and both checksums: its length, the CRC-8
      over all before it, and on four kinds of frame the CRC-16 of the payload, unless that is empty
      or made of the digit F alone. */
  lemma PartsValid(head: string, payload: string, crc16: string, crc8: string)
    requires |head| == 3 && |crc16| == 4 && |crc8| == 2
    ensures FrameValid(head + payload + crc16 + crc8) <==>
      && ParseInt(head[1..]) == Some(|payload| + 10)
      && IntToHex(Crc8(head + payload + crc16), 2) == UpperText(crc8)
      && (head in {"$18", "$1C", "$2E", "$1E"} ==>
           || (forall i :: 0 <= i < |payload| ==> payload[i] == 'F')
           || (FromHex(payload).Some? && IntToHex(Crc16(FromHex(payload).value), 4) == UpperText(crc16)))
  {
    hide Crc16, Crc8, FromHex, ParseInt, IntToHex, FrameValid, AllF;
    PartsChecked(head, payload, crc16, crc8);
    OnesAre(payload);
  }

  lemma OnesAre(payload: string)
    ensures (payload == "" || AllF(payload)) <==> forall i :: 0 <= i < |payload| ==> payload[i] == 'F'
  {
  }

  lemma PartsChecked(head: string, payload: string, crc16: string, crc8: string)
    requires |head| == 3 && |crc16| == 4 && |crc8| == 2
    ensures FrameValid(head + payload + crc16 + crc8) <==>
      && ParseInt(head[1..]) == Some(|payload| + 10)
      && IntToHex(Crc8(head + payload + crc16), 2) == UpperText(crc8)
      && (head in {"$18", "$1C", "$2E", "$1E"} ==>
           || payload == "" || AllF(payload)
           || (FromHex(payload).Some? && IntToHex(Crc16(FromHex(payload).value), 4) == UpperText(crc16)))
  {
    hide Crc16, Crc8, FromHex, ParseInt, IntToHex, Slice, AllF;
    CutParts(head, payload, crc16, crc8);
  }

  /** A text too short for a CRC-16 passes by its length and its CRC-8, an acknowledgement of five
      characters always. */
  lemma ShortValid(head: string, body: string, crc8: string)
    requires |head| == 3 && |body| < 4 && |crc8| == 2 && head !in {"$18", "$1C", "$2E", "$1E"}
    ensures FrameValid(head + body + crc8) <==>
      || (head == "$05" && body == "")
      || (ParseInt(head[1..]) == Some(|body| + 6) && IntToHex(Crc8(head + body), 2) == UpperText(crc8))
  {
    hide Crc8, ParseInt, IntToHex, Slice;
    var f := head + body + crc8;
    SliceIs(f, 0, 3);
    SliceIs(f, 1, 3);
    SliceIs(f, 0, |f| - 2);
    SliceIs(f, |f| - 2, |f|);
    assert f[0..3] == head && f[1..3] == head[1..] && f[0..|f| - 2] == head + body && f[|f| - 2..|f|] == crc8;
  }

  /** A frame passes the listener's check exactly when its length fits the length byte. */
  lemma BuiltFrameValid(payload: string, data: seq<Byte>)
    requires FromHex(payload) == Some(data)
    ensures Frame(payload).Some? && LastFrame(Frame(payload).value) == Frame(payload).value
    ensures FrameValid(Frame(payload).value) <==> |payload| + 10 <= 0xFF
  {
    hide Crc16, Crc8, LastFrame, FromHex, ParseInt, IntToHex, Slice, FrameValid, Frame, AllF;
    var len, crc16, crc8 := FrameParts(payload, data);
    var n := |payload| + 10;
    HexWidth(n);
    if n <= 0xFF {
      var head := "$" + len;
      assert head[1..] == len;
      ParseIntToHex(n, 2);
      UpperPlain(crc8);
      UpperPlain(crc16);
      PartsChecked(head, payload, crc16, crc8);
    } else {
      LongFrameInvalid(payload, len, crc16, crc8);
    }
  }

  lemma LongFrameInvalid(payload: string, len: string, crc16: string, crc8: string)
    requires len == IntToHex(|payload| + 10, 2) && |payload| + 10 > 0xFF && |crc16| == 4 && |crc8| == 2
    ensures !FrameValid("$" + len + payload + crc16 + crc8)
  {
    hide Crc16, Crc8, FromHex, ParseInt, IntToHex, Slice, PayloadChecks;
    ParseThreeDigits(|payload| + 10);
    var f := "$" + len + payload + crc16 + crc8;
    SliceIs(f, 1, 3);
    assert f[1..3] == len[..2];
  }

  /** A command frame is accepted, for every function byte, address and argument list that fit. */
  lemma CommandValid(func: nat, addr: nat, args: seq<Byte>)
    requires func < 0x100 && addr < 0x10000
    ensures MakePcLinkCommand(func, addr, args).Some?
    ensures FrameValid(MakePcLinkCommand(func, addr, args).value) <==> |args| <= 119
  {
    hide MakePcLinkCommand, LastFrame, FrameValid, Frame;
    var data: seq<Byte> := [func, addr % 256, addr / 256] + args;
    CommandPayload(func, addr, args);
    FromToHex(data);
    BuiltFrameValid(ToHex(data), data);
  }

  lemma CommandPayload(func: nat, addr: nat, args: seq<Byte>)
    requires func < 0x100 && addr < 0x10000
    ensures MakePcLinkCommand(func, addr, args) == Frame(ToHex([func, addr % 256, addr / 256] + args))
  {
    hide Frame;
    assert IntToHex(func, 2) == ToHex([func]) by {
      assert IntToHex(func / 16, 1) == [Digit(func / 16)];
      assert ToHex([func]) == [Digit(func / 16), Digit(func % 16)] + ToHex([func][1..]);
    }
    ToHexConcat([func], [addr % 256, addr / 256]);
    ToHexConcat([func] + [addr % 256, addr / 256], args);
    assert [func] + [addr % 256, addr / 256] == [func, addr % 256, addr / 256];
  }

  /** A command frame names its function, the module's address, low byte first, and its
      arguments; an address over sixteen bits has none. */
  lemma CommandCarries(func: nat, addr: nat, args: seq<Byte>)
    requires func < 0x100 && |args| <= 119
    ensures MakePcLinkCommand(func, addr, args).Some? <==> addr < 0x10000
    ensures addr < 0x10000 ==>
      var p := ReplyPayload(MakePcLinkCommand(func, addr, args).value);
      |p| == 3 + |args| && p[0] == func && (p[1] as int) + 256 * (p[2] as int) == addr && p[3..] == args
  {
    hide ReplyPayload, MakePcLinkCommand;
    if addr < 0x10000 {
      CommandBytes(func, addr, args);
      CommandFields(func, addr, args, ReplyPayload(MakePcLinkCommand(func, addr, args).value));
    } else {
      LongAddress(func, addr, args);
    }
  }

  lemma LongAddress(func: nat, addr: nat, args: seq<Byte>)
    requires addr >= 0x10000
    ensures MakePcLinkCommand(func, addr, args).None?
  {
  }

  lemma CommandFields(func: nat, addr: nat, args: seq<Byte>, p: seq<Byte>)
    requires func < 0x100 && addr < 0x10000 && p == [func, addr % 256, addr / 256] + args
    ensures |p| == 3 + |args| && p[0] == func && (p[1] as int) + 256 * (p[2] as int) == addr && p[3..] == args
  {
  }

  lemma CommandBytes(func: nat, addr: nat, args: seq<Byte>)
    requires func < 0x100 && addr < 0x10000 && |args| <= 119
    ensures MakePcLinkCommand(func, addr, args).Some?
    ensures ReplyPayload(MakePcLinkCommand(func, addr, args).value) == [func, addr % 256, addr / 256] + args
  {
    hide ReplyPayload, Frame, ToHex, FromHex, MakePcLinkCommand, FrameValid;
    var data: seq<Byte> := [func, addr % 256, addr / 256] + args;
    CommandValid(func, addr, args);
    CommandPayload(func, addr, args);
    FromToHex(data);
    ReplyRoundTrip(ToHex(data), data);
  }

  /** Two different commands never share a frame. */
  lemma CommandsDiffer(func: nat, addr: nat, args: seq<Byte>, func': nat, addr': nat, args': seq<Byte>)
    requires func < 0x100 && addr < 0x10000 && |args| <= 119 && func' < 0x100 && addr' < 0x10000 && |args'| <= 119
    requires MakePcLinkCommand(func, addr, args) == MakePcLinkCommand(func', addr', args')
    ensures func == func' && addr == addr' && args == args'
  {
    hide ReplyPayload, MakePcLinkCommand;
    CommandCarries(func, addr, args);
    CommandCarries(func', addr', args');
  }

  /** The bytes that went into a frame are the ones `reply_payload` takes out. */
  lemma ReplyRoundTrip(payload: string, data: seq<Byte>)
    requires FromHex(payload) == Some(data) && |payload| + 10 <= 0xFF
    ensures ReplyPayload(Frame(payload).value) == data
  {
    hide Crc16, Crc8, LastFrame, FromHex, ParseInt, IntToHex, Slice, Frame, DigitValue;
    var len, crc16, crc8 := FrameParts(payload, data);
    HexWidth(|payload| + 10);
    ParseIntToHex(|payload| + 10, 2);
    var head := "$" + len;
    CutParts(head, payload, crc16, crc8);
    assert head[1..] == len && |head + payload + crc16 + crc8| == |payload| + 9;
    if |payload| == 0 {
      EmptyHex(payload);
    }
  }

  lemma EmptyHex(payload: string)
    requires |payload| == 0
    ensures FromHex(payload) == Some([])
  {
  }

  // ---- errors of the bus hop ------------------------------------------------------------------

  /** Two payloads of one length that differ only at byte `i`, or at bytes `i` and `i + 1`. */
  ghost predicate AdjacentChange(x: seq<Byte>, y: seq<Byte>, i: nat) {
    && |x| == |y| && x != y && i < |x|
    && forall j :: 0 <= j < |x| && j != i && j != i + 1 ==> x[j] == y[j]
  }

  lemma AdjacentChangeMovesCrc(x: seq<Byte>, y: seq<Byte>, i: nat)
    requires AdjacentChange(x, y, i)
    ensures Crc16(x) != Crc16(y)
  {
    hide Crc16;
    var head := x[..i];
    assert y[..i] == head;
    if i + 1 == |x| {
      assert x == head + [x[i]] && y == head + [y[i]];
      CrcDetectsLastByteChange(head, x[i], y[i]);
    } else {
      var tail := x[i + 2..];
      assert y[i + 2..] == tail;
      assert x == head + x[i..i + 2] + tail && y == head + y[i..i + 2] + tail;
      CrcDetectsAdjacentChange(head, x[i..i + 2], y[i..i + 2], tail);
    }
  }

  /** A CRC-16 class frame as the PC-Link forwards it: whatever the payload text is, the
      CRC-8 is stamped over it. `prefix` is the marker and the length byte. */
  function Forwarded(prefix: string, payload: string, crc16: string): string {
    Stamp(prefix + payload + crc16)
  }

  lemma ForwardedValid(prefix: string, payload: string, data: seq<Byte>, crc16: string)
    requires |prefix| == 3 && prefix in {"$18", "$1C", "$2E", "$1E"} && |crc16| == 4
    requires FromHex(payload) == Some(data) && payload != ""
    ensures FrameValid(Forwarded(prefix, payload, crc16)) <==>
            && ParseInt(prefix[1..]) == Some(|payload| + 10)
            && (AllF(payload) || IntToHex(Crc16(data), 4) == UpperText(crc16))
  {
    hide Crc16, Crc8, FromHex, ParseInt, IntToHex, Slice, FrameValid, AllF;
    var body := prefix + payload + crc16;
    HexWidth(Crc8(body));
    UpperPlain(IntToHex(Crc8(body), 2));
    PartsChecked(prefix, payload, crc16, IntToHex(Crc8(body), 2));
  }

  lemma NotEmpty(payload: string, data: seq<Byte>)
    requires FromHex(payload) == Some(data) && data != []
    ensures payload != ""
  {
  }

  /** A frame accepted before one or two adjacent payload bytes were changed on the bus is
      rejected afterwards, although the PC-Link stamps the corrupted text with a good CRC-8.
      The one way through is the all-F trailer, which carries no CRC-16 to check. */
  lemma BusHopErrorCaught(prefix: string, before: string, x: seq<Byte>, after: string, y: seq<Byte>, crc16: string, i: nat)
    requires |prefix| == 3 && prefix in {"$18", "$1C", "$2E", "$1E"} && |crc16| == 4
    requires FromHex(before) == Some(x) && FromHex(after) == Some(y)
    requires AdjacentChange(x, y, i)
    requires FrameValid(Forwarded(prefix, before, crc16))
    ensures FrameValid(Forwarded(prefix, after, crc16)) <==>
      || (forall j :: 0 <= j < |after| ==> after[j] == 'F')
      || ((forall j :: 0 <= j < |before| ==> before[j] == 'F') && IntToHex(Crc16(y), 4) == UpperText(crc16))
  {
    hide Crc16, FromHex, IntToHex, FrameValid, Forwarded, AllF;
    OnesAre(before);
    OnesAre(after);
    NotEmpty(before, x);
    NotEmpty(after, y);
    ChangeCaught(prefix, before, x, after, y, crc16, i);
  }

  lemma ChangeCaught(prefix: string, before: string, x: seq<Byte>, after: string, y: seq<Byte>, crc16: string, i: nat)
    requires |prefix| == 3 && prefix in {"$18", "$1C", "$2E", "$1E"} && |crc16| == 4
    requires FromHex(before) == Some(x) && FromHex(after) == Some(y)
    requires AdjacentChange(x, y, i)
    requires FrameValid(Forwarded(prefix, before, crc16))
    ensures FrameValid(Forwarded(prefix, after, crc16)) <==>
            AllF(after) || (AllF(before) && IntToHex(Crc16(y), 4) == UpperText(crc16))
  {
    hide Crc16, Crc8, FromHex, ParseInt, IntToHex, FrameValid, Forwarded;
    ForwardedValid(prefix, before, x, crc16);
    ForwardedValid(prefix, after, y, crc16);
    AdjacentChangeMovesCrc(x, y, i);
    ParseIntToHex(Crc16(x), 4);
    ParseIntToHex(Crc16(y), 4);
  }

  lemma {:induction false} HexOfOnes(data: seq<Byte>)
    requires forall i :: 0 <= i < |data| ==> data[i] == 0xFF
    ensures forall j :: 0 <= j < |ToHex(data)| ==> ToHex(data)[j] == 'F'
    decreases |data|
  {
    if data != [] {
      HexOfOnes(data[1..]);
      assert Digit(15) == 'F';
    }
  }

  /** That way is open: a frame of six bytes FF and a byte FE is accepted, and so is the frame
      whose last byte the bus turned into FF, under the other's CRC-16. */
  lemma AllFTrailerPasses() returns (x: seq<Byte>, y: seq<Byte>)
    ensures |y| == 7 && (forall i :: 0 <= i < 7 ==> y[i] == 0xFF) && x == y[6 := 0xFE] && AdjacentChange(x, y, 6)
    ensures FrameValid(Forwarded("$18", ToHex(x), IntToHex(Crc16(x), 4)))
    ensures FrameValid(Forwarded("$18", ToHex(y), IntToHex(Crc16(x), 4))) && Crc16(y) != Crc16(x)
  {
    hide Crc16, ToHex, FromHex, FrameValid, Forwarded;
    y := seq(7, _ => 0xFF);
    x := y[6 := 0xFE];
    assert x[6] != y[6];
    FromToHex(x);
    FromToHex(y);
    HexOfOnes(y);
    AdjacentChangeMovesCrc(x, y, 6);
    var crc16 := IntToHex(Crc16(x), 4);
    HexWidth(Crc16(x));
    UpperPlain(crc16);
    PrefixLength();
    ForwardedValid("$18", ToHex(x), x, crc16);
    ForwardedValid("$18", ToHex(y), y, crc16);
  }

  lemma PrefixLength()
    ensures |"$18"| == 3 && ParseInt("$18"[1..]) == Some(24)
  {
    assert "$18"[1..] == "18" && "18"[..1] == "1";
  }

  // ---- cutting the stream into frames -----------------------------------------------------------

  /** Control characters of the serial line are dropped, and a line feed ends a line too. */
  function Clean(raw: string): string {
    if raw == "" then ""
    else if raw[0] == '\U{02}' || raw[0] == '\U{03}' then Clean(raw[1..])
    else [if raw[0] == '\n' then '\r' else raw[0]] + Clean(raw[1..])
  }

  /** The lines a carriage return completes, and the text after the last of them. */
  function SplitLines(text: string): (r: (seq<string>, string))
    ensures '\r' !in r.1
    decreases |text|
  {
    if '\r' !in text then ([], text)
    else
      var i := FirstReturn(text, 0);
      var (lines, rest) := SplitLines(text[i + 1..]);
      ([text[..i]] + lines, rest)
  }

  function FirstReturn(text: string, from: nat): (i: nat)
    requires from <= |text| && '\r' in text[from..]
    ensures from <= i < |text| && text[i] == '\r' && '\r' !in text[from..i]
    decreases |text| - from
  {
    if text[from] == '\r' then from
    else
      var i := FirstReturn(text, from + 1);
      assert text[from..i] == [text[from]] + text[from + 1..i];
      i
  }

  /** What `str.strip` removes, within the Windows-1252 range the stream is decoded to. */
  predicate IsSpace(c: char) {
    '\t' <= c <= '\r' || '\U{1c}' <= c <= ' ' || c == '\U{85}' || c == '\U{a0}'
  }

  function Strip(s: string): string
    decreases |s|
  {
    if s == "" then ""
    else if IsSpace(s[0]) then Strip(s[1..])
    else if IsSpace(s[|s| - 1]) then Strip(s[..|s| - 1])
    else s
  }

  predicate IsMarker(c: char) {
    c == '$' || c == '#'
  }

  /** Where the next frame of a line starts, or the end of the line. */
  function NextMarker(line: string, from: nat): (i: nat)
    requires from <= |line|
    ensures from <= i <= |line|
    ensures i < |line| ==> IsMarker(line[i])
    ensures forall j :: from <= j < i ==> !IsMarker(line[j])
    decreases |line| - from
  {
    if from == |line| || IsMarker(line[from]) then from else NextMarker(line, from + 1)
  }

  /** A line split in front of every marker, without empty pieces. */
  function FramesOf(line: string): seq<string>
    decreases |line|
  {
    if line == "" then []
    else
      var i := NextMarker(line, 1);
      [line[..i]] + FramesOf(line[i..])
  }

  function FramesOfLines(lines: seq<string>): seq<string> {
    if lines == [] then [] else FramesOf(Strip(lines[0])) + FramesOfLines(lines[1..])
  }

  function Extract(buffer: string, raw: string): (seq<string>, string) {
    var (lines, rest) := SplitLines(buffer + Clean(raw));
    (FramesOfLines(lines), rest)
  }

  class FrameBuffer {
    var text: string

    constructor ()
      ensures text == ""
    {
      text := "";
    }

    /** `_extract_frames` */
    method ExtractFrames(raw: string) returns (frames: seq<string>)
      modifies this
      ensures (frames, text) == Extract(old(text), raw)
    {
      text := text + Clean(raw);
      ghost var all := text;
      frames := [];
      assert [] + FramesOfLines(SplitLines(all).0) == FramesOfLines(SplitLines(all).0);
      while '\r' in text
        invariant FramesOfLines(SplitLines(all).0) == frames + FramesOfLines(SplitLines(text).0)
        invariant SplitLines(all).1 == SplitLines(text).1
        decreases |text|
      {
        var i := FirstReturn(text, 0);
        TakeLine(text);
        var more := CutLine(Strip(text[..i]));
        Assoc(frames, more, FramesOfLines(SplitLines(text[i + 1..]).0));
        frames := frames + more;
        text := text[i + 1..];
      }
      assert frames + [] == frames;
    }
  }

  method CutLine(text: string) returns (frames: seq<string>)
    ensures frames == FramesOf(text)
  {
    var line := text;
    frames := [];
    assert [] + FramesOf(text) == FramesOf(text);
    while line != ""
      invariant FramesOf(text) == frames + FramesOf(line)
      decreases |line|
    {
      var k := NextMarker(line, 1);
      Assoc(frames, [line[..k]], FramesOf(line[k..]));
      frames := frames + [line[..k]];
      line := line[k..];
    }
    assert frames + [] == frames;
  }

  lemma TakeLine(text: string)
    requires '\r' in text
    ensures text[0..] == text
    ensures var i := FirstReturn(text, 0);
      && FramesOfLines(SplitLines(text).0) == FramesOf(Strip(text[..i])) + FramesOfLines(SplitLines(text[i + 1..]).0)
      && SplitLines(text).1 == SplitLines(text[i + 1..]).1
  {
    hide *;
    SplitFirst(text);
    var i := FirstReturn(text, 0);
    FirstLine(text[..i], SplitLines(text[i + 1..]).0);
  }

  lemma SplitFirst(text: string)
    requires '\r' in text
    ensures text[0..] == text
    ensures var i := FirstReturn(text, 0);
      SplitLines(text).0 == [text[..i]] + SplitLines(text[i + 1..]).0 && SplitLines(text).1 == SplitLines(text[i + 1..]).1
  {
    assert text[0..] == text;
  }

  lemma FirstLine(line: string, more: seq<string>)
    ensures FramesOfLines([line] + more) == FramesOf(Strip(line)) + FramesOfLines(more)
  {
    hide FramesOf, Strip;
    assert ([line] + more)[1..] == more;
  }

  /** Feeding the stream in pieces, as reads deliver it. */
  function ExtractAll(buffer: string, pieces: seq<string>): (seq<string>, string)
    decreases |pieces|
  {
    if pieces == [] then ([], buffer)
    else
      var (frames, rest) := Extract(buffer, pieces[0]);
      var (more, last) := ExtractAll(rest, pieces[1..]);
      (frames + more, last)
  }

  function Concat(pieces: seq<string>): string {
    if pieces == [] then "" else pieces[0] + Concat(pieces[1..])
  }

  lemma {:induction false} CleanConcat(a: string, b: string)
    ensures Clean(a + b) == Clean(a) + Clean(b)
    decreases |a|
  {
    if a == "" {
      assert a + b == b;
    } else {
      assert (a + b)[1..] == a[1..] + b;
      CleanConcat(a[1..], b);
    }
  }

  /** Two control characters are dropped, a line feed is read as a carriage return, and every other
      character is kept. */
  lemma CleanCharacter(c: char)
    ensures Clean([c]) == if c as int == 2 || c as int == 3 then "" else if c as int == 10 then ['\r'] else [c]
  {
    assert [c][1..] == "";
  }

  /** The lines and the rest, with a carriage return after every line, are the text, and none of
      them holds one. */
  lemma {:induction false} LinesRejoin(text: string)
    ensures Ended(SplitLines(text).0) + SplitLines(text).1 == text
    ensures forall line :: line in SplitLines(text).0 || line == SplitLines(text).1 ==> '\r' !in line
    decreases |text|
  {
    if '\r' in text {
      assert text[0..] == text;
      var i := FirstReturn(text, 0);
      LinesRejoin(text[i + 1..]);
      var (lines, rest) := SplitLines(text[i + 1..]);
      OneEnded(text[..i], lines);
      Glue(text, i, Ended(lines), rest);
      assert text[0..i] == text[..i];
    }
  }

  ghost function Ended(lines: seq<string>): string {
    if lines == [] then "" else lines[0] + "\r" + Ended(lines[1..])
  }

  lemma OneEnded(line: string, lines: seq<string>)
    ensures Ended([line] + lines) == line + "\r" + Ended(lines)
  {
  }

  lemma Glue(text: string, i: nat, ended: string, rest: string)
    requires i < |text| && text[i] == '\r' && ended + rest == text[i + 1..]
    ensures text[..i] + "\r" + ended + rest == text
  {
    assert text == text[..i] + [text[i]] + text[i + 1..];
    assert text[..i] + "\r" + ended + rest == text[..i] + "\r" + (ended + rest);
  }

  /** Stripping takes spaces off both ends, and all that stand there. */
  lemma {:induction false} StripTrims(s: string) returns (i: nat, j: nat)
    ensures i <= j <= |s| && Strip(s) == s[i..j]
    ensures forall k :: 0 <= k < i || j <= k < |s| ==> IsSpace(s[k])
    ensures i < j ==> !IsSpace(s[i]) && !IsSpace(s[j - 1])
    decreases |s|
  {
    hide IsSpace;
    i, j := 0, |s|;
    if s != "" && IsSpace(s[0]) {
      i, j := StripTrims(s[1..]);
      i, j := i + 1, j + 1;
    } else if s != "" && IsSpace(s[|s| - 1]) {
      i, j := StripTrims(s[..|s| - 1]);
    }
  }

  /** The characters stripped, by their numbers. */
  lemma SpaceNumbers(c: char)
    ensures IsSpace(c) <==> (9 <= c as int <= 13 || 28 <= c as int <= 32 || c as int == 133 || c as int == 160)
  {
  }

  lemma FirstReturnPrefix(s: string, t: string)
    requires '\r' in s
    ensures '\r' in s + t && FirstReturn(s + t, 0) == FirstReturn(s, 0)
  {
    assert (s + t)[0..] == s + t && s[0..] == s;
    var i, k := FirstReturn(s, 0), FirstReturn(s + t, 0);
    assert (s + t)[i] == '\r' && (s + t)[k] == '\r';
    assert forall j :: 0 <= j < i ==> s[j] == s[0..i][j];
    assert forall j :: 0 <= j < k ==> (s + t)[j] == (s + t)[0..k][j];
  }

  lemma Assoc(a: seq<string>, b: seq<string>, c: seq<string>)
    ensures a + (b + c) == (a + b) + c
  {
  }

  lemma {:induction false} SplitLinesAppend(s: string, t: string)
    ensures SplitLines(s + t) ==
      (SplitLines(s).0 + SplitLines(SplitLines(s).1 + t).0, SplitLines(SplitLines(s).1 + t).1)
    decreases |s|
  {
    if '\r' !in s {
      assert SplitLines(s).0 + SplitLines(s + t).0 == SplitLines(s + t).0;
    } else {
      FirstReturnPrefix(s, t);
      var i := FirstReturn(s, 0);
      assert (s + t)[i + 1..] == s[i + 1..] + t && (s + t)[..i] == s[..i];
      SplitLinesAppend(s[i + 1..], t);
      Assoc([s[..i]], SplitLines(s[i + 1..]).0, SplitLines(SplitLines(s[i + 1..]).1 + t).0);
    }
  }

  lemma {:induction false} FramesOfLinesConcat(a: seq<string>, b: seq<string>)
    ensures FramesOfLines(a + b) == FramesOfLines(a) + FramesOfLines(b)
    decreases |a|
  {
    if a == [] {
      assert a + b == b;
    } else {
      assert (a + b)[1..] == a[1..] + b;
      FramesOfLinesConcat(a[1..], b);
    }
  }

  lemma ExtractAppend(buffer: string, x: string, y: string)
    ensures Extract(buffer, x + y) ==
      (Extract(buffer, x).0 + Extract(Extract(buffer, x).1, y).0, Extract(Extract(buffer, x).1, y).1)
  {
    CleanConcat(x, y);
    assert buffer + Clean(x + y) == (buffer + Clean(x)) + Clean(y);
    SplitLinesAppend(buffer + Clean(x), Clean(y));
    FramesOfLinesConcat(SplitLines(buffer + Clean(x)).0, SplitLines(SplitLines(buffer + Clean(x)).1 + Clean(y)).0);
  }

  /** However the character stream is cut, the frames and the residue are the same. */
  lemma {:induction false} CuttingDoesNotMatter(buffer: string, pieces: seq<string>)
    requires '\r' !in buffer
    ensures ExtractAll(buffer, pieces) == Extract(buffer, Concat(pieces))
    decreases |pieces|
  {
    if pieces == [] {
      assert buffer + Clean("") == buffer;
    } else {
      ExtractAppend(buffer, pieces[0], Concat(pieces[1..]));
      CuttingDoesNotMatter(Extract(buffer, pieces[0]).1, pieces[1..]);
    }
  }

  /** No character of a line is lost between its frames; no frame is empty, every frame but the first
      begins with a `$` or a `#`, and neither stands anywhere else in a frame. */
  lemma FramesRejoin(line: string)
    ensures Concat(FramesOf(line)) == line && "" !in FramesOf(line)
    ensures forall k, j :: 0 <= k < |FramesOf(line)| && 0 < j < |FramesOf(line)[k]| ==> FramesOf(line)[k][j] != '$' && FramesOf(line)[k][j] != '#'
    ensures forall k :: 0 < k < |FramesOf(line)| ==> FramesOf(line)[k][0] == '$' || FramesOf(line)[k][0] == '#'
  {
    CutAtMarkers(line);
  }

  lemma {:induction false} CutAtMarkers(line: string)
    ensures Concat(FramesOf(line)) == line
    ensures forall k, j :: 0 <= k < |FramesOf(line)| && 0 < j < |FramesOf(line)[k]| ==> !IsMarker(FramesOf(line)[k][j])
    ensures forall k :: 0 <= k < |FramesOf(line)| ==> FramesOf(line)[k] != "" && (k > 0 ==> IsMarker(FramesOf(line)[k][0]))
    ensures FramesOf(line) == [] <==> line == ""
    ensures line != "" ==> FramesOf(line)[0][0] == line[0]
    decreases |line|
  {
    hide NextMarker, Concat, IsMarker;
    if line == "" {
      NoPieces();
    } else {
      var i := NextMarker(line, 1);
      var first, rest := line[..i], FramesOf(line[i..]);
      CutAtMarkers(line[i..]);
      assert FramesOf(line) == [first] + rest;
      OnePiece(first, rest);
      assert line == first + line[i..];
      assert forall k :: 0 < k < |[first] + rest| ==> ([first] + rest)[k] == rest[k - 1];
      assert forall j :: 0 < j < |first| ==> first[j] == line[j];
    }
  }

  lemma NoPieces()
    ensures Concat([]) == ""
  {
  }

  lemma OnePiece(first: string, rest: seq<string>)
    ensures Concat([first] + rest) == first + Concat(rest)
  {
  }

  lemma {:induction false} CleanOfPrintable(s: string)
    requires forall c :: c in s ==> ' ' < c
    ensures Clean(s) == s
    decreases |s|
  {
    if s != "" {
      assert s[0] in s && forall c :: c in s[1..] ==> c in s;
      CleanOfPrintable(s[1..]);
    }
  }

  /** From the gateway to the caller: a frame put on the wire comes out of the listener as
      that frame, passes its check and yields the bytes the module sent. */
  lemma FrameTravels(payload: string, data: seq<Byte>)
    requires FromHex(payload) == Some(data) && |payload| + 10 <= 0xFF
    ensures Frame(payload).Some?
    ensures Extract("", Frame(payload).value + "\r") == ([Frame(payload).value], "")
    ensures FrameValid(LastFrame(Frame(payload).value))
    ensures ReplyPayload(Frame(payload).value) == data
  {
    hide Frame, LastFrame, FromHex, FrameValid, ReplyPayload, Extract;
    BuiltFrameValid(payload, data);
    ReplyRoundTrip(payload, data);
    FrameDigits(payload, data);
    PrintableFrameExtracted(Frame(payload).value);
  }

  lemma FrameDigits(payload: string, data: seq<Byte>)
    requires FromHex(payload) == Some(data)
    ensures Frame(payload).Some? && Frame(payload).value != "" && Frame(payload).value[0] == '$'
    ensures forall j :: 0 < j < |Frame(payload).value| ==> DigitValue(Frame(payload).value[j]).Some?
  {
    hide Frame, LastFrame, FromHex, IntToHex, Crc16, Crc8, DigitValue;
    var len, crc16, crc8 := FrameParts(payload, data);
    var tail := len + payload + crc16 + crc8;
    var f := "$" + tail;
    assert f == "$" + len + payload + crc16 + crc8;
    forall j | 0 < j < |f| ensures DigitValue(f[j]).Some? {
      assert f[j] == tail[j - 1] && tail[j - 1] in tail;
    }
  }

  lemma PrintableFrameExtracted(f: string)
    requires f != "" && f[0] == '$' && forall j :: 0 < j < |f| ==> DigitValue(f[j]).Some?
    ensures Extract("", f + "\r") == ([f], "")
  {
    hide Clean, SplitLines, FirstReturn, FramesOf, FramesOfLines;
    forall c | c in f ensures ' ' < c <= 'f' {
      var j :| 0 <= j < |f| && f[j] == c;
    }
    CleanConcat(f, "\r");
    CleanOfPrintable(f);
    CleanReturn();
    assert "" + Clean(f + "\r") == f + "\r";
    OneLine(f);
    assert f[|f| - 1] in f;
    OneFrame(f);
    FramesOfOneLine(f);
  }

  lemma CleanReturn()
    ensures Clean("\r") == "\r"
  {
    assert "\r"[1..] == "";
  }

  lemma OneLine(f: string)
    requires '\r' !in f
    ensures SplitLines(f + "\r") == ([f], "")
  {
    var t := f + "\r";
    assert t[0..] == t && t[|f|] == '\r';
    var i := FirstReturn(t, 0);
    assert forall j :: 0 <= j < |f| ==> t[j] == f[j] && f[j] in f;
    assert i == |f| && t[..i] == f && t[i + 1..] == "";
    assert [f] + [] == [f];
  }

  /** A whole line on the wire: its frames are the line without the spaces around it, cut in front of
      every marker, and nothing is kept. */
  lemma LineExtracted(line: string) returns (i: nat, j: nat)
    requires forall c :: c in line ==> c != '\r' && c != '\n' && c != '\U{02}' && c != '\U{03}'
    ensures var (frames, rest) := Extract("", line + "\r");
      && rest == "" && i <= j <= |line| && Concat(frames) == line[i..j] && "" !in frames
      && (forall k, l :: 0 <= k < |frames| && 0 < l < |frames[k]| ==> frames[k][l] != '$' && frames[k][l] != '#')
      && (forall k :: 0 < k < |frames| ==> frames[k][0] == '$' || frames[k][0] == '#')
    ensures forall k :: 0 <= k < i || j <= k < |line| ==> IsSpace(line[k])
    ensures i < j ==> !IsSpace(line[i]) && !IsSpace(line[j - 1])
  {
    hide Clean, SplitLines, FirstReturn, FramesOf, FramesOfLines, Strip, IsSpace, Concat;
    KeptClean(line);
    CleanConcat(line, "\r");
    CleanReturn();
    assert "" + Clean(line + "\r") == line + "\r";
    OneLine(line);
    FramesOfOneLine(line);
    FramesRejoin(Strip(line));
    i, j := StripTrims(line);
  }

  lemma {:induction false} KeptClean(line: string)
    requires forall c :: c in line ==> c != '\r' && c != '\n' && c != '\U{02}' && c != '\U{03}'
    ensures Clean(line) == line
    decreases |line|
  {
    if line != "" {
      assert line[0] in line && forall c :: c in line[1..] ==> c in line;
      KeptClean(line[1..]);
    }
  }

  lemma OneFrame(f: string)
    requires f != "" && forall j :: 0 < j < |f| ==> DigitValue(f[j]).Some?
    ensures FramesOf(f) == [f]
  {
    hide DigitValue;
    assert DigitValue('$').None? && DigitValue('#').None? by { DigitsAreNoMarkers(); }
    assert NextMarker(f, 1) == |f|;
    assert f[..|f|] == f && f[|f|..] == "";
    assert FramesOf("") == [] && [f] + [] == [f];
  }

  lemma DigitsAreNoMarkers()
    ensures DigitValue('$').None? && DigitValue('#').None?
  {
  }

  lemma FramesOfOneLine(f: string)
    ensures FramesOfLines([f]) == FramesOf(Strip(f))
  {
    hide FramesOf, Strip;
    assert [f][1..] == [] && FramesOf(Strip(f)) + [] == FramesOf(Strip(f));
  }
}
