/** The terminal key reader: bytes arriving in any rhythm, read one semantic key at a time. */
module Keys {
  import opened PyText

  type Byte = b: int | 0 <= b < 256

  /** One byte of input. A late byte is not there yet when a short wait for it ends; a blocking read gets it. */
  datatype Arrival = Arrival(byte: Byte, late: bool)

  /** What is still to be read: the byte pushed back, if any, then the terminal's input. */
  datatype Reader = Reader(pushback: Option<Byte>, input: seq<Arrival>)

  datatype Key = Up | Down | Left | Right | Enter | Esc | Backspace | PgUp | PgDn | Home | End

  /** What one read resolves to. `Text` holds the decoded character, or nothing where decoding drops the bytes. */
  datatype Token = Named(key: Key) | Text(chars: seq<nat>) | Ignored | Interrupt

  const ESC := 0x1b
  const MAX_SEQUENCE := 8

  // ----- UTF-8, section 3 of RFC 3629 -----

  predicate Scalar(c: nat) { c < 0xD800 || 0xE000 <= c < 0x110000 }

  predicate Trail(b: Byte) { 0x80 <= b <= 0xBF }

  function Low(c: nat): Byte { 0x80 + c % 0x40 }

  /** Six bits to a trail byte. */
  function Encode(c: nat): seq<Byte>
    requires Scalar(c)
  {
    var c1 := c / 0x40;
    var c2 := c1 / 0x40;
    if c < 0x80 then [c]
    else if c < 0x800 then [0xC0 + c1, Low(c)]
    else if c < 0x10000 then [0xE0 + c2, Low(c1), Low(c)]
    else [0xF0 + c2 / 0x40, Low(c2), Low(c1), Low(c)]
  }

  /** How many bytes follow a lead byte. */
  function Trailing(lead: Byte): nat {
    if lead < 0xC2 || lead > 0xF4 then 0 else if lead < 0xE0 then 1 else if lead < 0xF0 then 2 else 3
  }

  /** The code point `raw` would stand for, its length being right for its lead byte. */
  function Assembled(raw: seq<Byte>): int
    requires raw != [] && |raw| == 1 + Trailing(raw[0])
  {
    if |raw| == 1 then raw[0]
    else if |raw| == 2 then Two(raw[0], raw[1])
    else if |raw| == 3 then Three(raw[0], raw[1], raw[2])
    else Four(raw[0], raw[1], raw[2], raw[3])
  }

  function Two(a: int, b: int): int { (a - 0xC0) * 0x40 + (b - 0x80) }

  function Three(a: int, b: int, c: int): int { (a - 0xE0) * 0x1000 + (b - 0x80) * 0x40 + (c - 0x80) }

  function Four(a: int, b: int, c: int, d: int): int {
    (a - 0xF0) * 0x40000 + (b - 0x80) * 0x1000 + (c - 0x80) * 0x40 + (d - 0x80)
  }

  function Least(length: nat): int {
    if length == 1 then 0 else if length == 2 then 0x80 else if length == 3 then 0x800 else 0x10000
  }

  /** `raw.decode(errors="ignore")` of a single byte, or of a lead byte and trail bytes: one character or none. */
  function Decode(raw: seq<Byte>): seq<nat>
    requires raw != []
  {
    if |raw| != 1 + Trailing(raw[0]) then []
    else
      var c := Assembled(raw);
      if c >= Least(|raw|) && Scalar(c) && (|raw| == 1 ==> c < 0x80) then [c] else []
  }

  lemma TwoBytes(c: nat)
    requires 0x80 <= c < 0x800
    ensures Two(0xC0 + c / 0x40, Low(c)) == c && 0xC2 <= 0xC0 + c / 0x40 < 0xE0
  {
  }

  lemma ThreeBytes(c: nat)
    requires 0x800 <= c < 0x10000
    ensures var c1 := c / 0x40; Three(0xE0 + c1 / 0x40, Low(c1), Low(c)) == c && 0xE0 <= 0xE0 + c1 / 0x40 < 0xF0
  {
  }

  lemma FourBytes(c: nat)
    requires 0x10000 <= c < 0x110000
    ensures var c1 := c / 0x40;
            var c2 := c1 / 0x40;
            Four(0xF0 + c2 / 0x40, Low(c2), Low(c1), Low(c)) == c && 0xF0 <= 0xF0 + c2 / 0x40 <= 0xF4
  {
    var c1 := c / 0x40;
    var c2 := c1 / 0x40;
    assert c == 0x40 * c1 + c % 0x40 && c1 == 0x40 * c2 + c1 % 0x40 && c2 == 0x40 * (c2 / 0x40) + c2 % 0x40;
  }

  /** Decoding inverts encoding, and an encoded character says its own length. */
  lemma DecodeEncode(c: nat)
    requires c < 0xD800 || 0xE000 <= c <= 0x10FFFF
    ensures Scalar(c)
    ensures var raw := Encode(c);
            Decode(raw) == [c] && |raw| == 1 + Trailing(raw[0]) && forall k :: 1 <= k < |raw| ==> Trail(raw[k])
  {
    if c >= 0x10000 {
      FourBytes(c);
    } else if c >= 0x800 {
      ThreeBytes(c);
    } else if c >= 0x80 {
      TwoBytes(c);
    }
  }

  /** Only the encoding of a character decodes to it: overlong forms, surrogates and the rest are dropped. */
  lemma OnlyEncodingsDecode(raw: seq<Byte>, c: nat)
    requires raw != [] && Decode(raw) == [c] && forall k :: 1 <= k < |raw| ==> Trail(raw[k])
    ensures (c < 0xD800 || 0xE000 <= c <= 0x10FFFF) && raw == Encode(c)
  {
    if |raw| == 2 {
      Sextet(raw[0] - 0xC0, raw[1]);
    } else if |raw| == 3 {
      var a: int, b: int := raw[0] - 0xE0, raw[1] - 0x80;
      Sextet(a, raw[1]);
      Sextet(a * 0x40 + b, raw[2]);
    } else if |raw| == 4 {
      var a: int, b: int, d: int := raw[0] - 0xF0, raw[1] - 0x80, raw[2] - 0x80;
      Sextet(a, raw[1]);
      Sextet(a * 0x40 + b, raw[2]);
      Sextet((a * 0x40 + b) * 0x40 + d, raw[3]);
    }
  }

  lemma Sextet(high: int, b: Byte)
    requires Trail(b) && high >= 0
    ensures var c := high * 0x40 + (b - 0x80); c / 0x40 == high && Low(c) == b
  {
  }

  // ----- one token -----

  function Bytes(input: seq<Arrival>): (bs: seq<Byte>)
    ensures |bs| == |input|
  {
    if input == [] then [] else [input[0].byte] + Bytes(input[1..])
  }

  /** Every byte not yet read, in order. */
  function Pending(r: Reader): seq<Byte> {
    if r.pushback.Some? then [r.pushback.value] + Bytes(r.input) else Bytes(r.input)
  }

  datatype Read = Read(bytes: seq<Byte>, reader: Reader)

  predicate Ready(input: seq<Arrival>) { input != [] && !input[0].late }

  /** `_read_continuation`: up to `count` trail bytes; a byte that starts the next key is pushed back. */
  function Continued(input: seq<Arrival>, count: nat): (r: Read)
    ensures |Pending(r.reader)| + |r.bytes| == |input|
  {
    if count == 0 || !Ready(input) then Read([], Reader(None, input))
    else if !Trail(input[0].byte) then Read([], Reader(Some(input[0].byte), input[1..]))
    else
      var more := Continued(input[1..], count - 1);
      Read([input[0].byte] + more.bytes, more.reader)
  }

  /** A final byte among `body`. */
  predicate Final(body: seq<Byte>) { body != [] && (0x40 <= body[|body| - 1] <= 0x7E || Final(body[..|body| - 1])) }

  /** `_sequence_complete`. */
  predicate Complete(bytes: seq<Byte>) { |bytes| > 1 && (bytes[0] == 'O' as int || Final(bytes[1..])) }

  /** The loop of `_read_escape`: bytes past ASCII decode to nothing. */
  function Sequenced(bytes: seq<Byte>, input: seq<Arrival>): (r: Read)
    ensures |Pending(r.reader)| <= |input|
    decreases |input|
  {
    if Complete(bytes) || |bytes| >= MAX_SEQUENCE || !Ready(input) then Read(bytes, Reader(None, input))
    else Sequenced(if input[0].byte < 0x80 then bytes + [input[0].byte] else bytes, input[1..])
  }

  /** `_SEQUENCES`, the final byte of a two-byte sequence and the digit of a three-byte one. */
  function Lookup(s: seq<Byte>): Option<Key> {
    if |s| == 2 && (s[0] == '[' as int || s[0] == 'O' as int) then
      match s[1] as char
      case 'A' => Some(Up) case 'B' => Some(Down) case 'C' => Some(Right) case 'D' => Some(Left)
      case 'H' => Some(Home) case 'F' => Some(End) case _ => None
    else if |s| == 3 && s[0] == '[' as int && s[2] == '~' as int then
      match s[1] as char
      case '5' => Some(PgUp) case '6' => Some(PgDn) case '1' => Some(Home) case '7' => Some(Home)
      case '4' => Some(End) case '8' => Some(End) case _ => None
    else None
  }

  function Resolved(s: seq<Byte>): Token { match Lookup(s) case Some(k) => Named(k) case None => Ignored }

  datatype Taken = Blocked | Taken(token: Token, reader: Reader)

  /** `_read_escape`. */
  function Escaped(input: seq<Arrival>): (t: Taken)
    ensures t.Taken? && |Pending(t.reader)| <= |input|
  {
    if !Ready(input) then Taken(Named(Esc), Reader(None, input))
    else if input[0].byte != '[' as int && input[0].byte != 'O' as int then Taken(Named(Esc), Reader(None, input[1..]))
    else
      var s := Sequenced([input[0].byte], input[1..]);
      Taken(Resolved(s.bytes), s.reader)
  }

  /** A byte that is neither a lead byte nor ESC. */
  function Plain(b: Byte): Token {
    if b == 0x03 then Interrupt
    else if b == 0x0d || b == 0x0a then Named(Enter)
    else if b == 0x7f then Named(Backspace)
    else Text(Decode([b]))
  }

  /** `_read_token`; blocked when nothing is left to read. */
  function ReadToken(r: Reader): (t: Taken)
    ensures t.Taken? ==> |Pending(t.reader)| < |Pending(r)|
    ensures t.Blocked? <==> Pending(r) == []
  {
    if r.pushback.None? && r.input == [] then Blocked
    else
      var b := if r.pushback.Some? then r.pushback.value else r.input[0].byte;
      var rest := if r.pushback.Some? then r.input else r.input[1..];
      if Trailing(b) > 0 then
        var more := Continued(rest, Trailing(b));
        Taken(Text(Decode([b] + more.bytes)), more.reader)
      else if b == ESC then Escaped(rest)
      else Taken(Plain(b), Reader(None, rest))
  }

  /** `_next_key`: the next token that is not skipped. */
  function NextKey(r: Reader): Taken
    decreases |Pending(r)|
  {
    var t := ReadToken(r);
    if t.Taken? && t.token == Ignored then NextKey(t.reader) else t
  }

  /** Every key read until the input runs out. */
  function AllKeys(r: Reader): seq<Token>
    decreases |Pending(r)|
  {
    var t := ReadToken(r);
    if t.Blocked? then []
    else if t.token == Ignored then AllKeys(t.reader)
    else [t.token] + AllKeys(t.reader)
  }

  /** Reading keys one at a time reads them all. */
  lemma {:induction false} KeyByKey(r: Reader)
    ensures AllKeys(r) == match NextKey(r) case Blocked => [] case Taken(token, reader) => [token] + AllKeys(reader)
    decreases |Pending(r)|
  {
    var t := ReadToken(r);
    if t.Taken? && t.token == Ignored { KeyByKey(t.reader); }
  }

  // ----- nothing is lost -----

  lemma {:induction false} ContinuedTakes(input: seq<Arrival>, count: nat)
    ensures var r := Continued(input, count);
            && |r.bytes| <= count && Bytes(input) == r.bytes + Pending(r.reader)
            && (forall k :: 0 <= k < |r.bytes| ==> Trail(r.bytes[k]))
            && (r.reader.pushback.Some? ==> !Trail(r.reader.pushback.value))
            && (|r.bytes| < count && r.reader.pushback.None? && r.reader.input != [] ==> r.reader.input[0].late)
  {
    if count > 0 && Ready(input) && Trail(input[0].byte) {
      var more := Continued(input[1..], count - 1);
      ContinuedTakes(input[1..], count - 1);
      ConsAppend(input[0].byte, more.bytes, Pending(more.reader));
    }
  }

  /** The input after the first pending byte. */
  function AfterFirst(r: Reader): seq<Arrival>
    requires Pending(r) != []
  {
    if r.pushback.Some? then r.input else r.input[1..]
  }

  lemma LeadToken(r: Reader)
    requires Pending(r) != [] && Trailing(Pending(r)[0]) > 0
    ensures var b, m := Pending(r)[0], Continued(AfterFirst(r), Trailing(Pending(r)[0]));
            ReadToken(r) == Taken(Text(Decode([b] + m.bytes)), m.reader) && Pending(r) == [b] + Bytes(AfterFirst(r))
  {
  }

  lemma LeadSlices(all: seq<Byte>, b: Byte, taken: seq<Byte>, left: seq<Byte>)
    requires all == [b] + (taken + left)
    ensures all[1 + |taken|..] == left && all[..1 + |taken|] == [b] + taken
    ensures forall j :: 1 <= j < 1 + |taken| ==> all[j] == taken[j - 1]
  {
  }

  /** A lead byte takes at most its own trail bytes, in any rhythm. Whatever ends it early is still to be read, in
      place: a byte that is late, or one that starts the next key, which is then the next byte read. */
  lemma InterruptedKept(r: Reader)
    requires Pending(r) != [] && Trailing(Pending(r)[0]) > 0
    ensures var t := ReadToken(r);
            var k := |Pending(r)| - |Pending(t.reader)|;
            && 1 <= k <= 1 + Trailing(Pending(r)[0]) && Pending(t.reader) == Pending(r)[k..]
            && (forall j :: 1 <= j < k ==> Trail(Pending(r)[j]))
            && t.token == Text(Decode(Pending(r)[..k]))
            && (k < 1 + Trailing(Pending(r)[0]) && k < |Pending(r)| ==>
                  (t.reader.pushback == Some(Pending(r)[k]) && !Trail(Pending(r)[k])) ||
                  (t.reader.pushback.None? && t.reader.input != [] && t.reader.input[0].late))
  {
    var b := Pending(r)[0];
    var more := Continued(AfterFirst(r), Trailing(b));
    LeadToken(r);
    ContinuedTakes(AfterFirst(r), Trailing(b));
    LeadSlices(Pending(r), b, more.bytes, Pending(more.reader));
  }

  lemma SuffixOfRest(all: seq<Byte>, left: seq<Byte>)
    requires all != [] && |left| <= |all| - 1 && left == all[1..][|all| - 1 - |left|..]
    ensures left == all[|all| - |left|..]
  {
  }

  lemma {:induction false} SequencedTakes(bytes: seq<Byte>, input: seq<Arrival>)
    ensures var r := Sequenced(bytes, input).reader;
            Pending(r) == Bytes(input)[|input| - |Pending(r)|..]
    decreases |input|
  {
    if !(Complete(bytes) || |bytes| >= MAX_SEQUENCE || !Ready(input)) {
      var next := if input[0].byte < 0x80 then bytes + [input[0].byte] else bytes;
      SequencedTakes(next, input[1..]);
      assert Bytes(input)[1..] == Bytes(input[1..]);
      SuffixOfRest(Bytes(input), Pending(Sequenced(next, input[1..]).reader));
    }
  }

  lemma SequenceLeaves(bytes: seq<Byte>, input: seq<Arrival>, r: Reader)
    requires input != [] && r == Sequenced(bytes, input[1..]).reader
    ensures Pending(r) == Bytes(input)[|input| - |Pending(r)|..]
  {
    SequencedTakes(bytes, input[1..]);
    assert Bytes(input)[1..] == Bytes(input[1..]);
    SuffixOfRest(Bytes(input), Pending(r));
  }

  lemma EscapedTakes(input: seq<Arrival>)
    ensures var left := Pending(Escaped(input).reader); left == Bytes(input)[|input| - |left|..]
  {
    if Ready(input) {
      if input[0].byte != '[' as int && input[0].byte != 'O' as int {
        assert Bytes(input)[1..] == Bytes(input[1..]);
      } else {
        SequenceLeaves([input[0].byte], input, Sequenced([input[0].byte], input[1..]).reader);
      }
    }
  }

  /** Every token takes bytes off the front of what is pending, and nothing else. */
  lemma TokenTakesPrefix(r: Reader)
    requires Pending(r) != []
    ensures var left := Pending(ReadToken(r).reader); left == Pending(r)[|Pending(r)| - |left|..]
  {
    if Trailing(Pending(r)[0]) > 0 {
      InterruptedKept(r);
    } else {
      EscapedTakes(AfterFirst(r));
      assert Pending(r)[1..] == Bytes(AfterFirst(r));
    }
  }

  // ----- what was typed is what is read -----

  /** What may be typed; its first byte may come late. `Control` is Enter, Backspace or an interrupt, `Lone` the Esc key
      by itself, and `Alt` a byte that follows its ESC at once. */
  datatype Item =
    | Character(c: nat, late: bool) | Sequence(bytes: seq<Byte>, late: bool)
    | Control(byte: Byte, late: bool) | Lone(late: bool) | Alt(byte: Byte, late: bool)

  /** A sequence whose last byte alone completes it. */
  predicate Whole(bytes: seq<Byte>) {
    && 1 < |bytes| <= MAX_SEQUENCE && (bytes[0] == '[' as int || bytes[0] == 'O' as int) && Complete(bytes)
    && (forall k :: 0 <= k < |bytes| ==> bytes[k] < 0x80) && forall k :: 0 < k < |bytes| ==> !Complete(bytes[..k])
  }

  predicate Controls(b: Byte) { b == 0x03 || b == 0x0a || b == 0x0d || b == 0x7f }

  predicate Typeable(item: Item) {
    match item
    case Character(c, _) => Scalar(c) && c != ESC && !(c < 0x80 && Controls(c))
    case Sequence(bytes, _) => Whole(bytes)
    case Control(b, _) => Controls(b)
    case Lone(_) => true
    case Alt(b, _) => b != '[' as int && b != 'O' as int
  }

  function OnTime(bytes: seq<Byte>): (input: seq<Arrival>)
    ensures |input| == |bytes|
  {
    if bytes == [] then [] else [Arrival(bytes[0], false)] + OnTime(bytes[1..])
  }

  function Typed(item: Item): seq<Arrival>
    requires Typeable(item)
  {
    match item
    case Character(c, late) => [Arrival(Encode(c)[0], late)] + OnTime(Encode(c)[1..])
    case Sequence(bytes, late) => [Arrival(ESC, late)] + OnTime(bytes)
    case Control(b, late) => [Arrival(b, late)]
    case Lone(late) => [Arrival(ESC, late)]
    case Alt(b, late) => [Arrival(ESC, late)] + OnTime([b])
  }

  function TokenOf(item: Item): Token {
    match item
    case Character(c, _) => Text([c])
    case Sequence(bytes, _) => Resolved(bytes)
    case Control(b, _) => Plain(b)
    case Lone(_) => Named(Esc)
    case Alt(_, _) => Named(Esc)
  }

  /** Items the reader hands on as themselves; what follows a lone Esc comes late, or not at all. */
  predicate AllTypeable(items: seq<Item>) {
    && (forall k :: 0 <= k < |items| ==> Typeable(items[k]))
    && forall k :: 0 <= k < |items| - 1 && items[k].Lone? ==> items[k + 1].late
  }

  function Input(items: seq<Item>): seq<Arrival>
    requires AllTypeable(items)
  {
    if items == [] then []
    else
      LaterTypeable(items);
      Typed(items[0]) + Input(items[1..])
  }

  /** The keys those items are, without the sequences the cockpit has no use for. */
  function KeysOf(items: seq<Item>): seq<Token> {
    if items == [] then []
    else if TokenOf(items[0]) == Ignored then KeysOf(items[1..])
    else [TokenOf(items[0])] + KeysOf(items[1..])
  }

  lemma {:induction false} ContinuedWhole(bytes: seq<Byte>, rest: seq<Arrival>)
    requires forall k :: 0 <= k < |bytes| ==> Trail(bytes[k])
    ensures Continued(OnTime(bytes) + rest, |bytes|) == Read(bytes, Reader(None, rest))
  {
    var input := OnTime(bytes) + rest;
    if bytes == [] {
      assert input == rest;
    } else {
      ContinuedWhole(bytes[1..], rest);
      ConsAppend(Arrival(bytes[0], false), OnTime(bytes[1..]), rest);
    }
  }

  lemma {:induction false} SequencedWhole(bytes: seq<Byte>, k: nat, rest: seq<Arrival>)
    requires Whole(bytes) && 0 < k <= |bytes|
    ensures Sequenced(bytes[..k], OnTime(bytes[k..]) + rest) == Read(bytes, Reader(None, rest))
    decreases |bytes| - k
  {
    var input := OnTime(bytes[k..]) + rest;
    if k == |bytes| {
      assert bytes[..k] == bytes && input == rest;
    } else {
      SequencedWhole(bytes, k + 1, rest);
      SplitAt(bytes, k);
      ConsAppend(Arrival(bytes[k], false), OnTime(bytes[k + 1..]), rest);
    }
  }

  lemma LeadRead(b: Byte, late: bool, more: seq<Arrival>)
    requires Trailing(b) > 0
    ensures var m := Continued(more, Trailing(b));
            ReadToken(Reader(None, [Arrival(b, late)] + more)) == Taken(Text(Decode([b] + m.bytes)), m.reader)
  {
    assert ([Arrival(b, late)] + more)[1..] == more;
  }

  lemma ByteRead(b: Byte, late: bool, more: seq<Arrival>)
    requires Trailing(b) == 0
    ensures ReadToken(Reader(None, [Arrival(b, late)] + more)) ==
            if b == ESC then Escaped(more) else Taken(Plain(b), Reader(None, more))
  {
    assert ([Arrival(b, late)] + more)[1..] == more;
  }

  lemma LongCharacterRead(raw: seq<Byte>, late: bool, rest: seq<Arrival>)
    requires |raw| > 1 && |raw| == 1 + Trailing(raw[0]) && forall k :: 1 <= k < |raw| ==> Trail(raw[k])
    ensures ReadToken(Reader(None, [Arrival(raw[0], late)] + (OnTime(raw[1..]) + rest))) ==
            Taken(Text(Decode(raw)), Reader(None, rest))
  {
    LeadRead(raw[0], late, OnTime(raw[1..]) + rest);
    ContinuedWhole(raw[1..], rest);
    assert [raw[0]] + raw[1..] == raw;
  }

  lemma CharacterRead(c: nat, late: bool, rest: seq<Arrival>)
    requires Typeable(Character(c, late))
    ensures ReadToken(Reader(None, Typed(Character(c, late)) + rest)) == Taken(Text([c]), Reader(None, rest))
  {
    var raw := Encode(c);
    DecodeEncode(c);
    Assoc([Arrival(raw[0], late)], OnTime(raw[1..]), rest);
    if |raw| > 1 {
      LongCharacterRead(raw, late, rest);
    } else {
      assert raw == [raw[0]] && OnTime(raw[1..]) + rest == rest;
      ByteRead(raw[0], late, rest);
    }
  }

  lemma EscapedWhole(bytes: seq<Byte>, rest: seq<Arrival>)
    requires Whole(bytes)
    ensures Escaped(OnTime(bytes) + rest) == Taken(Resolved(bytes), Reader(None, rest))
  {
    var input := OnTime(bytes) + rest;
    SequencedWhole(bytes, 1, rest);
    ConsAppend(Arrival(bytes[0], false), OnTime(bytes[1..]), rest);
    assert bytes[..1] == [bytes[0]];
  }

  lemma SequenceRead(bytes: seq<Byte>, late: bool, rest: seq<Arrival>)
    requires Whole(bytes)
    ensures ReadToken(Reader(None, Typed(Sequence(bytes, late)) + rest)) == Taken(Resolved(bytes), Reader(None, rest))
  {
    Assoc([Arrival(ESC, late)], OnTime(bytes), rest);
    ByteRead(ESC, late, OnTime(bytes) + rest);
    EscapedWhole(bytes, rest);
  }

  lemma AltRead(b: Byte, late: bool, rest: seq<Arrival>)
    requires Typeable(Alt(b, late))
    ensures ReadToken(Reader(None, Typed(Alt(b, late)) + rest)) == Taken(Named(Esc), Reader(None, rest))
  {
    Assoc([Arrival(ESC, late)], OnTime([b]), rest);
    ByteRead(ESC, late, OnTime([b]) + rest);
    assert (OnTime([b]) + rest)[1..] == rest;
  }

  /** One typed item is one token, and the input after it is untouched. */
  lemma ItemRead(item: Item, rest: seq<Arrival>)
    requires Typeable(item) && (item.Lone? ==> !Ready(rest))
    ensures ReadToken(Reader(None, Typed(item) + rest)) == Taken(TokenOf(item), Reader(None, rest))
  {
    match item
    case Character(c, late) => CharacterRead(c, late, rest);
    case Sequence(bytes, late) => SequenceRead(bytes, late, rest);
    case Control(b, late) => ByteRead(b, late, rest);
    case Lone(late) => ByteRead(ESC, late, rest);
    case Alt(b, late) => AltRead(b, late, rest);
  }

  lemma LaterTypeable(items: seq<Item>)
    requires AllTypeable(items) && items != []
    ensures AllTypeable(items[1..])
  {
    assert forall k :: 0 <= k < |items| - 1 ==> items[1..][k] == items[k + 1];
  }

  lemma InputStarts(items: seq<Item>)
    requires AllTypeable(items) && items != []
    ensures AllTypeable(items[1..]) && Input(items) != [] && Input(items)[0].late == items[0].late
  {
    LaterTypeable(items);
  }

  /** Input made of whole characters, whole sequences, Enter, Backspace, interrupts and Esc by itself or before another
      byte, however long between them, is read as exactly those, in order; sequences without a meaning here are consumed
      whole and skipped, and a byte that follows ESC at once goes with it. */
  lemma {:induction false} TypedIsRead(items: seq<Item>)
    requires AllTypeable(items)
    ensures AllKeys(Reader(None, Input(items))) == KeysOf(items)
  {
    if items != [] {
      LaterTypeable(items);
      if items[1..] != [] { InputStarts(items[1..]); }
      ItemRead(items[0], Input(items[1..]));
      TypedIsRead(items[1..]);
    }
  }

  lemma FinalOne(b: Byte)
    ensures Final([b]) <==> 0x40 <= b <= 0x7E
  {
    assert [b][..0] == [];
  }

  lemma {:induction false} FinalExactly(body: seq<Byte>)
    ensures Final(body) <==> exists i :: 0 <= i < |body| && 0x40 <= body[i] <= 0x7E
  {
    if body != [] {
      FinalExactly(body[..|body| - 1]);
      assert forall i :: 0 <= i < |body| - 1 ==> body[..|body| - 1][i] == body[i];
    }
  }

  /** A sequence is complete with its second byte after O, and with a final byte after `[`. */
  lemma CompleteExactly(bytes: seq<Byte>)
    ensures Complete(bytes) <==>
            |bytes| > 1 && (bytes[0] == 'O' as int || exists i :: 1 <= i < |bytes| && 0x40 <= bytes[i] <= 0x7E)
  {
    if |bytes| > 1 {
      FinalExactly(bytes[1..]);
      if exists i :: 1 <= i < |bytes| && 0x40 <= bytes[i] <= 0x7E {
        var i :| 1 <= i < |bytes| && 0x40 <= bytes[i] <= 0x7E;
        assert bytes[1..][i - 1] == bytes[i];
      }
    }
  }

  /** The bytes that are keys of their own, and the ones that are text. */
  lemma PlainExactly(b: Byte)
    ensures Plain(b) == Interrupt <==> b == 3
    ensures Plain(b) == Named(Enter) <==> b == 13 || b == 10
    ensures Plain(b) == Named(Backspace) <==> b == 127
    ensures b < 0x80 && b !in [3, 10, 13, 127] ==> Plain(b) == Text([b as nat])
    ensures 0x80 <= b < 0xC2 || b > 0xF4 ==> Plain(b) == Text([])
  {
  }

  /** `[c` or `Oc`. */
  predicate Arrow(s: seq<Byte>, c: char) {
    |s| == 2 && (s[0] == '[' as int || s[0] == 'O' as int) && s[1] == c as int
  }

  /** `[c~`. */
  predicate Tilde(s: seq<Byte>, c: char) { |s| == 3 && s[0] == '[' as int && s[1] == c as int && s[2] == '~' as int }

  /** The table, read the other way: the sequences of each key, and no others. */
  lemma TableExactly(s: seq<Byte>)
    ensures Lookup(s) == Some(Up) <==> Arrow(s, 'A')
    ensures Lookup(s) == Some(Down) <==> Arrow(s, 'B')
    ensures Lookup(s) == Some(Right) <==> Arrow(s, 'C')
    ensures Lookup(s) == Some(Left) <==> Arrow(s, 'D')
    ensures Lookup(s) == Some(PgUp) <==> Tilde(s, '5')
    ensures Lookup(s) == Some(PgDn) <==> Tilde(s, '6')
    ensures Lookup(s) == Some(Home) <==> Arrow(s, 'H') || Tilde(s, '1') || Tilde(s, '7')
    ensures Lookup(s) == Some(End) <==> Arrow(s, 'F') || Tilde(s, '4') || Tilde(s, '8')
    ensures Lookup(s) != Some(Enter) && Lookup(s) != Some(Esc) && Lookup(s) != Some(Backspace)
  {
  }

  /** The examples of section 7 of RFC 3629. */
  lemma RfcExamples()
    ensures Encode(0x41) == [0x41] && Encode(0x2262) == [0xE2, 0x89, 0xA2] && Encode(0x391) == [0xCE, 0x91]
    ensures Encode(0xD55C) == [0xED, 0x95, 0x9C] && Encode(0x65E5) == [0xE6, 0x97, 0xA5]
    ensures Encode(0x233B4) == [0xF0, 0xA3, 0x8E, 0xB4]
  {
  }

  /** Every sequence of the table is one such whole sequence. */
  lemma TableIsWhole(s: seq<Byte>)
    requires Lookup(s).Some?
    ensures Whole(s)
  {
    FinalOne(s[1]);
    assert s[..2][1..] == [s[1]];
    if |s| == 2 { assert s[..2] == s; }
  }

  // ----- the reader's own code -----

  function Prefixed(out: seq<Byte>, more: Read): Read { Read(out + more.bytes, more.reader) }

  lemma PrefixedStep(out: seq<Byte>, input: seq<Arrival>, count: nat)
    requires count > 0 && Ready(input)
    ensures Prefixed(out, Continued(input, count)) ==
            if Trail(input[0].byte) then Prefixed(out + [input[0].byte], Continued(input[1..], count - 1))
            else Read(out, Reader(Some(input[0].byte), input[1..]))
  {
    NoneConcat(out);
    Assoc(out, [input[0].byte], Continued(input[1..], count - 1).bytes);
  }

  lemma PrefixedEnd(out: seq<Byte>, input: seq<Arrival>, count: nat)
    requires count == 0 || !Ready(input)
    ensures Prefixed(out, Continued(input, count)) == Read(out, Reader(None, input))
  {
    NoneConcat(out);
  }

  class KeyReader {
    var pushback: Option<Byte>
    var input: seq<Arrival>

    ghost function Value(): Reader
      reads this
    {
      Reader(pushback, input)
    }

    constructor (typed: seq<Arrival>)
      ensures Value() == Reader(None, typed)
    {
      pushback, input := None, typed;
    }

    /** `os.read(fd, 1)`. */
    method Take() returns (b: Byte)
      requires input != []
      modifies this`input
      ensures b == old(input[0].byte) && input == old(input[1..])
    {
      b := input[0].byte;
      input := input[1..];
    }

    method ReadContinuation(count: nat) returns (out: seq<Byte>)
      requires pushback.None?
      modifies this
      ensures Read(out, Value()) == Continued(old(input), count)
    {
      out := [];
      NoneConcat(Continued(input, count).bytes);
      while |out| < count && Ready(input)
        invariant |out| <= count && pushback.None?
        invariant Continued(old(input), count) == Prefixed(out, Continued(input, count - |out|))
        decreases |input|
      {
        PrefixedStep(out, input, count - |out|);
        var next := Take();
        if !Trail(next) {
          pushback := Some(next);
          return;
        }
        out := out + [next];
      }
      PrefixedEnd(out, input, count - |out|);
    }

    method ReadEscape() returns (token: Token)
      requires pushback.None?
      modifies this
      ensures Taken(token, Value()) == Escaped(old(input))
    {
      if !Ready(input) { return Named(Esc); }
      var first := Take();
      if first != '[' as int && first != 'O' as int { return Named(Esc); }
      var bytes := [first];
      while !Complete(bytes) && |bytes| < MAX_SEQUENCE && Ready(input)
        invariant pushback.None? && bytes != []
        invariant Sequenced(bytes, input) == Sequenced([first], old(input)[1..])
        decreases |input|
      {
        var next := Take();
        if next < 0x80 { bytes := bytes + [next]; }
      }
      token := Resolved(bytes);
    }

    /** `_read_token`, or nothing while no byte is left. */
    method Token() returns (token: Option<Token>)
      modifies this
      ensures match ReadToken(old(Value()))
              case Blocked => token == None && Value() == old(Value())
              case Taken(t, r) => token == Some(t) && Value() == r
    {
      if pushback.None? && input == [] { return None; }
      var b;
      if pushback.Some? {
        b, pushback := pushback.value, None;
      } else {
        b := Take();
      }
      if Trailing(b) > 0 {
        var more := ReadContinuation(Trailing(b));
        token := Some(Text(Decode([b] + more)));
      } else if b == ESC {
        var t := ReadEscape();
        token := Some(t);
      } else {
        token := Some(Plain(b));
      }
    }

    method Next() returns (token: Option<Token>)
      modifies this
      ensures match NextKey(old(Value()))
              case Blocked => token == None
              case Taken(t, r) => token == Some(t) && Value() == r
    {
      token := Token();
      while token == Some(Ignored)
        invariant token.Some? ==>
                    NextKey(old(Value())) ==
                    if token.value == Ignored then NextKey(Value()) else Taken(token.value, Value())
        invariant token.None? ==> NextKey(old(Value())).Blocked?
        decreases |Pending(Value())|, token.Some?
      {
        token := Token();
      }
    }
  }
}
