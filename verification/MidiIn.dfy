/** The MIDI-in path of the MK1 driver: messages out of a byte stream cut into arbitrary USB packets. */
module MidiIn {
  import opened Options

  type Bytes = seq<bv8>

  /** Not the status byte of a channel message: data, system common or realtime. */
  predicate Skipped(b: bv8) {
    b & 0x80 == 0 || b & 0xF0 == 0xF0
  }

  /** Program change and channel pressure carry one data byte, the other channel messages two. */
  function Length(status: bv8): (n: nat)
    ensures 2 <= n <= 3
  {
    if status & 0xF0 == 0xC0 || status & 0xF0 == 0xD0 then 2 else 3
  }

  // ------------------------------------------------------------- specification

  datatype Piece = Stray(b: bv8) | Message(bytes: Bytes)

  /** A stream taken apart: pieces in order, and what is left to wait with. */
  datatype Parse = Parse(pieces: seq<Piece>, rest: Bytes)

  ghost predicate Proper(p: Piece) {
    match p
    case Stray(b) => Skipped(b)
    case Message(m) => m != [] && !Skipped(m[0]) && |m| == Length(m[0])
  }

  /** The start of a message that is not complete yet, or nothing. */
  ghost predicate Waiting(rest: Bytes) {
    rest != [] ==> !Skipped(rest[0]) && |rest| < Length(rest[0])
  }

  /** Which pieces there are, by the ranges of the status bytes. */
  lemma {:induction false} ProperMeans(p: Piece)
    ensures Proper(p) <==>
      match p
      case Stray(b) => b < 0x80 || b >= 0xF0
      case Message(m) =>
        || (|m| == 3 && (0x80 <= m[0] < 0xC0 || 0xE0 <= m[0] < 0xF0))
        || (|m| == 2 && 0xC0 <= m[0] < 0xE0)
  {
    match p
    case Stray(b) => StatusRanges(b);
    case Message(m) => if m != [] { StatusRanges(m[0]); }
  }

  lemma {:induction false} WaitingMeans(rest: Bytes)
    ensures Waiting(rest) <==>
      || rest == []
      || (|rest| == 1 && 0x80 <= rest[0] < 0xF0)
      || (|rest| == 2 && (0x80 <= rest[0] < 0xC0 || 0xE0 <= rest[0] < 0xF0))
  {
    if rest != [] {
      StatusRanges(rest[0]);
    }
  }

  lemma {:induction false} StatusRanges(b: bv8)
    ensures Skipped(b) <==> b < 0x80 || b >= 0xF0
    ensures 0x80 <= b < 0xF0 ==> (Length(b) == 2 <==> 0xC0 <= b < 0xE0)
  {
  }

  function PieceBytes(p: Piece): Bytes {
    match p
    case Stray(b) => [b]
    case Message(m) => m
  }

  function Flatten(pieces: seq<Piece>): Bytes {
    if pieces == [] then [] else PieceBytes(pieces[0]) + Flatten(pieces[1..])
  }

  function Messages(pieces: seq<Piece>): seq<Bytes> {
    if pieces == [] then []
    else (if pieces[0].Message? then [pieces[0].bytes] else []) + Messages(pieces[1..])
  }

  function ParseBytes(s: Bytes): Parse
    decreases |s|
  {
    if s == [] then Parse([], [])
    else if Skipped(s[0]) then
      var p := ParseBytes(s[1..]);
      Parse([Stray(s[0])] + p.pieces, p.rest)
    else if |s| < Length(s[0]) then Parse([], s)
    else
      var n := Length(s[0]);
      var p := ParseBytes(s[n..]);
      Parse([Message(s[..n])] + p.pieces, p.rest)
  }

  /** One step of the parse, at a byte that is skipped. */
  lemma {:induction false} ParseStray(s: Bytes)
    requires s != [] && Skipped(s[0])
    ensures ParseBytes(s) == Parse([Stray(s[0])] + ParseBytes(s[1..]).pieces, ParseBytes(s[1..]).rest)
  {
    hide Skipped, Length;
  }

  /** One step of the parse, where no byte is skipped. */
  lemma {:induction false} ParseStart(s: Bytes)
    requires s != [] ==> !Skipped(s[0])
    ensures s == [] || |s| < Length(s[0]) ==> ParseBytes(s) == Parse([], s)
    ensures s != [] && |s| >= Length(s[0]) ==>
      var n := Length(s[0]);
      ParseBytes(s) == Parse([Message(s[..n])] + ParseBytes(s[n..]).pieces, ParseBytes(s[n..]).rest)
  {
    hide Skipped, Length;
  }

  /** The messages that come out of a stream. */
  function Extracted(s: Bytes): seq<Bytes> {
    Messages(ParseBytes(s).pieces)
  }

  // -------------------------------------------------------------------- theorems

  /** Nothing is lost or made up: bytes in are messages, strays and at most two waiting bytes, in order. */
  lemma {:induction false} ParseIsFaithful(s: Bytes)
    ensures var p := ParseBytes(s);
      && Flatten(p.pieces) + p.rest == s
      && (forall i :: 0 <= i < |p.pieces| ==> Proper(p.pieces[i]))
      && Waiting(p.rest) && |p.rest| <= 2
    decreases |s|
  {
    hide Skipped, Length;
    if s != [] {
      if Skipped(s[0]) {
        ParseIsFaithful(s[1..]);
        ConsFaithful(s, Stray(s[0]), ParseBytes(s[1..]));
      } else if |s| >= Length(s[0]) {
        var n := Length(s[0]);
        ParseIsFaithful(s[n..]);
        ConsFaithful(s, Message(s[..n]), ParseBytes(s[n..]));
      }
    }
  }

  lemma {:induction false} ConsFaithful(s: Bytes, piece: Piece, p: Parse)
    requires var b := PieceBytes(piece); |b| <= |s| && s[..|b|] == b && Flatten(p.pieces) + p.rest == s[|b|..]
    ensures Flatten([piece] + p.pieces) + p.rest == s
  {
    Consing(piece, p.pieces);
    var b := PieceBytes(piece);
    assert s == b + s[|b|..];
    assert (b + Flatten(p.pieces)) + p.rest == b + (Flatten(p.pieces) + p.rest);
  }

  lemma {:induction false} Consing(p: Piece, ps: seq<Piece>)
    ensures Flatten([p] + ps) == PieceBytes(p) + Flatten(ps)
    ensures Messages([p] + ps) == (if p.Message? then [p.bytes] else []) + Messages(ps)
  {
    assert ([p] + ps)[1..] == ps;
  }

  /** The parse is the only one: any way to put a stream together from proper pieces is found again. */
  lemma {:induction false} ParseIsUnique(pieces: seq<Piece>, rest: Bytes)
    requires forall i :: 0 <= i < |pieces| ==> Proper(pieces[i])
    requires Waiting(rest)
    ensures ParseBytes(Flatten(pieces) + rest) == Parse(pieces, rest)
    decreases |pieces|
  {
    hide Skipped, Length;
    if pieces == [] {
      assert Flatten(pieces) + rest == rest;
    } else {
      var p, tail := pieces[0], pieces[1..];
      assert Proper(p);
      assert pieces == [p] + tail;
      ParseIsUnique(tail, rest);
      assert Flatten(pieces) + rest == PieceBytes(p) + (Flatten(tail) + rest);
      ParseOnePiece(p, Flatten(tail) + rest);
    }
  }

  lemma {:induction false} ParseOnePiece(p: Piece, t: Bytes)
    requires Proper(p)
    ensures ParseBytes(PieceBytes(p) + t) == Parse([p] + ParseBytes(t).pieces, ParseBytes(t).rest)
  {
    hide Skipped, Length;
    var s, n := PieceBytes(p) + t, |PieceBytes(p)|;
    assert s[0] == PieceBytes(p)[0] && s[..n] == PieceBytes(p) && s[n..] == t;
  }

  /** Any concatenation of channel messages, with strays anywhere between them, gives exactly those messages. */
  lemma {:induction false} MessagesRecovered(pieces: seq<Piece>)
    requires forall i :: 0 <= i < |pieces| ==> Proper(pieces[i])
    ensures Extracted(Flatten(pieces)) == Messages(pieces)
  {
    ParseIsUnique(pieces, []);
    assert Flatten(pieces) + [] == Flatten(pieces);
  }

  /** Status bytes and how many data bytes complete a message, as Table II of the MIDI specification has them. */
  lemma {:induction false} ChannelMessages(s: bv8, d1: bv8, d2: bv8)
    ensures 0xC0 <= s < 0xE0 ==> Extracted([s]) == [] && Extracted([s, d1]) == [[s, d1]]
    ensures 0x80 <= s < 0xC0 || 0xE0 <= s < 0xF0 ==>
      Extracted([s]) == [] && Extracted([s, d1]) == [] && Extracted([s, d1, d2]) == [[s, d1, d2]]
    ensures s < 0x80 || s >= 0xF0 ==> Extracted([s]) == [] && ParseBytes([s]).rest == []
  {
    hide ParseBytes, Length, Skipped;
    StatusRanges(s);
    OnePiece(Stray(s));
    Unfinished([s]);
    Unfinished([s, d1]);
    OnePiece(Message([s, d1]));
    OnePiece(Message([s, d1, d2]));
  }

  lemma {:induction false} OnePiece(p: Piece)
    requires PieceBytes(p) != []
    ensures Proper(p) ==> ParseBytes(PieceBytes(p)) == Parse([p], [])
    ensures Proper(p) ==> Extracted(PieceBytes(p)) == if p.Message? then [p.bytes] else []
  {
    hide Proper;
    Consing(p, []);
    assert [p] + [] == [p] && PieceBytes(p) + [] == PieceBytes(p) + Flatten([]);
    if Proper(p) {
      ParseIsUnique([p], []);
      assert PieceBytes(p) + [] == PieceBytes(p);
      assert Flatten([p]) + [] == PieceBytes(p);
      assert Messages([p]) == if p.Message? then [p.bytes] else [];
    }
  }

  lemma {:induction false} Unfinished(rest: Bytes)
    ensures rest != [] && Waiting(rest) ==> ParseBytes(rest) == Parse([], rest) && Extracted(rest) == []
  {
    hide Skipped, Length;
  }

  /** After whole messages and strays, a stream goes on as if it began there. */
  lemma {:induction false} ExtractedConcat(a: Bytes, b: Bytes)
    requires ParseBytes(a).rest == []
    ensures Extracted(a + b) == Extracted(a) + Extracted(b)
  {
    hide ParseBytes;
    ParseInTwo(a, b);
    assert [] + b == b;
    FlattenConcat(ParseBytes(a).pieces, ParseBytes(b).pieces);
  }

  lemma {:induction false} FlattenConcat(a: seq<Piece>, b: seq<Piece>)
    ensures Flatten(a + b) == Flatten(a) + Flatten(b)
    ensures Messages(a + b) == Messages(a) + Messages(b)
    decreases |a|
  {
    if a == [] {
      assert a + b == b;
    } else {
      hide Flatten, Messages;
      var p, t := a[0], a[1..];
      FlattenConcat(t, b);
      assert a + b == [p] + (t + b) && a == [p] + t;
      Consing(p, t + b);
      Consing(p, t);
      Reassociate(PieceBytes(p), Flatten(t), Flatten(b));
      Reassociate(if p.Message? then [p.bytes] else [], Messages(t), Messages(b));
    }
  }

  lemma {:induction false} Reassociate<T>(a: seq<T>, b: seq<T>, c: seq<T>)
    ensures a + (b + c) == (a + b) + c
  {
  }

  /** Parsing can stop anywhere and go on with what was left plus what comes. */
  lemma {:induction false} ParseInTwo(a: Bytes, b: Bytes)
    ensures var p := ParseBytes(a);
      var q := ParseBytes(p.rest + b);
      ParseBytes(a + b) == Parse(p.pieces + q.pieces, q.rest)
  {
    var p := ParseBytes(a);
    var q := ParseBytes(p.rest + b);
    ParseIsFaithful(a);
    ParseIsFaithful(p.rest + b);
    JoinParses(p, q, a, b);
    ParseIsUnique(p.pieces + q.pieces, q.rest);
  }

  lemma {:induction false} JoinParses(p: Parse, q: Parse, a: Bytes, b: Bytes)
    requires Flatten(p.pieces) + p.rest == a && Flatten(q.pieces) + q.rest == p.rest + b
    ensures Flatten(p.pieces + q.pieces) + q.rest == a + b
  {
    FlattenConcat(p.pieces, q.pieces);
    var f, g := Flatten(p.pieces), Flatten(q.pieces);
    assert (f + g) + q.rest == f + (g + q.rest);
    assert f + (p.rest + b) == (f + p.rest) + b;
  }

  /** The payloads of USB packets, whose first three bytes are a header. */
  function Payload(packet: Bytes): Bytes {
    if |packet| < 3 then [] else packet[3..]
  }

  function Stream(packets: seq<Bytes>): Bytes {
    if packets == [] then [] else Stream(packets[..|packets| - 1]) + Payload(packets[|packets| - 1])
  }

  /** The driver fed packet by packet: messages so far and bytes kept in the buffer. */
  function Fed(packets: seq<Bytes>): (seq<Bytes>, Bytes) {
    if packets == [] then ([], [])
    else
      var (sent, kept) := Fed(packets[..|packets| - 1]);
      var p := ParseBytes(kept + Payload(packets[|packets| - 1]));
      (sent + Messages(p.pieces), p.rest)
  }

  lemma {:induction false} FedIsParsed(packets: seq<Bytes>)
    ensures Fed(packets).0 == Extracted(Stream(packets))
    ensures Fed(packets).1 == ParseBytes(Stream(packets)).rest
  {
    if packets != [] {
      var n := |packets| - 1;
      FedIsParsed(packets[..n]);
      var s, b := Stream(packets[..n]), Payload(packets[n]);
      ParseInTwo(s, b);
      FlattenConcat(ParseBytes(s).pieces, ParseBytes(ParseBytes(s).rest + b).pieces);
    }
  }

  /** One packet after another header of any three bytes is its bytes. */
  lemma {:induction false} PacketHeader(packets: seq<Bytes>, h0: bv8, h1: bv8, h2: bv8, bytes: Bytes)
    ensures Stream(packets + [[h0, h1, h2] + bytes]) == Stream(packets) + bytes
    ensures Stream(packets + [[h0]]) == Stream(packets + [[]]) == Stream(packets + [[h0, h1]]) == Stream(packets)
  {
    StreamMore(packets, [h0, h1, h2] + bytes);
    StreamMore(packets, [h0, h1]);
    StreamMore(packets, [h0]);
    StreamMore(packets, []);
    assert ([h0, h1, h2] + bytes)[3..] == bytes;
    assert Stream(packets) + [] == Stream(packets);
  }

  lemma {:induction false} StreamMore(packets: seq<Bytes>, packet: Bytes)
    ensures Stream(packets + [packet]) == Stream(packets) + Payload(packet)
  {
    assert (packets + [packet])[..|packets|] == packets;
  }

  /** Main theorem: how the stream is cut into packets makes no difference. */
  lemma {:induction false} SplitDoesNotMatter(packets: seq<Bytes>, packets': seq<Bytes>)
    requires Stream(packets) == Stream(packets')
    ensures Fed(packets) == Fed(packets')
  {
    FedIsParsed(packets);
    FedIsParsed(packets');
  }

  /**
    MIDI allows a realtime byte anywhere, even inside a message.  Inserted at `k`,
    one leaves the message whole exactly when it falls before or after it.
  */
  lemma {:induction false} RealtimeInsideMessage(m: Bytes, realtime: bv8, k: nat)
    requires Proper(Message(m)) && realtime >= 0xF8 && k <= |m|
    requires forall i :: 1 <= i < |m| ==> m[i] & 0x80 == 0
    ensures Extracted(m[..k] + [realtime] + m[k..]) == [m] <==> k == 0 || k == |m|
  {
    var s := m[..k] + [realtime] + m[k..];
    assert Skipped(realtime);
    if k == 0 || k == |m| {
      var pieces := if k == 0 then [Stray(realtime), Message(m)] else [Message(m), Stray(realtime)];
      TwoPieces(pieces[0], pieces[1]);
      MessagesRecovered(pieces);
      assert s == Flatten(pieces);
    } else {
      var n := Length(m[0]);
      var taken := s[..n];
      assert taken[k] == realtime && m[k] != realtime;
      Consing(Message(taken), ParseBytes(s[n..]).pieces);
      assert Extracted(s)[0] == taken;
    }
  }

  /** A timing clock after the first byte of a note-on leaves no message but one with the clock for a note. */
  lemma {:induction false} RealtimeInsideNoteOn()
    ensures Extracted([0x90, 0xF8, 60, 100]) == [[0x90, 0xF8, 60]]
  {
    var s: Bytes := [0x90, 0xF8, 60, 100];
    ParseStart(s);
    ParseStray(s[3..]);
    assert s[..3] == [0x90, 0xF8, 60] && s[3..][1..] == [];
    assert ParseBytes([]) == Parse([], []);
    var rest := ParseBytes(s[3..]).pieces;
    assert rest == [Stray(100)];
    TwoPieces(Message(s[..3]), Stray(100));
    assert [Message(s[..3])] + rest == [Message(s[..3]), Stray(100)];
  }

  lemma {:induction false} TwoPieces(p: Piece, q: Piece)
    ensures Flatten([p, q]) == PieceBytes(p) + PieceBytes(q)
    ensures Messages([p, q]) == (if p.Message? then [p.bytes] else []) + (if q.Message? then [q.bytes] else [])
  {
    assert [p, q] == [p] + [q] && [q] == [q] + [];
    Consing(p, [q]);
    Consing(q, []);
  }

  // ---------------------------------------------------------------------- driver

  class Input {
    var buffer: Bytes

    constructor ()
      ensures buffer == []
    {
      buffer := [];
    }

    /** `popCompleteMidiMsg`: skips strays, then takes one message if it is all there. */
    method PopCompleteMidiMsg() returns (msg: Option<Bytes>, ghost strays: seq<Piece>)
      modifies this
      ensures forall i :: 0 <= i < |strays| ==> strays[i].Stray?
      ensures var p := ParseBytes(old(buffer));
        if msg.Some? then Resumes(p, strays + [Message(msg.value)], buffer) && |buffer| < |old(buffer)|
        else p == Parse(strays, buffer)
    {
      hide ParseBytes, Skipped, Length, Resumes;
      ghost var p := ParseBytes(buffer);
      strays := [];
      ResumesAtStart(buffer);
      while buffer != [] && Skipped(buffer[0])
        invariant forall i :: 0 <= i < |strays| ==> strays[i].Stray?
        invariant Resumes(p, strays, buffer)
        invariant |buffer| <= |old(buffer)|
        decreases |buffer|
      {
        SkipStray(p, strays, buffer);
        strays := strays + [Stray(buffer[0])];
        buffer := buffer[1..];
      }
      TakeMessage(p, strays, buffer);
      if buffer == [] {
        return None, strays;
      }
      var expected := Length(buffer[0]);
      if |buffer| < expected {
        return None, strays;
      }
      msg := Some(buffer[..expected]);
      buffer := buffer[expected..];
    }

    /** Appends the payload of a packet, which follows three header bytes, and hands on every message that is complete. */
    method ProcessMidiIn(input: Bytes) returns (sent: seq<Bytes>)
      modifies this
      ensures var p := ParseBytes(old(buffer) + if |input| < 3 then [] else input[3..]);
        sent == Messages(p.pieces) && buffer == p.rest
    {
      hide ParseBytes, Resumes, Messages;
      Append(input);
      ghost var p := ParseBytes(buffer);
      sent := [];
      ghost var done: seq<Piece> := [];
      ResumesAtStart(buffer);
      NoMessages();
      while true
        invariant Resumes(p, done, buffer) && sent == Messages(done)
        decreases |buffer|
      {
        ghost var before := buffer;
        var msg, strays := PopCompleteMidiMsg();
        if msg == None {
          RoundEnds(p, done, before, strays, buffer);
          return;
        }
        RoundGoesOn(p, done, before, strays, msg.value, buffer);
        sent := sent + [msg.value];
        done := done + strays + [Message(msg.value)];
      }
    }

    method Append(input: Bytes)
      modifies this
      ensures buffer == old(buffer) + Payload(input)
    {
      var i := 3;
      while i < |input|
        invariant i >= 3 && (i <= |input| || i == 3)
        invariant buffer == old(buffer) + if i <= |input| then input[3..i] else []
      {
        buffer := buffer + [input[i]];
        i := i + 1;
      }
    }
  }

  /** A parse that has got as far as `done`, with `buffer` to come. */
  ghost predicate Resumes(p: Parse, done: seq<Piece>, buffer: Bytes) {
    p == Parse(done + ParseBytes(buffer).pieces, ParseBytes(buffer).rest)
  }

  lemma {:induction false} ResumesAtStart(buffer: Bytes)
    ensures Resumes(ParseBytes(buffer), [], buffer)
  {
    hide ParseBytes;
    assert [] + ParseBytes(buffer).pieces == ParseBytes(buffer).pieces;
  }

  lemma {:induction false} SkipStray(p: Parse, done: seq<Piece>, buffer: Bytes)
    requires Resumes(p, done, buffer) && buffer != [] && Skipped(buffer[0])
    ensures Resumes(p, done + [Stray(buffer[0])], buffer[1..])
  {
    hide ParseBytes, Skipped;
    ParseStray(buffer);
    var after := ParseBytes(buffer[1..]).pieces;
    assert done + ([Stray(buffer[0])] + after) == done + [Stray(buffer[0])] + after;
  }

  /** Where no byte is skipped, a message is taken if it is all there; otherwise the parse is over. */
  lemma {:induction false} TakeMessage(p: Parse, done: seq<Piece>, buffer: Bytes)
    requires Resumes(p, done, buffer) && (buffer != [] ==> !Skipped(buffer[0]))
    ensures buffer == [] || |buffer| < Length(buffer[0]) ==> p == Parse(done, buffer)
    ensures buffer != [] && |buffer| >= Length(buffer[0]) ==>
      var n := Length(buffer[0]);
      Resumes(p, done + [Message(buffer[..n])], buffer[n..])
  {
    hide ParseBytes, Skipped, Length;
    ParseStart(buffer);
    if buffer != [] && |buffer| >= Length(buffer[0]) {
      var n := Length(buffer[0]);
      var after := ParseBytes(buffer[n..]).pieces;
      assert done + ([Message(buffer[..n])] + after) == done + [Message(buffer[..n])] + after;
    } else {
      assert done + [] == done;
    }
  }

  lemma {:induction false} NoMessages()
    ensures Messages([]) == []
  {
  }

  /** The round that finds no message leaves everything parsed. */
  lemma {:induction false} RoundEnds(p: Parse, done: seq<Piece>, buffer: Bytes, strays: seq<Piece>, rest: Bytes)
    requires Resumes(p, done, buffer) && ParseBytes(buffer) == Parse(strays, rest)
    requires forall i :: 0 <= i < |strays| ==> strays[i].Stray?
    ensures Messages(p.pieces) == Messages(done) && p.rest == rest
  {
    hide ParseBytes, Messages;
    MessagesAfter(done, strays, []);
    assert done + strays == done + strays + [];
  }

  lemma {:induction false} RoundGoesOn(p: Parse, done: seq<Piece>, buffer: Bytes, strays: seq<Piece>, m: Bytes, rest: Bytes)
    requires Resumes(p, done, buffer) && Resumes(ParseBytes(buffer), strays + [Message(m)], rest)
    requires forall i :: 0 <= i < |strays| ==> strays[i].Stray?
    ensures Resumes(p, done + strays + [Message(m)], rest)
    ensures Messages(done + strays + [Message(m)]) == Messages(done) + [m]
  {
    hide ParseBytes, Messages;
    MessagesAfter(done, strays, [Message(m)]);
    var after := ParseBytes(rest).pieces;
    assert done + (strays + [Message(m)] + after) == done + strays + [Message(m)] + after;
  }

  lemma {:induction false} StraysAreSilent(strays: seq<Piece>)
    requires forall i :: 0 <= i < |strays| ==> strays[i].Stray?
    ensures Messages(strays) == []
  {
    if strays != [] {
      StraysAreSilent(strays[1..]);
    }
  }

  lemma {:induction false} MessagesAfter(done: seq<Piece>, strays: seq<Piece>, last: seq<Piece>)
    requires forall i :: 0 <= i < |strays| ==> strays[i].Stray?
    requires last == [] || (|last| == 1 && last[0].Message?)
    ensures Messages(done + strays + last) == Messages(done) + if last == [] then [] else [last[0].bytes]
  {
    StraysAreSilent(strays);
    FlattenConcat(done + strays, last);
    FlattenConcat(done, strays);
    if last != [] {
      assert last == [last[0]] + [];
      Consing(last[0], []);
    }
  }
}
