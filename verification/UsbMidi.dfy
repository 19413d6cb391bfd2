/** SysEx messages cut into USB-MIDI event packets (USB Device Class Definition for MIDI Devices 1.0, section 4). */
module UsbMidi {
  type Packet = seq<bv8>

  // Code Index Numbers, cable number 0
  const CONTINUES: bv8 := 0x04
  const ENDS_WITH_ONE: bv8 := 0x05
  const ENDS_WITH_TWO: bv8 := 0x06
  const ENDS_WITH_THREE: bv8 := 0x07

  function Packets(data: seq<bv8>): seq<Packet> {
    match |data|
    case 0 => []
    case 1 => [[ENDS_WITH_ONE, data[0], 0x00, 0x00]]
    case 2 => [[ENDS_WITH_TWO, data[0], data[1], 0x00]]
    case 3 => [[ENDS_WITH_THREE, data[0], data[1], data[2]]]
    case _ => [[CONTINUES, data[0], data[1], data[2]]] + Packets(data[3..])
  }

  predicate Ends(p: Packet) {
    |p| == 4 && (p[0] == ENDS_WITH_ONE || p[0] == ENDS_WITH_TWO || p[0] == ENDS_WITH_THREE)
  }

  /** The MIDI bytes of a packet, by its Code Index Number. */
  function Decode(p: Packet): seq<bv8>
    requires |p| == 4
  {
    if p[0] == ENDS_WITH_ONE then p[1..2]
    else if p[0] == ENDS_WITH_TWO then p[1..3]
    else p[1..4]
  }

  function DecodeAll(ps: seq<Packet>): seq<bv8>
    requires forall i :: 0 <= i < |ps| ==> |ps[i]| == 4
  {
    if ps == [] then [] else Decode(ps[0]) + DecodeAll(ps[1..])
  }

  /** One SysEx message on the wire: only the last packet ends it, and unused bytes are zero. */
  ghost predicate WellFormed(ps: seq<Packet>) {
    && (forall i :: 0 <= i < |ps| ==> |ps[i]| == 4)
    && (forall i :: 0 <= i < |ps| - 1 ==> ps[i][0] == CONTINUES)
    && (ps != [] ==>
          var last := ps[|ps| - 1];
          && Ends(last)
          && (last[0] == ENDS_WITH_ONE ==> last[2] == 0 && last[3] == 0)
          && (last[0] == ENDS_WITH_TWO ==> last[3] == 0))
  }

  lemma {:induction false} PacketsShape(data: seq<bv8>)
    ensures |Packets(data)| == (|data| + 2) / 3
    ensures WellFormed(Packets(data))
    decreases |data|
  {
    if |data| > 3 {
      PacketsShape(data[3..]);
      var rest := Packets(data[3..]);
      assert Packets(data)[|rest|] == rest[|rest| - 1];
    }
  }

  /** The packets of a message one by one. */
  lemma {:induction false} PacketsMean(data: seq<bv8>)
    ensures |Packets(data)| == (|data| + 2) / 3
    ensures data != [] ==>
      var n := |Packets(data)| - 1;
      && (forall i :: 0 <= i < n ==> Packets(data)[i] == [0x04, data[3 * i], data[3 * i + 1], data[3 * i + 2]])
      && Packets(data)[n] ==
           if |data| == 3 * n + 1 then [0x05, data[3 * n], 0, 0]
           else if |data| == 3 * n + 2 then [0x06, data[3 * n], data[3 * n + 1], 0]
           else [0x07, data[3 * n], data[3 * n + 1], data[3 * n + 2]]
    decreases |data|
  {
    if |data| > 3 {
      hide Packets;
      var rest := data[3..];
      PacketsMean(rest);
      FirstPacket(data, [CONTINUES, data[0], data[1], data[2]]);
      forall i | 0 < i < |Packets(rest)|
        ensures Packets(data)[i] == [0x04, data[3 * i], data[3 * i + 1], data[3 * i + 2]]
      {
        assert Packets(data)[i] == Packets(rest)[i - 1];
      }
    }
  }

  /** Decoding the packets of a message gives its bytes back. */
  lemma {:induction false} RoundTrip(data: seq<bv8>)
    ensures WellFormed(Packets(data)) && DecodeAll(Packets(data)) == data
    decreases |data|
  {
    PacketsShape(data);
    if |data| > 3 {
      RoundTrip(data[3..]);
      var p := [CONTINUES, data[0], data[1], data[2]];
      assert Packets(data)[1..] == Packets(data[3..]);
      assert Decode(p) == data[..3];
      assert data == data[..3] + data[3..];
    } else if data != [] {
      assert Packets(data)[1..] == [];
      assert Decode(Packets(data)[0]) == data;
    }
  }

  /** And the packets of a message are the only ones that decode to it. */
  lemma {:induction false} RoundTripBack(ps: seq<Packet>)
    requires WellFormed(ps)
    ensures Packets(DecodeAll(ps)) == ps
    decreases |ps|
  {
    hide Packets;
    if ps == [] {
      NoPackets();
    } else if |ps| == 1 {
      var p := ps[0];
      assert DecodeAll(ps[1..]) == [];
      assert DecodeAll(ps) == Decode(p);
      assert p == [p[0], p[1], p[2], p[3]];
      FirstPacket(Decode(p), p);
      NoPackets();
    } else {
      var p, rest := ps[0], ps[1..];
      RoundTripBack(rest);
      assert Decode(p) == p[1..4];
      var d := p[1..4] + DecodeAll(rest);
      DecodeNonEmpty(rest);
      ThreeFirst(p, DecodeAll(rest));
      FirstPacket(d, p);
      assert ps == [p] + rest;
    }
  }

  lemma {:induction false} ThreeFirst(p: Packet, t: seq<bv8>)
    requires |p| == 4
    ensures var d := p[1..4] + t;
      |d| >= 3 && d[0] == p[1] && d[1] == p[2] && d[2] == p[3] && d[3..] == t
  {
  }

  lemma {:induction false} DecodeNonEmpty(ps: seq<Packet>)
    requires WellFormed(ps) && ps != []
    ensures DecodeAll(ps) != []
  {
    assert |Decode(ps[0])| >= 1;
  }

  /** `sendSysex` of the embedded build; `usb(k)` is whether the k-th write succeeds. */
  method SendSysex(data: seq<bv8>, usb: nat -> bool) returns (ok: bool, sent: seq<Packet>)
    ensures |sent| <= |Packets(data)| && sent == Packets(data)[..|sent|]
    ensures ok <==> forall k :: 0 <= k < |Packets(data)| ==> usb(k)
    ensures ok ==> sent == Packets(data)
    ensures !ok ==> sent != [] && !usb(|sent| - 1) && forall k :: 0 <= k < |sent| - 1 ==> usb(k)
  {
    hide Packets;
    sent := [];
    var message: array<bv8> := new bv8[4](_ => 0);
    var msgIndex := 0;
    var bytesToSend := |data|;
    assert data[0..] == data;
    while bytesToSend > 0
      invariant 0 <= msgIndex <= |data| && bytesToSend == |data| - msgIndex
      invariant Packets(data) == sent + Packets(data[msgIndex..])
      invariant forall k :: 0 <= k < |sent| ==> usb(k)
      decreases bytesToSend
    {
      ghost var left := data[msgIndex..];
      message[0] := CONTINUES;
      match bytesToSend {
        case 1 =>
          message[0] := ENDS_WITH_ONE;
          message[1], message[2], message[3] := data[msgIndex], 0x00, 0x00;
          msgIndex, bytesToSend := msgIndex + 1, bytesToSend - 1;
        case 2 =>
          message[0] := ENDS_WITH_TWO;
          message[1], message[2], message[3] := data[msgIndex], data[msgIndex + 1], 0x00;
          msgIndex, bytesToSend := msgIndex + 2, bytesToSend - 2;
        case _ =>
          if bytesToSend == 3 {
            message[0] := ENDS_WITH_THREE;
          }
          message[1], message[2], message[3] := data[msgIndex], data[msgIndex + 1], data[msgIndex + 2];
          msgIndex, bytesToSend := msgIndex + 3, bytesToSend - 3;
      }
      FirstPacket(left, message[..]);
      assert data[msgIndex..] == if |left| < 3 then [] else left[3..];
      ghost var before := sent;
      sent := sent + [message[..]];
      OneMore(before, message[..], Packets(data[msgIndex..]));
      if !usb(|sent| - 1) {
        return false, sent;
      }
    }
    assert data[msgIndex..] == [];
    NoPackets();
    return true, sent;
  }

  lemma {:induction false} FirstPacket(left: seq<bv8>, p: Packet)
    requires left != [] && |p| == 4
    requires match |left|
      case 1 => p == [ENDS_WITH_ONE, left[0], 0, 0]
      case 2 => p == [ENDS_WITH_TWO, left[0], left[1], 0]
      case 3 => p == [ENDS_WITH_THREE, left[0], left[1], left[2]]
      case _ => p == [CONTINUES, left[0], left[1], left[2]]
    ensures Packets(left) == [p] + Packets(if |left| < 3 then [] else left[3..])
  {
  }

  lemma {:induction false} OneMore<T>(before: seq<T>, x: T, after: seq<T>)
    ensures before + ([x] + after) == before + [x] + after
  {
  }

  lemma {:induction false} NoPackets()
    ensures Packets([]) == []
  {
  }
}
