/** The kernel CEC backend: frames on the HDMI control wire.

  A frame is a header byte, initiator in the high four bits and destination in the low,
  then an opcode and operands, in at most 16 bytes (HDMI 1.4b, supplement 1, CEC 6). */
module Cec {
  import opened Text

  type Byte = bv8

  const MAX_MSG_SIZE := 16
  const LOG_ADDR_TV: Byte := 0
  const LOG_ADDR_UNREGISTERED: Byte := 15
  const LOG_ADDR_BROADCAST: Byte := 15
  const PHYS_ADDR_INVALID: bv16 := 0xFFFF

  const IMAGE_VIEW_ON: Byte := 0x04
  const TEXT_VIEW_ON: Byte := 0x0D
  const STANDBY: Byte := 0x36
  const USER_CONTROL_PRESSED: Byte := 0x44
  const USER_CONTROL_RELEASED: Byte := 0x45
  const SET_OSD_NAME: Byte := 0x47
  const ACTIVE_SOURCE: Byte := 0x82
  const SET_STREAM_PATH: Byte := 0x86

  /** A message as the kernel sees it: a fixed buffer and how much of it counts. */
  datatype Msg = Msg(len: nat, bytes: seq<Byte>) {
    predicate Fits() { |bytes| == MAX_MSG_SIZE && len <= MAX_MSG_SIZE }

    function Initiator(): Byte
      requires Fits()
    {
      (bytes[0] >> 4) & 0x0F
    }

    function Destination(): Byte
      requires Fits()
    {
      bytes[0] & 0x0F
    }

    function Opcode(): Option<Byte>
      requires Fits()
    {
      if len >= 2 then Some(bytes[1]) else None
    }

    function Operands(): seq<Byte>
      requires Fits()
    {
      if len > 2 then bytes[2..len] else []
    }
  }

  function Header(initiator: Byte, destination: Byte): Byte {
    (initiator << 4) | destination
  }

  function Zeros(n: nat): (r: seq<Byte>)
    ensures |r| == n
  {
    seq(n, _ => 0)
  }

  /** The message that carries a payload, buffer zeroed behind it. */
  function Loaded(payload: seq<Byte>): (m: Msg)
    requires |payload| <= MAX_MSG_SIZE
    ensures m.Fits()
  {
    Msg(|payload|, payload + Zeros(MAX_MSG_SIZE - |payload|))
  }

  function Payload(initiator: Byte, destination: Byte, opcode: Byte, operands: seq<Byte>): seq<Byte> {
    [Header(initiator, destination), opcode] + operands
  }

  lemma HeaderParts(initiator: Byte, destination: Byte)
    requires initiator < 16 && destination < 16
    ensures (Header(initiator, destination) >> 4) & 0x0F == initiator
    ensures Header(initiator, destination) & 0x0F == destination
  {
  }

  /** Header values above a byte are exactly those of addresses above four bits. */
  lemma WideHeader(initiator: Byte, destination: Byte)
    ensures ((initiator as bv16) << 4) | (destination as bv16) > 0xFF <==> initiator >= 16
  {
  }

  /** Everything put into a frame of at most 14 operands is read back out of it. */
  lemma FrameRoundTrip(initiator: Byte, destination: Byte, opcode: Byte, operands: seq<Byte>)
    requires initiator < 16 && destination < 16 && |operands| <= 14
    ensures var m := Loaded(Payload(initiator, destination, opcode, operands));
            && m.len == 2 + |operands| && m.len <= MAX_MSG_SIZE
            && m.Initiator() == initiator && m.Destination() == destination
            && m.Opcode() == Some(opcode) && m.Operands() == operands
  {
    HeaderParts(initiator, destination);
    var payload := Payload(initiator, destination, opcode, operands);
    var m := Loaded(payload);
    assert m.bytes[0] == payload[0] && m.bytes[1] == payload[1];
    assert m.bytes[2..m.len] == operands;
  }

  // ----- addresses in operands

  function High(address: bv16): Byte { (address >> 8) as Byte }

  function Low(address: bv16): Byte { (address & 0xFF) as Byte }

  function Joined(high: Byte, low: Byte): bv16 {
    ((high as bv16) << 8) | (low as bv16)
  }

  lemma AddressRoundTrip(address: bv16)
    ensures Joined(High(address), Low(address)) == address
  {
  }

  // ----- what a message means

  datatype Event =
    | KeyPress(code: Byte)
    | KeyRelease
    | StandbyEvent
    | Wake
    | SourceLost(address: bv16)
    | AdapterReady(address: bv16)
    | AdapterLost

  /** The event a received message stands for, given our own physical address. */
  function Meaning(opcode: Option<Byte>, operands: seq<Byte>, physAddr: bv16): Option<Event> {
    if opcode == Some(USER_CONTROL_PRESSED) && operands != [] then Some(KeyPress(operands[0]))
    else if opcode == Some(USER_CONTROL_RELEASED) then Some(KeyRelease)
    else if opcode == Some(STANDBY) then Some(StandbyEvent)
    else if opcode == Some(IMAGE_VIEW_ON) || opcode == Some(TEXT_VIEW_ON) then Some(Wake)
    else if opcode == Some(SET_STREAM_PATH) && |operands| >= 2 then
      var requested := Joined(operands[0], operands[1]);
      if requested == physAddr then Some(Wake) else Some(SourceLost(requested))
    else if opcode == Some(ACTIVE_SOURCE) && |operands| >= 2 then
      var requested := Joined(operands[0], operands[1]);
      if requested == physAddr then None else Some(SourceLost(requested))
    else None
  }

  /** Whether a message makes us claim the screen. */
  predicate Answers(opcode: Option<Byte>, operands: seq<Byte>, physAddr: bv16) {
    opcode == Some(SET_STREAM_PATH) && |operands| >= 2 && Joined(operands[0], operands[1]) == physAddr
  }

  /** An announced source, ours or another's, as a frame on the wire. */
  function SourceFrame(initiator: Byte, address: bv16): (m: Msg)
    ensures m.Fits()
  {
    Loaded(Payload(initiator, LOG_ADDR_BROADCAST, ACTIVE_SOURCE, [High(address), Low(address)]))
  }

  /** Hearing a source announced is silence exactly when the source is us. */
  lemma EchoIff(initiator: Byte, address: bv16, physAddr: bv16)
    requires initiator < 16
    ensures var m := SourceFrame(initiator, address);
            && (Meaning(m.Opcode(), m.Operands(), physAddr) == None <==> address == physAddr)
            && (address != physAddr ==> Meaning(m.Opcode(), m.Operands(), physAddr) == Some(SourceLost(address)))
  {
    FrameRoundTrip(initiator, LOG_ADDR_BROADCAST, ACTIVE_SOURCE, [High(address), Low(address)]);
    AddressRoundTrip(address);
  }

  // ----- the adapter

  /** A frame handed to the kernel, and the physical address at that moment. */
  datatype Sent = Sent(msg: Msg, physAddr: bv16)

  /** The logical address goes into four bits of the header byte. The kernel hands it over in
      eight, of which any value is possible; one that does not fit raises where the header is
      put together. */
  predicate Addressable(logAddr: Byte) { logAddr < 16 }

  /** The frames of one announcement: wake the television, claim the input, name it. */
  function Announcement(logAddr: Byte, physAddr: bv16, osdName: seq<Byte>): seq<Sent>
    requires |osdName| <= 14
  {
    if physAddr == PHYS_ADDR_INVALID || logAddr == LOG_ADDR_UNREGISTERED || !Addressable(logAddr) then []
    else
      [Sent(Loaded(Payload(logAddr, LOG_ADDR_TV, IMAGE_VIEW_ON, [])), physAddr),
       Sent(SourceFrame(logAddr, physAddr), physAddr)]
      + if osdName == [] then []
        else [Sent(Loaded(Payload(logAddr, LOG_ADDR_TV, SET_OSD_NAME, osdName)), physAddr)]
  }

  class KernelBackend {
    const osdName: seq<Byte>
    var logAddr: Byte
    var physAddr: bv16
    // Every frame transmitted so far.
    ghost var wire: seq<Sent>

    ghost predicate Valid()
      reads this
    {
      |osdName| <= 14 && forall i :: 0 <= i < |wire| ==> wire[i].msg.Fits()
    }

    /** Nothing has ever been sent without a physical address. */
    ghost predicate Grounded()
      reads this
    {
      forall i :: 0 <= i < |wire| ==> wire[i].physAddr != PHYS_ADDR_INVALID
    }

    constructor (name: seq<Byte>)
      ensures Valid() && Grounded() && osdName == if |name| < 15 then name else name[..14]
      ensures logAddr == LOG_ADDR_UNREGISTERED && physAddr == PHYS_ADDR_INVALID && wire == []
    {
      osdName := if |name| <= 14 then name else name[..14];
      logAddr, physAddr, wire := LOG_ADDR_UNREGISTERED, PHYS_ADDR_INVALID, [];
    }

    /** Fills the message byte by byte. False stands for an exception, which sends nothing:
        the ValueError of a header that is no byte, or the IndexError of a payload that runs
        off the buffer. */
    method Transmit(destination: Byte, opcode: Byte, operands: seq<Byte>) returns (ok: bool)
      requires Valid()
      modifies `wire
      ensures Valid()
      ensures ok == (logAddr == LOG_ADDR_UNREGISTERED || (Addressable(logAddr) && |operands| <= 14))
      ensures wire == if logAddr == LOG_ADDR_UNREGISTERED || !ok then old(wire)
                      else old(wire) + [Sent(Loaded(Payload(logAddr, destination, opcode, operands)), physAddr)]
    {
      if logAddr == LOG_ADDR_UNREGISTERED {
        return true;
      }
      if ((logAddr as bv16) << 4) | (destination as bv16) > 0xFF {
        WideHeader(logAddr, destination);
        return false;
      }
      WideHeader(logAddr, destination);
      var payload := [Header(logAddr, destination), opcode] + operands;
      var buffer := new Byte[MAX_MSG_SIZE](_ => 0);
      for index := 0 to |payload|
        invariant index <= MAX_MSG_SIZE && wire == old(wire)
        invariant buffer[..] == payload[..index] + Zeros(MAX_MSG_SIZE - index)
      {
        if index >= buffer.Length {
          return false;
        }
        buffer[index] := payload[index];
      }
      assert payload[..|payload|] == payload;
      wire := wire + [Sent(Msg(|payload|, buffer[..]), physAddr)];
      return true;
    }

    method Announce() returns (ok: bool)
      requires Valid()
      modifies `wire
      ensures Valid() && (old(Grounded()) ==> Grounded())
      ensures ok == (physAddr == PHYS_ADDR_INVALID || Addressable(logAddr))
      ensures wire == old(wire) + Announcement(logAddr, physAddr, osdName)
    {
      if physAddr == PHYS_ADDR_INVALID {
        return true;
      }
      ok := Transmit(LOG_ADDR_TV, IMAGE_VIEW_ON, []);
      if !ok {
        return;
      }
      ok := Transmit(LOG_ADDR_BROADCAST, ACTIVE_SOURCE, [High(physAddr), Low(physAddr)]);
      if !ok {
        return;
      }
      ok := SendOsdName(LOG_ADDR_TV);
    }

    /** Asks for no physical address of its own: only its caller does. */
    method SendOsdName(destination: Byte) returns (ok: bool)
      requires Valid()
      modifies `wire
      ensures Valid() && (old(Grounded()) && physAddr != PHYS_ADDR_INVALID ==> Grounded())
      ensures ok == (osdName == [] || Addressable(logAddr))
      ensures wire == if logAddr == LOG_ADDR_UNREGISTERED || osdName == [] || !ok then old(wire)
                      else old(wire) + [Sent(Loaded(Payload(logAddr, destination, SET_OSD_NAME, osdName)), physAddr)]
    {
      if osdName == [] {
        return true;
      }
      ok := Transmit(destination, SET_OSD_NAME, osdName);
    }

    /** `granted` is the address the kernel hands out, None when the request fails. */
    method ClaimLogicalAddress(granted: Option<Byte>) returns (claimed: bool)
      requires Valid()
      modifies `logAddr
      ensures Valid()
      ensures claimed == (physAddr != PHYS_ADDR_INVALID && granted.Some?)
      ensures logAddr == if claimed then granted.value else old(logAddr)
    {
      if physAddr == PHYS_ADDR_INVALID || granted.None? {
        return false;
      }
      logAddr := granted.value;
      return true;
    }

    /** (Re)opening: the physical address is read afresh, the logical one is only replaced
        if a claim succeeds. */
    method Open(address: bv16, granted: Option<Byte>)
      requires Valid()
      modifies `physAddr, `logAddr
      ensures Valid() && physAddr == address
      ensures logAddr == if address != PHYS_ADDR_INVALID && granted.Some? then granted.value else old(logAddr)
    {
      physAddr := address;
      var _ := ClaimLogicalAddress(granted);
    }

    /** Not `ok` when the announcement of a fresh address raised; the event is lost then. */
    method OnStateChange(address: bv16, granted: Option<Byte>) returns (event: Option<Event>, ok: bool)
      requires Valid()
      modifies `physAddr, `logAddr, `wire
      ensures Valid() && physAddr == address && (old(Grounded()) ==> Grounded())
      ensures address == PHYS_ADDR_INVALID ==>
                logAddr == LOG_ADDR_UNREGISTERED && event == Some(AdapterLost) && wire == old(wire) && ok
      ensures address != PHYS_ADDR_INVALID && (address == old(physAddr) || granted.None?) ==>
                logAddr == old(logAddr) && event == None && wire == old(wire) && ok
      ensures address != PHYS_ADDR_INVALID && address != old(physAddr) && granted.Some? ==>
                && logAddr == granted.value && ok == Addressable(logAddr)
                && event == (if ok then Some(AdapterReady(address)) else None)
                && wire == old(wire) + Announcement(logAddr, address, osdName)
    {
      var previous := physAddr;
      physAddr := address;
      if address == PHYS_ADDR_INVALID {
        logAddr := LOG_ADDR_UNREGISTERED;
        return Some(AdapterLost), true;
      }
      if previous != address {
        var claimed := ClaimLogicalAddress(granted);
        if claimed {
          ok := Announce();
          return if ok then Some(AdapterReady(address)) else None, ok;
        }
      }
      return None, true;
    }

    /** Not `ok` when answering a stream path to us raised; the event is lost then. */
    method Decode(msg: Msg) returns (event: Option<Event>, ok: bool)
      requires Valid() && msg.Fits()
      modifies `wire
      ensures Valid() && (old(Grounded()) ==> Grounded())
      ensures ok == (Answers(msg.Opcode(), msg.Operands(), physAddr) && physAddr != PHYS_ADDR_INVALID ==>
                       Addressable(logAddr))
      ensures event == if ok then Meaning(msg.Opcode(), msg.Operands(), physAddr) else None
      ensures wire == if Answers(msg.Opcode(), msg.Operands(), physAddr)
                      then old(wire) + Announcement(logAddr, physAddr, osdName) else old(wire)
    {
      var opcode, operands := msg.Opcode(), msg.Operands();
      if opcode == Some(USER_CONTROL_PRESSED) && operands != [] {
        return Some(KeyPress(operands[0])), true;
      }
      if opcode == Some(USER_CONTROL_RELEASED) {
        return Some(KeyRelease), true;
      }
      if opcode == Some(STANDBY) {
        return Some(StandbyEvent), true;
      }
      if opcode == Some(IMAGE_VIEW_ON) || opcode == Some(TEXT_VIEW_ON) {
        return Some(Wake), true;
      }
      if opcode == Some(SET_STREAM_PATH) && |operands| >= 2 {
        var requested := Joined(operands[0], operands[1]);
        if requested == physAddr {
          ok := Announce();
          return if ok then Some(Wake) else None, ok;
        }
        return Some(SourceLost(requested)), true;
      }
      if opcode == Some(ACTIVE_SOURCE) && |operands| >= 2 {
        var requested := Joined(operands[0], operands[1]);
        if requested != physAddr {
          return Some(SourceLost(requested)), true;
        }
      }
      return None, true;
    }
  }

  /** Our own announcement, heard back, is never taken for another source. */
  lemma OwnAnnouncementSilent(logAddr: Byte, physAddr: bv16, osdName: seq<Byte>, i: nat)
    requires |osdName| <= 14 && i < |Announcement(logAddr, physAddr, osdName)|
    ensures var m := Announcement(logAddr, physAddr, osdName)[i].msg;
            && m.Fits() && m.Initiator() == logAddr
            && forall address :: Meaning(m.Opcode(), m.Operands(), physAddr) != Some(SourceLost(address))
  {
    var m := Announcement(logAddr, physAddr, osdName)[i].msg;
    if i == 0 {
      FrameRoundTrip(logAddr, LOG_ADDR_TV, IMAGE_VIEW_ON, []);
    } else if i == 1 {
      FrameRoundTrip(logAddr, LOG_ADDR_BROADCAST, ACTIVE_SOURCE, [High(physAddr), Low(physAddr)]);
      AddressRoundTrip(physAddr);
    } else {
      FrameRoundTrip(logAddr, LOG_ADDR_TV, SET_OSD_NAME, osdName);
    }
  }

  // ----- the wire, in numbers

  /** The header is the initiator times sixteen plus the destination. */
  lemma HeaderNumber(initiator: Byte, destination: Byte)
    requires initiator < 16 && destination < 16
    ensures Header(initiator, destination) == initiator * 16 + destination
  {
  }

  /** An address goes out high byte first. */
  lemma AddressBytes(address: bv16)
    ensures address == (High(address) as bv16) * 256 + (Low(address) as bv16)
  {
  }

  /** The bytes of an announcement: image view on (0x04) to the television, active source
      (0x82) with the physical address to everybody (15), and the name (0x47) to the
      television, in this order. */
  lemma AnnouncementBytes(logAddr: Byte, physAddr: bv16, name: seq<Byte>)
    requires |name| <= 14
    ensures physAddr == 0xFFFF || logAddr >= 15 ==> Announcement(logAddr, physAddr, name) == []
    ensures physAddr != 0xFFFF && logAddr < 15 ==>
              var sent := Announcement(logAddr, physAddr, name);
              && |sent| == (if name == [] then 2 else 3)
              && sent[0].msg.len == 2 && sent[0].msg.bytes[..2] == [Header(logAddr, 0), 0x04]
              && sent[1].msg.len == 4
              && sent[1].msg.bytes[..4] == [Header(logAddr, 15), 0x82, High(physAddr), Low(physAddr)]
              && (name != [] ==>
                    sent[2].msg.len == 2 + |name| && sent[2].msg.bytes[..2 + |name|] == [Header(logAddr, 0), 0x47] + name)
              && forall i :: 0 <= i < |sent| ==> sent[i].physAddr == physAddr
  {
    hide Header, High, Low, Zeros;
    if physAddr != 0xFFFF && logAddr < 15 {
      BytesOf(Payload(logAddr, 0, 0x04, []));
      BytesOf(Payload(logAddr, 15, 0x82, [High(physAddr), Low(physAddr)]));
      BytesOf(Payload(logAddr, 0, 0x47, name));
    }
  }

  lemma BytesOf(payload: seq<Byte>)
    requires |payload| <= 16
    ensures Loaded(payload).len == |payload| && Loaded(payload).bytes[..|payload|] == payload
  {
  }

  /** What each opcode means: 0x44 a key pressed, 0x45 a key let go, 0x36 standby, 0x04 and
      0x0D wake, 0x86 a stream path to us or to another, 0x82 another source, and everything
      else nothing. */
  lemma EventTable(opcode: Byte, operands: seq<Byte>, physAddr: bv16)
    ensures Meaning(None, operands, physAddr) == None
    ensures Meaning(Some(opcode), operands, physAddr)
         == if opcode == 0x44 && |operands| >= 1 then Some(KeyPress(operands[0]))
            else if opcode == 0x45 then Some(KeyRelease)
            else if opcode == 0x36 then Some(StandbyEvent)
            else if opcode == 0x04 || opcode == 0x0D then Some(Wake)
            else if opcode == 0x86 && |operands| >= 2 then
              if operands[0] == High(physAddr) && operands[1] == Low(physAddr) then Some(Wake)
              else Some(SourceLost(Joined(operands[0], operands[1])))
            else if opcode == 0x82 && |operands| >= 2 && !(operands[0] == High(physAddr) && operands[1] == Low(physAddr))
              then Some(SourceLost(Joined(operands[0], operands[1])))
            else None
    ensures Answers(Some(opcode), operands, physAddr) <==>
            opcode == 0x86 && |operands| >= 2 && operands[0] == High(physAddr) && operands[1] == Low(physAddr)
  {
    if |operands| >= 2 {
      JoinedIff(operands[0], operands[1], physAddr);
    }
    hide Joined, High, Low;
  }

  lemma JoinedIff(high: Byte, low: Byte, address: bv16)
    ensures Joined(high, low) == address <==> high == High(address) && low == Low(address)
  {
    AddressRoundTrip(address);
  }
}
