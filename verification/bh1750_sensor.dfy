/** Bh1750Sensor: the I2C light-sensor port. The system calls (open, ioctl,
    read, write) are replaced by the values they return; what remains is the
    fixed start-up command sequence, the short-transfer checks and the
    conversion of the two measurement bytes to lux. */
module Bh1750 {
  import opened Types

  const CmdPowerOn: byte := 0x01
  const CmdReset: byte := 0x07
  const CmdContinuousHighRes: byte := 0x10
  const LuxDivisor: real := 1.2

  /** Commands written by the constructor, in order. */
  const InitCommands: seq<byte> := [CmdPowerOn, CmdReset, CmdContinuousHighRes]

  datatype SensorError = OpenFailed | SelectAddressFailed | WriteCommandFailed | ReadFailed

  /** The 16-bit measurement from the two bytes read, `(buf[0] << 8) | buf[1]`
      narrowed to uint16. The shifted high byte is a multiple of 0x100 and the
      low byte is below 0x100, so their bitwise or is their sum. The result
      is the big-endian word: high byte first. */
  function RawWord(hi: byte, lo: byte): (raw: nat)
    ensures raw < 0x1_0000
    ensures raw / 0x100 == hi && raw % 0x100 == lo
  {
    var shifted := (hi * 0x100) % 0x1_0000;
    shifted + lo
  }

  /** Every 16-bit word is the reading of exactly one byte pair. */
  lemma RawWordOnto(raw: nat)
    requires raw < 0x1_0000
    ensures RawWord(raw / 0x100, raw % 0x100) == raw
  {
  }

  /** Lux from the raw measurement (the sensor's 1.2 counts per lux). */
  function Lux(raw: nat): (lux: real)
    ensures lux >= 0.0
    ensures lux * LuxDivisor == raw as real
  {
    raw as real / LuxDivisor
  }

  /** More counts always mean more lux. */
  lemma LuxStrictlyMonotone(a: nat, b: nat)
    requires a < b
    ensures Lux(a) < Lux(b)
  {
    assert Lux(a) * LuxDivisor < Lux(b) * LuxDivisor;
  }

  /** The return value of `read(fd, buf, 2)` and the buffer's two bytes
      afterwards (the buffer starts zeroed). */
  datatype ReadReply = ReadReply(rc: int, buf0: byte, buf1: byte)

  /** `readLux()`: anything other than a full two-byte read is an error. */
  function ReadLux(reply: ReadReply): (r: Result<real, SensorError>)
    ensures r.Ok? <==> reply.rc == 2
    ensures r.Err? ==> r.error == ReadFailed
    ensures r.Ok? ==> 0.0 <= r.value && r.value * LuxDivisor == (reply.buf0 * 0x100 + reply.buf1) as real
  {
    if reply.rc != 2 then Err(ReadFailed)
    else Ok(Lux(RawWord(reply.buf0, reply.buf1)))
  }

  /** `writeCommand(cmd)`: anything other than a one-byte write is an error. */
  function WriteCommand(rc: int): (r: Result<(), SensorError>)
    ensures r.Ok? <==> rc == 1
    ensures r.Err? ==> r.error == WriteCommandFailed
  {
    if rc != 1 then Err(WriteCommandFailed) else Ok(())
  }

  /** What the bus reports during construction: whether the device node
      opened, whether the address was selected, and the return value of the
      k-th command write. */
  datatype BusReplies = BusReplies(nodeOpened: bool, addressed: bool, writeRc: nat -> int)

  datatype Device = Device(path: string, address: byte)

  /** The constructor. Returns the device or the error, the command bytes it
      issued in order, and whether the descriptor is left open. */
  method Create(path: string, address: byte, bus: BusReplies)
    returns (r: Result<Device, SensorError>, issued: seq<byte>, fdOpen: bool)
    ensures issued <= InitCommands
    ensures r.Ok? <==> bus.nodeOpened && bus.addressed && forall k :: 0 <= k < 3 ==> bus.writeRc(k) == 1
    ensures r.Ok? ==> r.value == Device(path, address) && issued == InitCommands && fdOpen
    ensures !bus.nodeOpened ==> r == Err(OpenFailed) && issued == [] && !fdOpen
    ensures bus.nodeOpened && !bus.addressed ==> r == Err(SelectAddressFailed) && issued == [] && !fdOpen
    ensures r.Err? && bus.nodeOpened && bus.addressed ==>
      && r.error == WriteCommandFailed
      && 0 < |issued| && bus.writeRc(|issued| - 1) != 1
      && (forall k :: 0 <= k < |issued| - 1 ==> bus.writeRc(k) == 1)
      && fdOpen
  {
    if !bus.nodeOpened {
      return Err(OpenFailed), [], false;
    }
    if !bus.addressed {
      return Err(SelectAddressFailed), [], false;
    }
    issued := [];
    var i := 0;
    while i < |InitCommands|
      invariant 0 <= i <= |InitCommands|
      invariant issued == InitCommands[..i]
      invariant forall k :: 0 <= k < i ==> bus.writeRc(k) == 1
    {
      issued := issued + [InitCommands[i]];
      var w := WriteCommand(bus.writeRc(i));
      if w.Err? {
        // The descriptor is not closed on this path; the process exits right after.
        return Err(w.error), issued, true;
      }
      i := i + 1;
    }
    return Ok(Device(path, address)), issued, true;
  }
}
