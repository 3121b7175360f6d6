/**
 * The serial port the plugin writes its frames to. The operating system's
 * port handle is reduced to whether the port is open; every write that
 * reaches the line is kept, in order, in `sent`.
 */
module SerialPort {

  /** What the operating system answers when a port is opened and configured. */
  datatype DeviceOutcome = Opens | CannotOpen | CannotGetConfig | CannotSetConfig

  const ALREADY_OPEN := "COM port already open"
  const CANNOT_OPEN := "Can not open COM port"
  const CANNOT_GET_CONFIG := "Can not get COM port config"
  const CANNOT_SET_CONFIG := "Can not set COM port config"

  /** The message `open` leaves behind for a device outcome; empty on success. */
  function OpenError(device: DeviceOutcome): (msg: string)
    ensures msg == "" <==> device == Opens
  {
    match device
    case Opens => ""
    case CannotOpen => CANNOT_OPEN
    case CannotGetConfig => CANNOT_GET_CONFIG
    case CannotSetConfig => CANNOT_SET_CONFIG
  }

  class Serial {
    /** The handle is valid. */
    var open: bool
    /** The name the port was last opened under. */
    var name: string
    /** Every block of bytes written to the line, oldest first. */
    var sent: seq<seq<bv8>>

    constructor ()
      ensures !open && sent == []
    {
      open, name, sent := false, "", [];
    }

    /**
     * Opening a port that is already open fails and, on the way out,
     * closes the port that was open. Any failure while configuring a fresh
     * port leaves it closed.
     */
    method Open(portName: string, device: DeviceOutcome) returns (ok: bool, errmsg: string)
      modifies this`open, this`name
      ensures ok <==> !old(open) && device == Opens
      ensures open == ok
      ensures ok ==> name == portName
      ensures !ok ==> name == old(name)
      ensures errmsg == if old(open) then ALREADY_OPEN else OpenError(device)
      ensures ok <==> errmsg == ""
    {
      ok, errmsg := false, "";
      if open {
        errmsg := ALREADY_OPEN;
      } else {
        errmsg := OpenError(device);
        ok := device == Opens;
        if ok {
          open, name := true, portName;
        }
      }
      if !ok {
        Close();
      }
    }

    method Close()
      modifies this`open
      ensures !open
    {
      if open {
        open := false;
      }
    }

    /** Sends the first `length` bytes of `data`, when there are any and the port is open. */
    method Write(data: array<bv8>, length: nat)
      requires length <= data.Length
      modifies this`sent
      ensures sent == if open && length > 0 then old(sent) + [data[..length]] else old(sent)
    {
      if length == 0 {
        return;
      }
      if open {
        sent := sent + [data[..length]];
      }
    }
  }
}
