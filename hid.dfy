/**
 * The HID gadget interface as the keyboard and the mouse see it: a sink for
 * raw keyboard reports, a sink for raw mouse reports and a source of the
 * host's one-byte LED report.  The device files, `write_all`/`sync_all` and
 * the `ppoll` read with a timeout are not modelled; every write and every
 * read may fail, and the ghost logs record the writes reported as
 * successful and the reads' outcomes.
 */
module Transport {

  import opened Wrappers

  /** Any error of the underlying device file. */
  datatype IoError = IoError

  /** The outcome of an operation that may fail with an I/O error. */
  datatype Result<T> = Ok(value: T) | Err(error: IoError)

  /** The HID interface: one file per report kind. */
  class Hid {
    /** Keyboard reports written so far, oldest first. */
    ghost var keyLog: seq<seq<bv8>>
    /** Mouse reports written so far, oldest first. */
    ghost var mouseLog: seq<seq<bv8>>
    /** Outcomes of the LED-report reads so far, oldest first: a byte, no
        byte before the timeout, or an error. */
    ghost var ledReads: seq<Result<Option<bv8>>>

    constructor ()
      ensures keyLog == [] && mouseLog == [] && ledReads == []
    {
      keyLog := [];
      mouseLog := [];
      ledReads := [];
    }

    /** Writes one keyboard report; on success it is appended to the log. */
    method SendKeyPacket(data: seq<bv8>) returns (r: Result<()>)
      modifies this
      ensures r.Ok? ==> keyLog == old(keyLog) + [data]
      ensures r.Err? ==> keyLog == old(keyLog)
      ensures mouseLog == old(mouseLog) && ledReads == old(ledReads)
    {
      r := *;
      if r.Ok? {
        keyLog := keyLog + [data];
      }
    }

    /** Writes one mouse report; on success it is appended to the log. */
    method SendMousePacket(data: seq<bv8>) returns (r: Result<()>)
      modifies this
      ensures r.Ok? ==> mouseLog == old(mouseLog) + [data]
      ensures r.Err? ==> mouseLog == old(mouseLog)
      ensures keyLog == old(keyLog) && ledReads == old(ledReads)
    {
      r := *;
      if r.Ok? {
        mouseLog := mouseLog + [data];
      }
    }

    /** Waits for the host's LED report; whatever comes back is recorded. */
    method ReceiveStatesPacket() returns (r: Result<Option<bv8>>)
      modifies this
      ensures ledReads == old(ledReads) + [r]
      ensures keyLog == old(keyLog) && mouseLog == old(mouseLog)
    {
      r := *;
      ledReads := ledReads + [r];
    }
  }
}
