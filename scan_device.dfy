/**
 * The scanning calls of an open SANE handle (sane_start,
 * sane_get_parameters, sane_read, sane_cancel) as a scripted oracle: each
 * call consumes the next scripted reply; an exhausted script answers with an
 * I/O error.
 */
module ScanDevice {
  import opened Sane
  import opened Device

  /** The answer to sane_read: its status and the bytes it delivers. */
  datatype ReadReply = ReadReply(status: Status, bytes: seq<Byte>)

  /** The answer to sane_get_parameters. */
  datatype ParamReply = ParamReply(status: Status, params: Parameters)

  function NextStatus(s: seq<Status>): (r: Status)
    ensures s == [] ==> r == IoError
    ensures s != [] ==> r == s[0]
  {
    if s == [] then IoError else s[0]
  }

  function NextParams(s: seq<ParamReply>, current: Parameters): (r: ParamReply)
    ensures s == [] ==> r == ParamReply(IoError, current)
    ensures s != [] ==> r == s[0]
  {
    if s == [] then ParamReply(IoError, current) else s[0]
  }

  function NextRead(s: seq<ReadReply>): (r: ReadReply)
    ensures s == [] ==> r == ReadReply(IoError, [])
    ensures s != [] ==> r == s[0]
  {
    if s == [] then ReadReply(IoError, []) else s[0]
  }

  /** The bytes a read delivers into a buffer of `room` bytes. */
  function Delivered(r: ReadReply, room: nat): (n: nat)
    ensures n <= room && n <= |r.bytes|
    ensures n == room || n == |r.bytes|
  {
    if |r.bytes| < room then |r.bytes| else room
  }

  class ScanHandle {
    var startReplies: seq<Status>
    var paramReplies: seq<ParamReply>
    var readReplies: seq<ReadReply>
    var cancels: nat

    constructor (startReplies: seq<Status>, paramReplies: seq<ParamReply>, readReplies: seq<ReadReply>)
      ensures this.startReplies == startReplies && this.paramReplies == paramReplies && this.readReplies == readReplies
      ensures cancels == 0
    {
      this.startReplies := startReplies;
      this.paramReplies := paramReplies;
      this.readReplies := readReplies;
      cancels := 0;
    }

    /** sane_start */
    method Start() returns (s: Status)
      modifies this`startReplies
      ensures s == NextStatus(old(startReplies))
      ensures startReplies == Rest(old(startReplies))
    {
      s := NextStatus(startReplies);
      startReplies := Rest(startReplies);
    }

    /** sane_get_parameters; on failure the caller's structure is left as it was. */
    method GetParameters(current: Parameters) returns (r: ParamReply)
      modifies this`paramReplies
      ensures r == NextParams(old(paramReplies), current)
      ensures paramReplies == Rest(old(paramReplies))
    {
      r := NextParams(paramReplies, current);
      paramReplies := Rest(paramReplies);
    }

    /** sane_read into `buf`: the delivered bytes land at its front, the rest is untouched. */
    method Read(buf: array<Byte>) returns (status: Status, n: nat)
      modifies this`readReplies, buf
      ensures var r := NextRead(old(readReplies));
        && status == r.status
        && n == Delivered(r, buf.Length)
        && buf[..n] == r.bytes[..n]
        && buf[n..] == old(buf[n..])
      ensures readReplies == Rest(old(readReplies))
    {
      var r := NextRead(readReplies);
      readReplies := Rest(readReplies);
      status := r.status;
      n := Delivered(r, buf.Length);
      forall i | 0 <= i < n {
        buf[i] := r.bytes[i];
      }
    }

    /** sane_cancel */
    method Cancel()
      modifies this`cancels
      ensures cancels == old(cancels) + 1
    {
      cancels := cancels + 1;
    }
  }
}
