/**
 * The device behind sane_control_option and sane_get_option_descriptor, as a
 * scripted oracle: each call consumes the next scripted reply, and every
 * SET_VALUE payload is logged. An exhausted script answers with an I/O error.
 */
module Device {
  import opened Wrappers
  import opened Sane

  /** The answer to a GET_VALUE call: its status and the bytes it wrote. */
  datatype GetReply = GetReply(status: Status, data: seq<Byte>)

  /** The answer to a SET_VALUE call: its status and the SANE_INFO_* bits. */
  datatype SetReply = SetReply(status: Status, info: bv32)

  function Zeros(n: nat): (z: seq<Byte>)
    ensures |z| == n && forall i :: 0 <= i < n ==> z[i] == 0
  {
    seq(n, i => 0)
  }

  /** The `size`-byte buffer the caller passes, as the device leaves it. */
  function Fill(data: seq<Byte>, size: nat): (b: seq<Byte>)
    ensures |b| == size
    ensures forall i :: 0 <= i < size && i < |data| ==> b[i] == data[i]
  {
    if |data| >= size then data[..size] else data + Zeros(size - |data|)
  }

  /** The script without its first reply. */
  function Rest<T>(s: seq<T>): (r: seq<T>)
    ensures s != [] ==> r == s[1..]
    ensures s == [] ==> r == []
  {
    if s == [] then [] else s[1..]
  }

  /** The reply to the next GET_VALUE call into a buffer of `size` bytes. */
  function NextGet(gets: seq<GetReply>, size: nat): (r: GetReply)
    ensures |r.data| == size
    ensures gets == [] ==> r.status == IoError
    ensures gets != [] ==> r.status == gets[0].status
  {
    if gets == [] then GetReply(IoError, Zeros(size))
    else GetReply(gets[0].status, Fill(gets[0].data, size))
  }

  /** The reply to the next SET_VALUE call. */
  function NextSet(sets: seq<SetReply>): (r: SetReply)
    ensures sets == [] ==> r.status == IoError
    ensures sets != [] ==> r == sets[0]
  {
    if sets == [] then SetReply(IoError, 0) else sets[0]
  }

  /** One option of an open device handle. */
  class OptionDevice {
    var descriptor: Option<Descriptor>
    var getReplies: seq<GetReply>
    var setReplies: seq<SetReply>
    var writes: seq<seq<Byte>>

    constructor (descriptor: Option<Descriptor>, gets: seq<GetReply>, sets: seq<SetReply>)
      ensures this.descriptor == descriptor
      ensures getReplies == gets && setReplies == sets && writes == []
    {
      this.descriptor := descriptor;
      getReplies := gets;
      setReplies := sets;
      writes := [];
    }

    /** sane_control_option(..., SANE_ACTION_GET_VALUE, buffer of `size` bytes, ...) */
    method GetValue(size: nat) returns (r: GetReply)
      modifies this`getReplies
      ensures r == NextGet(old(getReplies), size)
      ensures getReplies == Rest(old(getReplies))
    {
      r := NextGet(getReplies, size);
      getReplies := Rest(getReplies);
    }

    /** sane_control_option(..., SANE_ACTION_SET_VALUE, data, &info) */
    method SetValue(data: seq<Byte>) returns (r: SetReply)
      modifies this`setReplies, this`writes
      ensures r == NextSet(old(setReplies))
      ensures setReplies == Rest(old(setReplies))
      ensures writes == old(writes) + [data]
    {
      r := NextSet(setReplies);
      setReplies := Rest(setReplies);
      writes := writes + [data];
    }
  }
}
