/** The serial port the session manager talks through, as a scripted
    double: it records every frame written, and each receive window
    (one call of `receive_response`, which polls until RECEIVE_TIMEOUT)
    yields the next scripted outcome, a validated reply or silence.
    A script that has run out is silence from then on. */
module Transport {
  import opened PyBase
  import opened Wire

  /** The outcome of the next receive window. */
  function Next(rs: seq<Option<Reply>>): Option<Reply>
  {
    if |rs| > 0 then rs[0] else None
  }

  /** The i-th scripted outcome, silence past the end. */
  function At(rs: seq<Option<Reply>>, i: nat): (r: Option<Reply>)
    ensures i == 0 ==> r == Next(rs)
  {
    if i < |rs| then rs[i] else None
  }

  /** The script after k receive windows. */
  function Drop(rs: seq<Option<Reply>>, k: nat): (d: seq<Option<Reply>>)
    ensures |d| == if k <= |rs| then |rs| - k else 0
  {
    if k <= |rs| then rs[k..] else []
  }

  lemma DropStep(rs: seq<Option<Reply>>, k: nat)
    ensures Drop(Drop(rs, k), 1) == Drop(rs, k + 1)
    ensures Next(Drop(rs, k)) == At(rs, k)
  {
  }

  class Port {
    var written: seq<Frame>
    var replies: seq<Option<Reply>>
    var isOpen: bool

    constructor (script: seq<Option<Reply>>)
      ensures written == [] && replies == script && isOpen
    {
      written, replies, isOpen := [], script, true;
    }

    /** `uart.write(Packet.pack(id, cmd, params))` */
    method Write(f: Frame)
      modifies this
      ensures written == old(written) + [f]
      ensures replies == old(replies) && isOpen == old(isOpen)
    {
      written := written + [f];
    }

    /** One receive window. */
    method ReceiveWindow() returns (r: Option<Reply>)
      modifies this
      ensures r == Next(old(replies)) && replies == Drop(old(replies), 1)
      ensures written == old(written) && isOpen == old(isOpen)
    {
      r := Next(replies);
      replies := Drop(replies, 1);
    }

    method Close()
      modifies this
      ensures !isOpen && written == old(written) && replies == old(replies)
    {
      isOpen := false;
    }
  }
}
