/** The per-descriptor store of unparsed bytes (StateMachine/Bufferable). */
module Bufferables {
  import opened Bytes

  /** A missing entry and an empty one hold the same bytes. */
  function Saved(buf: map<int, bytes>, id: int): bytes {
    if id in buf then buf[id] else []
  }

  class Bufferable {
    var buf: map<int, bytes>

    constructor ()
      ensures buf == map[]
    {
      buf := map[];
    }

    /** The message with what was saved for `id` put in front; nothing stays saved. */
    method AppendBuf(id: int, message: bytes) returns (whole: bytes)
      modifies this
      ensures whole == old(Saved(buf, id)) + message
      ensures buf == old(buf) - {id} && buf - {id} == old(buf) - {id}
    {
      if id in buf {
        whole := buf[id] + message;
        buf := buf - {id};
      } else {
        assert [] + message == message;
        whole := message;
      }
    }

    method NeedBuf(id: int, message: bytes, cond: bool) returns (r: bool)
      modifies this
      ensures r == cond
      ensures buf == if cond then old(buf)[id := message] else old(buf)
      ensures buf - {id} == old(buf) - {id}
    {
      if cond {
        buf := buf[id := message];
        return true;
      }
      return false;
    }

    method GetBuf(id: int, clear: bool := true) returns (r: bytes)
      modifies this
      ensures r == old(Saved(buf, id))
      ensures clear ==> buf == old(buf) - {id}
      ensures !clear ==> buf == old(buf)[id := r]
    {
      r := if id in buf then buf[id] else [];
      buf := buf[id := r];
      if clear {
        buf := buf - {id};
      }
    }

    method EraseBuf(id: int)
      modifies this
      ensures buf == old(buf) - {id} && buf - {id} == old(buf) - {id}
    {
      buf := buf - {id};
    }
  }
}
