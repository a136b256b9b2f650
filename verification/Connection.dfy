/** The connection object: its progress counters and buffers, updated in place.  What the
    system calls did is a parameter; bytes given to write, the call to the poll manager and
    the signals to waiting senders are results. */
module Connection {
  import opened Basics
  import opened Wire
  import Channel
  import Framing
  import PollMgr

  class Connection {
    const fd: nat
    var dead: bool
    var waiters: nat
    var wbuf: Option<Bytes>
    var wsz: nat
    var wsolong: int
    var rbuf: Option<Bytes>
    var rsz: nat
    var rsolong: nat

    ghost function Out(): Channel.Out
      reads this
    {
      Channel.Out(dead, wbuf, wsolong, wsz)
    }

    ghost function In(): Channel.In
      reads this
    {
      Channel.In(dead, rbuf, rsz, rsolong)
    }

    constructor (d: nat)
      ensures fd == d && waiters == 0
      ensures Out() == Framing.Init().out && In() == Framing.Init().inn
    {
      fd, waiters := d, 0;
      dead, wbuf, wsz, wsolong, rbuf, rsz, rsolong := false, None, 0, 0, None, 0, 0;
    }

    method WritePdu(w: Channel.WriteResult) returns (written: Bytes, ok: bool)
      requires Channel.Writable(Out(), w)
      modifies `wbuf, `wsz, `wsolong
      ensures (Out(), written, ok) == Channel.WritePdu(old(Out()), w)
      ensures ok <==> !(old(wsolong) < old(wsz) && w.Failed?)
      ensures ok ==> wsolong == old(wsolong) + |written| && wsz == old(wsz)
    {
      written, ok := [], true;
      if wsolong == wsz {
        return;
      }
      var pdu := wbuf.value;
      if wsolong == 0 {
        pdu := SetLength(pdu);
        wbuf := Some(pdu);
      }
      if w.Failed? {
        wsolong, wsz := -1, 0;
        return [], false;
      }
      if w.WouldBlock? {
        return [], true;
      }
      written := pdu[wsolong..wsolong + w.n];
      wsolong := wsolong + w.n;
    }

    /** `send` begins to wait for its turn. */
    method SendEnter()
      modifies `waiters
      ensures waiters == old(waiters) + 1
    {
      waiters := waiters + 1;
    }

    /** The end of that wait on a dead connection. */
    method SendRefused() returns (ret: bool)
      requires dead && waiters > 0
      modifies `waiters
      ensures waiters == old(waiters) - 1 && !ret
    {
      waiters := waiters - 1;
      ret := false;
    }

    /** Thread t's part of `send` from its turn to its first wait or removal: an error sets
        the dead flag and calls for a removal, a partial write for the write callback. */
    method SendStart(t: nat, m: Bytes, w: Channel.WriteResult)
      returns (written: Bytes, ok: bool, call: PollMgr.Action)
      requires !dead && wbuf.None? && waiters > 0 && Channel.Writable(Framing.Loaded(Out(), m), w)
      modifies `waiters, `dead, `wbuf, `wsz, `wsolong
      ensures waiters == old(waiters) - 1
      ensures
        var (o, b, live) := Channel.WritePdu(Framing.Loaded(old(Out()), m), w);
        && Out() == (if live then o else o.(dead := true)) && written == b && ok == live
        && call == if !live then PollMgr.RemoveBegins(t, fd)
                   else if o.solong < o.sz then PollMgr.Add(fd, PollMgr.WriteOnly)
                   else PollMgr.Elsewhere
    {
      waiters := waiters - 1;
      wbuf, wsz, wsolong := Some(m), |m|, 0;
      written, ok := WritePdu(w);
      call := PollMgr.Elsewhere;
      if !ok {
        dead := true;
        call := PollMgr.RemoveBegins(t, fd);
      } else if wsolong != wsz {
        call := PollMgr.Add(fd, PollMgr.WriteOnly);
      }
    }

    /** The end of `send`: its result, and the turn given up to all who wait for one. */
    method SendEnd() returns (ret: bool, broadcast: bool)
      modifies `wbuf, `wsz, `wsolong
      ensures ret == (!dead && old(wsolong) == old(wsz)) && broadcast == (waiters > 0)
      ensures wbuf.None? && wsz == 0 && wsolong == 0 && dead == old(dead)
      ensures Out() == Channel.Release(old(Out()))
    {
      ret := !dead && wsolong == wsz;
      wsolong, wsz, wbuf := 0, 0, None;
      broadcast := waiters > 0;
    }

    /** closeconn up to the removal, which only the first to set the flag does. */
    method CloseConn(t: nat) returns (call: PollMgr.Action)
      modifies `dead
      ensures dead && call == if old(dead) then PollMgr.Elsewhere else PollMgr.RemoveBegins(t, fd)
    {
      if dead {
        return PollMgr.Elsewhere;
      }
      dead := true;
      call := PollMgr.RemoveBegins(t, fd);
    }

    /** write_cb: the sender is signalled when its message is complete or failed. */
    method WriteCb(w: Channel.WriteResult) returns (written: Bytes, call: PollMgr.Action, signal: bool)
      requires !dead && (wsz != 0 ==> Channel.Writable(Out(), w))
      modifies `dead, `wbuf, `wsz, `wsolong
      ensures (Out(), written) == Channel.WriteCb(old(Out()), w)
      ensures dead <==> old(wsz) != 0 && old(wsolong) < old(wsz) && w.Failed?
      ensures signal == (old(wsz) != 0 && (dead || wsolong >= wsz))
      ensures call == if old(wsz) == 0 then PollMgr.Del(fd, PollMgr.WriteOnly)
                      else if dead then PollMgr.Del(fd, PollMgr.ReadWrite)
                      else PollMgr.Elsewhere
    {
      if wsz == 0 {
        return [], PollMgr.Del(fd, PollMgr.WriteOnly), false;
      }
      var ok;
      written, ok := WritePdu(w);
      call := PollMgr.Elsewhere;
      if !ok {
        call := PollMgr.Del(fd, PollMgr.ReadWrite);
        dead := true;
      } else if wsolong < wsz {
        return written, call, false;
      }
      signal := true;
    }

    method ReadPdu(r1: Channel.ReadResult, r2: Channel.ReadResult) returns (taken: Bytes, ok: bool)
      requires Channel.InOk(In()) && Channel.Sizes(In(), r1, r2)
      modifies `rbuf, `rsz, `rsolong
      ensures (In(), taken, ok) == Channel.ReadPdu(old(In()), r1, r2)
      ensures ok <==> !Channel.ReadFails(old(In()), r1, r2)
      ensures ok ==> rbuf.Some? && rbuf.value == Channel.Held(old(In())) + taken
    {
      Channel.ReadPduFailsIff(In(), r1, r2);
      taken := [];
      if rsz == 0 {
        taken := Channel.BytesOf(r1);
        if r1.Nothing? || |r1.b| != 4 || Unpack32(r1.b) > Channel.MAX_PDU {
          return taken, false;
        }
        rsz, rbuf, rsolong := Unpack32(r1.b), Some(r1.b), 4;
      }
      assert [] + Channel.BytesOf(r2) == Channel.BytesOf(r2);
      taken := taken + Channel.BytesOf(r2);
      if r2.Nothing? {
        if !r2.again {
          rbuf, rsz, rsolong := None, 0, 0;
        }
        return taken, r2.again;
      }
      rbuf, rsolong := Some(rbuf.value + r2.b), rsolong + |r2.b|;
      ok := true;
    }

    /** read_cb; `accepts` is what got_pdu would answer to a complete message.  A failed read
        unregisters the connection and signals the sender. */
    method ReadCb(r1: Channel.ReadResult, r2: Channel.ReadResult, accepts: bool)
      returns (taken: Bytes, got: Option<Bytes>, call: PollMgr.Action, signal: bool)
      requires Channel.InOk(In()) && Channel.Sizes(In(), r1, r2)
      modifies `dead, `rbuf, `rsz, `rsolong
      ensures (In(), taken, got) == Channel.ReadCb(old(In()), r1, r2, accepts)
      ensures dead <==> old(dead) || ((old(rbuf).None? || old(rsolong) < old(rsz)) && Channel.ReadFails(old(In()), r1, r2))
      ensures signal == (dead && !old(dead))
      ensures call == if dead && !old(dead) then PollMgr.Del(fd, PollMgr.ReadWrite) else PollMgr.Elsewhere
    {
      taken, got, call, signal := [], None, PollMgr.Elsewhere, false;
      if dead {
        return;
      }
      var succ := true;
      if rbuf.None? || rsolong < rsz {
        taken, succ := ReadPdu(r1, r2);
      }
      if !succ {
        call := PollMgr.Del(fd, PollMgr.ReadWrite);
        dead := true;
        signal := true;
      }
      if rbuf.Some? && rsz == rsolong {
        if accepts {
          got := rbuf;
          rbuf, rsz, rsolong := None, 0, 0;
        }
      }
    }
  }
}
