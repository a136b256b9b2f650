/** The select-based watcher and the poll manager's tables as objects. */
module SelectAio {
  import opened PollMgr

  /** h is the largest watched descriptor. */
  ghost predicate IsHighest(h: nat, rd: set<nat>, wr: set<nat>) {
    (h in rd || h in wr) && forall fd :: fd in rd || fd in wr ==> fd <= h
  }

  /** The descriptors of s from lo up to hi, in ascending order, without the pipe. */
  function Listed(s: set<nat>, pipe: nat, lo: nat, hi: nat): seq<nat>
    decreases hi - lo
  {
    if lo >= hi then []
    else
      var rest := Listed(s, pipe, lo, hi - 1);
      if hi - 1 in s && hi - 1 != pipe then rest + [hi - 1] else rest
  }

  /** The list names every ready descriptor in range once, in order, and nothing else. */
  lemma {:induction false} ListedMeaning(s: set<nat>, pipe: nat, hi: nat, fd: nat)
    ensures fd in Listed(s, pipe, 0, hi) <==> fd in s && fd != pipe && fd < hi
    ensures forall i, j :: 0 <= i < j < |Listed(s, pipe, 0, hi)| ==> Listed(s, pipe, 0, hi)[i] < Listed(s, pipe, 0, hi)[j]
  {
    if hi > 0 {
      ListedMeaning(s, pipe, hi - 1, fd);
      var l := Listed(s, pipe, 0, hi - 1);
      forall i | 0 <= i < |l| ensures l[i] < hi - 1 {
        ListedBelow(s, pipe, hi - 1, l[i]);
      }
    }
  }

  lemma {:induction false} ListedBelow(s: set<nat>, pipe: nat, hi: nat, x: nat)
    requires x in Listed(s, pipe, 0, hi)
    ensures x < hi
  {
    if hi > 0 && x in Listed(s, pipe, 0, hi - 1) {
      ListedBelow(s, pipe, hi - 1, x);
    }
  }

  class SelectAIO {
    var rfds: set<nat>
    var wfds: set<nat>
    var highfds: nat
    var bytes: nat
    const pipe: nat

    /** The read end of the pipe is always watched, and `highfds` is exact. */
    ghost predicate Valid()
      reads this
    {
      pipe in rfds && pipe !in wfds && IsHighest(highfds, rfds, wfds)
    }

    constructor (pipefd: nat)
      ensures Valid() && rfds == {pipefd} && wfds == {} && pipe == pipefd && bytes == 0
    {
      pipe, rfds, wfds, highfds, bytes := pipefd, {pipefd}, {}, pipefd, 0;
    }

    method WatchFd(fd: nat, flag: Flag)
      requires Valid() && fd != pipe
      modifies this
      ensures Valid()
      ensures rfds == (if flag.WriteOnly? then old(rfds) else old(rfds) + {fd})
      ensures wfds == (if flag.ReadOnly? then old(wfds) else old(wfds) + {fd})
      ensures bytes == old(bytes) + 1
    {
      if highfds <= fd {
        highfds := fd;
      }
      if flag.ReadOnly? {
        rfds := rfds + {fd};
      } else if flag.WriteOnly? {
        wfds := wfds + {fd};
      } else {
        rfds := rfds + {fd};
        wfds := wfds + {fd};
      }
      bytes := bytes + 1;
    }

    /** unwatch_fd: true when nothing of fd is watched any more. */
    method UnwatchFd(fd: nat, flag: Flag) returns (gone: bool)
      requires Valid() && fd != pipe
      modifies this
      ensures Valid()
      ensures rfds == (if flag.WriteOnly? then old(rfds) else old(rfds) - {fd})
      ensures wfds == (if flag.ReadOnly? then old(wfds) else old(wfds) - {fd})
      ensures bytes == if flag.ReadWrite? then old(bytes) + 1 else old(bytes)
      ensures gone <==> fd !in rfds && fd !in wfds
    {
      if flag.ReadOnly? {
        rfds := rfds - {fd};
      } else if flag.WriteOnly? {
        wfds := wfds - {fd};
      } else {
        wfds := wfds - {fd};
        rfds := rfds - {fd};
      }
      if fd !in rfds && fd !in wfds {
        if fd == highfds {
          var newh := pipe;
          var i := 0;
          while i <= highfds
            invariant i <= highfds + 1
            invariant newh in rfds || newh in wfds
            invariant forall k :: 0 <= k < i && (k in rfds || k in wfds) ==> k <= newh
          {
            if i in rfds {
              newh := i;
            } else if i in wfds {
              newh := i;
            }
            i := i + 1;
          }
          highfds := newh;
        }
      }
      if flag.ReadWrite? {
        bytes := bytes + 1;
      }
      gone := fd !in rfds && fd !in wfds;
    }

    /** wait_ready once select has said which of the first high + 1 descriptors are ready. */
    method Collect(high: nat, trfds: set<nat>, twfds: set<nat>) returns (readable: seq<nat>, writable: seq<nat>)
      requires pipe !in twfds && (pipe in trfds && pipe <= high ==> bytes > 0)
      modifies this
      ensures readable == Listed(trfds, pipe, 0, high + 1) && writable == Listed(twfds, pipe, 0, high + 1)
      ensures bytes == if pipe in trfds && pipe <= high then old(bytes) - 1 else old(bytes)
      ensures rfds == old(rfds) && wfds == old(wfds) && highfds == old(highfds)
    {
      readable, writable := [], [];
      var fd := 0;
      while fd <= high
        invariant fd <= high + 1
        invariant readable == Listed(trfds, pipe, 0, fd) && writable == Listed(twfds, pipe, 0, fd)
        invariant bytes == if pipe in trfds && pipe < fd then old(bytes) - 1 else old(bytes)
        invariant rfds == old(rfds) && wfds == old(wfds) && highfds == old(highfds)
      {
        if fd == pipe && fd in trfds {
          bytes := bytes - 1;
        } else {
          if fd in twfds {
            writable := writable + [fd];
          }
          if fd in trfds {
            readable := readable + [fd];
          }
        }
        fd := fd + 1;
      }
    }
  }

  /** Looking only at the descriptors up to `highfds` misses none that is ready. */
  lemma NoneMissed(rd: set<nat>, wr: set<nat>, high: nat, pipe: nat, ready: set<nat>, fd: nat)
    requires IsHighest(high, rd, wr) && ready <= rd + wr && fd in ready && fd != pipe
    ensures fd in Listed(ready, pipe, 0, high + 1)
  {
    assert fd in rd + wr;
    ListedMeaning(ready, pipe, high + 1, fd);
  }

  /** The poll manager: callbacks and the pending flag, over the watcher. */
  class Manager {
    const aio: SelectAIO
    var callbacks: set<nat>
    var pending: bool

    ghost predicate Valid()
      reads this, aio
    {
      aio.Valid()
    }

    ghost function Tables(): PollMgr.Tables
      reads this, aio
    {
      PollMgr.Tables(aio.rfds - {aio.pipe}, aio.wfds, callbacks, pending, aio.bytes)
    }

    constructor (pipefd: nat)
      ensures Valid() && fresh(aio) && aio.pipe == pipefd && Tables() == Init().b
    {
      aio := new SelectAIO(pipefd);
      callbacks, pending := {}, false;
      new;
      assert aio.rfds - {aio.pipe} == {};
    }

    method AddCallback(fd: nat, flag: Flag)
      requires Valid() && fd != aio.pipe
      modifies this, aio
      ensures fd in callbacks && (!flag.WriteOnly? ==> fd in aio.rfds) && (!flag.ReadOnly? ==> fd in aio.wfds)
      ensures Valid() && Tables() == PollMgr.AddCallback(old(Tables()), fd, flag)
    {
      ghost var r := aio.rfds;
      aio.WatchFd(fd, flag);
      assert r + {fd} - {aio.pipe} == r - {aio.pipe} + {fd};
      callbacks := callbacks + {fd};
    }

    method DelCallback(fd: nat, flag: Flag)
      requires Valid() && fd != aio.pipe
      modifies this, aio
      ensures callbacks == if fd in aio.rfds || fd in aio.wfds then old(callbacks) else old(callbacks) - {fd}
      ensures aio.rfds == if flag.WriteOnly? then old(aio.rfds) else old(aio.rfds) - {fd}
      ensures aio.wfds == if flag.ReadOnly? then old(aio.wfds) else old(aio.wfds) - {fd}
      ensures Valid() && Tables() == PollMgr.DelCallback(old(Tables()), fd, flag)
    {
      ghost var r := aio.rfds;
      var gone := aio.UnwatchFd(fd, flag);
      assert r - {fd} - {aio.pipe} == r - {aio.pipe} - {fd};
      if gone {
        callbacks := callbacks - {fd};
      }
    }

    /** block_remove_fd up to the wait; what follows the wait is EndRemove. */
    method BeginRemove(fd: nat)
      requires Valid() && fd != aio.pipe
      modifies this, aio
      ensures pending && fd !in aio.rfds && fd !in aio.wfds && aio.bytes == old(aio.bytes) + 1 && callbacks == old(callbacks)
      ensures Valid() && Tables() == PollMgr.BeginRemove(old(Tables()), fd)
    {
      ghost var r := aio.rfds;
      var gone := aio.UnwatchFd(fd, ReadWrite);
      assert r - {fd} - {aio.pipe} == r - {aio.pipe} - {fd};
      pending := true;
    }

    method EndRemove(fd: nat)
      requires Valid()
      modifies this
      ensures Valid() && Tables() == old(Tables()).(cbs := old(Tables()).cbs - {fd})
    {
      callbacks := callbacks - {fd};
    }
  }
}
