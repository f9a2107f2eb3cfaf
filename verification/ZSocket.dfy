/** Buffered non-blocking sockets, without the encrypted ones: status flags, a read and a write buffer each,
    the descriptors the program is interested in, the descriptors the select loop watches, and a counter of
    how many events are waiting to be delivered. The results of the system calls are parameters. */
module ZSocket {
  import FdHash
  import MsgCore

  type Byte = MsgCore.Byte
  type Option<T> = MsgCore.Option<T>

  const READ_SIZE: nat := 2048

  /** What `write` and `read` may answer. */
  datatype Wrote = Wrote(n: nat) | WriteBlocks | WriteFails(errno: nat)
  datatype Got = Got(data: seq<Byte>) | ReadBlocks | ReadFails(errno: nat)
  datatype Accepted = Accepted(fd: int) | AcceptFails(errno: nat)

  datatype Errno = EBADF | EINVAL | EAGAIN | Code(n: nat)
  datatype Result<T> = Ok(value: T) | Err(errno: Errno)

  datatype Flags = Flags(connected: bool, wantRead: bool, wantWrite: bool, readable: bool, writable: bool,
                         accepting: bool, connecting: bool, reading: bool, writing: bool, eof: bool, closed: bool)

  const NO_FLAGS := Flags(false, false, false, false, false, false, false, false, false, false, false)

  /** The union of the source: the fields of a listening and of a connected socket. `used` is -1 after a
      failed read; `out` is the write buffer, present or not. */
  datatype Sock = Sock(listen: bool, flags: Flags, nOpen: int, acceptedFd: int, acceptedErrno: nat, parent: int,
                       buf: seq<Byte>, pos: nat, used: int, readErrno: nat,
                       out: Option<seq<Byte>>, sent: nat, writeErrno: nat)

  /** What has gone through a socket: taken by `zs_write`, written to the system, read from it, handed out
      by `zs_read`; and whether a write ended in an error or wrote nothing. */
  datatype Log = Log(taken: seq<Byte>, written: seq<Byte>, received: seq<Byte>, delivered: seq<Byte>, lost: bool)

  // ---------- one socket ----------

  /** The flags and buffers of a connected socket between two calls. */
  predicate ConnectOk(s: Sock) {
    var f := s.flags;
    && f.connected && !f.connecting && !f.accepting
    && (f.writing <==> s.out.Some?) && (f.writing <==> f.wantWrite) && !(f.writing && f.writable)
    && (s.out.Some? ==> s.sent <= |s.out.value|) && (f.closed ==> f.writing)
    && (f.wantRead <==> f.reading) && !(f.reading && f.readable)
    && (!f.readable ==> s.pos == 0 && s.used == 0 && !f.eof && s.readErrno == 0)
    && (s.used >= 0 ==> s.pos + s.used <= |s.buf| && s.readErrno == 0)
    && (s.used < 0 ==> s.used == -1 && s.readErrno != 0)
    && (f.readable && s.used == 0 ==> f.eof) && (f.eof ==> s.used == 0)
  }

  predicate ListenOk(s: Sock) {
    && !s.flags.accepting && !s.flags.writable && !s.flags.wantRead && !s.flags.wantWrite && !s.flags.closed
    && (s.flags.readable <==> s.acceptedFd >= 0) && s.acceptedFd >= -1
  }

  predicate SockOk(s: Sock) { if s.listen then ListenOk(s) else ConnectOk(s) }

  /** Neither writable nor writing, and nothing that would make it writable: such a socket takes no more bytes. */
  predicate Dead(s: Sock) {
    !s.listen && s.flags.connected && !s.flags.writable && !s.flags.writing && !s.flags.wantWrite
  }

  ghost function DeadOf(socks: map<int, Sock>): set<int> { set fd | fd in socks && Dead(socks[fd]) }

  /** What is in the write buffer, and in the read buffer. */
  function Unsent(s: Sock): seq<Byte> {
    if s.out.Some? && s.sent <= |s.out.value| then s.out.value[s.sent..] else []
  }

  function Unread(s: Sock): seq<Byte> {
    if s.used >= 0 && s.pos + s.used <= |s.buf| then s.buf[s.pos..s.pos + s.used] else []
  }

  /** Bytes come in, and go out, in order: nothing is lost or repeated, until a write fails. */
  ghost predicate LogOk(s: Sock, l: Log) {
    l.received == l.delivered + Unread(s) && (!l.lost ==> l.taken == l.written + Unsent(s))
  }

  // ---------- counting ----------

  ghost function Readable(active: set<int>, socks: map<int, Sock>): set<int> {
    set fd | fd in active && fd in socks && socks[fd].flags.readable
  }

  ghost function Writable(active: set<int>, socks: map<int, Sock>): set<int> {
    set fd | fd in active && fd in socks && socks[fd].flags.writable
  }

  /** How many events wait: sockets watched for reading that are readable, and for writing that are writable. */
  ghost function Waiting(activeR: set<int>, activeW: set<int>, socks: map<int, Sock>): nat {
    |Readable(activeR, socks)| + |Writable(activeW, socks)|
  }

  function One(b: bool): int { if b then 1 else 0 }

  lemma Card(s: set<int>, t: set<int>, x: int)
    requires forall y | y != x :: y in s <==> y in t
    ensures |t| == |s| - One(x in s) + One(x in t)
  {
    forall y ensures y in s - {x} <==> y in t - {x} {
      if y != x { assert y in s <==> y in t; }
    }
    assert s - {x} == t - {x};
    assert |s| == |s - {x}| + One(x in s) by { if x !in s { assert s - {x} == s; } }
    assert |t| == |t - {x}| + One(x in t) by { if x !in t { assert t - {x} == t; } }
  }

  /** One socket changes. */
  lemma Recount(r: set<int>, w: set<int>, socks: map<int, Sock>, fd: int, s: Sock)
    requires fd in socks
    ensures Waiting(r, w, socks[fd := s]) == Waiting(r, w, socks)
      + (if fd in r then One(s.flags.readable) - One(socks[fd].flags.readable) else 0)
      + (if fd in w then One(s.flags.writable) - One(socks[fd].flags.writable) else 0)
  {
    Card(Readable(r, socks), Readable(r, socks[fd := s]), fd);
    Card(Writable(w, socks), Writable(w, socks[fd := s]), fd);
  }

  /** The interest in one socket changes. */
  lemma RecountActive(r: set<int>, w: set<int>, r': set<int>, w': set<int>, socks: map<int, Sock>, fd: int)
    requires fd in socks && (forall y | y != fd :: (y in r <==> y in r') && (y in w <==> y in w'))
    ensures Waiting(r', w', socks) == Waiting(r, w, socks)
      + One(socks[fd].flags.readable) * (One(fd in r') - One(fd in r))
      + One(socks[fd].flags.writable) * (One(fd in w') - One(fd in w))
  {
    Card(Readable(r, socks), Readable(r', socks), fd);
    Card(Writable(w, socks), Writable(w', socks), fd);
  }

  /** A socket nobody is interested in comes or goes. */
  lemma RecountTable(r: set<int>, w: set<int>, socks: map<int, Sock>, socks': map<int, Sock>, fd: int)
    requires fd !in r && fd !in w
    requires forall y | y != fd :: (y in socks <==> y in socks') && (y in socks ==> socks[y] == socks'[y])
    ensures Waiting(r, w, socks') == Waiting(r, w, socks)
  {
    forall y ensures y in Readable(r, socks') <==> y in Readable(r, socks) {
      if y != fd { assert y in socks <==> y in socks'; }
    }
    forall y ensures y in Writable(w, socks') <==> y in Writable(w, socks) {
      if y != fd { assert y in socks <==> y in socks'; }
    }
    assert Readable(r, socks') == Readable(r, socks) && Writable(w, socks') == Writable(w, socks);
  }

  // ---------- the list of active descriptors ----------

  /** Exactly the descriptors of either interest, once each. */
  ghost predicate Listed(active: seq<int>, r: set<int>, w: set<int>) {
    FdHash.Distinct(active) && forall fd :: fd in active <==> fd in r || fd in w
  }

  /** `fd_hash_add` and `fd_hash_remove`, as FdHash proves them. */
  function HashAdded(active: seq<int>, fd: int): seq<int> { if fd in active then active else active + [fd] }

  function HashRemoved(active: seq<int>, fd: int): seq<int> { FdHash.Removed(active, fd) }

  lemma ListedAdd(active: seq<int>, r: set<int>, w: set<int>, fd: int)
    requires Listed(active, r, w)
    ensures Listed(HashAdded(active, fd), r + {fd}, w) && Listed(HashAdded(active, fd), r, w + {fd})
  {
  }

  lemma ListedClear(active: seq<int>, r: set<int>, w: set<int>, r': set<int>, w': set<int>, fd: int)
    requires Listed(active, r, w)
    requires forall y | y != fd :: (y in r <==> y in r') && (y in w <==> y in w')
    requires fd in r' ==> fd in r || fd in w
    requires fd in w' ==> fd in r || fd in w
    ensures Listed(if fd !in r' && fd !in w' then HashRemoved(active, fd) else active, r', w')
  {
    FdHash.RemovedDistinct(active, fd);
    var t := if fd !in r' && fd !in w' then HashRemoved(active, fd) else active;
    forall y ensures y in t <==> y in r' || y in w' {
      if y != fd { assert y in active <==> y in t; }
    }
  }

  // ---------- watching ----------

  /** Whether `zs_update_fd_state` has the select loop watch a socket, given the program's interest in it. */
  function WatchR(s: Sock, interest: bool): bool {
    if s.listen then interest && !s.flags.accepting && !s.flags.readable
    else (interest && !s.flags.reading && !s.flags.readable) || s.flags.wantRead
  }

  function WatchW(s: Sock, interest: bool): bool {
    (interest && !s.flags.writing && !s.flags.writable) || s.flags.wantWrite
  }

  function With(x: set<int>, fd: int, b: bool): set<int> { if b then x + {fd} else x - {fd} }

  // ---------- what the system calls do to a socket ----------

  /** `zs_reader` */
  function AfterRead(s: Sock, os: Got): Sock {
    match os
    case ReadBlocks => s.(flags := s.flags.(wantRead := true))
    case ReadFails(errno) => s.(readErrno := errno, used := -1, flags := s.flags.(readable := true, reading := false))
    case Got(data) =>
      s.(buf := data, used := |data|, flags := s.flags.(eof := s.flags.eof || data == [], readable := true, reading := false))
  }

  /** Whether `zs_writer` is through with the buffer. */
  predicate Finished(s: Sock, os: Wrote) {
    match os
    case WriteBlocks => false
    case WriteFails(_) => true
    case Wrote(n) => n == 0 || n == |Unsent(s)|
  }

  /** `zs_writer`, short of closing. */
  function AfterWrite(s: Sock, os: Wrote): Sock {
    var t := s.(sent := if os.Wrote? then s.sent + os.n else s.sent,
                writeErrno := if os.WriteFails? then os.errno else s.writeErrno);
    if Finished(s, os) then t.(out := MsgCore.None, flags := s.flags.(writable := true, writing := false))
    else t.(flags := s.flags.(wantWrite := true))
  }

  /** The bytes a write call took from the buffer. */
  function Taken(s: Sock, os: Wrote): seq<Byte> {
    if os.Wrote? && os.n <= |Unsent(s)| then Unsent(s)[..os.n] else []
  }

  /** Unsent bytes that will never be written: the write failed, or wrote nothing. */
  predicate Drops(s: Sock, os: Wrote) { Finished(s, os) && Taken(s, os) != Unsent(s) }

  /** What a write leaves behind: everything has gone out, or nothing more will, or the rest is still to be
      written; and the error of the system is kept for the next `zs_write`. */
  predicate Written(s: Sock, os: Wrote, t: Sock) {
    var through := os.WriteFails? || (os.Wrote? && (os.n == 0 || os.n == |Unsent(s)|));
    && t.writeErrno == (if os.WriteFails? then os.errno else s.writeErrno)
    && t.flags == (if through then s.flags.(writable := true, writing := false, wantWrite := false) else s.flags)
    && Unsent(t) == (if through then [] else if os.Wrote? && os.n <= |Unsent(s)| then Unsent(s)[os.n..] else Unsent(s))
    && t.(flags := s.flags, out := s.out, sent := s.sent, writeErrno := s.writeErrno) == s
  }

  /** The bytes that went out are noted, and whether any were given up. */
  predicate Noted(s: Sock, os: Wrote, l: Log, m: Log) {
    && (os.Wrote? && os.n <= |Unsent(s)| ==> m.written == l.written + Unsent(s)[..os.n])
    && (!os.Wrote? ==> m.written == l.written)
    && (m.lost <==> l.lost || (Unsent(s) != [] && (os.WriteFails? || (os.Wrote? && os.n == 0))))
    && m.(written := l.written, lost := l.lost) == l
  }

  /** What a read into an empty buffer leaves behind: the bytes, the end of the file, or the error. */
  predicate Fetched(s: Sock, os: Got, t: Sock, wantRead: bool) {
    && Unread(t) == (if os.Got? then os.data else [])
    && t.readErrno == (if os.ReadFails? then os.errno else 0)
    && t.flags == s.flags.(readable := !os.ReadBlocks?, reading := wantRead, wantRead := wantRead, eof := os.Got? && os.data == [])
    && t.(flags := s.flags, buf := s.buf, pos := s.pos, used := s.used, readErrno := s.readErrno) == s
  }

  lemma WriteWritten(s: Sock, os: Wrote, l: Log)
    requires !s.listen && ConnectOk(s) && s.flags.wantWrite && (os.Wrote? ==> os.n <= |Unsent(s)|)
    ensures var t := s.(flags := s.flags.(wantWrite := false));
      && Written(s, os, AfterWrite(t, os))
      && Noted(s, os, l, l.(written := l.written + Taken(t, os), lost := l.lost || Drops(t, os)))
  {
  }

  lemma ReadFetched(s: Sock, os: Got)
    requires !s.listen && ConnectOk(s) && !s.flags.readable && (os.ReadFails? ==> os.errno > 0)
    ensures Fetched(s, os, AfterRead(s.(flags := s.flags.(reading := true, wantRead := false)), os), os.ReadBlocks?)
    ensures var t := AfterRead(s, os); !s.flags.reading ==> Fetched(s, os, t.(flags := t.flags.(wantRead := s.flags.wantRead)), false)
  {
  }

  lemma ReadKeeps(s: Sock, os: Got)
    requires !s.listen && ConnectOk(s.(flags := s.flags.(wantRead := false, reading := false)))
    requires s.flags.reading || !os.ReadBlocks?
    requires !s.flags.readable && !s.flags.wantRead && (os.ReadFails? ==> os.errno > 0)
    ensures ConnectOk(AfterRead(s, os)) && Unsent(AfterRead(s, os)) == Unsent(s)
    ensures Unread(s) == [] && Unread(AfterRead(s, os)) == if os.Got? then os.data else []
  {
  }

  lemma WriteKeeps(s: Sock, os: Wrote)
    requires !s.listen && ConnectOk(s) && s.flags.writing && (os.Wrote? ==> os.n <= |Unsent(s)|)
    ensures var t := AfterWrite(s.(flags := s.flags.(wantWrite := false)), os);
      && ConnectOk(t.(flags := t.flags.(closed := false))) && (!Finished(s, os) ==> ConnectOk(t))
      && Unread(t) == Unread(s) && (!Drops(s, os) ==> Unsent(s) == Taken(s, os) + Unsent(t))
      && (Finished(s, os) ==> Unsent(t) == [])
  {
  }

  method Receive(s: Sock, os: Got) returns (t: Sock)
    requires !os.ReadBlocks? && s.used == 0
    ensures t.(flags := t.flags.(readable := true, reading := false)) == AfterRead(s, os)
    ensures t.flags.readable == s.flags.readable && t.flags.writable == s.flags.writable
  {
    t := s;
    if os.ReadFails? { t := t.(readErrno := os.errno); } else { t := t.(buf := os.data); }
    if os.Got? && |os.data| > 0 {
      t := t.(used := t.used + |os.data|);
    } else if os.ReadFails? {
      t := t.(used := -1);
    } else {
      t := t.(flags := t.flags.(eof := true));
    }
  }

  lemma ReadFlags(s: Sock, os: Got)
    ensures var f := AfterRead(s, os).flags; f.writable == s.flags.writable && f.readable == (s.flags.readable || !os.ReadBlocks?)
    ensures os.ReadBlocks? ==> AfterRead(s, os) == s.(flags := s.flags.(wantRead := true))
    ensures Dead(AfterRead(s, os)) == Dead(s) && AfterRead(s, os).flags.writing == s.flags.writing
    ensures AfterRead(s, os).flags.wantRead == (s.flags.wantRead || os.ReadBlocks?) && AfterRead(s, os).listen == s.listen
  {
    match os
    case ReadBlocks =>
    case ReadFails(_) =>
    case Got(_) =>
  }

  lemma WriteFlags(s: Sock, os: Wrote)
    ensures var f := AfterWrite(s, os).flags; f.readable == s.flags.readable && f.writable == (s.flags.writable || Finished(s, os))
    ensures var f := AfterWrite(s, os).flags; f.closed == s.flags.closed && f.wantRead == s.flags.wantRead
    ensures Finished(s, os) ==> var f := AfterWrite(s, os).flags; !f.writing && f.wantWrite == s.flags.wantWrite
    ensures AfterWrite(s, os).listen == s.listen && !Dead(AfterWrite(s, os))
  {
    match os
    case WriteBlocks =>
    case WriteFails(_) =>
    case Wrote(_) => if Finished(s, os) {} else {}
  }

  method Send(s: Sock, os: Wrote) returns (t: Sock, done: bool)
    requires s.out.Some? && s.sent <= |s.out.value| && (os.Wrote? ==> os.n <= |Unsent(s)|)
    ensures done == Finished(s, os) && t.flags.writable == s.flags.writable && t.flags.closed == s.flags.closed
    ensures AfterWrite(s, os) == if done then t.(flags := t.flags.(writable := true, writing := false)) else t
  {
    t := s;
    if os.WriteBlocks? {
      t := t.(flags := t.flags.(wantWrite := true));
      return t, false;
    }
    if os.WriteFails? { t := t.(writeErrno := os.errno); }
    if os.Wrote? && os.n > 0 {
      t := t.(sent := t.sent + os.n);
      if |t.out.value| - t.sent != 0 {
        t := t.(flags := t.flags.(wantWrite := true));
        return t, false;
      }
    }
    t := t.(out := MsgCore.None);
    done := true;
  }

  /** The flags of `zs_internal_read` before the read itself. */
  method StartRead(f: Flags) returns (g: Flags)
    requires f.wantRead ==> f.reading
    ensures g == f.(reading := true, wantRead := false)
  {
    g := f;
    if !g.wantRead { g := g.(reading := true, wantRead := true); }
    if g.wantRead { g := g.(wantRead := false); }
  }

  /** The part of `zs_write` that touches only the socket. */
  method Store(s: Sock, data: seq<Byte>) returns (t: Sock, r: Result<nat>)
    requires s.out.None?
    ensures r == if s.writeErrno != 0 then Err(Code(1)) else Ok(|data|)
    ensures t == if s.writeErrno != 0 then s.(writeErrno := 0, flags := s.flags.(writable := false))
      else s.(out := MsgCore.Some(data), sent := 0, flags := s.flags.(writable := false, writing := true, wantWrite := true))
  {
    t := s.(flags := s.flags.(writable := false));
    if s.writeErrno != 0 {
      r, t := Err(Code(1)), t.(writeErrno := 0);
    } else {
      t := t.(out := MsgCore.Some(data), sent := 0, flags := t.flags.(writing := true, wantWrite := true));
      r := Ok(|data|);
    }
  }

  // ---------- the table ----------

  const NEW_CONNECT := Sock(false, NO_FLAGS, 0, -1, 0, -1, [], 0, 0, 0, MsgCore.None, 0, 0)
  const NEW_LISTEN := Sock(true, NO_FLAGS, 1, -1, 0, -1, [], 0, 0, 0, MsgCore.None, 0, 0)
  const NEW_LOG := Log([], [], [], [], false)

  class Sockets {
    var socks: map<int, Sock>
    var activeR: set<int>
    var activeW: set<int>
    var active: seq<int>
    var zfdR: set<int>
    var zfdW: set<int>
    var selectable: int
    ghost var log: map<int, Log>

    /** The counter is the number of waiting events, and the list of active descriptors holds exactly the live
        sockets the program is interested in. */
    ghost predicate Counted()
      reads this`socks, this`activeR, this`activeW, this`active, this`selectable
    {
      && selectable == Waiting(activeR, activeW, socks)
      && Listed(active, activeR, activeW)
      && activeR <= socks.Keys && activeW <= socks.Keys
    }

    /** A socket is in order, and is watched exactly when it should be. */
    ghost predicate Good(fd: int)
      reads this`socks, this`activeR, this`activeW, this`zfdR, this`zfdW, this`log
      requires fd in socks
    {
      && SockOk(socks[fd]) && fd in log && LogOk(socks[fd], log[fd])
      && (fd in zfdR <==> WatchR(socks[fd], fd in activeR))
      && (!socks[fd].listen ==> (fd in zfdW <==> WatchW(socks[fd], fd in activeW)))
    }

    ghost predicate Valid()
      reads this
    {
      Counted() && forall y | y in socks :: Good(y)
    }

    /** `zs_init` */
    constructor ()
      ensures Valid() && socks == map[] && selectable == 0
    {
      socks, activeR, activeW, active, zfdR, zfdW, selectable, log := map[], {}, {}, [], {}, {}, 0, map[];
    }

    /** `zs_update_fd_state` */
    method Update(fd: int)
      requires fd in socks
      modifies this`zfdR, this`zfdW
      ensures zfdR == With(old(zfdR), fd, WatchR(socks[fd], fd in activeR))
      ensures zfdW == if socks[fd].listen then old(zfdW) else With(old(zfdW), fd, WatchW(socks[fd], fd in activeW))
    {
      var f := socks[fd].flags;
      if !socks[fd].listen {
        if (fd in activeW && !(f.writing || f.writable)) || f.wantWrite { zfdW := zfdW + {fd}; } else { zfdW := zfdW - {fd}; }
        if (fd in activeR && !(f.reading || f.readable)) || f.wantRead { zfdR := zfdR + {fd}; } else { zfdR := zfdR - {fd}; }
      } else {
        if fd in activeR && !(f.accepting || f.readable) { zfdR := zfdR + {fd}; } else { zfdR := zfdR - {fd}; }
      }
    }

    method SetRead(fd: int)
      requires fd in socks && Counted()
      modifies this`selectable, this`activeR, this`active, this`zfdR, this`zfdW
      ensures Counted() && activeR == old(activeR) + {fd}
      ensures zfdR == With(old(zfdR), fd, WatchR(socks[fd], true))
      ensures zfdW == if socks[fd].listen then old(zfdW) else With(old(zfdW), fd, WatchW(socks[fd], fd in activeW))
      ensures old(Valid()) ==> Valid()
    {
      hide Listed, Waiting, SockOk, LogOk, HashAdded, HashRemoved, WatchR, WatchW;
      RecountActive(activeR, activeW, activeR + {fd}, activeW, socks, fd);
      ListedAdd(active, activeR, activeW, fd);
      if fd !in activeR && socks[fd].flags.readable { selectable := selectable + 1; }
      activeR := activeR + {fd};
      active := HashAdded(active, fd);
      Update(fd);
    }

    method SetWrite(fd: int)
      requires fd in socks && Counted()
      modifies this`selectable, this`activeW, this`active, this`zfdR, this`zfdW
      ensures Counted() && activeW == old(activeW) + {fd}
      ensures zfdR == With(old(zfdR), fd, WatchR(socks[fd], fd in activeR))
      ensures zfdW == if socks[fd].listen then old(zfdW) else With(old(zfdW), fd, WatchW(socks[fd], true))
      ensures old(Valid()) ==> Valid()
    {
      hide Listed, Waiting, SockOk, LogOk, HashAdded, HashRemoved, WatchR, WatchW;
      RecountActive(activeR, activeW, activeR, activeW + {fd}, socks, fd);
      ListedAdd(active, activeR, activeW, fd);
      if fd !in activeW && socks[fd].flags.writable { selectable := selectable + 1; }
      activeW := activeW + {fd};
      active := HashAdded(active, fd);
      Update(fd);
    }

    method ClrRead(fd: int)
      requires fd in socks && Counted()
      modifies this`selectable, this`activeR, this`active, this`zfdR, this`zfdW
      ensures Counted() && activeR == old(activeR) - {fd}
      ensures zfdR == With(old(zfdR), fd, WatchR(socks[fd], false))
      ensures zfdW == if socks[fd].listen then old(zfdW) else With(old(zfdW), fd, WatchW(socks[fd], fd in activeW))
      ensures old(Valid()) ==> Valid()
    {
      hide Listed, Waiting, SockOk, LogOk, HashAdded, HashRemoved, WatchR, WatchW;
      RecountActive(activeR, activeW, activeR - {fd}, activeW, socks, fd);
      ListedClear(active, activeR, activeW, activeR - {fd}, activeW, fd);
      if fd in activeR && socks[fd].flags.readable { selectable := selectable - 1; }
      activeR := activeR - {fd};
      if fd !in activeR && fd !in activeW { active := HashRemoved(active, fd); }
      Update(fd);
    }

    method ClrWrite(fd: int)
      requires fd in socks && Counted()
      modifies this`selectable, this`activeW, this`active, this`zfdR, this`zfdW
      ensures Counted() && activeW == old(activeW) - {fd}
      ensures zfdR == With(old(zfdR), fd, WatchR(socks[fd], fd in activeR))
      ensures zfdW == if socks[fd].listen then old(zfdW) else With(old(zfdW), fd, WatchW(socks[fd], false))
      ensures old(Valid()) ==> Valid()
    {
      hide Listed, Waiting, SockOk, LogOk, HashAdded, HashRemoved, WatchR, WatchW;
      RecountActive(activeR, activeW, activeR, activeW - {fd}, socks, fd);
      ListedClear(active, activeR, activeW, activeR, activeW - {fd}, fd);
      if fd in activeW && socks[fd].flags.writable { selectable := selectable - 1; }
      activeW := activeW - {fd};
      if fd !in activeR && fd !in activeW { active := HashRemoved(active, fd); }
      Update(fd);
    }

    /** Whom the select loop watches: bytes that are still to go out keep their socket watched, so does a wish
        to read, and a socket that has something to be read is not watched for more. */
    lemma Watched(fd: int)
      requires Valid() && fd in socks
      ensures !socks[fd].listen && Unsent(socks[fd]) != [] ==> fd in zfdW
      ensures !socks[fd].listen ==> (fd in zfdW <==> socks[fd].out.Some? || (fd in activeW && !socks[fd].flags.writable))
      ensures fd in zfdR <==> !socks[fd].flags.readable && (fd in activeR || (!socks[fd].listen && socks[fd].flags.reading))
    {
      assert Good(fd);
    }

    // ---------- the handlers of the select loop ----------

    /** `zs_reader`, on an empty buffer. */
    method Reader(fd: int, os: Got)
      requires fd in socks && fd in log && Counted() && socks[fd].used == 0 && socks[fd].pos == 0
      requires os.Got? ==> |os.data| <= READ_SIZE
      modifies this`socks, this`selectable, this`log
      ensures Counted() && socks == old(socks)[fd := AfterRead(old(socks)[fd], os)]
      ensures var l := old(log)[fd]; log == old(log)[fd := l.(received := l.received + if os.Got? then os.data else [])]
    {
      hide Listed, Waiting, AfterRead;
      ReadFlags(socks[fd], os);
      Recount(activeR, activeW, socks, fd, AfterRead(socks[fd], os));
      log := log[fd := log[fd].(received := log[fd].received + if os.Got? then os.data else [])];
      var s := socks[fd];
      if os.ReadBlocks? {
        socks := socks[fd := s.(flags := s.flags.(wantRead := true))];
        return;
      }
      s := Receive(s, os);
      if fd in activeR && !s.flags.readable { selectable := selectable + 1; }
      socks := socks[fd := s.(flags := s.flags.(readable := true, reading := false))];
    }

    /** The part of `zs_close` that ends a socket. */
    method End(fd: int)
      requires fd in socks && Counted()
      modifies this
      ensures Counted() && socks == old(socks) - {fd} && activeR == old(activeR) - {fd} && activeW == old(activeW) - {fd}
      ensures log == old(log)
      ensures var s := old(socks)[fd];
        zfdR == With(old(zfdR), fd, !s.listen && s.flags.wantRead) && zfdW == With(old(zfdW), fd, !s.listen && s.flags.wantWrite)
    {
      hide Listed, Waiting, HashAdded, HashRemoved;
      zfdR := zfdR - {fd};
      zfdW := zfdW - {fd};
      ClrRead(fd);
      ClrWrite(fd);
      RecountTable(activeR, activeW, socks, socks - {fd}, fd);
      socks := socks - {fd};
    }

    /** `zs_close`: a listener goes with its last user; a socket with unsent bytes only when they are sent. */
    method Close(fd: int) returns (r: Result<int>)
      requires Counted() && (fd in socks && !socks[fd].listen && !socks[fd].flags.writing ==> !socks[fd].flags.wantWrite)
      modifies this
      ensures Counted() && log == old(log)
      ensures fd !in old(socks) ==> r == Err(EBADF) && unchanged(this)
      ensures fd in old(socks) ==> r == Ok(0)
      ensures fd in old(socks) ==> var s := old(socks)[fd];
        if s.listen && s.nOpen > 1 then
          socks == old(socks)[fd := s.(nOpen := s.nOpen - 1)] && unchanged(`activeR, `activeW, `zfdR, `zfdW)
        else if !s.listen && s.flags.writing then
          && socks == old(socks)[fd := s.(flags := s.flags.(closed := true))]
          && activeR == old(activeR) - {fd} && activeW == old(activeW) - {fd}
        else
          && socks == old(socks) - {fd} && activeR == old(activeR) - {fd} && activeW == old(activeW) - {fd}
          && zfdW == old(zfdW) - {fd} && zfdR == With(old(zfdR), fd, !s.listen && s.flags.wantRead)
      ensures old(Valid()) ==> Valid()
      ensures DeadOf(socks) == old(DeadOf(socks)) - {fd}
    {
      hide Listed, Waiting, HashAdded, HashRemoved;
      if fd !in socks { return Err(EBADF); }
      r := Ok(0);
      var p := socks[fd];
      if p.listen {
        Recount(activeR, activeW, socks, fd, p.(nOpen := p.nOpen - 1));
        socks := socks[fd := p.(nOpen := p.nOpen - 1)];
        if socks[fd].nOpen > 0 { return; }
      } else if p.flags.writing {
        ClrRead(fd);
        ClrWrite(fd);
        Recount(activeR, activeW, socks, fd, p.(flags := p.flags.(closed := true)));
        socks := socks[fd := p.(flags := p.flags.(closed := true))];
        return;
      }
      End(fd);
    }

    /** `zs_writer`: it closes a socket whose last bytes have gone out. */
    method Writer(fd: int, os: Wrote)
      requires fd in socks && fd in log && Counted()
      requires var s := socks[fd]; !s.listen && s.out.Some? && s.sent <= |s.out.value| && s.flags.writing && !s.flags.wantWrite
      requires os.Wrote? ==> os.n <= |Unsent(socks[fd])|
      modifies this
      ensures Counted()
      ensures var s, l := old(socks)[fd], old(log)[fd];
        log == old(log)[fd := l.(written := l.written + Taken(s, os), lost := l.lost || Drops(s, os))]
      ensures var s := old(socks)[fd];
        if Finished(s, os) && s.flags.closed then
          && socks == old(socks) - {fd} && activeR == old(activeR) - {fd} && activeW == old(activeW) - {fd}
          && zfdW == old(zfdW) - {fd} && zfdR == With(old(zfdR), fd, s.flags.wantRead)
        else
          socks == old(socks)[fd := AfterWrite(s, os)] && unchanged(`activeR, `activeW, `zfdR, `zfdW)
    {
      hide Listed, Waiting, Taken, Drops, AfterWrite, Finished;
      var s := socks[fd];
      WriteFlags(s, os);
      Recount(activeR, activeW, socks, fd, AfterWrite(s, os));
      log := log[fd := log[fd].(written := log[fd].written + Taken(s, os), lost := log[fd].lost || Drops(s, os))];
      var t, done := Send(s, os);
      if !done {
        socks := socks[fd := t];
        return;
      }
      if fd in activeW && !t.flags.writable { selectable := selectable + 1; }
      socks := socks[fd := t.(flags := t.flags.(writable := true, writing := false))];
      if t.flags.closed { var _ := Close(fd); }
    }

    /** Nothing changed but what belongs to some descriptors. */
    twostate predicate Only(fds: set<int>)
      reads this
    {
      && socks - fds == old(socks) - fds && log - fds == old(log) - fds
      && activeR - fds == old(activeR) - fds && activeW - fds == old(activeW) - fds
      && zfdR - fds == old(zfdR) - fds && zfdW - fds == old(zfdW) - fds
    }

    ghost predicate GoodBut(fds: set<int>)
      reads this`socks, this`activeR, this`activeW, this`zfdR, this`zfdW, this`log
    {
      forall y | y in socks && y !in fds :: Good(y)
    }

    twostate lemma OthersStay(fds: set<int>)
      requires old(Valid()) && Only(fds)
      ensures GoodBut(fds)
    {
      hide SockOk, LogOk, WatchR, WatchW, Counted;
      forall y | y in socks && y !in fds ensures Good(y) {
        assert y in socks - fds && y in old(socks) - fds && old(Good(y));
        assert (socks - fds)[y] == (old(socks) - fds)[y] && y in old(log) - fds && (log - fds)[y] == (old(log) - fds)[y];
        assert (y in activeR <==> y in activeR - fds) && (y in activeW <==> y in activeW - fds);
        assert (y in old(activeR) <==> y in old(activeR) - fds) && (y in old(activeW) <==> y in old(activeW) - fds);
        assert (y in zfdR <==> y in zfdR - fds) && (y in zfdW <==> y in zfdW - fds);
        assert (y in old(zfdR) <==> y in old(zfdR) - fds) && (y in old(zfdW) <==> y in old(zfdW) - fds);
      }
    }

    /** No socket but those in `fds` came to be dead or stopped being dead; nor did these. */
    twostate lemma SameDead(fds: set<int>)
      requires Only(fds)
      requires forall x | x in fds :: x in socks && Dead(socks[x]) <==> x in old(socks) && Dead(old(socks)[x])
      ensures DeadOf(socks) == old(DeadOf(socks))
    {
      hide Dead;
      forall x ensures x in DeadOf(socks) <==> x in old(DeadOf(socks)) {
        if x !in fds {
          assert (x in socks <==> x in socks - fds) && (x in old(socks) <==> x in old(socks) - fds);
          if x in socks { assert (socks - fds)[x] == (old(socks) - fds)[x]; }
        }
      }
    }

    /** `zs_internal_write`: the socket is writable, or the select loop tries it. */
    method InternalWrite(fd: int, os: Wrote)
      requires Valid() && fd in socks && !socks[fd].listen && fd in zfdW
      requires socks[fd].flags.wantWrite && os.Wrote? ==> os.n <= |Unsent(socks[fd])|
      modifies this
      ensures Valid() && Only({fd})
      ensures !old(socks)[fd].flags.wantWrite ==> socks == old(socks) && log == old(log)
      ensures old(socks)[fd].flags.wantWrite ==> var s, l := old(socks)[fd], old(log)[fd];
        && log == old(log)[fd := l.(written := l.written + Taken(s, os), lost := l.lost || Drops(s, os))]
        && (fd in socks <==> !(s.flags.closed && Finished(s, os)))
      ensures old(socks)[fd].flags.wantWrite && fd in socks ==> Written(old(socks)[fd], os, socks[fd])
      ensures old(socks)[fd].flags.wantWrite ==> Noted(old(socks)[fd], os, old(log)[fd], log[fd])
      ensures fd !in socks && !log[fd].lost ==> log[fd].written == log[fd].taken
      ensures DeadOf(socks) == old(DeadOf(socks))
    {
      hide Listed, Waiting, Dead, DeadOf, AfterWrite, ConnectOk, Finished, Taken, Drops, WatchR, WatchW, Unsent, Unread, Written, Noted;
      ghost var s0 := socks[fd];
      assert Good(fd);
      if s0.flags.wantWrite { WriteWritten(s0, os, log[fd]); }
      if socks[fd].flags.wantWrite {
        var s := socks[fd].(flags := socks[fd].flags.(wantWrite := false));
        WriteStart(s0, os);
        Recount(activeR, activeW, socks, fd, s);
        socks := socks[fd := s];
        Writer(fd, os);
        OthersStay({fd});
        WritingIsLive(s0);
        WriteFlags(s, os);
        if fd !in socks {
          SameDead({fd});
          return;
        }
        WriteGood(s0, s, old(log)[fd], os);
      } else {
        OthersStay({fd});
      }
      Update(fd);
      OthersStay({fd});
      SameDead({fd});
    }

    /** `zs_internal_read`: the select loop found the socket readable. */
    method InternalRead(fd: int, os: Got)
      requires Valid() && fd in socks && !socks[fd].listen && fd in zfdR
      requires (os.Got? ==> |os.data| <= READ_SIZE) && (os.ReadFails? ==> os.errno > 0)
      modifies this
      ensures Valid() && Only({fd}) && fd in socks
      ensures var l := old(log)[fd];
        log == old(log)[fd := l.(received := l.received + if os.Got? then os.data else [])]
      ensures Fetched(old(socks)[fd], os, socks[fd], os.ReadBlocks?)
      ensures DeadOf(socks) == old(DeadOf(socks))
    {
      hide Listed, Waiting, DeadOf, AfterRead, ConnectOk, WatchW, Unsent, Unread, Fetched;
      ghost var s0 := socks[fd];
      assert Good(fd);
      ReadStart(s0, fd in activeR, os);
      var f := StartRead(socks[fd].flags);
      Recount(activeR, activeW, socks, fd, socks[fd].(flags := f));
      socks := socks[fd := socks[fd].(flags := f)];
      Reader(fd, os);
      ReadGood(s0, old(log)[fd], os);
      ReadFetched(s0, os);
      ReadFlags(s0.(flags := f), os);
      Update(fd);
      OthersStay({fd});
      SameDead({fd});
    }

    /** `zs_read`: up to nbyte of the bytes that are there; when they run out, the system is asked for more. */
    method Read(fd: int, nbyte: nat, os: Got) returns (r: Result<seq<Byte>>)
      requires Valid()
      requires (os.Got? ==> |os.data| <= READ_SIZE) && (os.ReadFails? ==> os.errno > 0)
      modifies this
      ensures Valid() && Only({fd})
      ensures r == Err(EBADF) <==> fd !in old(socks) || old(socks)[fd].listen || old(socks)[fd].flags.closed
      ensures r == Err(EBADF) ==> unchanged(this)
      ensures r != Err(EBADF) && !old(socks)[fd].flags.readable ==> r == Err(EAGAIN) && unchanged(this)
      ensures r != Err(EBADF) && old(socks)[fd].flags.readable ==> var s, l := old(socks)[fd], old(log)[fd];
        if s.readErrno != 0 then r == Err(Code(s.readErrno)) && socks == old(socks) && log == old(log)
        else
          && r == Ok(Unread(s)[..if nbyte > |Unread(s)| then |Unread(s)| else nbyte])
          && (Unread(s) == [] <==> s.flags.eof)
          && log == old(log)[fd := l.(delivered := l.delivered + r.value,
               received := l.received + if nbyte >= |Unread(s)| > 0 && os.Got? then os.data else [])]
          && fd in socks
          && (Unread(s) == [] ==> socks == old(socks))
          && (nbyte < |Unread(s)| ==> socks[fd].flags == s.flags && socks[fd].readErrno == 0)
          && (nbyte >= |Unread(s)| > 0 ==> Fetched(s, os, socks[fd], false))
      ensures DeadOf(socks) == old(DeadOf(socks))
    {
      hide Listed, Waiting, DeadOf, Dead, AfterRead, ConnectOk, WatchR, WatchW, Unsent, Unread, Fetched;
      if fd !in socks || socks[fd].listen || socks[fd].flags.closed { return Err(EBADF); }
      if !socks[fd].flags.readable { return Err(EAGAIN); }
      var s := socks[fd];
      assert Good(fd);
      Buffered(s);
      if s.readErrno != 0 { return Err(Code(s.readErrno)); }
      Nothing(log[fd]);
      if s.used == 0 { return Ok([]); }
      r := Deliver(fd, nbyte, os);
    }

    method Deliver(fd: int, nbyte: nat, os: Got) returns (r: Result<seq<Byte>>)
      requires Valid() && fd in socks && !socks[fd].listen && socks[fd].flags.readable && socks[fd].used > 0
      requires (os.Got? ==> |os.data| <= READ_SIZE) && (os.ReadFails? ==> os.errno > 0)
      modifies this
      ensures Valid() && Only({fd})
      ensures var s, l := old(socks)[fd], old(log)[fd];
        && r == Ok(Unread(s)[..if nbyte > |Unread(s)| then |Unread(s)| else nbyte]) && Unread(s) != []
        && log == old(log)[fd := l.(delivered := l.delivered + r.value,
             received := l.received + if nbyte >= |Unread(s)| && os.Got? then os.data else [])]
        && fd in socks
        && (nbyte < |Unread(s)| ==> socks[fd].flags == s.flags && socks[fd].readErrno == s.readErrno)
        && (nbyte >= |Unread(s)| ==> Fetched(s, os, socks[fd], false))
      ensures DeadOf(socks) == old(DeadOf(socks))
    {
      hide Listed, Waiting, DeadOf, Dead, AfterRead, ConnectOk, WatchR, WatchW, Unsent, Unread, Fetched;
      var s := socks[fd];
      assert Good(fd);
      Buffered(s);
      Nothing(log[fd]);
      var used := if nbyte > s.used then s.used else nbyte;
      r := Ok(s.buf[s.pos..s.pos + used]);
      s := s.(pos := s.pos + used, used := s.used - used);
      log := log[fd := log[fd].(delivered := log[fd].delivered + r.value)];
      Consumed(socks[fd], s, used, old(log)[fd]);
      Recount(activeR, activeW, socks, fd, s);
      ConsumedDead(socks[fd], s);
      socks := socks[fd := s];
      assert Only({fd});
      if s.used == 0 {
        Drain(fd);
        Refill(fd, os);
        FetchedAgain(old(socks)[fd], s, os, socks[fd]);
      }
      OthersStay({fd});
      SameDead({fd});
    }

    /** The end of `zs_read`, when the buffer is empty. */
    method Drain(fd: int)
      requires Counted() && fd in socks
      modifies this`socks, this`selectable
      ensures Counted() && socks == old(socks)[fd := Drained(old(socks)[fd])]
    {
      hide Listed, Waiting;
      Recount(activeR, activeW, socks, fd, Drained(socks[fd]));
      if fd in activeR && socks[fd].flags.readable { selectable := selectable - 1; }
      socks := socks[fd := socks[fd].(pos := 0, used := 0, flags := socks[fd].flags.(readable := false))];
    }

    /** One more read, after which the wish to read is put back as it was. */
    method Refill(fd: int, os: Got)
      requires Counted() && fd in socks && fd in log && !socks[fd].listen && ConnectOk(socks[fd]) && !socks[fd].flags.readable
      requires (os.Got? ==> |os.data| <= READ_SIZE) && (os.ReadFails? ==> os.errno > 0)
      requires LogOk(socks[fd], log[fd]) && !socks[fd].flags.reading
      modifies this
      ensures Counted() && Only({fd}) && fd in socks && Good(fd) && Dead(socks[fd]) == old(Dead(socks[fd]))
      ensures var l := old(log)[fd];
        log == old(log)[fd := l.(received := l.received + if os.Got? then os.data else [])]
      ensures Fetched(old(socks)[fd], os, socks[fd], false)
    {
      hide Listed, Waiting, AfterRead, ConnectOk, WatchR, WatchW, Unsent, Unread, Fetched;
      var s := socks[fd];
      Buffered(s);
      RefillGood(s, log[fd], os);
      ReadFetched(s, os);
      ReadFlags(s, os);
      var wantRead := s.flags.wantRead;
      Reader(fd, os);
      var t := socks[fd].(flags := socks[fd].flags.(wantRead := wantRead));
      Recount(activeR, activeW, socks, fd, t);
      socks := socks[fd := t];
      Update(fd);
    }

    /** `zs_write`: takes the bytes into a buffer of their own. A write that failed before is reported once,
        with 1 for its error, and the socket is dead from then on. */
    method Write(fd: int, data: seq<Byte>) returns (r: Result<nat>)
      requires Valid()
      modifies this
      ensures Valid() && Only({fd})
      ensures r == Err(EBADF) <==> fd !in old(socks) || old(socks)[fd].listen || old(socks)[fd].flags.closed
      ensures r == Err(EBADF) ==> unchanged(this)
      ensures r != Err(EBADF) && !old(socks)[fd].flags.writable ==> r == Err(EAGAIN) && unchanged(this)
      ensures r != Err(EBADF) && old(socks)[fd].flags.writable ==> fd in socks && var s, l := old(socks)[fd], old(log)[fd];
        if s.writeErrno != 0 then
          r == Err(Code(1)) && log == old(log) && socks == old(socks)[fd := s.(writeErrno := 0, flags := s.flags.(writable := false))]
        else
          && socks[fd].flags == s.flags.(writable := false, writing := true, wantWrite := true) && socks[fd].writeErrno == 0
          && r == Ok(|data|) && log == old(log)[fd := l.(taken := l.taken + data)]
          && Unsent(s) == [] && Unsent(socks[fd]) == data
      ensures var dies := r != Err(EBADF) && old(socks)[fd].flags.writable && old(socks)[fd].writeErrno != 0;
        DeadOf(socks) == old(DeadOf(socks)) + if dies then {fd} else {}
    {
      hide Listed, Waiting, Dead, DeadOf, LogOk, WatchR, WatchW, Unread, Unsent, ConnectOk;
      if fd !in socks || socks[fd].listen || socks[fd].flags.closed { return Err(EBADF); }
      if !socks[fd].flags.writable { return Err(EAGAIN); }
      r := TakeIn(fd, data);
    }

    method TakeIn(fd: int, data: seq<Byte>) returns (r: Result<nat>)
      requires Valid() && fd in socks && !socks[fd].listen && socks[fd].flags.writable
      modifies this
      ensures Valid() && Only({fd}) && fd in socks
      ensures var s, l := old(socks)[fd], old(log)[fd];
        if s.writeErrno != 0 then
          && r == Err(Code(1)) && log == old(log) && DeadOf(socks) == old(DeadOf(socks)) + {fd}
          && socks == old(socks)[fd := s.(writeErrno := 0, flags := s.flags.(writable := false))]
        else
          && socks[fd].flags == s.flags.(writable := false, writing := true, wantWrite := true) && socks[fd].writeErrno == 0
          && r == Ok(|data|) && log == old(log)[fd := l.(taken := l.taken + data)]
          && Unsent(s) == [] && Unsent(socks[fd]) == data && DeadOf(socks) == old(DeadOf(socks))
    {
      hide Listed, Waiting, Dead, DeadOf, LogOk, WatchR, WatchW, Unread, Unsent, ConnectOk;
      var s := socks[fd];
      assert Good(fd);
      Starts(s, log[fd], data);
      var t;
      t, r := Store(s, data);
      if r.Ok? { log := log[fd := log[fd].(taken := log[fd].taken + data)]; }
      Recount(activeR, activeW, socks, fd, t);
      if fd in activeW && s.flags.writable { selectable := selectable - 1; }
      socks := socks[fd := t];
      Update(fd);
      OthersStay({fd});
      DeadSet(old(socks), fd, t);
    }

    // ---------- coming and going ----------

    /** `zs_type_init`, on a descriptor fresh from the system. */
    method Init(fd: int, s: Sock)
      requires Counted() && fd !in socks && fd !in activeR && fd !in activeW && !s.flags.readable && !s.flags.writable
      modifies this`socks, this`log
      ensures Counted() && socks == old(socks)[fd := s] && log == old(log)[fd := NEW_LOG]
    {
      hide Listed, Waiting;
      RecountTable(activeR, activeW, socks, socks[fd := s], fd);
      socks := socks[fd := s];
      log := log[fd := NEW_LOG];
    }

    /** `zsocket` for listening; a listener that is there already gets one more user. */
    method Listen(fd: int)
      requires Valid() && (fd in socks ==> socks[fd].listen) && (fd !in socks ==> fd !in zfdR)
      modifies this
      ensures Valid() && Only({fd}) && fd in socks && socks[fd].listen
      ensures socks[fd].nOpen == if fd in old(socks) then old(socks)[fd].nOpen + 1 else 1
      ensures DeadOf(socks) == old(DeadOf(socks))
    {
      hide Listed, Waiting, DeadOf, Dead, Counted, SockOk, LogOk, WatchR, WatchW;
      FreshIsActive();
      ListenerGood();
      if fd in socks {
        assert Good(fd);
        Assign(fd, socks[fd].(nOpen := socks[fd].nOpen + 1));
      } else {
        Init(fd, NEW_LISTEN);
      }
      OthersStay({fd});
      SameDead({fd});
    }

    /** `zs_connecter` */
    method Connecter(fd: int)
      requires fd in socks && Counted()
      modifies this`socks, this`selectable
      ensures Counted()
      ensures var s := old(socks)[fd];
        socks == old(socks)[fd := s.(flags := s.flags.(connected := true, writable := true, connecting := false))]
    {
      hide Listed, Waiting;
      var s := socks[fd];
      var t := s.(flags := s.flags.(connected := true, writable := true, connecting := false));
      Recount(activeR, activeW, socks, fd, t);
      if fd in activeW && !s.flags.writable { selectable := selectable + 1; }
      socks := socks[fd := t];
    }

    lemma FreshIsActive()
      requires Counted()
      ensures forall fd :: fd !in socks ==> fd !in activeR && fd !in activeW
    {
    }

    /** `zsocket` for connecting. */
    method Connect(fd: int)
      requires Valid() && fd !in socks
      modifies this
      ensures Valid() && Only({fd}) && fd in socks && !socks[fd].listen && socks[fd].flags.writable && log[fd] == NEW_LOG
      ensures socks[fd].flags == NO_FLAGS.(connected := true, writable := true)
      ensures socks[fd].writeErrno == socks[fd].readErrno == 0 && socks[fd].out.None? && socks[fd].used == 0
      ensures DeadOf(socks) == old(DeadOf(socks))
    {
      hide Counted, WatchR, WatchW, SockOk, LogOk;
      FreshIsActive();
      NewIsOk();
      Init(fd, NEW_CONNECT.(flags := NO_FLAGS.(connecting := true)));
      Connecter(fd);
      Update(fd);
      OthersStay({fd});
    }

    /** `zs_accepter`: the connection is there to be taken, and can be written to. */
    method Accepter(fd: int, child: int)
      requires Counted() && fd in socks && child in socks && child != fd && socks[fd].listen && socks[fd].acceptedFd == child >= 0
      modifies this`socks, this`selectable, this`zfdR, this`zfdW
      ensures Counted()
      ensures var s, c := old(socks)[fd], old(socks)[child];
        socks == old(socks)[fd := s.(flags := s.flags.(readable := true, accepting := false))]
                           [child := c.(flags := c.flags.(connected := true, writable := true))]
      ensures zfdR == With(old(zfdR), fd, false) && zfdW == old(zfdW)
    {
      hide Listed, Waiting;
      var s := socks[fd].(flags := socks[fd].flags.(readable := true, accepting := false));
      Recount(activeR, activeW, socks, fd, s);
      if fd in activeR && !socks[fd].flags.readable { selectable := selectable + 1; }
      socks := socks[fd := s];
      if socks[fd].acceptedFd != -1 {
        var c := socks[child].(flags := socks[child].flags.(connected := true, writable := true));
        Recount(activeR, activeW, socks, child, c);
        if child in activeW && !socks[child].flags.writable { selectable := selectable + 1; }
        socks := socks[child := c];
      }
      Update(fd);
    }

    /** `zs_internal_accept`: the select loop found a listener readable. */
    method InternalAccept(fd: int, os: Accepted)
      requires Valid() && fd in socks && socks[fd].listen && fd in zfdR
      requires os.Accepted? ==> os.fd >= 0 && os.fd !in socks
      modifies this
      ensures Valid() && Only(if os.Accepted? then {fd, os.fd} else {fd}) && fd in socks
      ensures os.AcceptFails? ==> socks == old(socks)[fd := old(socks)[fd].(acceptedErrno := os.errno)]
      ensures os.Accepted? ==> (
        var s := old(socks)[fd];
        && socks == old(socks)[fd := s.(acceptedFd := os.fd, flags := s.flags.(readable := true, accepting := false))]
                              [os.fd := NEW_CONNECT.(parent := fd, flags := NO_FLAGS.(connected := true, writable := true))]
        && log == old(log)[os.fd := NEW_LOG])
      ensures DeadOf(socks) == old(DeadOf(socks))
    {
      hide Listed, Waiting, WatchW, DeadOf;
      assert Good(fd);
      var s := socks[fd];
      match os
      case AcceptFails(errno) =>
        Recount(activeR, activeW, socks, fd, s.(acceptedFd := -1, acceptedErrno := errno));
        socks := socks[fd := s.(acceptedFd := -1, acceptedErrno := errno)];
        Update(fd);
        OthersStay({fd});
        SameDead({fd});
      case Accepted(child) =>
        Welcome(fd, child);
    }

    method Welcome(fd: int, child: int)
      requires Valid() && fd in socks && socks[fd].listen && child >= 0 && child !in socks
      modifies this
      ensures Valid() && Only({fd, child}) && fd in socks && DeadOf(socks) == old(DeadOf(socks))
      ensures var s := old(socks)[fd];
        socks == old(socks)[fd := s.(acceptedFd := child, flags := s.flags.(readable := true, accepting := false))]
                           [child := NEW_CONNECT.(parent := fd, flags := NO_FLAGS.(connected := true, writable := true))]
      ensures log == old(log)[child := NEW_LOG]
    {
      hide Listed, Waiting, WatchW, DeadOf;
      assert Good(fd);
      Adopt(fd, child);
      Update(child);
      Update(fd);
      OthersStay({fd, child});
      SameDead({fd, child});
    }

    method Assign(fd: int, s: Sock)
      requires Counted() && fd in socks
      requires s.flags.readable == socks[fd].flags.readable && s.flags.writable == socks[fd].flags.writable
      modifies this`socks
      ensures Counted() && socks == old(socks)[fd := s]
    {
      hide Listed, Waiting;
      Recount(activeR, activeW, socks, fd, s);
      socks := socks[fd := s];
    }

    method Adopt(fd: int, child: int)
      requires Counted() && fd in socks && socks[fd].listen && child >= 0 && child !in socks && child !in activeR && child !in activeW
      modifies this`socks, this`selectable, this`zfdR, this`zfdW, this`log
      ensures Counted() && log == old(log)[child := NEW_LOG]
      ensures var s := old(socks)[fd];
        socks == old(socks)[fd := s.(acceptedFd := child, flags := s.flags.(readable := true, accepting := false))]
                           [child := NEW_CONNECT.(parent := fd, flags := NO_FLAGS.(connected := true, writable := true))]
      ensures zfdR == With(old(zfdR), fd, false) && zfdW == old(zfdW)
    {
      hide Counted;
      ghost var s := socks[fd];
      var s1, c1 := socks[fd].(acceptedFd := child, flags := socks[fd].flags.(accepting := true)), NEW_CONNECT.(parent := fd);
      Overwrite(socks, fd, s1, s.(acceptedFd := child, flags := s.flags.(readable := true, accepting := false)),
                child, c1, NEW_CONNECT.(parent := fd, flags := NO_FLAGS.(connected := true, writable := true)));
      Assign(fd, s1);
      Init(child, c1);
      Accepter(fd, child);
    }

    /** `zs_accept`: the connection that the select loop has accepted. */
    method Accept(fd: int) returns (r: Result<int>)
      requires Valid()
      modifies this
      ensures Valid() && Only({fd})
      ensures r == Err(EBADF) <==> fd !in old(socks) || old(socks)[fd].flags.closed
      ensures r == Err(EBADF) ==> unchanged(this)
      ensures r != Err(EBADF) && !old(socks)[fd].listen ==> r == Err(EINVAL) && unchanged(this)
      ensures r != Err(EBADF) && old(socks)[fd].listen && !old(socks)[fd].flags.readable ==> r == Err(EAGAIN) && unchanged(this)
      ensures r != Err(EBADF) && old(socks)[fd].listen && old(socks)[fd].flags.readable ==>
        && r == Ok(old(socks)[fd].acceptedFd) && r.value >= 0
        && var s := old(socks)[fd]; socks == old(socks)[fd := s.(acceptedFd := -1, acceptedErrno := 0, flags := s.flags.(readable := false))]
      ensures DeadOf(socks) == old(DeadOf(socks))
    {
      hide Listed, Waiting, WatchW, ConnectOk;
      if fd !in socks || socks[fd].flags.closed { return Err(EBADF); }
      if !socks[fd].listen { return Err(EINVAL); }
      if !socks[fd].flags.readable { return Err(EAGAIN); }
      assert Good(fd);
      var s := socks[fd];
      var t := s.(acceptedErrno := 0, acceptedFd := -1, flags := s.flags.(readable := false));
      Recount(activeR, activeW, socks, fd, t);
      if fd in activeR && s.flags.readable { selectable := selectable - 1; }
      assert s.acceptedFd >= 0;
      r := Ok(s.acceptedFd);
      socks := socks[fd := t];
      Update(fd);
      OthersStay({fd});
    }

    // ---------- what the counter is for ----------

    /** `zs_need_select`: exactly when some active descriptor has an event to be delivered. */
    method NeedSelect() returns (r: bool)
      requires Valid()
      ensures r <==> exists fd :: fd in active && HasEvent(fd)
    {
      r := selectable != 0;
      ghost var rs, ws := Readable(activeR, socks), Writable(activeW, socks);
      if |rs| > 0 {
        ghost var fd := Member(rs);
        assert fd in active && HasEvent(fd);
      }
      if |ws| > 0 {
        ghost var fd := Member(ws);
        assert fd in active && HasEvent(fd);
      }
      if fd :| fd in active && HasEvent(fd) { assert fd in rs || fd in ws; }
    }

    /** What `zs_select` looks for. */
    ghost predicate HasEvent(fd: int)
      reads this`socks, this`activeR, this`activeW
    {
      fd in socks && ((fd in activeR && socks[fd].flags.readable) || (fd in activeW && socks[fd].flags.writable))
    }
  }

  /** A read that would block leaves the wish to read behind. Closing the socket then gives its watch back to
      the select loop, for a descriptor that is no longer in the table. */
  method WatchLeftBehind(fd: int) returns (s: Sockets)
    ensures fresh(s) && s.Valid() && fd !in s.socks && fd in s.zfdR
  {
    hide Listed, Waiting, LogOk, Dead, DeadOf;
    s := new Sockets();
    s.Connect(fd);
    s.SetRead(fd);
    s.InternalRead(fd, ReadBlocks);
    assert s.Good(fd);
    var _ := s.Close(fd);
  }

  /** A write the system refuses: nothing more of the buffer goes out, the next `zs_write` reports it, whatever
      the error was, by 1, and no later one is taken. */
  method FailedWriteReported(s: Sockets, fd: int, errno: nat, data: seq<Byte>, more: seq<Byte>)
    returns (r: Result<nat>, again: Result<nat>)
    requires s.Valid() && fd in s.socks && !s.socks[fd].listen && !s.socks[fd].flags.closed && s.socks[fd].flags.wantWrite
    requires errno != 0
    modifies s
    ensures s.Valid() && r == Err(Code(1)) && again == Err(EAGAIN)
    ensures fd in s.socks && s.log == old(s.log)[fd := s.log[fd]] && s.log[fd].taken == old(s.log)[fd].taken
  {
    hide Listed, Waiting, LogOk, Dead, DeadOf, ConnectOk, Unsent, Unread, Finished, Taken, Drops, WatchR;
    assert s.Good(fd);
    s.InternalWrite(fd, WriteFails(errno));
    r := s.Write(fd, data);
    again := s.Write(fd, more);
  }

  /** A read the system refuses is reported by every `zs_read` from then on, with the error of the system. */
  method FailedReadReported(s: Sockets, fd: int, errno: nat, nbyte: nat, os: Got) returns (r: Result<seq<Byte>>, again: Result<seq<Byte>>)
    requires s.Valid() && fd in s.socks && !s.socks[fd].listen && !s.socks[fd].flags.closed && fd in s.zfdR
    requires errno > 0 && (os.Got? ==> |os.data| <= READ_SIZE) && (os.ReadFails? ==> os.errno > 0)
    modifies s
    ensures s.Valid() && r == again == Err(Code(errno))
    ensures fd in s.socks && s.log == old(s.log)[fd := s.log[fd]] && s.log[fd].delivered == old(s.log)[fd].delivered
  {
    hide Listed, Waiting, LogOk, Dead, DeadOf, ConnectOk, Unsent, Unread, WatchW;
    assert s.Good(fd);
    s.InternalRead(fd, ReadFails(errno));
    r := s.Read(fd, nbyte, os);
    again := s.Read(fd, nbyte, os);
  }

  lemma ListenerGood()
    ensures SockOk(NEW_LISTEN) && NEW_LISTEN.listen && LogOk(NEW_LISTEN, NEW_LOG) && !WatchR(NEW_LISTEN, false) && !Dead(NEW_LISTEN)
    ensures forall s: Sock, n: int, b: bool {:trigger WatchR(s.(nOpen := n), b)} :: WatchR(s.(nOpen := n), b) == WatchR(s, b)
    ensures forall s: Sock, n: int {:trigger SockOk(s.(nOpen := n))} :: SockOk(s.(nOpen := n)) == SockOk(s)
    ensures forall s: Sock, n: int, l: Log {:trigger LogOk(s.(nOpen := n), l)} :: LogOk(s.(nOpen := n), l) == LogOk(s, l)
    ensures forall s: Sock, n: int {:trigger Dead(s.(nOpen := n))} :: Dead(s.(nOpen := n)) == Dead(s)
  {
  }

  lemma Overwrite(m: map<int, Sock>, x: int, a: Sock, a': Sock, y: int, b: Sock, b': Sock)
    requires x != y
    ensures m[x := a][y := b][x := a'][y := b'] == m[x := a'][y := b'] && m[x := a][y := b][x] == a && m[x := a][y := b][x := a'][y] == b
  {
  }

  lemma NewIsOk()
    ensures var s := NEW_CONNECT.(flags := NO_FLAGS.(connected := true, writable := true));
      SockOk(s) && !s.listen && LogOk(s, NEW_LOG)
    ensures NO_FLAGS.(connecting := true).(connected := true, writable := true, connecting := false)
      == NO_FLAGS.(connected := true, writable := true)
  {
  }

  lemma DeadSet(socks: map<int, Sock>, fd: int, s: Sock)
    ensures DeadOf(socks[fd := s]) == if Dead(s) then DeadOf(socks) + {fd} else DeadOf(socks) - {fd}
    ensures fd in DeadOf(socks) <==> fd in socks && Dead(socks[fd])
  {
  }

  lemma WritingIsLive(s: Sock)
    requires !s.listen && ConnectOk(s) && s.flags.wantWrite
    ensures !Dead(s)
  {
  }

  lemma NoMember(s: set<int>)
    ensures (forall y :: y !in s) ==> |s| == 0
  {
    if forall y :: y !in s { assert s == {}; }
  }

  lemma Member(s: set<int>) returns (x: int)
    requires |s| > 0
    ensures x in s
  {
    NoMember(s);
    assert exists y :: y in s;
    x :| x in s;
  }

  lemma WriteStart(s: Sock, os: Wrote)
    requires !s.listen && ConnectOk(s) && s.flags.wantWrite && (os.Wrote? ==> os.n <= |Unsent(s)|)
    ensures s.out.Some? && s.sent <= |s.out.value| && s.flags.writing
    ensures var t := s.(flags := s.flags.(wantWrite := false)); Unsent(t) == Unsent(s) && Finished(t, os) == Finished(s, os) && Taken(t, os) == Taken(s, os) && Drops(t, os) == Drops(s, os)
    ensures Finished(s, os) && !Drops(s, os) ==> Taken(s, os) == Unsent(s)
  {
  }

  lemma WriteGood(s: Sock, t: Sock, l: Log, os: Wrote)
    requires !s.listen && ConnectOk(s) && s.flags.wantWrite && (os.Wrote? ==> os.n <= |Unsent(s)|)
    requires t == s.(flags := s.flags.(wantWrite := false)) && LogOk(s, l) && !(s.flags.closed && Finished(s, os))
    ensures ConnectOk(AfterWrite(t, os)) && !AfterWrite(t, os).listen
    ensures LogOk(AfterWrite(t, os), l.(written := l.written + Taken(s, os), lost := l.lost || Drops(s, os)))
  {
    hide ConnectOk, AfterWrite, Unsent, Unread, Taken, Drops, Finished;
    WriteStart(s, os);
    WriteKeeps(s, os);
    WriteFlags(t, os);
    var u := AfterWrite(t, os);
    if !u.flags.closed { assert u.(flags := u.flags.(closed := false)) == u; }
    assert l.taken == l.written + Unsent(s) && !Drops(s, os) ==> l.taken == l.written + Taken(s, os) + Unsent(u);
  }

  lemma Buffered(s: Sock)
    requires ConnectOk(s)
    ensures s.used >= 0 ==> s.pos + s.used <= |s.buf| && Unread(s) == s.buf[s.pos..s.pos + s.used]
    ensures !s.flags.readable ==> s.used == 0 && s.pos == 0 && s.readErrno == 0
    ensures (s.readErrno != 0 <==> s.used == -1) && (s.readErrno == 0 ==> s.used >= 0)
    ensures s.flags.readable && s.readErrno == 0 ==> (s.used == 0 <==> s.flags.eof)
    ensures s.flags.readable ==> !s.flags.reading && !s.flags.wantRead
  {
  }

  lemma ReadStart(s: Sock, interest: bool, os: Got)
    requires !s.listen && ConnectOk(s) && WatchR(s, interest)
    ensures !s.flags.readable && s.used == 0 && s.pos == 0 && (s.flags.wantRead ==> s.flags.reading)
  {
  }

  lemma ReadGood(s: Sock, l: Log, os: Got)
    requires !s.listen && ConnectOk(s) && !s.flags.readable && LogOk(s, l) && (os.ReadFails? ==> os.errno > 0)
    ensures var t := AfterRead(s.(flags := s.flags.(reading := true, wantRead := false)), os);
      && ConnectOk(t) && !t.listen && (t.flags.readable <==> !os.ReadBlocks?)
      && LogOk(t, l.(received := l.received + if os.Got? then os.data else []))
  {
    ReadKeeps(s.(flags := s.flags.(reading := true, wantRead := false)), os);
    ReadFlags(s.(flags := s.flags.(reading := true, wantRead := false)), os);
  }

  lemma RefillGood(s: Sock, l: Log, os: Got)
    requires !s.listen && ConnectOk(s) && !s.flags.readable && !s.flags.reading && LogOk(s, l)
    requires os.ReadFails? ==> os.errno > 0
    ensures var t := AfterRead(s, os); var u := t.(flags := t.flags.(wantRead := s.flags.wantRead));
      && ConnectOk(u) && !u.listen && LogOk(u, l.(received := l.received + if os.Got? then os.data else []))
  {
    if os.ReadBlocks? {
      assert AfterRead(s, os).(flags := AfterRead(s, os).flags.(wantRead := s.flags.wantRead)) == s;
    } else {
      ReadKeeps(s, os);
    }
  }

  lemma ConsumedDead(s: Sock, t: Sock)
    requires s.listen == t.listen && s.flags == t.flags
    ensures Dead(t) == Dead(s) && Dead(Drained(t)) == Dead(s)
  {
  }

  /** The read buffer is empty, and no longer to be read from. */
  function Drained(s: Sock): Sock { s.(pos := 0, used := 0, flags := s.flags.(readable := false)) }

  /** What has been handed out is not in the way of the bytes that come in. */
  lemma FetchedAgain(s: Sock, t: Sock, os: Got, u: Sock)
    requires ConnectOk(s) && s.flags.readable && s.used > 0
    requires t == s.(pos := t.pos, used := t.used) && Fetched(Drained(t), os, u, false)
    ensures Fetched(s, os, u, false)
  {
  }

  lemma ConsumedOk(s: Sock, t: Sock, used: nat)
    requires ConnectOk(s) && s.flags.readable && 0 < s.used && used <= s.used
    requires t == s.(pos := s.pos + used, used := s.used - used)
    ensures forall b :: WatchR(t, b) == WatchR(s, b) && WatchW(t, b) == WatchW(s, b)
    ensures t.used > 0 ==> ConnectOk(t)
    ensures t.used == 0 ==> var u := Drained(t); ConnectOk(u) && !u.flags.reading && !u.flags.readable
  {
    hide Unread, Unsent;
  }

  lemma Split(b: seq<Byte>, i: nat, j: nat, k: nat)
    requires i <= j <= k <= |b|
    ensures b[i..k] == b[i..j] + b[j..k] && b[i..k][..j - i] == b[i..j]
  {
  }

  /** Part of the read buffer is handed out. */
  lemma Consumed(s: Sock, t: Sock, used: nat, l: Log)
    requires ConnectOk(s) && s.flags.readable && 0 < s.used && used <= s.used && LogOk(s, l)
    requires t == s.(pos := s.pos + used, used := s.used - used)
    ensures s.pos + s.used <= |s.buf| && Unread(s)[..used] == s.buf[s.pos..s.pos + used] && |Unread(s)| == s.used
    ensures forall b :: WatchR(t, b) == WatchR(s, b) && WatchW(t, b) == WatchW(s, b)
    ensures var m := l.(delivered := l.delivered + s.buf[s.pos..s.pos + used]);
      && (t.used > 0 ==> ConnectOk(t) && LogOk(t, m))
      && (t.used == 0 ==> var u := Drained(t); ConnectOk(u) && LogOk(u, m) && !u.flags.reading && !u.flags.readable)
  {
    hide ConnectOk, WatchR, WatchW, Unsent, Unread, LogOk;
    Buffered(s);
    ConsumedOk(s, t, used);
    Split(s.buf, s.pos, s.pos + used, s.pos + s.used);
    SameUnsent(s, t);
    SameUnsent(s, Drained(t));
    UnreadIs(t);
    UnreadIs(Drained(t));
    NothingLeft(s.buf, s.pos + used);
    LogConsumed(s, t, s.buf[s.pos..s.pos + used], l);
    if t.used == 0 { LogConsumed(s, Drained(t), s.buf[s.pos..s.pos + used], l); }
  }

  lemma LogConsumed(s: Sock, t: Sock, part: seq<Byte>, l: Log)
    requires LogOk(s, l) && Unread(s) == part + Unread(t) && Unsent(s) == Unsent(t)
    ensures LogOk(t, l.(delivered := l.delivered + part))
  {
    hide Unsent, Unread;
    assert l.delivered + (part + Unread(t)) == l.delivered + part + Unread(t);
  }

  lemma UnreadIs(s: Sock)
    requires 0 <= s.used && s.pos + s.used <= |s.buf|
    ensures Unread(s) == s.buf[s.pos..s.pos + s.used]
  {
  }

  lemma NothingLeft(b: seq<Byte>, j: nat)
    requires j <= |b|
    ensures b[j..j] == [] && b[0..0] == []
  {
  }

  lemma SameUnsent(s: Sock, t: Sock)
    requires s.out == t.out && s.sent == t.sent
    ensures Unsent(s) == Unsent(t)
  {
  }

  lemma Nothing(l: Log)
    ensures l.delivered + [] == l.delivered && l.received + [] == l.received
  {
  }

  lemma Starts(s: Sock, l: Log, data: seq<Byte>)
    requires !s.listen && ConnectOk(s) && s.flags.writable && LogOk(s, l)
    ensures s.out.None? && Unsent(s) == []
    ensures var t := s.(writeErrno := 0, flags := s.flags.(writable := false));
      ConnectOk(t) && LogOk(t, l) && Dead(t)
    ensures !Dead(s) && s.flags.connected
    ensures var t := s.(out := MsgCore.Some(data), sent := 0, flags := s.flags.(writable := false, writing := true, wantWrite := true));
      ConnectOk(t) && LogOk(t, l.(taken := l.taken + data)) && Unsent(t) == data && !Dead(t)
  {
  }
}
