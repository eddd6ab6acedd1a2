/** I/O operations, their completions, and how the io_uring backend answers one with the other
    (`src/io/mod.rs`, `src/io/uring.rs`). */
module Io {
  import opened Options

  type Token = nat
  type Addr = nat
  type Bytes = seq<bv8>

  datatype Op =
    | Accept(fd: int)
    | Read(fd: int, offset: nat, len: nat)
    | Write(fd: int, offset: nat, data: Bytes)
    | Fsync(fd: int)
    | Close(fd: int)
    | ReadFile(fd: int, offset: nat, len: nat)
    | WriteFile(fd: int, offset: nat, data: Bytes)
    | UdpRecv(fd: int, buffer: Bytes)
    | UdpSend(fd: int, data: Bytes, addr: Addr)

  datatype CompletionKind =
    | Accepted(fd: int, addr: Option<Addr>)
    | HasRead(bytesRead: nat, data: Bytes)
    | HasWritten(bytesWritten: nat)
    | Synced
    | Closed
    | HasReadFile(bytesRead: nat, data: Bytes)
    | HasWrittenFile(bytesWritten: nat)
    | Received(bytesRead: nat, buffer: Bytes, from: Addr)
    | Sent(bytesWritten: nat, data: Bytes)

  datatype IoError = Os(code: nat) | UnsupportedFamily

  datatype IoResult = Ok(kind: CompletionKind) | Err(error: IoError)

  /** What the kernel posts: the token it was given, its verdict, the memory it was allowed to write,
      and the peer address it stored, if that has a known family. */
  datatype Cqe = Cqe(userData: Token, result: int, memory: Bytes, peer: Option<Addr>)

  /** `set_len` after a read: the first `n` bytes of the kernel's memory. */
  function Filled(memory: Bytes, n: nat): (b: Bytes) {
    if n <= |memory| then memory[..n] else memory
  }

  function ResultOf(op: Op, c: Cqe): (r: IoResult) {
    if c.result < 0 then Err(Os(-c.result))
    else
      match op
      case Accept(_) => if c.peer.None? then Err(UnsupportedFamily) else Ok(Accepted(c.result, c.peer))
      case Read(_, _, _) => Ok(HasRead(c.result, Filled(c.memory, c.result)))
      case Write(_, _, _) => Ok(HasWritten(c.result))
      case Fsync(_) => Ok(Synced)
      case Close(_) => Ok(Closed)
      case ReadFile(_, _, _) => Ok(HasReadFile(c.result, Filled(c.memory, c.result)))
      case WriteFile(_, _, _) => Ok(HasWrittenFile(c.result))
      case UdpRecv(_, _) =>
        if c.peer.None? then Err(UnsupportedFamily)
        else Ok(Received(c.result, Filled(c.memory, c.result), c.peer.value))
      case UdpSend(_, data, _) => Ok(Sent(c.result, data))
  }

  /** The completion kind the client that submitted `op` matches on. */
  predicate Expected(op: Op, r: IoResult) {
    r.Ok? ==>
      match op
      case Accept(_) => r.kind.Accepted? && r.kind.addr.Some?
      case Read(_, _, _) => r.kind.HasRead?
      case Write(_, _, _) => r.kind.HasWritten?
      case Fsync(_) => r.kind.Synced?
      case Close(_) => r.kind.Closed?
      case ReadFile(_, _, _) => r.kind.HasReadFile?
      case WriteFile(_, _, _) => r.kind.HasWrittenFile?
      case UdpRecv(_, _) => r.kind.Received?
      case UdpSend(_, data, _) => r.kind.Sent? && r.kind.data == data
  }

  /** The bytes a read hands out: the first `n` of the kernel's memory, if it has that many. */
  predicate ReadFrom(data: Bytes, memory: Bytes, n: int) {
    0 <= n && |data| <= n && data <= memory && (n <= |memory| ==> data == memory[..n])
  }

  /** What each field of a result has to be, given the kernel's answer: a negative verdict is the error code
      with its sign changed; otherwise the verdict is the new descriptor of an accept and the count of every
      transfer, a read's data is that much of the memory lent, a peer is the one stored, and a missing one
      is an error. */
  predicate Tells(op: Op, c: Cqe, r: IoResult) {
    match r
    case Err(Os(code)) => c.result < 0 && code + c.result == 0
    case Err(UnsupportedFamily) => c.result >= 0 && c.peer == None && (op.Accept? || op.UdpRecv?)
    case Ok(kind) =>
      && c.result >= 0
      && match op
         case Accept(_) => kind.Accepted? && kind.fd == c.result && c.peer.Some? && kind.addr == c.peer
         case Read(_, _, _) => kind.HasRead? && kind.bytesRead == c.result && ReadFrom(kind.data, c.memory, c.result)
         case Write(_, _, _) => kind.HasWritten? && kind.bytesWritten == c.result
         case Fsync(_) => kind.Synced?
         case Close(_) => kind.Closed?
         case ReadFile(_, _, _) =>
           kind.HasReadFile? && kind.bytesRead == c.result && ReadFrom(kind.data, c.memory, c.result)
         case WriteFile(_, _, _) => kind.HasWrittenFile? && kind.bytesWritten == c.result
         case UdpRecv(_, _) =>
           && kind.Received? && kind.bytesRead == c.result && ReadFrom(kind.buffer, c.memory, c.result)
           && c.peer.Some? && kind.from == c.peer.value
         case UdpSend(_, data, _) => kind.Sent? && kind.bytesWritten == c.result && kind.data == data
  }

  lemma ResultTells(op: Op, c: Cqe)
    ensures Tells(op, c, ResultOf(op, c))
  {
  }

  /** The answer decides the result: two that are told by the same answer differ in nothing but what the
      data of a read beyond the memory lent would be. */
  lemma ToldOnce(op: Op, c: Cqe, r: IoResult, q: IoResult)
    requires Tells(op, c, r) && Tells(op, c, q) && c.result <= |c.memory|
    ensures r == q
  {
  }
}
