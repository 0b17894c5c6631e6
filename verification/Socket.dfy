/** The sending half of a stream socket, driven by any finite list of kernel answers. */
module Socket {
  import opened Common

  /** Answer to one writev: accept at most so many bytes, EINTR, or another error. */
  datatype Answer = Accept(most: nat) | Interrupted | Broken

  /** The kernel neither breaks the connection nor accepts nothing. */
  predicate Healthy(script: seq<Answer>) {
    forall a :: a in script ==> a.Interrupted? || (a.Accept? && a.most > 0)
  }

  /** Answers that make progress. */
  function Accepts(script: seq<Answer>): nat {
    if script == [] then 0 else (if script[0].Accept? then 1 else 0) + Accepts(script[1..])
  }

  class Socket {
    var script: seq<Answer>
    var sent: seq<Byte>

    constructor (script: seq<Answer>)
      ensures this.script == script && sent == []
    {
      this.script, this.sent := script, [];
    }

    /** n < 0 is an error, and then `interrupted` tells EINTR from the others; no answer left is an error. */
    method Writev(iov: seq<seq<Byte>>) returns (n: int, interrupted: bool)
      modifies this
      ensures -1 <= n <= |Concat(iov)|
      ensures sent == old(sent) + if n >= 0 then Concat(iov)[..n] else []
      ensures old(script) != [] ==> script == old(script)[1..]
      ensures old(script) == [] ==> script == [] && n < 0 && !interrupted
      ensures Healthy(old(script)) ==>
        && Healthy(script)
        && (n < 0 && interrupted ==> Accepts(script) == Accepts(old(script)))
        && (n < 0 && !interrupted ==> Accepts(old(script)) == 0)
        && (n == 0 ==> Concat(iov) == [])
        && (n > 0 ==> Accepts(script) == Accepts(old(script)) - 1)
    {
      if script == [] {
        return -1, false;
      }
      match script[0] {
        case Interrupted => n, interrupted := -1, true;
        case Broken => n, interrupted := -1, false;
        case Accept(most) =>
          n, interrupted := if most < |Concat(iov)| then most else |Concat(iov)|, false;
          sent := sent + Concat(iov)[..n];
      }
      script := script[1..];
    }
  }
}
