/** The receive and send loops of the forwarding engine, over its in-place byte buffers.
    What the kernel answers to each call is given as a script; an exhausted script means
    that the call would block. */
module Connections {

  datatype RecvResult = Bytes(data: string) | Closed | Again | Failed

  datatype SendResult = Accepted(n: nat) | WouldBlock | Broken

  /** Why a loop stopped. */
  datatype Stop = AtEnd | Blocked | OnError

  function Min(a: nat, b: nat): nat {
    if a < b then a else b
  }

  /** The answer of one recv with room for `space` bytes; with no room at all recv returns 0. */
  function Recv(recvs: seq<RecvResult>, space: nat): (r: RecvResult)
    ensures r.Bytes? ==> 0 < |r.data| <= space
  {
    if space == 0 then Closed
    else if recvs == [] then Again
    else match recvs[0]
      case Bytes(data) => if data == "" then Closed else Bytes(data[..Min(|data|, space)])
      case r => r
  }

  /** All the bytes that a receive loop with room for `space` takes, and why it stops. */
  function Drain(recvs: seq<RecvResult>, space: nat): (r: (string, Stop))
    ensures |r.0| <= space
    decreases |recvs|
  {
    match Recv(recvs, space)
    case Bytes(data) => var (more, stop) := Drain(recvs[1..], space - |data|); (data + more, stop)
    case Closed => ("", AtEnd)
    case Again => ("", Blocked)
    case Failed => ("", OnError)
  }

  function RecvCode(r: (string, Stop)): int {
    match r.1
    case AtEnd => if r.0 == "" then -2 else |r.0|
    case Blocked => |r.0|
    case OnError => -1
  }

  /** The bytes of `pending` that a send loop puts on the wire, and why it stops. */
  function Flush(sends: seq<SendResult>, pending: string): (r: (string, Stop))
    ensures r.0 <= pending
    decreases |sends|
  {
    if pending == "" then ("", AtEnd)
    else if sends == [] then ("", Blocked)
    else match sends[0]
      case Accepted(n) =>
        if n == 0 then ("", OnError)
        else
          var m := Min(n, |pending|);
          var (more, stop) := Flush(sends[1..], pending[m..]);
          (pending[..m] + more, stop)
      case WouldBlock => ("", Blocked)
      case Broken => ("", OnError)
  }

  function SendCode(r: (string, Stop)): int {
    if r.1.OnError? then -1 else |r.0|
  }

  /** What a receive loop that has taken `taken` in `calls` calls will have taken at its end. */
  ghost function DrainFrom(recvs: seq<RecvResult>, calls: nat, taken: string, room: nat): (string, Stop)
    requires calls <= |recvs| && |taken| <= room
  {
    var (more, stop) := Drain(recvs[calls..], room - |taken|);
    (taken + more, stop)
  }

  lemma DrainStart(recvs: seq<RecvResult>, room: nat)
    ensures DrainFrom(recvs, 0, "", room) == Drain(recvs, room)
  {
    hide Drain;
    assert recvs[0..] == recvs;
    assert "" + Drain(recvs, room).0 == Drain(recvs, room).0;
  }

  lemma DrainFirst(recvs: seq<RecvResult>, calls: nat, taken: string, room: nat)
    requires calls <= |recvs| && |taken| <= room
    ensures var answer := Recv(recvs[calls..], room - |taken|);
            match answer
            case Bytes(data) =>
              && calls < |recvs| && |taken + data| <= room
              && DrainFrom(recvs, calls, taken, room) == DrainFrom(recvs, calls + 1, taken + data, room)
            case Closed => DrainFrom(recvs, calls, taken, room) == (taken, AtEnd)
            case Again => DrainFrom(recvs, calls, taken, room) == (taken, Blocked)
            case Failed => DrainFrom(recvs, calls, taken, room) == (taken, OnError)
  {
    var answer := Recv(recvs[calls..], room - |taken|);
    if answer.Bytes? {
      assert recvs[calls..][1..] == recvs[calls + 1..];
      var more := Drain(recvs[calls + 1..], room - |taken| - |answer.data|).0;
      assert taken + (answer.data + more) == taken + answer.data + more;
    } else {
      assert taken + "" == taken;
    }
  }

  method Append(buffer: array<char>, len: nat, data: string)
    requires len + |data| <= buffer.Length
    modifies buffer
    ensures buffer[..len + |data|] == old(buffer[..len]) + data
  {
    forall i | 0 <= i < |data| {
      buffer[len + i] := data[i];
    }
  }

  method RecvIntoBuffer(buffer: array<char>, len: nat, capacity: nat, recvs: seq<RecvResult>)
    returns (len': nat, r: int)
    requires len <= capacity <= buffer.Length
    modifies buffer
    ensures var got := Drain(recvs, capacity - len);
            && len' == len + |got.0| && r == RecvCode(got)
            && buffer[..len'] == old(buffer[..len]) + got.0
  {
    hide Drain, DrainFrom, Recv;
    ghost var before, taken, room := buffer[..len], "", capacity - len;
    len' := len;
    var total, calls := 0, 0;
    DrainStart(recvs, room);
    while true
      invariant calls <= |recvs| && total == |taken| <= room && len' == len + total
      invariant buffer[..len'] == before + taken
      invariant DrainFrom(recvs, calls, taken, room) == Drain(recvs, room)
      decreases |recvs| - calls
    {
      DrainFirst(recvs, calls, taken, room);
      var answer := Recv(recvs[calls..], capacity - len');
      match answer {
        case Bytes(data) =>
          Append(buffer, len', data);
          assert before + taken + data == before + (taken + data);
          taken := taken + data;
          len', total, calls := len' + |data|, total + |data|, calls + 1;
        case Closed =>
          return len', if total > 0 then total else -2;
        case Again =>
          return len', total;
        case Failed =>
          return len', -1;
      }
    }
  }

  method SendFromBuffer(buffer: array<char>, len: nat, sends: seq<SendResult>) returns (len': nat, r: int)
    requires len <= buffer.Length
    modifies buffer
    ensures var sent := Flush(sends, old(buffer[..len]));
            && len' == len - |sent.0| && r == SendCode(sent)
            && sent.0 + buffer[..len'] == old(buffer[..len])
  {
    hide Flush, FlushFrom;
    ghost var pending := buffer[..len];
    len' := len;
    var total, calls := 0, 0;
    FlushStart(sends, pending);
    while len' > 0
      invariant len' <= len && calls <= |sends| && total == len - len'
      invariant buffer[..len'] == pending[total..]
      invariant FlushFrom(sends, calls, pending, total) == Flush(sends, pending)
      decreases |sends| - calls
    {
      FlushFirst(sends, calls, pending, total);
      if calls == |sends| {
        return len', total;
      }
      if !sends[calls].Accepted? || sends[calls].n == 0 {
        return len', if sends[calls].WouldBlock? then total else -1;
      }
      var s := Min(sends[calls].n, len');
      Shift(buffer, len', s);
      len', total, calls := len' - s, total + s, calls + 1;
    }
    FlushAll(sends, calls, pending);
    return len', total;
  }

  /** The result of a send loop that has sent `total` bytes in `calls` calls. */
  ghost function FlushFrom(sends: seq<SendResult>, calls: nat, pending: string, total: nat): (string, Stop)
    requires calls <= |sends| && total <= |pending|
  {
    var rest := Flush(sends[calls..], pending[total..]);
    (pending[..total] + rest.0, rest.1)
  }

  lemma FlushStart(sends: seq<SendResult>, pending: string)
    ensures FlushFrom(sends, 0, pending, 0) == Flush(sends, pending)
    ensures pending[0..] == pending
  {
    assert pending[0..] == pending && sends[0..] == sends;
    assert pending[..0] + Flush(sends, pending).0 == Flush(sends, pending).0;
  }

  lemma FlushAll(sends: seq<SendResult>, calls: nat, pending: string)
    requires calls <= |sends|
    ensures FlushFrom(sends, calls, pending, |pending|) == (pending, AtEnd)
  {
    assert pending[|pending|..] == "";
    assert pending[..|pending|] + "" == pending;
  }

  /** `memmove(buffer, buffer + s, len - s)`. */
  method Shift(buffer: array<char>, len: nat, s: nat)
    requires s <= len <= buffer.Length
    modifies buffer
    ensures buffer[..len - s] == old(buffer[s..len])
  {
    forall i | 0 <= i < len - s {
      buffer[i] := buffer[i + s];
    }
  }

  lemma FlushFirst(sends: seq<SendResult>, calls: nat, pending: string, total: nat)
    requires calls <= |sends| && total < |pending|
    ensures FlushFrom(sends, calls, pending, total) ==
              if calls == |sends| || sends[calls].WouldBlock? then (pending[..total], Blocked)
              else if sends[calls].Broken? || sends[calls].n == 0 then (pending[..total], OnError)
              else FlushFrom(sends, calls + 1, pending, total + Min(sends[calls].n, |pending| - total))
  {
    assert pending[..total] + "" == pending[..total];
    if calls < |sends| && sends[calls].Accepted? && sends[calls].n > 0 {
      var m := Min(sends[calls].n, |pending| - total);
      assert sends[calls..][1..] == sends[calls + 1..];
      assert pending[total..][m..] == pending[total + m..];
      assert pending[..total] + pending[total..][..m] == pending[..total + m];
      var more := Flush(sends[calls + 1..], pending[total + m..]).0;
      assert pending[..total] + (pending[total..][..m] + more) == pending[..total + m] + more;
    }
  }
}
