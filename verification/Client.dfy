/** The record of a client, with its two buffers. */
module Clients {
  import opened CString
  import opened Connections
  import opened Lifecycle

  class ClientState {
    var clientFd: int
    var targetFd: int
    var clientClosed: bool
    var targetClosed: bool
    var slot: int
    var lastActive: int
    var expired: bool
    var requestBuffer: array<char>
    var requestLen: nat
    var requestCapacity: nat
    var responseBuffer: array<char>
    var responseLen: nat
    var responseCapacity: nat
    var state: Phase
    var host: string
    var port: CInt
    var isHttps: bool
    ghost var h: History

    /** The request buffer has one more element than its capacity: the terminator that the
        reading state writes after the request may land just past the allocation. */
    ghost predicate Shape()
      reads this
    {
      && requestBuffer.Length == requestCapacity + 1 && requestLen <= requestCapacity
      && responseBuffer.Length == responseCapacity && responseLen <= responseCapacity
      && requestBuffer != responseBuffer
    }

    ghost function Repr(): set<object>
      reads this
    {
      {this, requestBuffer, responseBuffer}
    }

    ghost function View(): (c: Client)
      requires Shape()
      reads this, requestBuffer, responseBuffer
      ensures Roomy(c)
    {
      Client(clientFd, targetFd, clientClosed, targetClosed, slot, lastActive, expired,
             requestBuffer[..requestLen], requestCapacity, responseBuffer[..responseLen], responseCapacity,
             state, host, port, isHttps, h)
    }

    constructor (fd: int, now: int)
      ensures Shape() && View() == NewClient(fd, now) && fresh(Repr())
    {
      clientFd, targetFd := fd, -1;
      clientClosed, targetClosed := false, false;
      slot := 0;
      lastActive, expired := now, false;
      requestBuffer := new char[MAX_BUFFER_SIZE + 1];
      requestLen, requestCapacity := 0, MAX_BUFFER_SIZE;
      responseBuffer := new char[MAX_BUFFER_SIZE];
      responseLen, responseCapacity := 0, MAX_BUFFER_SIZE;
      state, host, port, isHttps := ReadingRequest, "", 80, false;
      h := NOTHING;
    }

    /** `realloc` to twice the capacity. */
    method Grow()
      requires Shape()
      modifies this
      ensures Shape() && View() == old(View()).(requestCapacity := 2 * old(requestCapacity))
      ensures fresh(requestBuffer) && responseBuffer == old(responseBuffer) && slot == old(slot)
    {
      var bigger := new char[2 * requestCapacity + 1];
      forall i | 0 <= i < requestLen {
        bigger[i] := requestBuffer[i];
      }
      assert bigger[..requestLen] == requestBuffer[..requestLen];
      requestBuffer := bigger;
      requestCapacity := requestCapacity * 2;
    }

    /** Takes the bytes of one recv, and writes the terminator after them: at `requestLen`, which
        is past the program's own buffer when that is full. */
    method Take(data: string)
      requires Shape() && requestLen + |data| <= requestCapacity
      modifies this`requestLen, this`h, requestBuffer
      ensures Shape() && requestLen == old(requestLen) + |data| && requestBuffer[requestLen] == NUL
      ensures View() == old(View()).(request := old(View()).request + data,
                                     h := old(h).(fromClient := old(h).fromClient + data))
    {
      forall i | 0 <= i < |data| {
        requestBuffer[requestLen + i] := data[i];
      }
      requestLen := requestLen + |data|;
      requestBuffer[requestLen] := NUL;
      h := h.(fromClient := h.fromClient + data);
    }

    method ReadRequestNonblocking(env: Env) returns (result: int)
      requires Shape()
      modifies this, requestBuffer
      ensures Shape() && (View(), result) == ReadRequest(old(View()), env)
      ensures state == old(state) && expired == old(expired)
      ensures (requestBuffer == old(requestBuffer) || fresh(requestBuffer))
      ensures responseBuffer == old(responseBuffer) && slot == old(slot)
    {
      hide RecvRequest;
      if requestLen == requestCapacity - 1 {
        if !env.reallocOk {
          return -1;
        }
        Grow();
      }
      result := Receive(env);
    }

    /** One recv, and the search for the empty line in the C string it leaves. */
    method Receive(env: Env) returns (result: int)
      requires Shape()
      modifies this`requestLen, this`h, requestBuffer
      ensures Shape() && (View(), result) == RecvRequest(old(View()), env)
    {
      hide StrStr, CStr;
      ghost var was := View();
      match Recv(env.recvs, requestCapacity - requestLen) {
        case Failed => result := -1;
        case Again => result := 0;
        case Closed => result := if requestLen == 0 then -1 else 0;
        case Bytes(data) =>
          Take(data);
          result := if StrStr(CStr(requestBuffer[..requestLen + 1]), "\r\n\r\n").Some? then 1 else 0;
          Terminated(was.request + data);
          assert requestBuffer[..requestLen + 1] == was.request + data + [NUL];
      }
    }

    // ---------- connection_forward ----------

    method PullFromClient(env: Env)
      requires Shape()
      modifies this`requestLen, this`clientClosed, this`lastActive, this`h, requestBuffer
      ensures Shape() && View() == PullClient(old(View()), env)
    {
      hide Drain;
      ghost var got := Drain(env.recvs, requestCapacity - requestLen).0;
      var len, r := RecvIntoBuffer(requestBuffer, requestLen, requestCapacity, env.recvs);
      requestLen := len;
      if r < 0 { clientClosed := true; }
      if r > 0 { lastActive := env.recvTime; }
      h := h.(fromClient := h.fromClient + got);
    }

    method PushToTarget(env: Env)
      requires Shape()
      modifies this`requestLen, this`targetClosed, this`lastActive, this`h, requestBuffer
      ensures Shape() && View() == PushTarget(old(View()), env)
    {
      hide Flush;
      ghost var pending := requestBuffer[..requestLen];
      ghost var sent := Flush(env.sends, pending).0;
      var len, r := SendFromBuffer(requestBuffer, requestLen, env.sends);
      requestLen := len;
      if r < 0 { targetClosed := true; }
      if r > 0 { lastActive := env.sendTime; }
      h := h.(toTarget := h.toTarget + sent);
      assert requestBuffer[..requestLen] == (sent + requestBuffer[..requestLen])[|sent|..] == pending[|sent|..];
    }

    method PullFromTarget(env: Env)
      requires Shape()
      modifies this`responseLen, this`targetClosed, this`lastActive, this`h, responseBuffer
      ensures Shape() && View() == PullTarget(old(View()), env)
    {
      hide Drain;
      ghost var got := Drain(env.recvs, responseCapacity - responseLen).0;
      var len, r := RecvIntoBuffer(responseBuffer, responseLen, responseCapacity, env.recvs);
      responseLen := len;
      if r < 0 { targetClosed := true; }
      if r > 0 { lastActive := env.recvTime; }
      h := h.(fromTarget := h.fromTarget + got);
    }

    method PushToClient(env: Env)
      requires Shape()
      modifies this`responseLen, this`clientClosed, this`lastActive, this`h, responseBuffer
      ensures Shape() && View() == PushClient(old(View()), env)
    {
      hide Flush;
      ghost var pending := responseBuffer[..responseLen];
      ghost var sent := Flush(env.sends, pending).0;
      var len, r := SendFromBuffer(responseBuffer, responseLen, env.sends);
      responseLen := len;
      if r < 0 { clientClosed := true; }
      if r > 0 { lastActive := env.sendTime; }
      h := h.(toClient := h.toClient + sent);
      assert responseBuffer[..responseLen] == (sent + responseBuffer[..responseLen])[|sent|..] == pending[|sent|..];
    }

    method ConnectionForward(kind: FdKind, ev: Events, env: Env) returns (result: int)
      requires Shape()
      modifies this`requestLen, this`responseLen, this`clientClosed, this`targetClosed, this`lastActive, this`h,
               requestBuffer, responseBuffer
      ensures Shape() && View() == Forwarded(old(View()), kind, ev, env)
      ensures result == if clientClosed && targetClosed then -1 else 0
    {
      hide PullClient, PushClient, PullTarget, PushTarget;
      var isClient, isTarget := kind == ClientFd, kind == TargetFd;
      var writeFd := ((requestLen > 0 && isTarget) || (responseLen > 0 && isClient)) && ev.writable;
      var readFd := ev.readable;
      if isClient && readFd {
        PullFromClient(env);
      }
      if isTarget && writeFd {
        PushToTarget(env);
      }
      if isTarget && readFd {
        PullFromTarget(env);
      }
      if isClient && writeFd {
        PushToClient(env);
      }
      result := if clientClosed && targetClosed then -1 else 0;
    }
  }

  lemma {:induction false} Terminated(s: string)
    ensures CStr(s + [NUL]) == CStr(s)
  {
    if s != "" {
      assert (s + [NUL])[1..] == s[1..] + [NUL];
      Terminated(s[1..]);
    }
  }
}
