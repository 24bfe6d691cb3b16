/** The editor's side of the websocket in code-editor/src/context/editor.tsx:
    the `code`, `stderr` and `stdout` state of the editor context, the
    dispatch of an inbound frame on its `type`, and `emit`, which
    reconnects when the socket is not open and leaves a poll that sends
    the payload once the current socket is open.  The socket is reduced
    to its ready state; timers are the `Tick` calls of the environment. */
module EditorClient {
  /** `socket.readyState`. */
  datatype ReadyState = Connecting | Open | Closing | Closed

  /** A `SocketReqRes` whose data is text. */
  datatype Payload = Payload(kind: string, data: string)

  /** A payload handed to `socket.send`, with the socket it went to. */
  datatype Sent = Sent(socket: nat, payload: Payload)

  /** The two output panes. */
  datatype Std = Std(stdout: string, stderr: string)

  /** What `onmessage` does to the panes for one frame: `handleStdErr` and
      `handleStdOut` clear both, then set their own; any other type is
      ignored. */
  function AfterFrame(s: Std, f: Payload): (r: Std)
    ensures f.kind == "stderr" ==> r == Std("", f.data)
    ensures f.kind == "stdout" ==> r == Std(f.data, "")
    ensures f.kind != "stderr" && f.kind != "stdout" ==> r == s
  {
    match f.kind
    case "stderr" => Std("", f.data)
    case "stdout" => Std(f.data, "")
    case _ => s
  }

  function AfterFrames(s: Std, fs: seq<Payload>): Std
    decreases |fs|
  {
    if |fs| == 0 then s else AfterFrames(AfterFrame(s, fs[0]), fs[1..])
  }

  predicate IsOutput(f: Payload) {
    f.kind == "stderr" || f.kind == "stdout"
  }

  /** At most one pane is filled. */
  predicate OnePane(s: Std) {
    s.stdout == "" || s.stderr == ""
  }

  /** After any frames, starting from panes where at most one is filled,
      at most one is still filled. */
  lemma {:induction false} FramesKeepOnePane(s: Std, fs: seq<Payload>)
    requires OnePane(s)
    ensures OnePane(AfterFrames(s, fs))
    decreases |fs|
  {
    if |fs| > 0 {
      FramesKeepOnePane(AfterFrame(s, fs[0]), fs[1..]);
    }
  }

  /** The panes show the last output frame alone; frames of other types
      in between change nothing, and with no output frame the panes are
      as they were. */
  lemma {:induction false} LastOutputFrameWins(s: Std, fs: seq<Payload>, i: nat)
    requires i < |fs| && IsOutput(fs[i])
    requires forall j :: i < j < |fs| ==> !IsOutput(fs[j])
    ensures AfterFrames(s, fs) == AfterFrame(s, fs[i])
    decreases |fs|
  {
    if i == 0 {
      IgnoredFrames(AfterFrame(s, fs[0]), fs[1..]);
    } else {
      LastOutputFrameWins(AfterFrame(s, fs[0]), fs[1..], i - 1);
      assert AfterFrame(AfterFrame(s, fs[0]), fs[i]) == AfterFrame(s, fs[i]);
    }
  }

  lemma {:induction false} IgnoredFrames(s: Std, fs: seq<Payload>)
    requires forall j :: 0 <= j < |fs| ==> !IsOutput(fs[j])
    ensures AfterFrames(s, fs) == s
    decreases |fs|
  {
    if |fs| > 0 {
      IgnoredFrames(AfterFrame(s, fs[0]), fs[1..]);
    }
  }

  class Editor {
    /** `keys.languageServerURL`; "" when it is not configured. */
    const url: string
    var code: string
    var stdout: string
    var stderr: string
    /** The socket `socket` refers to, and how many have been opened. */
    var current: nat
    var sockets: nat
    var ready: ReadyState
    /** Whether the current socket has the context's `onmessage` handler:
        only the socket the mount effect opens gets one. */
    var listening: bool
    /** The payloads of the `emit` polls still running. */
    var pending: seq<Payload>
    var sent: seq<Sent>

    ghost predicate Valid()
      reads this
    {
      OnePane(Std(stdout, stderr)) && current < sockets &&
      (forall k :: 0 <= k < |sent| ==> sent[k].socket < sockets)
    }

    /** The module-level `let socket = wsConnect()` and the initial state of
        the context; it throws when the endpoint is not configured. */
    constructor (url: string)
      requires url != ""
      ensures Valid() && this.url == url
      ensures code == "" && stdout == "" && stderr == ""
      ensures current == 0 && sockets == 1 && ready == Connecting && !listening
      ensures pending == [] && sent == []
    {
      this.url := url;
      code, stdout, stderr := "", "", "";
      current, sockets, ready, listening := 0, 1, Connecting, false;
      pending, sent := [], [];
    }

    /** `wsConnect`: no endpoint is an error and leaves the socket as it
        was; otherwise a new socket, still connecting and with no handlers,
        replaces it. */
    method WsConnect() returns (ok: bool)
      requires Valid()
      modifies this
      ensures Valid()
      ensures ok <==> url != ""
      ensures ok ==> current == old(sockets) && sockets == old(sockets) + 1 && ready == Connecting && !listening
      ensures !ok ==> current == old(current) && sockets == old(sockets) && ready == old(ready) && listening == old(listening)
      ensures code == old(code) && stdout == old(stdout) && stderr == old(stderr)
      ensures pending == old(pending) && sent == old(sent)
    {
      if url == "" {
        return false;
      }
      current := sockets;
      sockets := sockets + 1;
      ready := Connecting;
      listening := false;
      return true;
    }

    /** The mount effect: a new socket replaces the current one and gets
        the `onmessage` handler that feeds the panes. */
    method Mount() returns (ok: bool)
      requires Valid()
      modifies this
      ensures Valid()
      ensures ok <==> url != ""
      ensures ok ==> current == old(sockets) && sockets == old(sockets) + 1 && ready == Connecting && listening
      ensures !ok ==> current == old(current) && sockets == old(sockets) && ready == old(ready) && listening == old(listening)
      ensures code == old(code) && stdout == old(stdout) && stderr == old(stderr)
      ensures pending == old(pending) && sent == old(sent)
    {
      ok := WsConnect();
      if ok {
        listening := true;
      }
    }

    /** `emit`: a socket that is not open is replaced first; then a poll is
        left running for the payload.  A failed reconnect throws before the
        poll starts. */
    method Emit(p: Payload) returns (ok: bool)
      requires Valid()
      modifies this
      ensures Valid()
      ensures old(ready) == Open ==> ok && current == old(current) && sockets == old(sockets) && ready == Open && listening == old(listening)
      ensures old(ready) != Open ==> (ok <==> url != "")
      ensures old(ready) != Open && ok ==> current == old(sockets) && sockets == old(sockets) + 1 && ready == Connecting && !listening
      ensures pending == (if ok then old(pending) + [p] else old(pending))
      ensures !ok ==> current == old(current) && sockets == old(sockets) && ready == old(ready) && listening == old(listening)
      ensures code == old(code) && stdout == old(stdout) && stderr == old(stderr) && sent == old(sent)
    {
      ok := true;
      if ready != Open {
        ok := WsConnect();
      }
      if ok {
        pending := pending + [p];
      }
    }

    /** `evaluateCode`: emits the code as it is at the call. */
    method Evaluate() returns (ok: bool)
      requires Valid()
      modifies this
      ensures Valid()
      ensures ok ==> pending == old(pending) + [Payload("evaluate", old(code))]
      ensures !ok ==> pending == old(pending)
      ensures code == old(code) && stdout == old(stdout) && stderr == old(stderr) && sent == old(sent)
    {
      ok := Emit(Payload("evaluate", code));
    }

    /** One tick of the poll of pending payload j: when the current socket
        is open the payload is sent on it and the poll is cleared;
        otherwise nothing happens. */
    method Tick(j: nat)
      requires Valid() && j < |pending|
      modifies this
      ensures Valid()
      ensures old(ready) == Open ==>
        sent == old(sent) + [Sent(current, old(pending)[j])] &&
        pending == old(pending)[..j] + old(pending)[j + 1..]
      ensures old(ready) != Open ==> sent == old(sent) && pending == old(pending)
      ensures code == old(code) && stdout == old(stdout) && stderr == old(stderr)
      ensures current == old(current) && sockets == old(sockets) && ready == old(ready) && listening == old(listening)
    {
      if ready == Open {
        sent := sent + [Sent(current, pending[j])];
        pending := pending[..j] + pending[j + 1..];
      }
    }

    /** The current socket's ready state changes. */
    method SocketState(s: ReadyState)
      requires Valid()
      modifies this
      ensures Valid() && ready == s
      ensures code == old(code) && stdout == old(stdout) && stderr == old(stderr)
      ensures current == old(current) && sockets == old(sockets) && pending == old(pending) && sent == old(sent)
      ensures listening == old(listening)
    {
      ready := s;
    }

    method SetCode(c: string)
      requires Valid()
      modifies this
      ensures Valid() && code == c
      ensures stdout == old(stdout) && stderr == old(stderr)
      ensures current == old(current) && sockets == old(sockets) && ready == old(ready)
      ensures pending == old(pending) && sent == old(sent) && listening == old(listening)
    {
      code := c;
    }

    method ClearStd()
      requires Valid()
      modifies this
      ensures Valid() && stdout == "" && stderr == ""
      ensures code == old(code) && current == old(current) && sockets == old(sockets)
      ensures ready == old(ready) && pending == old(pending) && sent == old(sent) && listening == old(listening)
    {
      stderr := "";
      stdout := "";
    }

    method HandleStdErr(data: string)
      requires Valid()
      modifies this
      ensures Valid() && stdout == "" && stderr == data
      ensures code == old(code) && current == old(current) && sockets == old(sockets)
      ensures ready == old(ready) && pending == old(pending) && sent == old(sent) && listening == old(listening)
    {
      ClearStd();
      stderr := data;
    }

    method HandleStdOut(data: string)
      requires Valid()
      modifies this
      ensures Valid() && stdout == data && stderr == ""
      ensures code == old(code) && current == old(current) && sockets == old(sockets)
      ensures ready == old(ready) && pending == old(pending) && sent == old(sent) && listening == old(listening)
    {
      ClearStd();
      stdout := data;
    }

    /** A frame arriving on the current socket: when the socket has the
        `onmessage` handler the panes become `AfterFrame` of what they
        were, and otherwise the frame is dropped; nothing else changes. */
    method OnMessage(f: Payload)
      requires Valid()
      modifies this
      ensures Valid()
      ensures Std(stdout, stderr) == if listening then AfterFrame(old(Std(stdout, stderr)), f) else old(Std(stdout, stderr))
      ensures code == old(code) && current == old(current) && sockets == old(sockets)
      ensures ready == old(ready) && pending == old(pending) && sent == old(sent) && listening == old(listening)
    {
      if listening {
        match f.kind
        case "stderr" => HandleStdErr(f.data);
        case "stdout" => HandleStdOut(f.data);
        case _ =>
      }
    }

    /** A run of frames on the current socket leaves the panes at
        `AfterFrames` when it has the handler, and as they were otherwise. */
    method OnMessages(fs: seq<Payload>)
      requires Valid()
      modifies this
      ensures Valid()
      ensures Std(stdout, stderr) == if listening then AfterFrames(old(Std(stdout, stderr)), fs) else old(Std(stdout, stderr))
      ensures code == old(code) && current == old(current) && sockets == old(sockets)
      ensures ready == old(ready) && pending == old(pending) && sent == old(sent) && listening == old(listening)
    {
      var i := 0;
      while i < |fs|
        invariant 0 <= i <= |fs| && Valid()
        invariant listening ==> AfterFrames(Std(stdout, stderr), fs[i..]) == AfterFrames(old(Std(stdout, stderr)), fs)
        invariant !listening ==> Std(stdout, stderr) == old(Std(stdout, stderr))
        invariant code == old(code) && current == old(current) && sockets == old(sockets)
        invariant ready == old(ready) && pending == old(pending) && sent == old(sent) && listening == old(listening)
      {
        assert fs[i..][1..] == fs[i + 1..];
        OnMessage(fs[i]);
        i := i + 1;
      }
    }
  }

  /** A payload emitted while the socket is connecting is not sent at once;
      after the socket opens, the first tick sends it, on the socket the
      emit opened, and a second emit then needs no reconnect. */
  method EmitThenOpen(e: Editor, p: Payload)
    requires e.Valid() && e.ready == Closed && e.url != "" && e.pending == []
    modifies e
    ensures e.Valid() && e.pending == [] && e.sent == old(e.sent) + [Sent(old(e.sockets), p)]
  {
    var ok := e.Emit(p);
    assert ok && e.pending == [p] && e.current == old(e.sockets);
    e.Tick(0);
    assert e.sent == old(e.sent) && e.pending == [p];
    e.SocketState(Open);
    e.Tick(0);
  }

  /** A reply that arrives on a socket `emit` had to open reaches no pane:
      that socket never gets the `onmessage` handler. */
  method ReplyAfterReconnectIsLost(e: Editor, p: Payload, f: Payload)
    requires e.Valid() && e.ready != Open && e.url != ""
    modifies e
    ensures e.Valid() && !e.listening
    ensures e.stdout == old(e.stdout) && e.stderr == old(e.stderr)
    ensures e.pending == old(e.pending) + [p]
  {
    var ok := e.Emit(p);
    e.OnMessage(f);
  }
}
