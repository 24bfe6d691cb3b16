/** The language server's websocket handler,
    language-server/server/handlers/websocket.go: a `connected` message
    first, then for each message read, a reply chosen by its type and by
    what evaluating its source printed.  Running the interpreter
    (`utils.Evaluate`, a subprocess) is the parameter `run`, from a source
    to its standard output and standard error. */
module LanguageServer {
  import opened Basics

  /** The `data` of a message: absent (Go nil) or text. */
  datatype Data = Absent | Text(s: string)

  datatype Message = Message(kind: string, data: Data)

  const Connected := Message("connected", Absent)

  /** `fmt.Sprint(msg.Data)`. */
  function Sprint(d: Data): (r: string)
    ensures d.Text? ==> r == d.s
  {
    match d
    case Absent => "<nil>"
    case Text(s) => s
  }

  /** The reply to one message, if any. */
  function Reply(m: Message, run: string -> (string, string)): (r: Option<Message>)
    ensures r.Some? <==> m.kind == "evaluate" && !BlankAfterTrim(Sprint(m.data))
    ensures r.Some? ==>
      var (out, err) := run(Sprint(m.data));
      (!BlankAfterTrim(err) ==> r.value == Message("stderr", Text(err))) &&
      (BlankAfterTrim(err) ==> r.value == Message("stdout", Text(out)))
  {
    if m.kind != "evaluate" then None
    else
      var source := Sprint(m.data);
      if TrimSpaces(source) == "" then None
      else
        var (out, err) := run(source);
        if TrimSpaces(err) != "" then Some(Message("stderr", Text(err)))
        else Some(Message("stdout", Text(out)))
  }

  /** The replies to a stream of messages, in order. */
  function Replies(ms: seq<Message>, run: string -> (string, string)): seq<Message>
    decreases |ms|
  {
    if |ms| == 0 then []
    else
      var r := Reply(ms[0], run);
      (if r.Some? then [r.value] else []) + Replies(ms[1..], run)
  }

  /** The messages that get a reply. */
  function Answered(ms: seq<Message>): nat
    decreases |ms|
  {
    if |ms| == 0 then 0
    else (if ms[0].kind == "evaluate" && !BlankAfterTrim(Sprint(ms[0].data)) then 1 else 0) + Answered(ms[1..])
  }

  /** `HandleWebSocket` over the messages read before `ReadJSON` fails. */
  method HandleWebSocket(inbound: seq<Message>, run: string -> (string, string)) returns (sent: seq<Message>)
    ensures sent == [Connected] + Replies(inbound, run)
  {
    sent := [Connected];
    var i := 0;
    while i < |inbound|
      invariant 0 <= i <= |inbound|
      invariant sent + Replies(inbound[i..], run) == [Connected] + Replies(inbound, run)
    {
      assert inbound[i..][1..] == inbound[i + 1..];
      var msg := inbound[i];
      if msg.kind == "evaluate" {
        var source := Sprint(msg.data);
        if TrimSpaces(source) != "" {
          var (out, err) := run(source);
          if TrimSpaces(err) != "" {
            sent := sent + [Message("stderr", Text(err))];
          } else {
            sent := sent + [Message("stdout", Text(out))];
          }
        }
      }
      i := i + 1;
    }
    assert inbound[|inbound|..] == [];
  }

  /** One reply per evaluate message with a non-blank source, none for any
      other message: the count of replies is the count of such messages. */
  lemma {:induction false} OneReplyPerEvaluate(ms: seq<Message>, run: string -> (string, string))
    ensures |Replies(ms, run)| == Answered(ms) <= |ms|
    decreases |ms|
  {
    if |ms| > 0 {
      OneReplyPerEvaluate(ms[1..], run);
    }
  }

  /** Every reply is an output message, on stdout or stderr. */
  lemma {:induction false} RepliesAreOutput(ms: seq<Message>, run: string -> (string, string))
    ensures forall k :: 0 <= k < |Replies(ms, run)| ==>
      Replies(ms, run)[k].kind in {"stdout", "stderr"} && Replies(ms, run)[k].data.Text?
    decreases |ms|
  {
    if |ms| > 0 {
      RepliesAreOutput(ms[1..], run);
    }
  }

  /** The replies to two runs of messages are the replies to each. */
  lemma {:induction false} RepliesAppend(a: seq<Message>, b: seq<Message>, run: string -> (string, string))
    ensures Replies(a + b, run) == Replies(a, run) + Replies(b, run)
    decreases |a|
  {
    if |a| == 0 {
      assert a + b == b;
    } else {
      assert (a + b)[1..] == a[1..] + b;
      RepliesAppend(a[1..], b, run);
    }
  }

  /** The first message sent is `connected`, every later one answers a
      message read, and a message containing only spaces, or of another
      type, adds nothing to what is sent. */
  lemma SessionShape(inbound: seq<Message>, m: Message, run: string -> (string, string))
    requires m.kind != "evaluate" || BlankAfterTrim(Sprint(m.data))
    ensures var sent := [Connected] + Replies(inbound, run);
      sent[0] == Connected && |sent| <= 1 + |inbound| &&
      [Connected] + Replies(inbound + [m], run) == sent
  {
    OneReplyPerEvaluate(inbound, run);
    RepliesAppend(inbound, [m], run);
    assert Replies([m], run) == [] by {
      assert [m][1..] == [];
    }
  }
}
