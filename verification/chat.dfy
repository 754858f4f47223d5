/** The assistant widget's transcript (the `AIChat` component): the
    greeting seeded when the widget opens, the send handler that accepts or
    rejects a message and appends the user's turn and an empty reply, the
    chunks of the reply stream appended to that reply, the apology that
    replaces it when the stream throws, and the streaming flag. */
module Chat {
  import opened Options
  import opened JsText
  import opened Messages
  import opened Profile
  import opened Gemini

  const Greeting: string :=
    "Hello! I'm Shahid's virtual assistant, powered by Gemini. Feel free to ask about his skills, projects, or experience. How can I help you?"

  const Apology: string := "Sorry, something went wrong. Please try again."

  const Suggestions: seq<string> := [
    "Summarize his key skills.",
    "Tell me about the MPAY project.",
    "What was his role at Lihatech?",
    "What is he passionate about?"
  ]

  /** The component's state: whether the widget is open, the transcript,
      the text box and the streaming flag. */
  datatype Chat = Chat(open: bool, turns: seq<Turn>, input: string, streaming: bool)

  const Initial: Chat := Chat(false, [], "", false)

  function Last(ts: seq<Turn>): Turn
    requires |ts| > 0
  {
    ts[|ts| - 1]
  }

  /** The transcript with the content of its last turn replaced. */
  function WithLast(ts: seq<Turn>, content: string): (r: seq<Turn>)
    requires |ts| > 0
    ensures |r| == |ts|
    ensures r[..|ts| - 1] == ts[..|ts| - 1]
    ensures Last(r) == Turn(Last(ts).role, content)
  {
    ts[..|ts| - 1] + [Turn(Last(ts).role, content)]
  }

  lemma WithLastTwice(ts: seq<Turn>, a: string, b: string)
    requires |ts| > 0
    ensures WithLast(WithLast(ts, a), b) == WithLast(ts, b)
  {
    var r := WithLast(ts, a);
    assert r[..|r| - 1] == ts[..|ts| - 1];
  }

  // ---------------------------------------------------------------------
  // Opening
  // ---------------------------------------------------------------------

  /** Opening the widget; the effect that follows it seeds the greeting
      into an empty transcript. The effect runs only when the flag
      changes, so opening an open widget changes nothing. */
  function Open(c: Chat): (r: Chat)
    ensures r.open && r.input == c.input && r.streaming == c.streaming
    ensures r.turns == (if !c.open && |c.turns| == 0 then [Turn(Assistant, Greeting)] else c.turns)
  {
    if c.open then c
    else if |c.turns| == 0 then Chat(true, [Turn(Assistant, Greeting)], c.input, c.streaming)
    else c.(open := true)
  }

  function Close(c: Chat): Chat {
    c.(open := false)
  }

  /** Closing and reopening never seeds a second greeting. */
  lemma ReopenKeeps(c: Chat)
    requires c.open ==> |c.turns| > 0
    ensures Open(Close(Open(c))) == Open(c)
  {
  }

  // ---------------------------------------------------------------------
  // Sending
  // ---------------------------------------------------------------------

  /** The message a send resolves to: a truthy `prompt` (a suggestion),
      otherwise the trimmed text box. */
  function Resolve(prompt: Option<string>, input: string): string {
    if Truthy(prompt) then prompt.value else Trim(input)
  }

  /** A send either changes nothing, or yields the next state and the
      transcript passed to the request. */
  datatype Outcome = Rejected | Accepted(next: Chat, request: seq<Turn>)

  /** The synchronous part of the send handler. */
  function Send(c: Chat, prompt: Option<string>): (o: Outcome)
    ensures o.Rejected? <==> Resolve(prompt, c.input) == "" || c.streaming
    ensures o.Accepted? ==>
      && o.request == c.turns + [Turn(User, Resolve(prompt, c.input))]
      && o.next == Chat(c.open, o.request + [Turn(Assistant, "")], "", true)
  {
    var msg := Resolve(prompt, c.input);
    if msg == "" || c.streaming then Rejected
    else
      var request := c.turns + [Turn(User, msg)];
      Accepted(Chat(c.open, request + [Turn(Assistant, "")], "", true), request)
  }

  /** The request ends at the user's turn: it is the new transcript without
      the empty reply. */
  lemma RequestIsPrefix(c: Chat, prompt: Option<string>)
    requires Send(c, prompt).Accepted?
    ensures var o := Send(c, prompt);
      o.request == o.next.turns[..|o.next.turns| - 1] && Last(o.next.turns) == Turn(Assistant, "")
  {
    var o := Send(c, prompt);
    assert o.next.turns[..|o.next.turns| - 1] == o.request;
  }

  /** What a message typed in the box becomes: never blank, never with
      surrounding white space. */
  lemma TypedMessage(c: Chat)
    requires Send(c, None).Accepted?
    ensures var msg := Last(Send(c, None).request).content;
      msg != "" && !IsJsSpace(msg[0]) && !IsJsSpace(msg[|msg| - 1])
  {
    var o := Send(c, None);
    var msg := Trim(c.input);
    assert Resolve(None, c.input) == msg != "";
    assert Last(o.request) == Turn(User, msg);
    TrimmedEnds(c.input);
  }

  lemma TrimmedEnds(s: string)
    requires Trim(s) != ""
    ensures var r := Trim(s); !IsJsSpace(r[0]) && !IsJsSpace(r[|r| - 1])
  {
  }

  // ---------------------------------------------------------------------
  // The reply stream
  // ---------------------------------------------------------------------

  /** One chunk: a truthy text is appended to the last turn, any other
      chunk is skipped. */
  function AppendChunk(c: Chat, text: Option<string>): (r: Chat)
    requires |c.turns| > 0
    ensures r.open == c.open && r.input == c.input && r.streaming == c.streaming
  {
    if Truthy(text) then c.(turns := WithLast(c.turns, Last(c.turns).content + text.value))
    else c
  }

  /** The catch block: the last turn is replaced wholesale. */
  function Fail(c: Chat): Chat
    requires |c.turns| > 0
  {
    c.(turns := WithLast(c.turns, Apology))
  }

  /** The finally block. */
  function Finish(c: Chat): Chat {
    c.(streaming := false)
  }

  /** The loop over the stream, chunk by chunk in arrival order. */
  function Receive(c: Chat, chunks: seq<Option<string>>): (r: Chat)
    requires |c.turns| > 0
    ensures |r.turns| == |c.turns|
    decreases |chunks|
  {
    if |chunks| == 0 then c else Receive(AppendChunk(c, chunks[0]), chunks[1..])
  }

  /** The concatenation of the truthy chunk texts, in order. */
  function Collected(chunks: seq<Option<string>>): string {
    if |chunks| == 0 then ""
    else (if Truthy(chunks[0]) then chunks[0].value else "") + Collected(chunks[1..])
  }

  /** A stream without a truthy chunk collects nothing, so a reply that
      completes without one stays empty. */
  lemma {:induction false} SilentStream(chunks: seq<Option<string>>)
    requires forall i :: 0 <= i < |chunks| ==> !Truthy(chunks[i])
    ensures Collected(chunks) == ""
    decreases |chunks|
  {
    if |chunks| > 0 {
      SilentStream(chunks[1..]);
    }
  }

  /** Receiving a stream appends exactly the collected text to the last
      turn and changes nothing else. */
  lemma {:induction false} ReceiveCollects(c: Chat, chunks: seq<Option<string>>)
    requires |c.turns| > 0
    ensures Receive(c, chunks) == c.(turns := WithLast(c.turns, Last(c.turns).content + Collected(chunks)))
    decreases |chunks|
  {
    if |chunks| == 0 {
      assert Last(c.turns).content + "" == Last(c.turns).content;
      assert WithLast(c.turns, Last(c.turns).content) == c.turns;
    } else {
      var c1 := AppendChunk(c, chunks[0]);
      ReceiveCollects(c1, chunks[1..]);
      var prior := Last(c.turns).content;
      if Truthy(chunks[0]) {
        var t := chunks[0].value;
        WithLastTwice(c.turns, prior + t, prior + t + Collected(chunks[1..]));
        AppendAssoc(prior, t, Collected(chunks[1..]));
      } else {
        assert "" + Collected(chunks[1..]) == Collected(chunks[1..]);
      }
    }
  }

  /** The asynchronous part of the send handler, from the state it left:
      the stream is drained, a throw replaces the reply with the apology,
      and streaming ends either way. */
  function Respond(c: Chat, s: Stream): Chat
    requires |c.turns| > 0
  {
    var got := Receive(c, s.chunks);
    Finish(if s.faults then Fail(got) else got)
  }

  lemma RespondOutcome(c: Chat, s: Stream)
    requires |c.turns| > 0
    ensures var r := Respond(c, s);
      && r.turns == WithLast(c.turns, if s.faults then Apology else Last(c.turns).content + Collected(s.chunks))
      && !r.streaming && r.open == c.open && r.input == c.input
  {
    ReceiveCollects(c, s.chunks);
    if s.faults {
      WithLastTwice(c.turns, Last(c.turns).content + Collected(s.chunks), Apology);
    }
  }

  /** The whole send handler. `p` holds the records the system
      instruction is built from, and `connect` stands for the SDK call
      made by the request helper. */
  function Exchange(c: Chat, prompt: Option<string>, p: Portfolio,
                    connect: Request -> Option<Stream>): Chat
  {
    match Send(c, prompt)
    case Rejected => c
    case Accepted(next, request) => Respond(next, StreamChat(request, p, connect))
  }

  /** A rejected send changes nothing, the text box included. */
  lemma ExchangeRejected(c: Chat, prompt: Option<string>, p: Portfolio,
                         connect: Request -> Option<Stream>)
    requires Resolve(prompt, c.input) == "" || c.streaming
    ensures Exchange(c, prompt, p, connect) == c
  {
  }

  /** The reply a send ends with, given what the SDK call gave back: the
      connection notice when it threw, the apology when its stream threw,
      and otherwise the collected chunks. */
  function Reply(sent: Option<Stream>): string {
    match sent
    case None => Trouble
    case Some(s) => if s.faults then Apology else Collected(s.chunks)
  }

  lemma WithLastAppend(ts: seq<Turn>, t: Turn, content: string)
    ensures WithLast(ts + [t], content) == ts + [Turn(t.role, content)]
  {
    assert (ts + [t])[..|ts|] == ts;
  }

  /** What the stream handed back leaves in an empty reply. */
  lemma StreamReply(request: seq<Turn>, p: Portfolio, connect: Request -> Option<Stream>)
    ensures var s := StreamChat(request, p, connect);
      (if s.faults then Apology else "" + Collected(s.chunks)) == Reply(connect(MakeRequest(request, p)))
  {
    SentReply(connect(MakeRequest(request, p)), StreamChat(request, p, connect));
  }

  lemma SentReply(sent: Option<Stream>, s: Stream)
    requires sent.None? ==> s == Fallback
    requires sent.Some? ==> s == sent.value
    ensures (if s.faults then Apology else "" + Collected(s.chunks)) == Reply(sent)
  {
    assert "" + Collected(s.chunks) == Collected(s.chunks);
    assert Collected([Some(Trouble)]) == Trouble + "";
  }

  /** The stream's effect on the state an accepted send leaves. */
  lemma RespondAfterSend(c: Chat, msg: string, s: Stream)
    ensures var r := Respond(Chat(c.open, c.turns + [Turn(User, msg)] + [Turn(Assistant, "")], "", true), s);
      && r.turns == c.turns + [Turn(User, msg), Turn(Assistant, if s.faults then Apology else "" + Collected(s.chunks))]
      && r.input == "" && !r.streaming && r.open == c.open
  {
    var request := c.turns + [Turn(User, msg)];
    var next := Chat(c.open, request + [Turn(Assistant, "")], "", true);
    RespondOutcome(next, s);
    var x := if s.faults then Apology else "" + Collected(s.chunks);
    WithLastAppend(request, Turn(Assistant, ""), x);
    assert request + [Turn(Assistant, x)] == c.turns + [Turn(User, msg), Turn(Assistant, x)];
  }

  /** An accepted send ends with the user's turn and the reply appended;
      the text box is cleared and streaming is over. */
  lemma ExchangeAccepted(c: Chat, prompt: Option<string>, p: Portfolio,
                         connect: Request -> Option<Stream>)
    requires Resolve(prompt, c.input) != "" && !c.streaming
    ensures var msg := Resolve(prompt, c.input);
      var r := Exchange(c, prompt, p, connect);
      var sent := connect(MakeRequest(c.turns + [Turn(User, msg)], p));
      && r.turns == c.turns + [Turn(User, msg), Turn(Assistant, Reply(sent))]
      && r.input == "" && !r.streaming && r.open == c.open
  {
    var msg := Resolve(prompt, c.input);
    var request := c.turns + [Turn(User, msg)];
    var s := StreamChat(request, p, connect);
    assert Exchange(c, prompt, p, connect)
        == Respond(Chat(c.open, request + [Turn(Assistant, "")], "", true), s);
    RespondAfterSend(c, msg, s);
    StreamReply(request, p, connect);
  }

  // ---------------------------------------------------------------------
  // What the panel shows
  // ---------------------------------------------------------------------

  /** The suggestion buttons appear under the greeting alone. */
  predicate ShowsSuggestions(c: Chat) {
    |c.turns| == 1 && !c.streaming
  }

  /** The send button's enabled state. */
  predicate SendEnabled(c: Chat) {
    !(c.streaming || Trim(c.input) == "")
  }

  /** The "thinking" indicator. */
  predicate Thinking(c: Chat) {
    c.streaming && |c.turns| > 0 && Last(c.turns).role == Assistant
  }

  /** The button (and the Enter key) is enabled exactly when its send
      would be accepted. */
  lemma SendButtonAgrees(c: Chat)
    ensures SendEnabled(c) <==> Send(c, None).Accepted?
  {
  }

  /** A suggestion shown is always accepted and becomes the user's turn. */
  lemma SuggestionAccepted(c: Chat, i: nat)
    requires ShowsSuggestions(c) && i < |Suggestions|
    ensures Send(c, Some(Suggestions[i])).Accepted?
    ensures Last(Send(c, Some(Suggestions[i])).request) == Turn(User, Suggestions[i])
  {
    assert |Suggestions[i]| > 0;
  }

  // ---------------------------------------------------------------------
  // The transcript as a state machine
  // ---------------------------------------------------------------------

  /** Everything that changes the component's state. The stream events are
      those the pending send handler delivers. */
  datatype Event =
    | OpenWidget
    | CloseWidget
    | Edit(typed: string)
    | Submit(prompt: Option<string>)
    | Chunk(text: Option<string>)
    | Fault
    | Finished

  /** A stream event reaches the state only while a send is pending; no
      other state can receive one. */
  function Step(c: Chat, e: Event): Chat {
    match e
    case OpenWidget => Open(c)
    case CloseWidget => Close(c)
    case Edit(typed) => c.(input := typed)
    case Submit(prompt) =>
      (match Send(c, prompt) case Rejected => c case Accepted(next, _) => next)
    case Chunk(text) => if c.streaming && |c.turns| > 0 then AppendChunk(c, text) else c
    case Fault => if c.streaming && |c.turns| > 0 then Fail(c) else c
    case Finished => Finish(c)
  }

  function Run(c: Chat, es: seq<Event>): Chat
    decreases |es|
  {
    if |es| == 0 then c else Run(Step(c, es[0]), es[1..])
  }

  /** Running two event sequences one after the other. */
  lemma {:induction false} RunAppend(c: Chat, a: seq<Event>, b: seq<Event>)
    ensures Run(c, a + b) == Run(Run(c, a), b)
    decreases |a|
  {
    if |a| > 0 {
      assert (a + b)[0] == a[0];
      assert (a + b)[1..] == a[1..] + b;
      RunAppend(Step(c, a[0]), a[1..], b);
    } else {
      assert a + b == b;
    }
  }

  /** The events the pending send handler delivers for a stream: one per
      chunk, a fault when the stream throws, and the end of streaming. */
  function ChunkEvents(chunks: seq<Option<string>>): (es: seq<Event>)
    ensures |es| == |chunks|
    ensures forall i :: 0 <= i < |es| ==> es[i] == Chunk(chunks[i])
    decreases |chunks|
  {
    if |chunks| == 0 then [] else [Chunk(chunks[0])] + ChunkEvents(chunks[1..])
  }

  function StreamEvents(s: Stream): seq<Event> {
    ChunkEvents(s.chunks) + (if s.faults then [Fault] else []) + [Finished]
  }

  /** Chunk events delivered while a reply streams are the loop over the
      stream. */
  lemma {:induction false} RunChunks(c: Chat, chunks: seq<Option<string>>)
    requires c.streaming && |c.turns| > 0
    ensures Run(c, ChunkEvents(chunks)) == Receive(c, chunks)
    decreases |chunks|
  {
    if |chunks| > 0 {
      var es := ChunkEvents(chunks);
      assert es[1..] == ChunkEvents(chunks[1..]);
      RunChunks(AppendChunk(c, chunks[0]), chunks[1..]);
    }
  }

  /** The events after the last chunk: the fault, if any, then the end of
      streaming. */
  lemma EndReplay(g: Chat, faults: bool)
    requires g.streaming && |g.turns| > 0
    ensures Run(g, (if faults then [Fault] else []) + [Finished]) == Finish(if faults then Fail(g) else g)
  {
    var es: seq<Event> := (if faults then [Fault] else []) + [Finished];
    if faults {
      assert es[1..] == [Finished];
      assert Run(Fail(g), [Finished]) == Run(Finish(Fail(g)), []);
    } else {
      assert es == [Finished];
      assert Run(g, [Finished]) == Run(Finish(g), []);
    }
  }

  /** Once a send is accepted, replaying its stream as events one by one
      ends in the state the send handler's asynchronous part leaves. */
  lemma StreamReplay(c: Chat, s: Stream)
    requires c.streaming && |c.turns| > 0
    ensures Run(c, StreamEvents(s)) == Respond(c, s)
  {
    var tail: seq<Event> := (if s.faults then [Fault] else []) + [Finished];
    assert StreamEvents(s) == ChunkEvents(s.chunks) + tail;
    RunAppend(c, ChunkEvents(s.chunks), tail);
    RunChunks(c, s.chunks);
    var g := Receive(c, s.chunks);
    ReceiveCollects(c, s.chunks);
    EndReplay(g, s.faults);
  }

  /** The send handler as a whole is the submit event followed by the
      events of the stream the request yields. */
  lemma ExchangeReplay(c: Chat, prompt: Option<string>, p: Portfolio,
                       connect: Request -> Option<Stream>)
    requires Send(c, prompt).Accepted?
    ensures var s := StreamChat(Send(c, prompt).request, p, connect);
      Exchange(c, prompt, p, connect) == Run(c, [Submit(prompt)] + StreamEvents(s))
  {
    var o := Send(c, prompt);
    var s := StreamChat(o.request, p, connect);
    SubmitThen(c, prompt, StreamEvents(s));
    StreamReplay(o.next, s);
  }

  /** An accepted submit event starts the send; later events run from the
      state it leaves. */
  lemma SubmitThen(c: Chat, prompt: Option<string>, es: seq<Event>)
    requires Send(c, prompt).Accepted?
    ensures Run(c, [Submit(prompt)] + es) == Run(Send(c, prompt).next, es)
  {
    RunAppend(c, [Submit(prompt)], es);
    assert Run(c, [Submit(prompt)]) == Run(Send(c, prompt).next, []);
  }

  /** Counting from the end, assistant and user turns alternate: every
      user turn is followed by the reply to it. */
  predicate Alternates(ts: seq<Turn>) {
    forall i :: 0 <= i < |ts| ==> ts[i].role == (if (|ts| - i) % 2 == 1 then Assistant else User)
  }

  predicate Inv(c: Chat) {
    && Alternates(c.turns)
    && (c.open ==> |c.turns| > 0)
    && (c.streaming ==> |c.turns| >= 2)
  }

  lemma InitialInv()
    ensures Inv(Initial)
  {
  }

  lemma AlternatesPair(ts: seq<Turn>, u: string, a: string)
    requires Alternates(ts)
    ensures Alternates(ts + [Turn(User, u), Turn(Assistant, a)])
  {
    var r := ts + [Turn(User, u), Turn(Assistant, a)];
    forall i | 0 <= i < |r|
      ensures r[i].role == (if (|r| - i) % 2 == 1 then Assistant else User)
    {
      if i < |ts| {
        assert r[i] == ts[i];
        assert (|r| - i) % 2 == (|ts| - i) % 2;
      }
    }
  }

  lemma AlternatesWithLast(ts: seq<Turn>, content: string)
    requires |ts| > 0 && Alternates(ts)
    ensures Alternates(WithLast(ts, content))
  {
    var r := WithLast(ts, content);
    forall i | 0 <= i < |r|
      ensures r[i].role == (if (|r| - i) % 2 == 1 then Assistant else User)
    {
      if i < |ts| - 1 {
        assert r[i] == r[..|ts| - 1][i];
      }
    }
  }

  lemma StepInv(c: Chat, e: Event)
    requires Inv(c)
    ensures Inv(Step(c, e))
  {
    match e
    case Submit(prompt) => SubmitInv(c, prompt);
    case Chunk(text) =>
      if c.streaming && Truthy(text) {
        WithLastInv(c, Last(c.turns).content + text.value);
      }
    case Fault =>
      if c.streaming {
        WithLastInv(c, Apology);
      }
    case _ =>
  }

  lemma SubmitInv(c: Chat, prompt: Option<string>)
    requires Inv(c)
    ensures Inv(Step(c, Submit(prompt)))
  {
    var o := Send(c, prompt);
    if o.Accepted? {
      var msg := Resolve(prompt, c.input);
      AlternatesPair(c.turns, msg, "");
      assert o.next.turns == c.turns + [Turn(User, msg), Turn(Assistant, "")];
    }
  }

  lemma WithLastInv(c: Chat, content: string)
    requires Inv(c) && c.streaming
    ensures Inv(c.(turns := WithLast(c.turns, content)))
  {
    AlternatesWithLast(c.turns, content);
  }

  lemma {:induction false} RunInv(c: Chat, es: seq<Event>)
    requires Inv(c)
    ensures Inv(Run(c, es))
    decreases |es|
  {
    if |es| > 0 {
      StepInv(c, es[0]);
      RunInv(Step(c, es[0]), es[1..]);
    }
  }

  /** While a reply streams, the indicator shows and the turn before the
      reply is the user's message it answers. */
  lemma StreamingShape(c: Chat)
    requires Inv(c) && c.streaming
    ensures Thinking(c)
    ensures c.turns[|c.turns| - 2].role == User
  {
  }

  /** No event rewrites the transcript except the reply in progress: the
      earlier turns are kept, and while nothing streams the whole
      transcript is kept. */
  lemma StepKeepsHistory(c: Chat, e: Event)
    requires |c.turns| > 0
    ensures var r := Step(c, e);
      && |c.turns| <= |r.turns|
      && r.turns[..|c.turns| - 1] == c.turns[..|c.turns| - 1]
      && (!c.streaming ==> r.turns[..|c.turns|] == c.turns)
  {
    var r := Step(c, e);
    match e
    case Submit(prompt) =>
      if Send(c, prompt).Accepted? {
        assert r.turns[..|c.turns|] == c.turns;
      }
    case _ =>
  }
}
