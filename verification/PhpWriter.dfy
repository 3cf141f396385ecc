/** The response writer that holds a PHP answer back until it is known not to be a fatal error page. */
module PhpWriter {
  type Byte = c: char | c <= '\U{FF}' witness 'a'
  type Bytes = seq<Byte>

  const INSPECTION_LIMIT: nat := 256 * 1024
  const OK := 200
  const SERVER_ERROR := 500

  predicate At(content: Bytes, needle: Bytes, i: nat) {
    i + |needle| <= |content| && content[i..i + |needle|] == needle
  }

  predicate Contains(content: Bytes, needle: Bytes) {
    exists i | 0 <= i <= |content| :: At(content, needle, i)
  }

  predicate IsFatalPhp(content: Bytes) {
    && Contains(content, "Fatal error")
    && (Contains(content, "Stack trace:") || Contains(content, "Uncaught "))
  }

  ghost predicate Has(content: Bytes, needle: Bytes) {
    exists before, after :: content == before + needle + after
  }

  /** A fatal error with its trace, or an uncaught one, somewhere in the text. */
  ghost predicate LooksFatal(content: Bytes) {
    Has(content, "Fatal error") && (Has(content, "Stack trace:") || Has(content, "Uncaught "))
  }

  lemma ContainsExactly(content: Bytes, needle: Bytes)
    ensures Contains(content, needle) <==> Has(content, needle)
  {
    if i :| 0 <= i <= |content| && At(content, needle, i) {
      assert content == content[..i] + needle + content[i + |needle|..];
    }
    if before, after :| content == before + needle + after {
      assert At(content, needle, |before|);
    }
  }

  lemma FatalExactly(content: Bytes)
    ensures IsFatalPhp(content) <==> LooksFatal(content)
  {
    ContainsExactly(content, "Fatal error");
    ContainsExactly(content, "Stack trace:");
    ContainsExactly(content, "Uncaught ");
  }

  // ---- What the handler asked for -------------------------------------------------------------

  datatype Call = WriteHeader(status: int) | Write(content: Bytes)

  /** All bytes written, in order. */
  function Written(calls: seq<Call>): Bytes {
    if calls == [] then []
    else Written(calls[..|calls| - 1]) + Content(calls[|calls| - 1])
  }

  function Content(call: Call): Bytes {
    match call case Write(content) => content case WriteHeader(_) => []
  }

  /** The call settles the status: a status that is not zero, or the implied one of a first write. */
  predicate Settles(call: Call) {
    call.Write? || call.status != 0
  }

  function Settled(call: Call): int {
    if call.Write? then 200 else call.status
  }

  ghost predicate NothingSettles(calls: seq<Call>) {
    forall i | 0 <= i < |calls| :: !Settles(calls[i])
  }

  ghost predicate FirstSettles(calls: seq<Call>, status: int) {
    exists i | 0 <= i < |calls| ::
      Settles(calls[i]) && status == Settled(calls[i]) && forall j | 0 <= j < i :: !Settles(calls[j])
  }

  /** `status` is what the first settling call says, 200 if there is none. */
  ghost predicate StatusAsked(calls: seq<Call>, status: int) {
    FirstSettles(calls, status) || (NothingSettles(calls) && status == 200)
  }

  /** The writer's status field: 0 while nothing has settled it. */
  ghost predicate Tracks(calls: seq<Call>, status: int) {
    if status == 0 then NothingSettles(calls) else FirstSettles(calls, status)
  }

  // ---- What the client gets -------------------------------------------------------------------

  /** The target sees heads, marked when the fatal-error header is set, and body chunks. */
  datatype Event = Head(status: int, fatal: bool) | Chunk(content: Bytes)

  function Payload(events: seq<Event>): Bytes {
    if events == [] then []
    else
      Payload(events[..|events| - 1]) + match events[|events| - 1] case Chunk(content) => content case Head(_, _) => []
  }

  /** A well-formed answer: one head, before every body byte. */
  ghost predicate OneHeadFirst(events: seq<Event>, status: int, fatal: bool) {
    && events != [] && events[0] == Head(status, fatal)
    && forall i | 0 < i < |events| :: events[i].Chunk?
  }

  ghost predicate Delivers(events: seq<Event>, status: int, fatal: bool, content: Bytes) {
    OneHeadFirst(events, status, fatal) && Payload(events) == content
  }

  /** The answer to a list of calls. */
  ghost predicate Answers(calls: seq<Call>, events: seq<Event>) {
    var fatal := |Written(calls)| <= 0x4_0000 && LooksFatal(Written(calls));
    exists asked: int | StatusAsked(calls, asked) ::
      (if fatal && asked < 500 then Delivers(events, 500, true, Written(calls))
          else Delivers(events, asked, false, Written(calls)))
  }

  class Target {
    var events: seq<Event>

    constructor ()
      ensures events == []
    {
      events := [];
    }

    method Send(event: Event)
      modifies this
      ensures events == old(events) + [event]
    {
      events := events + [event];
    }
  }

  class ResponseWriter {
    const target: Target
    var status: int
    var body: Bytes
    var passthrough: bool
    var fatal: bool
    /** The calls so far. */
    ghost var calls: seq<Call>

    ghost predicate Valid()
      reads this, target
    {
      && !fatal
      && Tracks(calls, status)
      && (!passthrough ==> target.events == [] && body == Written(calls) && |body| <= INSPECTION_LIMIT)
      && (passthrough ==> status != 0 && body == [] && |Written(calls)| > INSPECTION_LIMIT
                          && Delivers(target.events, status, false, Written(calls)))
    }

    constructor (target: Target)
      requires target.events == []
      ensures Valid() && calls == [] && this.target == target
    {
      this.target := target;
      status, body, passthrough, fatal, calls := 0, [], false, false, [];
    }

    method WriteHeader(status: int)
      requires Valid()
      modifies this
      ensures Valid() && calls == old(calls) + [Call.WriteHeader(status)]
    {
      StatusAfter(calls, Call.WriteHeader(status), this.status);
      OneMoreCall(calls, Call.WriteHeader(status));
      if this.status == 0 {
        this.status := status;
      }
      calls := calls + [Call.WriteHeader(status)];
    }

    method Write(content: Bytes)
      requires Valid()
      modifies this, target
      ensures Valid() && calls == old(calls) + [Call.Write(content)]
    {
      ghost var before, sent := status, Written(calls);
      calls := calls + [Call.Write(content)];
      if status == 0 {
        status := OK;
      }
      assert Tracks(calls, status) by {
        StatusAfter(old(calls), Call.Write(content), before);
      }
      assert Written(calls) == sent + content by {
        OneMoreCall(old(calls), Call.Write(content));
      }
      if passthrough {
        Forward(content, sent);
      } else if |body| + |content| <= INSPECTION_LIMIT {
        body := body + content;
      } else {
        Publish(status);
        passthrough := true;
        Forward(content, sent);
      }
    }

    /** Sends a chunk behind the `sent` bytes. */
    method Forward(content: Bytes, ghost sent: Bytes)
      requires Delivers(target.events, status, false, sent)
      modifies target
      ensures Delivers(target.events, status, false, sent + content)
    {
      OneMoreChunk(target.events, status, false, sent, content);
      target.Send(Chunk(content));
    }

    /** Sends the head and what is buffered. */
    method Publish(status: int)
      requires target.events == []
      modifies this`body, target
      ensures body == [] && Delivers(target.events, status, fatal, old(body))
    {
      target.Send(Head(status, fatal));
      assert Delivers(target.events, status, fatal, []);
      if body != [] {
        OneMoreChunk(target.events, status, fatal, [], body);
        target.Send(Chunk(body));
        body := [];
      }
    }

    method Finish()
      requires Valid()
      modifies this, target
      ensures calls == old(calls) && Answers(calls, target.events)
    {
      if passthrough {
        return;
      }
      FatalExactly(body);
      var final := if status == 0 then OK else status;
      assert StatusAsked(calls, final);
      if final < SERVER_ERROR && IsFatalPhp(body) {
        final := SERVER_ERROR;
        fatal := true;
      }
      Publish(final);
    }
  }

  lemma OneMoreCall(calls: seq<Call>, call: Call)
    ensures Written(calls + [call]) == Written(calls) + Content(call)
  {
    assert (calls + [call])[..|calls|] == calls;
  }

  lemma OneMoreChunk(events: seq<Event>, status: int, fatal: bool, content: Bytes, chunk: Bytes)
    requires Delivers(events, status, fatal, content)
    ensures Delivers(events + [Chunk(chunk)], status, fatal, content + chunk)
  {
    assert (events + [Chunk(chunk)])[..|events|] == events;
  }

  /** The status is fixed by the first settling call and then stays. */
  lemma StatusAfter(calls: seq<Call>, call: Call, status: int)
    requires Tracks(calls, status)
    ensures Tracks(calls + [call], if status == 0 && Settles(call) then Settled(call) else status)
  {
    var more := calls + [call];
    if status != 0 {
      var i :| 0 <= i < |calls| && Settles(calls[i]) && status == Settled(calls[i])
               && forall j | 0 <= j < i :: !Settles(calls[j]);
      assert Settles(more[i]) && forall j | 0 <= j < i :: more[j] == calls[j];
    } else if Settles(call) {
      assert more[|calls|] == call && forall j | 0 <= j < |calls| :: more[j] == calls[j];
    }
  }

  /** The calls alone decide the head and the body; how the body is cut into chunks is left open. */
  lemma AnswersAgree(calls: seq<Call>, one: seq<Event>, other: seq<Event>)
    requires Answers(calls, one) && Answers(calls, other)
    ensures one[0] == other[0] && Payload(one) == Payload(other)
  {
    forall a, b | StatusAsked(calls, a) && StatusAsked(calls, b) ensures a == b {
      StatusIsUnique(calls, a, b);
    }
  }

  lemma StatusIsUnique(calls: seq<Call>, a: int, b: int)
    requires StatusAsked(calls, a) && StatusAsked(calls, b)
    ensures a == b
  {
    if FirstSettles(calls, a) && FirstSettles(calls, b) {
      var i :| 0 <= i < |calls| && Settles(calls[i]) && a == Settled(calls[i])
               && forall j | 0 <= j < i :: !Settles(calls[j]);
      var k :| 0 <= k < |calls| && Settles(calls[k]) && b == Settled(calls[k])
               && forall j | 0 <= j < k :: !Settles(calls[j]);
      assert i == k;
    }
  }

  /** Any calls followed by the end of the request. */
  method ServeHttp(calls: seq<Call>) returns (events: seq<Event>)
    ensures Answers(calls, events)
  {
    var target := new Target();
    var writer := new ResponseWriter(target);
    for i := 0 to |calls|
      invariant writer.Valid() && writer.calls == calls[..i]
      invariant fresh(writer) && fresh(target) && writer.target == target
    {
      assert calls[..i + 1] == calls[..i] + [calls[i]];
      match calls[i] {
        case WriteHeader(status) => writer.WriteHeader(status);
        case Write(content) => writer.Write(content);
      }
    }
    assert calls[..|calls|] == calls;
    writer.Finish();
    return target.events;
  }
}
