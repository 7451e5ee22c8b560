/**
 The pipe between the Exchange broker and a PowerShell process: one JSON line per request, read in chunks of any
 size. The child is taken to write exactly one newline-terminated line per request; what varies is how the bytes
 arrive, whether the process dies, and whether the deadline passes.
 */
module ExchangePipe {
  import opened Bytes

  const MAX_RESPONSE := 4 * 1024 * 1024
  const MAX_CHUNK := 8192
  const NEWLINE: Byte := 10

  /** One round of the read loop: select times out, or at most so many bytes are there to be read (none when the
      process has closed its end). */
  datatype Round = Timeout | Ready(available: nat)

  datatype Ended = Line(line: Text, rest: Text, unread: Text) | TimedOut | Eof | TooLarge

  function Min(a: int, b: int): int { if a <= b then a else b }

  /** How many bytes the loop asks for: never so many that more than one byte beyond the limit could arrive, and
      none exactly when an oversize reply is still in the buffer of a process whose kill has not taken effect. */
  function Asked(buffered: nat): (n: nat)
    requires buffered <= MAX_RESPONSE + 1
    ensures n <= MAX_CHUNK && buffered + n <= MAX_RESPONSE + 1
    ensures n == 0 <==> buffered == MAX_RESPONSE + 1
    ensures n == 8192 || buffered + n == 4 * 1024 * 1024 + 1
  {
    Min(MAX_CHUNK, MAX_RESPONSE + 1 - buffered)
  }

  function Chunk(buffer: Text, pipe: Text, available: nat): (chunk: Text)
    requires |buffer| <= MAX_RESPONSE + 1
    ensures chunk <= pipe && |buffer| + |chunk| <= MAX_RESPONSE + 1
  {
    pipe[..Min(Min(available, Asked(|buffer|)), |pipe|)]
  }

  function IndexOf(s: Text): (i: nat)
    requires NEWLINE in s
    ensures i < |s| && s[i] == NEWLINE && NEWLINE !in s[..i]
  {
    if s[0] == NEWLINE then 0 else 1 + IndexOf(s[1..])
  }

  /** The read loop as a function of the rounds. */
  function ReadLine(buffer: Text, pipe: Text, rounds: seq<Round>): (e: Ended)
    requires |buffer| <= MAX_RESPONSE + 1
    ensures e.Line? ==> |e.rest| <= MAX_RESPONSE
    decreases |rounds|
  {
    if NEWLINE in buffer then Line(buffer[..IndexOf(buffer)], buffer[IndexOf(buffer) + 1..], pipe)
    else if rounds == [] || rounds[0].Timeout? then TimedOut
    else
      var chunk := Chunk(buffer, pipe, rounds[0].available);
      if chunk == [] then Eof
      else if |buffer + chunk| > MAX_RESPONSE then TooLarge
      else ReadLine(buffer + chunk, pipe[|chunk|..], rounds[1..])
  }

  datatype Wire = Wire(buffer: Text, pipe: Text)

  const IN_STEP := Wire([], [])

  /** What the read loop leaves behind, however it ends. */
  function LeftBy(buffer: Text, pipe: Text, rounds: seq<Round>): (left: Wire)
    requires |buffer| <= MAX_RESPONSE + 1
    ensures |left.buffer| <= MAX_RESPONSE + 1
    ensures var e := ReadLine(buffer, pipe, rounds); e.Line? ==> left == Wire(e.rest, e.unread)
    decreases |rounds|
  {
    if NEWLINE in buffer then Wire(buffer[IndexOf(buffer) + 1..], pipe)
    else if rounds == [] || rounds[0].Timeout? then Wire(buffer, pipe)
    else
      var chunk := Chunk(buffer, pipe, rounds[0].available);
      if chunk == [] || |buffer + chunk| > MAX_RESPONSE then Wire(buffer + chunk, pipe[|chunk|..])
      else LeftBy(buffer + chunk, pipe[|chunk|..], rounds[1..])
  }

  /** No byte is lost or made up: the line that was read, if one was, and what is left make up what was there before. */
  lemma {:induction false} NothingIsLost(buffer: Text, pipe: Text, rounds: seq<Round>)
    requires |buffer| <= MAX_RESPONSE + 1
    ensures var e, left := ReadLine(buffer, pipe, rounds), LeftBy(buffer, pipe, rounds);
            buffer + pipe == (if e.Line? then e.line + [NEWLINE] else []) + (left.buffer + left.pipe)
    decreases |rounds|
  {
    if NEWLINE in buffer {
      var i := IndexOf(buffer);
      assert buffer == buffer[..i] + [NEWLINE] + buffer[i + 1..];
    } else if rounds != [] && rounds[0].Ready? {
      var chunk := Chunk(buffer, pipe, rounds[0].available);
      assert buffer + chunk + pipe[|chunk|..] == buffer + pipe;
      if chunk != [] && |buffer + chunk| <= MAX_RESPONSE {
        NothingIsLost(buffer + chunk, pipe[|chunk|..], rounds[1..]);
      }
    }
  }

  /** What was read and what is still in the pipe are the reply of the request in flight. */
  ghost predicate Framed(buffer: Text, pipe: Text, reply: Text) {
    NEWLINE !in reply && buffer + pipe == reply + [NEWLINE]
  }

  lemma LineIsReply(buffer: Text, pipe: Text, reply: Text)
    requires Framed(buffer, pipe, reply) && NEWLINE in buffer
    ensures pipe == [] && buffer == reply + [NEWLINE] && IndexOf(buffer) == |reply|
  {
    var i := IndexOf(buffer);
    var all := reply + [NEWLINE];
    assert all[i] == (buffer + pipe)[i] == NEWLINE;
    assert forall k :: 0 <= k < |reply| ==> all[k] == reply[k] && reply[k] in reply;
    assert |buffer| + |pipe| == |reply| + 1;
    assert pipe == [];
    assert buffer + pipe == buffer;
  }

  lemma ChunkKeepsFrame(buffer: Text, pipe: Text, n: nat, reply: Text)
    requires Framed(buffer, pipe, reply) && n <= |pipe|
    ensures Framed(buffer + pipe[..n], pipe[n..], reply)
  {
    assert buffer + pipe[..n] + pipe[n..] == buffer + pipe;
  }

  /** For every chunking: a line that is read is the reply to this very request, nothing is left behind it, and
      the size limit is a limit on the reply, not on how it arrives. */
  lemma {:induction false} ReadsTheReply(buffer: Text, pipe: Text, rounds: seq<Round>, reply: Text)
    requires |buffer| <= MAX_RESPONSE && Framed(buffer, pipe, reply)
    ensures var e := ReadLine(buffer, pipe, rounds);
            && (e.Line? ==> e == Line(reply, [], []) && |reply| < MAX_RESPONSE)
            && (e.TooLarge? ==> |reply| >= MAX_RESPONSE)
    decreases |rounds|
  {
    if NEWLINE in buffer {
      LineIsReply(buffer, pipe, reply);
      assert buffer[..|reply|] == reply;
    } else if rounds != [] && rounds[0].Ready? {
      var chunk := Chunk(buffer, pipe, rounds[0].available);
      ChunkKeepsFrame(buffer, pipe, |chunk|, reply);
      assert |buffer| + |pipe| == |reply| + 1;
      if |buffer + chunk| <= MAX_RESPONSE {
        ReadsTheReply(buffer + chunk, pipe[|chunk|..], rounds[1..], reply);
      }
    }
  }

  /** Bytes keep coming until the pipe is empty. */
  predicate Steady(pipe: Text, rounds: seq<Round>) {
    |rounds| >= |pipe| && forall i :: 0 <= i < |rounds| ==> rounds[i].Ready? && rounds[i].available > 0
  }

  /** If nothing times out and the process lives, the outcome depends on the reply's size alone. */
  lemma {:induction false} VerdictIgnoresChunking(buffer: Text, pipe: Text, rounds: seq<Round>, reply: Text)
    requires |buffer| <= MAX_RESPONSE && Framed(buffer, pipe, reply) && Steady(pipe, rounds)
    ensures ReadLine(buffer, pipe, rounds) == if |reply| < MAX_RESPONSE then Line(reply, [], []) else TooLarge
    decreases |rounds|
  {
    ReadsTheReply(buffer, pipe, rounds, reply);
    if NEWLINE !in buffer {
      assert (buffer + pipe)[|buffer + pipe| - 1] == NEWLINE;
      assert pipe != [];
      var chunk := Chunk(buffer, pipe, rounds[0].available);
      if |buffer + chunk| <= MAX_RESPONSE {
        ChunkKeepsFrame(buffer, pipe, |chunk|, reply);
        VerdictIgnoresChunking(buffer + chunk, pipe[|chunk|..], rounds[1..], reply);
      }
    }
  }

  // ---------------------------------------------------------------- a request and its outcome

  /** What the code after the read loop finds in a line: it raises, is not an answer to this request, reports a
      failure, is a malformed success, or is the answer. */
  datatype Verdict = Raises | Foreign | Refused(code: string) | Invalid(code: string) | Accepted

  datatype Outcome = Answer(line: Text) | Failure(code: string)

  const UNKNOWN_WRITE := "unknown_write_outcome"
  const UNREACHABLE := "provider_unreachable"
  const TOO_LARGE := "response_too_large"

  const SAFE_FAILURES: set<string> :=
    { "access_denied", "connection_mismatch", "credential_unavailable", "invalid_request", "provider_access_denied",
      "provider_rejected", UNREACHABLE, TOO_LARGE, "worker_busy", UNKNOWN_WRITE }

  function Fail(code: string): (o: Outcome)
    ensures o.Failure? && o.code in SAFE_FAILURES
  {
    Failure(if code in SAFE_FAILURES then code else UNREACHABLE)
  }

  /** The code for an exit that leaves open whether a write took effect. */
  function Early(write: bool, code: string): Outcome { Fail(if write then UNKNOWN_WRITE else code) }

  function Judged(line: Text, verdict: Verdict, write: bool): Outcome {
    match verdict
    case Raises => Early(write, UNREACHABLE)
    case Foreign => Fail(UNREACHABLE)
    case Refused(code) => Fail(code)
    case Invalid(code) => Early(write, code)
    case Accepted => Answer(line)
  }

  function Concluded(e: Ended, judge: Text -> Verdict, write: bool): Outcome {
    match e
    case TimedOut => Early(write, UNREACHABLE)
    case Eof => Early(write, UNREACHABLE)
    case TooLarge => Early(write, TOO_LARGE)
    case Line(line, _, _) => Judged(line, judge(line), write)
  }

  /** Whether the process is closed on the way out. */
  predicate Closes(e: Ended, judge: Text -> Verdict) { !e.Line? || judge(e.line).Raises? }

  /** The code a caller gets to see for this one. */
  function Passed(code: string): string {
    if code in { "access_denied", "connection_mismatch", "credential_unavailable", "invalid_request",
                 "provider_access_denied", "provider_rejected", "provider_unreachable", "response_too_large",
                 "worker_busy", "unknown_write_outcome" } then code else "provider_unreachable"
  }

  lemma PassesTheTen(code: string)
    ensures Fail(code) == Failure(Passed(code))
  {
  }

  /** What the caller is told, exit by exit and verdict by verdict. For a write, whatever leaves open whether it took
      effect is an unknown outcome; a refusal passes its code on if it is one of the ten that may leave. */
  lemma WhatTheCallerIsTold(e: Ended, judge: Text -> Verdict, write: bool)
    ensures e.TimedOut? || e.Eof? || (e.Line? && judge(e.line).Raises?) ==>
              Concluded(e, judge, write) == Failure(if write then "unknown_write_outcome" else "provider_unreachable")
    ensures e.TooLarge? ==>
              Concluded(e, judge, write) == Failure(if write then "unknown_write_outcome" else "response_too_large")
    ensures e.Line? && judge(e.line).Accepted? ==> Concluded(e, judge, write) == Answer(e.line)
    ensures e.Line? && judge(e.line).Foreign? ==> Concluded(e, judge, write) == Failure("provider_unreachable")
    ensures e.Line? && judge(e.line).Refused? ==>
              Concluded(e, judge, write) == Failure(Passed(judge(e.line).code))
    ensures e.Line? && judge(e.line).Invalid? ==>
              Concluded(e, judge, write) ==
              Failure(if write then "unknown_write_outcome" else Passed(judge(e.line).code))
  {
    PassesTheTen(if e.Line? && judge(e.line).Refused? then judge(e.line).code else "");
    PassesTheTen(if e.Line? && judge(e.line).Invalid? then judge(e.line).code else "");
    PassesTheTen("unknown_write_outcome");
    PassesTheTen("response_too_large");
    PassesTheTen("provider_unreachable");
  }

  class PersistentPowerShell {
    var buffer: Text
    var pipe: Text
    var open: bool

    constructor ()
      ensures Valid() && open
    {
      buffer, pipe, open := [], [], true;
    }

    /** While close() has not been called, nothing of an earlier reply is left to be taken for the next one. */
    predicate Valid()
      reads this
    {
      |buffer| <= MAX_RESPONSE + 1 && (open ==> buffer == [] && pipe == [])
    }

    /** The kill is sent; the process may live on for a while. */
    method Close()
      modifies this`open
      ensures !open
    {
      open := false;
    }

    method Receive(rounds: seq<Round>) returns (e: Ended)
      requires |buffer| <= MAX_RESPONSE + 1
      modifies this
      ensures e == ReadLine(old(buffer), old(pipe), rounds)
      ensures open == (old(open) && e.Line?) && |buffer| <= MAX_RESPONSE + 1
      ensures Wire(buffer, pipe) == LeftBy(old(buffer), old(pipe), rounds)
    {
      var i := 0;
      while NEWLINE !in buffer
        invariant i <= |rounds| && |buffer| <= MAX_RESPONSE + 1 && open == old(open)
        invariant i > 0 ==> |buffer| <= MAX_RESPONSE
        invariant ReadLine(old(buffer), old(pipe), rounds) == ReadLine(buffer, pipe, rounds[i..])
        invariant LeftBy(old(buffer), old(pipe), rounds) == LeftBy(buffer, pipe, rounds[i..])
        decreases MAX_RESPONSE + 1 - |buffer|
      {
        if i == |rounds| || rounds[i].Timeout? {
          Close();
          return TimedOut;
        }
        var chunk := Chunk(buffer, pipe, rounds[i].available);
        if chunk == [] {
          Close();
          return Eof;
        }
        buffer, pipe := buffer + chunk, pipe[|chunk|..];
        if |buffer| > MAX_RESPONSE {
          Close();
          return TooLarge;
        }
        assert rounds[i..][1..] == rounds[i + 1..];
        i := i + 1;
      }
      var k := IndexOf(buffer);
      e := Line(buffer[..k], buffer[k + 1..], pipe);
      buffer := buffer[k + 1..];
    }

    /** run(): one request whose reply is the given line. On a process that has not been closed it is answered with
        that line or with a failure, and afterwards the process is closed or the pipe is in step again. On one
        whose kill has not taken effect yet, leftovers may be read; an answer is still a line that was accepted
        as an answer to this request. */
    method Run(sent: bool, rounds: seq<Round>, reply: Text, judge: Text -> Verdict, write: bool)
      returns (o: Outcome)
      requires Valid() && 10 !in reply
      modifies this
      ensures Valid() && (open ==> old(open))
      ensures !sent ==> o == Early(write, UNREACHABLE) && !open
      ensures sent ==> o == Concluded(ReadLine(old(buffer), old(pipe) + (reply + [10]), rounds), judge, write)
      ensures sent && old(open) ==> open == !Closes(ReadLine([], reply + [10], rounds), judge)
      ensures o.Answer? ==> judge(o.line).Accepted?
      ensures o.Answer? && old(open) ==> open && o.line == reply && |reply| < MAX_RESPONSE
      ensures sent && old(open) && Steady(reply + [10], rounds) && |reply| < 4 * 1024 * 1024 ==>
                && (judge(reply).Accepted? ==> o == Answer(reply))
                && (judge(reply).Foreign? ==> o == Failure("provider_unreachable"))
                && (judge(reply).Refused? ==> o == Failure(Passed(judge(reply).code)))
                && open == !judge(reply).Raises?
      ensures sent && old(open) && Steady(reply + [10], rounds) && |reply| >= 4 * 1024 * 1024 ==>
                o == Failure(if write then "unknown_write_outcome" else "response_too_large") && !open
    {
      if !sent {
        Close();
        return Early(write, UNREACHABLE);
      }
      pipe := pipe + (reply + [NEWLINE]);
      if open {
        assert [] + (reply + [NEWLINE]) == reply + [NEWLINE];
        ReadsTheReply(buffer, pipe, rounds, reply);
        if Steady(pipe, rounds) {
          VerdictIgnoresChunking(buffer, pipe, rounds, reply);
        }
      }
      var e := Receive(rounds);
      if e.Line? && judge(e.line).Raises? {
        Close();
      }
      o := Concluded(e, judge, write);
      WhatTheCallerIsTold(e, judge, write);
    }
  }

  // ---------------------------------------------------------------- many requests on one process

  datatype Exchange = Exchange(reply: Text, rounds: seq<Round>, judge: Text -> Verdict, write: bool)

  /** The outcomes of requests sent one after the other until the process is closed. `buffer` and `pipe` are
      whatever the requests before have left. */
  function Session(buffer: Text, pipe: Text, xs: seq<Exchange>): seq<Outcome>
    requires |buffer| <= MAX_RESPONSE
    decreases |xs|
  {
    if xs == [] then []
    else
      var e := ReadLine(buffer, pipe + xs[0].reply + [NEWLINE], xs[0].rounds);
      var o := Concluded(e, xs[0].judge, xs[0].write);
      if Closes(e, xs[0].judge) then [o]
      else [o] + Session(e.rest, e.unread, xs[1..])
  }

  /** However many requests are served and however the bytes are cut, the i-th outcome is decided by the i-th
      reply: an answer is that reply, and any other outcome is what this reply earns. */
  lemma {:induction false} RepliesStayInStep(xs: seq<Exchange>, i: nat)
    requires forall k :: 0 <= k < |xs| ==> NEWLINE !in xs[k].reply
    requires i < |Session([], [], xs)|
    ensures i < |xs|
    ensures Session([], [], xs)[i] ==
            Concluded(ReadLine([], xs[i].reply + [NEWLINE], xs[i].rounds), xs[i].judge, xs[i].write)
    ensures Session([], [], xs)[i].Answer? ==> Session([], [], xs)[i].line == xs[i].reply
    decreases i
  {
    var x := xs[0];
    assert [] + x.reply + [NEWLINE] == x.reply + [NEWLINE];
    assert [] + (x.reply + [NEWLINE]) == x.reply + [NEWLINE];
    ReadsTheReply([], x.reply + [NEWLINE], x.rounds, x.reply);
    if i > 0 {
      RepliesStayInStep(xs[1..], i - 1);
    }
  }

  /** The exchange is carried through: its reply arrives whole, is below the limit and does not make the code raise. */
  ghost predicate GoesThrough(x: Exchange) {
    && NEWLINE !in x.reply && |x.reply| < 4 * 1024 * 1024 && Steady(x.reply + [NEWLINE], x.rounds)
    && !x.judge(x.reply).Raises?
  }

  /** One process serves any number of such exchanges, each with what its own reply earns, and none after one that
      closes it. */
  lemma {:induction false} SessionGoesOn(xs: seq<Exchange>, n: nat)
    requires n <= |xs| && forall k :: 0 <= k < n ==> GoesThrough(xs[k])
    ensures |Session([], [], xs)| >= n
    ensures forall k :: 0 <= k < n ==>
              Session([], [], xs)[k] == Judged(xs[k].reply, xs[k].judge(xs[k].reply), xs[k].write)
    ensures n < |xs| && NEWLINE !in xs[n].reply
            && Closes(ReadLine([], xs[n].reply + [NEWLINE], xs[n].rounds), xs[n].judge) ==>
              |Session([], [], xs)| == n + 1
    decreases n
  {
    if xs != [] {
      var x := xs[0];
      assert [] + x.reply + [NEWLINE] == x.reply + [NEWLINE];
      assert [] + (x.reply + [NEWLINE]) == x.reply + [NEWLINE];
      if n > 0 {
        VerdictIgnoresChunking([], x.reply + [NEWLINE], x.rounds, x.reply);
        SessionGoesOn(xs[1..], n - 1);
      }
    }
  }

  /** For a write, every exit that gives up on the reply says that the outcome is unknown; a code that promises
      more comes from a line that was read. */
  lemma GivenUpWriteIsUnknown(e: Ended, judge: Text -> Verdict)
    ensures Closes(e, judge) ==> Concluded(e, judge, true) == Failure(UNKNOWN_WRITE)
    ensures Concluded(e, judge, true) == Failure(UNREACHABLE) ==>
              e.Line? && (judge(e.line).Foreign? || judge(e.line).Refused?)
  {
  }
}
