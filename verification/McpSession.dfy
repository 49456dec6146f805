// A session's messages to a server behind the gateway, either of which may answer each of them as it likes.
module McpSession {
  import opened Wrappers

  const CLEANUP_MAX_WAIT_SECONDS := 300
  const CLEANUP_REQUEST_TIMEOUT_SECONDS := 30
  const CLEANUP_DEADLINE_SECONDS := CLEANUP_REQUEST_TIMEOUT_SECONDS + CLEANUP_MAX_WAIT_SECONDS

  const SUPPORTED_PROTOCOL_VERSIONS := {"2025-11-25", "2025-06-18", "2025-03-26", "2024-11-05"}
  const PROTOCOL_HEADER_MINIMUM := "2025-06-18"

  datatype Call = Ping | Initialize | Initialized | Echo | Delete

  // What the headers of a request name: a cost center, a protocol version and a session.
  datatype Naming = Naming(code: Option<string>, protocol: Option<string>, id: Option<string>)

  // A request under the pooled grant or the control's.
  datatype Request = Request(pooled: bool, call: Call, naming: Naming)

  datatype SessionHeader = NoSession | BadSession | GoodSession(id: string)

  datatype Message = RateMessage | QuotaMessage | OtherMessage

  // What comes back: nothing, or a status, with the session and message, whether the body can be read within its limits
  // and when the last of it arrives, and whether it holds the result that the call asks for: for initialize, also the
  // version it negotiates and whether the server has tools.
  datatype Answer = Lost | Answer(status: int, session: SessionHeader, message: Message, retryAfter: Option<int>,
                                  readable: bool, bodyAt: Option<int>, acceptable: bool, version: string, tools: bool)

  // The gateway and the server behind it: any answer to a request, given all the requests so far.
  type Server = seq<Request> -> Answer

  datatype Limit = NoLimit | Rate | Quota

  predicate Succeeds(a: Answer) {
    a.Answer? && 200 <= a.status < 300
  }

  function RefusedBy(a: Answer): Limit {
    if a.Answer? && a.readable && a.status == 429 && a.message.RateMessage? then Rate
    else if a.Answer? && a.readable && a.status == 403 && a.message.QuotaMessage? then Quota
    else NoLimit
  }

  // A call that reached the server: it succeeded, or has an answer that only the server gives.
  predicate LetThrough(call: Call, a: Answer) {
    Succeeds(a) || (a.Answer? && ((call.Ping? && a.status == 400) || (call.Delete? && a.status == 405)))
  }

  // The body is read unless it is a success that answers no request.
  predicate ReadsBody(call: Call, a: Answer) {
    !(Succeeds(a) && (call.Initialized? || call.Delete?))
  }

  // The answer as it is known to one who stops reading at a deadline.
  function ReadBy(a: Answer, deadline: Option<int>): Answer {
    if a.Answer? && deadline.Some? && a.bodyAt.Some? && a.bodyAt.value >= deadline.value then a.(readable := false)
    else a
  }

  // What a sender makes of an answer: the exchange, or the error that ends the run. A body that it reads must be
  // readable, and a success may not name a session that is not one.
  function Received(call: Call, a: Answer): Result<Answer> {
    if a.Lost? then Error
    else if ReadsBody(call, a) && !a.readable then Error
    else if Succeeds(a) && call.Initialize? && a.session.BadSession? then Error
    else Ok(a)
  }

  // The version that an answer negotiates.
  function Negotiated(a: Answer): Option<string> {
    if a.Answer? && a.acceptable && a.version in SUPPORTED_PROTOCOL_VERSIONS then Some(a.version) else None
  }

  // An answer that ends the run, and one that the run goes on after; the rest are refusals.
  predicate Fails(call: Call, a: Answer) {
    || Received(call, a).Error?
    || (Succeeds(a) && call.Initialize? && !(Negotiated(a).Some? && a.tools))
    || (Succeeds(a) && call.Echo? && !a.acceptable)
  }

  // A DELETE that ends the session.
  predicate Closes(a: Answer) {
    Received(Delete, a).Ok? && LetThrough(Delete, a)
  }

  predicate Fine(call: Call, a: Answer) {
    Succeeds(a) && !Fails(call, a)
  }

  lemma FineMeaning(call: Call, a: Answer)
    ensures Fine(call, a) <==> Succeeds(a) && !Fails(call, a)
    ensures !Fails(call, a) ==> Received(call, a) == Ok(a)
    ensures Fine(call, a) && call.Initialize? ==> Negotiated(a).Some?
  {
  }

  lemma EchoOutcome(a: Answer)
    ensures Fails(Echo, a) <==> Received(Echo, a).Error? || (Succeeds(a) && !a.acceptable)
    ensures Received(Echo, a).Ok? ==> Received(Echo, a).value == a
    ensures Fine(Echo, a) <==> Succeeds(a) && !Fails(Echo, a)
  {
  }

  // What the gateway's two refusals are, and no other answer is one.
  lemma RefusalMeaning(a: Answer)
    ensures RefusedBy(a) == Rate
      <==> a.Answer? && a.readable && a.message == RateMessage && 428 < a.status < 430
    ensures RefusedBy(a) == Quota
      <==> a.Answer? && a.readable && a.message == QuotaMessage && 402 < a.status < 404
    ensures Retries(a)
      <==> RefusedBy(a) == Rate && exists seconds :: 1 <= seconds < 301 && a.retryAfter == Some(seconds)
  {
    if Retries(a) {
      assert 1 <= a.retryAfter.value < 301;
    }
  }

  // Each kind of call is let through by the 2xx statuses and at most one other, its own.
  lemma LetThroughMeaning(status: int, call: Call, session: SessionHeader, message: Message, retryAfter: Option<int>,
                          readable: bool, bodyAt: Option<int>, acceptable: bool, version: string, tools: bool)
    ensures var a := Answer(status, session, message, retryAfter, readable, bodyAt, acceptable, version, tools);
      && (Succeeds(a) <==> status / 100 == 2)
      && (LetThrough(call, a) && !Succeeds(a) <==> (call, status) in {(Ping, 400), (Delete, 405)})
      && !Succeeds(Lost) && !LetThrough(call, Lost)
  {
  }

  // An answer is received when its body was read, or is not asked for, and names no session that is not one.
  lemma ReceivedMeaning(call: Call, a: Answer)
    ensures Received(call, a).Ok? <==>
      && a.Answer? && (a.readable || (a.status / 100 == 2 && call in {Initialized, Delete}))
      && !(call == Call.Initialize && a.status / 100 == 2 && a.session.BadSession?)
    ensures Received(call, a).Ok? ==> Received(call, a).value == a
    ensures ReadBy(a, None) == a
  {
  }

  // The one answer to initialize that goes on: a readable success with a supported version and tools, and without a
  // session that is not one. The cleanup's deadline is what its last retry may wait and one request may take.
  lemma GoesOnMeaning(a: Answer, deadline: int, now: int)
    ensures Fine(Call.Initialize, a) <==>
      && a.Answer? && a.status / 100 == 2 && a.readable && a.acceptable && a.tools && !a.session.BadSession?
      && (a.version == "2025-11-25" || a.version == "2025-06-18" || a.version == "2025-03-26"
          || a.version == "2024-11-05")
    ensures Fine(Initialized, a) <==> a.Answer? && a.status / 100 == 2
    ensures Fine(Echo, a) <==> a.Answer? && a.status / 100 == 2 && a.readable && a.acceptable
    ensures Closes(a) <==> a.Answer? && (a.status / 100 == 2 || (a.status == 405 && a.readable))
    ensures ReadBy(a, Some(deadline))
      == if a.Answer? && a.bodyAt.Some? && deadline <= a.bodyAt.value then a.(readable := false) else a
    ensures CleanupDeadline(Some(deadline), now) == Some(now + 330) && CleanupDeadline(None, now) == None
  {
  }

  // ---- Headers ----

  // How Python orders strings.
  predicate AtLeast(a: string, b: string) {
    b == "" || (a != "" && (a[0] > b[0] || (a[0] == b[0] && AtLeast(a[1..], b[1..]))))
  }

  // The version that requests name, once one is negotiated.
  function ProtocolHeader(protocol: Option<string>): Option<string> {
    if protocol.Some? && AtLeast(protocol.value, PROTOCOL_HEADER_MINIMUM) then protocol else None
  }

  lemma {:induction false} AtLeastFrom(a: string, b: string, k: nat)
    requires k <= |a| && k <= |b| && a[..k] == b[..k]
    ensures AtLeast(a, b) <==> AtLeast(a[k..], b[k..])
  {
    if k == 0 {
    } else {
      assert a[0] == a[..k][0] == b[..k][0] == b[0];
      assert a[1..][..k - 1] == a[..k][1..] && b[1..][..k - 1] == b[..k][1..];
      AtLeastFrom(a[1..], b[1..], k - 1);
    }
  }

  // The last two of the supported versions are named in requests, and the others are not.
  lemma NamedVersions(version: string)
    requires version in SUPPORTED_PROTOCOL_VERSIONS
    ensures ProtocolHeader(Some(version)) == if version in {"2025-11-25", "2025-06-18"} then Some(version) else None
  {
    var k := if version == "2025-06-18" then 10
             else if version == "2024-11-05" then 3
             else if version == "2025-11-25" then 5 else 6;
    AtLeastFrom(version, PROTOCOL_HEADER_MINIMUM, k);
    assert k < 10 ==> version[k..][0] == version[k] && PROTOCOL_HEADER_MINIMUM[k..][0] == PROTOCOL_HEADER_MINIMUM[k];
  }

  // ---- The conversation ----

  class Client {
    const server: Server
    const clock: nat -> int
    var log: seq<Request>
    var readings: nat

    constructor (server: Server, clock: nat -> int)
      ensures this.server == server && this.clock == clock && log == [] && readings == 0
    {
      this.server, this.clock, log, readings := server, clock, [], 0;
    }

    method Exchange(request: Request) returns (a: Answer)
      modifies this`log
      ensures log == old(log) + [request] && a == server(log)
    {
      log := log + [request];
      a := server(log);
    }

    // The clock, which may read anything each time.
    method Now() returns (now: int)
      modifies this`readings
      ensures readings == old(readings) + 1 && now == clock(old(readings))
    {
      now := clock(readings);
      readings := readings + 1;
    }

    predicate Late(deadline: Option<int>, reading: nat) {
      deadline.Some? && clock(reading) >= deadline.value
    }
  }

  class Session {
    const client: Client
    const pooled: bool
    const deadline: Option<int>
    var costCenter: Option<string>
    var protocol: Option<string>
    var sessionId: Option<string>
    var exchanges: seq<Answer>
    var closedBy: Option<Answer>

    constructor (client: Client, pooled: bool, costCenter: Option<string>, protocol: Option<string>,
                 deadline: Option<int>)
      ensures this.client == client && this.pooled == pooled && this.deadline == deadline
      ensures this.costCenter == costCenter && this.protocol == protocol
      ensures sessionId == None && exchanges == [] && closedBy == None
    {
      this.client, this.pooled, this.deadline := client, pooled, deadline;
      this.costCenter, this.protocol := costCenter, protocol;
      sessionId, exchanges, closedBy := None, [], None;
    }

    function Named(call: Call): Naming
      reads this
    {
      Naming(costCenter, if call.Initialize? then None else ProtocolHeader(protocol), sessionId)
    }

    // The version is named in every request but the one that negotiates it.
    lemma NamedProtocol(call: Call)
      ensures Named(Call.Initialize).protocol == None
      ensures call != Call.Initialize ==> Named(call).protocol == ProtocolHeader(protocol)
      ensures Named(call).code == costCenter && Named(call).id == sessionId
    {
    }

    // Nothing is sent after the deadline, nor read.
    method Send(call: Call) returns (r: Result<Answer>)
      modifies this`sessionId, this`exchanges, client
      ensures var late := client.Late(deadline, old(client.readings));
        && client.log == (if late then old(client.log) else old(client.log) + [Request(pooled, call, old(Named(call)))])
        && r == (if late then Error else Received(call, ReadBy(client.server(client.log), deadline)))
      ensures client.readings == old(client.readings) + if deadline.Some? then 1 else 0
      ensures exchanges == if r.Ok? then old(exchanges) + [r.value] else old(exchanges)
      ensures sessionId
        == if r.Ok? && call.Initialize? && Succeeds(r.value)
          && r.value.session.GoodSession? then Some(r.value.session.id)
           else old(sessionId)
    {
      if deadline.Some? {
        var now := client.Now();
        if now >= deadline.value {
          return Error;
        }
      }
      var answer := client.Exchange(Request(pooled, call, Named(call)));
      answer := ReadBy(answer, deadline);
      if answer.Lost? || (ReadsBody(call, answer) && !answer.readable) {
        return Error;
      }
      if call.Initialize? && Succeeds(answer) {
        if answer.session.BadSession? {
          return Error;
        }
        if answer.session.GoodSession? {
          sessionId := Some(answer.session.id);
        }
      }
      exchanges := exchanges + [answer];
      return Ok(answer);
    }

    // Opens the session, or returns the refusal of its first or second call.
    method Initialize() returns (r: Result<Answer>)
      requires sessionId.None? && protocol.None?
      modifies this`sessionId, this`protocol, this`exchanges, client
      ensures var request := Request(pooled, Call.Initialize, Naming(costCenter, None, None));
        var first := ReadBy(client.server(old(client.log) + [request]), deadline);
        if client.Late(deadline, old(client.readings)) then
          r.Error? && client.log == old(client.log) && sessionId.None? && protocol.None? && exchanges == old(exchanges)
        else
          && protocol == (if Received(Call.Initialize, first).Ok? && Succeeds(first) then Negotiated(first) else None)
          && sessionId == (if Received(Call.Initialize, first).Ok? && Succeeds(first) && first.session.GoodSession?
                           then Some(first.session.id) else None)
          && if !Fine(Call.Initialize, first) then
               && client.log == old(client.log) + [request]
               && (r.Error? <==> Fails(Call.Initialize, first)) && (r.Ok? ==> r.value == first)
               && exchanges == old(exchanges) + (if Received(Call.Initialize, first).Ok? then [first] else [])
             else if client.Late(deadline, old(client.readings) + 1) then
               r.Error? && client.log == old(client.log) + [request] && exchanges == old(exchanges) + [first]
             else
               var second := ReadBy(client.server(client.log), deadline);
               && client.log == old(client.log) + [request, Request(pooled, Initialized, Named(Initialized))]
               && (r.Error? <==> Fails(Initialized, second)) && (r.Ok? ==> r.value == second)
               && exchanges == old(exchanges) + [first] + (if r.Ok? then [second] else [])
    {
      hide ProtocolHeader, AtLeast, RefusedBy, LetThrough;
      var first := Send(Call.Initialize);
      if first.Error? || !Succeeds(first.value) {
        return first;
      }
      protocol := Negotiated(first.value);
      if protocol.None? || !first.value.tools {
        return Error;
      }
      r := Send(Initialized);
    }

    // Ends the session: DELETE, and once more when a rate limit refused it, says when to come back, and leaves time to.
    // The session is over when the last DELETE was let through and its refusal, if it was one, could be read; otherwise
    // it keeps its ID. What answered the last DELETE is kept, even when its body was lost.
    method Close() returns (ok: bool)
      modifies this`sessionId, this`closedBy, client
      ensures old(sessionId).None? ==>
        ok && client.log == old(client.log) && sessionId.None? && closedBy == old(closedBy)
      ensures old(sessionId).Some? ==>
        var request := Request(pooled, Delete, old(Named(Delete)));
        var cleanup := CleanupDeadline(deadline, client.clock(old(client.readings)));
        var first := ReadBy(client.server(old(client.log) + [request]), cleanup);
        var last := ReadBy(client.server(client.log), cleanup);
        && client.log == old(client.log) + [request]
             + (if Retries(first) && InTime(first, cleanup, client.clock(old(client.readings) + 1))
                then [request] else [])
        && ok == Closes(last) && sessionId == (if ok then None else old(sessionId))
        && closedBy == (if last.Lost? then None else Some(last))
    {
      if sessionId.None? {
        return true;
      }
      var cleanup: Option<int> := None;
      if deadline.Some? {
        var now := client.Now();
        cleanup := CleanupDeadline(deadline, now);
      }
      for attempt := 0 to 2
        invariant sessionId == old(sessionId)
          && cleanup == CleanupDeadline(deadline, client.clock(old(client.readings)))
        invariant deadline.Some? && attempt == 0 ==> client.readings == old(client.readings) + 1
        invariant attempt == 0 ==> client.log == old(client.log)
        invariant attempt > 0 ==> client.log == old(client.log) + [Request(pooled, Delete, Named(Delete))]
        invariant attempt > 0 ==>
          var answer := ReadBy(client.server(client.log), cleanup);
          Retries(answer) && InTime(answer, cleanup, client.clock(old(client.readings) + 1))
        invariant attempt < 2
      {
        closedBy := None;
        var answer := client.Exchange(Request(pooled, Delete, Named(Delete)));
        answer := ReadBy(answer, cleanup);
        if answer.Lost? {
          return false;
        }
        closedBy := Some(answer);
        if ReadsBody(Delete, answer) && !answer.readable {
          return false;
        }
        if Succeeds(answer) || answer.status == 405 {
          sessionId := None;
          return true;
        }
        if attempt != 0 || !Retries(answer) {
          return false;
        }
        if cleanup.Some? {
          var now := client.Now();
          if now + answer.retryAfter.value >= cleanup.value {
            return false;
          }
        }
      }
      return false;
    }
  }

  // A rate limit's refusal that says to come back, and within the time that cleanup waits.
  predicate Retries(a: Answer) {
    RefusedBy(a) == Rate && a.retryAfter.Some? && 0 < a.retryAfter.value <= CLEANUP_MAX_WAIT_SECONDS
  }

  // Cleanup has a deadline exactly when the session had one, counted from when cleanup starts.
  function CleanupDeadline(deadline: Option<int>, now: int): Option<int> {
    if deadline.Some? then Some(now + CLEANUP_DEADLINE_SECONDS) else None
  }

  // A retry can start before the cleanup's deadline.
  predicate InTime(a: Answer, cleanup: Option<int>, now: int)
    requires a.Answer? && a.retryAfter.Some?
  {
    cleanup.None? || now + a.retryAfter.value < cleanup.value
  }
}
