// The proof that a cost center's pool of calls refuses once it is spent: the session's DELETE is its last call.
module PoolQuota {
  import opened McpSession
  import opened Wrappers

  const POOL_CALL_FLOOR := 5
  const POOL_OVERSHOOT_PROBES := 2

  // How many of the first k requests were let through.
  function Through(server: Server, log: seq<Request>, k: nat): nat
    requires k <= |log|
  {
    if k == 0 then 0 else Through(server, log, k - 1) + if LetThrough(log[k - 1].call, server(log[..k])) then 1 else 0
  }

  lemma {:induction false} ThroughExtends(server: Server, log: seq<Request>, more: seq<Request>, k: nat)
    requires k <= |log|
    ensures Through(server, log + more, k) == Through(server, log, k)
  {
    if k == 0 {
    } else {
      ThroughExtends(server, log, more, k - 1);
      assert (log + more)[..k] == log[..k];
    }
  }

  lemma ThroughNext(server: Server, log: seq<Request>, request: Request)
    ensures Through(server, log + [request], |log| + 1)
         == Through(server, log, |log|) + if LetThrough(request.call, server(log + [request])) then 1 else 0
  {
    hide LetThrough;
    ThroughExtends(server, log, [request], |log|);
    assert (log + [request])[..|log| + 1] == log + [request];
  }

  function Successes(exchanges: seq<Answer>): (n: nat)
    ensures n <= |exchanges|
  {
    if exchanges == [] then 0
    else Successes(exchanges[..|exchanges| - 1]) + if Succeeds(exchanges[|exchanges| - 1]) then 1 else 0
  }

  // ---- An exact counter ----

  // What a server that works answers: a stateful one names a session, and refuses a request that names none.
  predicate Works(stateful: bool, call: Call, a: Answer) {
    match call
    case Ping => if stateful then a.Answer? && a.status == 400 && a.readable else Fine(Ping, a)
    case Initialize => Fine(Call.Initialize, a) && (if stateful then a.session.GoodSession? else a.session.NoSession?)
    case Initialized => Fine(Initialized, a)
    case Echo => Fine(Echo, a)
    case Delete => Closes(a)
  }

  function PooledCount(log: seq<Request>): nat {
    if log == [] then 0 else PooledCount(log[..|log| - 1]) + if log[|log| - 1].pooled then 1 else 0
  }

  // Before a working server, a gateway with no other limit whose pool counts every pooled request, and refuses exactly
  // those past the size.
  ghost predicate ExactCounter(server: Server, size: nat, stateful: bool) {
    forall log: seq<Request> :: |log| > 0 ==>
      var request := log[|log| - 1];
      if request.pooled && PooledCount(log[..|log| - 1]) >= size then RefusedBy(server(log)) == Quota
      else Works(stateful, request.call, server(log))
  }

  // There are such servers: the exact counter is one.
  function ExactServer(size: nat, stateful: bool): Server {
    (log: seq<Request>) =>
      if log == [] then Lost
      else if log[|log| - 1].pooled && PooledCount(log[..|log| - 1]) >= size then
        Answer(403, NoSession, QuotaMessage, None, true, None, true, PROTOCOL_HEADER_MINIMUM, true)
      else
        Answer(if stateful && log[|log| - 1].call.Ping? then 400 else 200,
               if stateful then GoodSession("id") else NoSession,
               OtherMessage, None, true, None, true, PROTOCOL_HEADER_MINIMUM, true)
  }

  lemma ExactServerIsExact(size: nat, stateful: bool)
    ensures ExactCounter(ExactServer(size, stateful), size, stateful)
  {
    hide PooledCount;
    var server := ExactServer(size, stateful);
    forall log: seq<Request> | |log| > 0
      ensures var request := log[|log| - 1];
        if request.pooled && PooledCount(log[..|log| - 1]) >= size then RefusedBy(server(log)) == Quota
        else Works(stateful, request.call, server(log))
    {
      var call := log[|log| - 1].call;
      assert call.Ping? || call.Initialize? || call.Initialized? || call.Echo? || call.Delete?;
    }
  }

  lemma {:induction false} AllPooledCount(log: seq<Request>)
    requires forall k :: 0 <= k < |log| ==> log[k].pooled
    ensures PooledCount(log) == |log|
  {
    if log == [] {
    } else {
      AllPooledCount(log[..|log| - 1]);
    }
  }

  // A request under the pool adds one to the count, wherever in the log it is, and another adds nothing.
  lemma {:induction false} PooledCountMeaning(front: seq<Request>, request: Request, back: seq<Request>)
    ensures PooledCount([]) == 0
    ensures PooledCount(front + [request] + back) == PooledCount(front + back) + if request.pooled then 1 else 0
  {
    var with, without := front + [request] + back, front + back;
    if back == [] {
      assert with[..|with| - 1] == front == without;
    } else {
      var most := back[..|back| - 1];
      assert with[..|with| - 1] == front + [request] + most && without[..|without| - 1] == front + most;
      PooledCountMeaning(front, request, most);
    }
  }

  // Request k of those under the pool is refused when the pool is spent, and otherwise answered.
  lemma ExactAnswer(server: Server, size: nat, stateful: bool, log: seq<Request>, k: nat)
    requires ExactCounter(server, size, stateful) && k < |log| && forall i :: 0 <= i <= k ==> log[i].pooled
    ensures if k >= size then RefusedBy(server(log[..k + 1])) == Quota
            else Works(stateful, log[k].call, server(log[..k + 1]))
  {
    hide RefusedBy, Works;
    var front := log[..k + 1];
    assert front[..|front| - 1] == log[..k];
    AllPooledCount(log[..k]);
  }

  // ---- Spending the pool ----

  ghost predicate AllFine(server: Server, log: seq<Request>, lo: nat, hi: nat)
    requires hi <= |log|
  {
    forall k :: lo <= k < hi ==> Fine(log[k].call, server(log[..k + 1]))
  }

  lemma AllFineNext(server: Server, log: seq<Request>, lo: nat, request: Request)
    requires lo <= |log| && AllFine(server, log, lo, |log|)
    ensures AllFine(server, log + [request], lo, |log|)
    ensures Fine(request.call, server(log + [request])) ==> AllFine(server, log + [request], lo, |log| + 1)
  {
    var next := log + [request];
    assert next[..|log| + 1] == next;
    forall k | lo <= k < |log| ensures Fine(next[k].call, server(next[..k + 1])) {
      assert next[..k + 1] == log[..k + 1];
    }
  }

  function SwapLetter(c: char): char {
    if 'a' <= c <= 'z' then c - 'a' + 'A' else if 'A' <= c <= 'Z' then c - 'A' + 'a' else c
  }

  // The code in the other case, letter by letter.
  function SwapCase(code: string): (swapped: string)
    ensures |swapped| == |code|
  {
    if code == "" then "" else [SwapLetter(code[0])] + SwapCase(code[1..])
  }

  predicate IsLetter(c: char) {
    'A' <= c <= 'Z' || 'a' <= c <= 'z'
  }

  // The same unless one is a letter; and then the other is the letter 32 places from it.
  predicate InOtherCase(c: char, other: char) {
    (c != other <==> IsLetter(c)) && (IsLetter(c) ==> IsLetter(other) && c as int - other as int in {32, -32})
  }

  ghost predicate OtherCase(code: string, other: string) {
    |code| == |other| && forall k :: 0 <= k < |code| ==> InOtherCase(code[k], other[k])
  }

  lemma SwapsLetter(c: char)
    ensures InOtherCase(c, SwapLetter(c)) && SwapLetter(SwapLetter(c)) == c
  {
  }

  // Swapping changes every letter to the same letter in the other case, and nothing else.
  lemma {:induction false} SwapsLetters(code: string)
    ensures OtherCase(code, SwapCase(code)) && SwapCase(SwapCase(code)) == code
  {
    if code == "" {
    } else {
      hide InOtherCase, SwapLetter;
      SwapsLetters(code[1..]);
      SwapsLetter(code[0]);
      var other := SwapCase(code);
      assert other[1..] == SwapCase(code[1..]);
      forall k | 0 <= k < |code| ensures InOtherCase(code[k], other[k]) {
        if k > 0 {
          assert code[k] == code[1..][k - 1] && other[k] == other[1..][k - 1];
        }
      }
    }
  }

  lemma OnlyLetter(c: char, other: char)
    requires InOtherCase(c, other)
    ensures other == SwapLetter(c)
  {
  }

  // There is no other such code.
  lemma OnlySwapped(code: string, other: string)
    ensures OtherCase(code, other) <==> other == SwapCase(code)
  {
    hide InOtherCase, SwapLetter;
    SwapsLetters(code);
    if OtherCase(code, other) {
      var swapped := SwapCase(code);
      forall k | 0 <= k < |code| ensures other[k] == swapped[k] {
        OnlyLetter(code[k], other[k]);
        OnlyLetter(code[k], swapped[k]);
      }
    }
  }

  function LowerCase(code: string): string {
    if code == "" then ""
    else [if 'A' <= code[0] <= 'Z' then SwapLetter(code[0]) else code[0]] + LowerCase(code[1..])
  }

  lemma {:induction false} LowerCaseAt(code: string, k: nat)
    requires k < |code|
    ensures |LowerCase(code)| == |code|
    ensures LowerCase(code)[k] == if code[k] in "ABCDEFGHIJKLMNOPQRSTUVWXYZ" then (code[k] as int + 32) as char
                                  else code[k]
  {
    LowerLetter(code[0]);
    if |code| > 1 {
      LowerCaseAt(code[1..], if k == 0 then 0 else k - 1);
    }
  }

  lemma LowerLetter(c: char)
    ensures 'A' <= c <= 'Z' <==> c in "ABCDEFGHIJKLMNOPQRSTUVWXYZ"
  {
    var letters := "ABCDEFGHIJKLMNOPQRSTUVWXYZ";
    if 'A' <= c <= 'Z' {
      assert letters[c as int - 65] == c;
    }
  }

  // So it is the same code to a gateway that compares codes without case.
  lemma {:induction false} SwappedIsSame(code: string)
    ensures LowerCase(SwapCase(code)) == LowerCase(code)
  {
    if code == "" {
    } else {
      SwappedIsSame(code[1..]);
    }
  }

  // From the third request on, a session calls under the other case of the code it opened with.
  ghost predicate EchoesSwapped(log: seq<Request>, from: nat, code: Option<string>) {
    forall k :: from + 2 <= k < |log| && code.Some? ==>
      log[k].naming.code.Some? && OtherCase(code.value, log[k].naming.code.value)
  }

  lemma PlannedSwapped(log: seq<Request>, from: nat, n: Naming)
    requires AllPlanned(log, from, true, n)
    ensures EchoesSwapped(log, from, n.code)
  {
    if n.code.Some? {
      SwapsLetters(n.code.value);
    }
  }

  function Swapped(code: Option<string>): Option<string> {
    if code.Some? then Some(SwapCase(code.value)) else None
  }

  // What a session sends first, second and from then on: a pooled one calls with its code in the other case.
  function Planned(pooled: bool, n: Naming, k: nat): Request {
    if k == 0 then Request(pooled, Call.Initialize, Naming(n.code, None, None))
    else if k == 1 then Request(pooled, Initialized, n)
    else Request(pooled, Echo, if pooled then n.(code := Swapped(n.code)) else n)
  }

  ghost predicate AllPlanned(log: seq<Request>, from: nat, pooled: bool, n: Naming) {
    from <= |log| && forall k :: from <= k < |log| ==> log[k] == Planned(pooled, n, k - from)
  }

  // When the echo calls stop: one short of the pool on a stateful server, one past it on a stateless one.
  function Stop(n: Naming, calls: nat): int {
    if n.id.Some? then calls - 1 else calls + 1
  }

  // An answer that opens a session and names it.
  predicate Names(a: Answer) {
    Succeeds(a) && a.session.GoodSession?
  }

  // While a session spends the pool: what it sent since the log's first requests was as planned, and all fine.
  ghost predicate Spending(server: Server, log: seq<Request>, from: nat, pooled: bool, n: Naming, calls: nat,
                           before: nat) {
    && from + 2 <= |log| && AllPlanned(log, from, pooled, n) && AllFine(server, log, from, |log|)
    && (n.id.Some? <==> Names(server(log[..from + 1])))
    && (|log| - from == 2 || before + (|log| - from) <= Stop(n, calls))
  }

  // When it has stopped: every call but the last was fine, and the last says how it went. Without a refusal or a
  // failure, it spent the pool as far as planned.
  ghost predicate Spent(server: Server, log: seq<Request>, from: nat, pooled: bool, n: Naming, calls: nat, before: nat,
                        r: Result<Option<Answer>>) {
    && from < |log| && AllPlanned(log, from, pooled, n) && AllFine(server, log, from, |log| - 1)
    && (r.Ok? ==> (n.id.Some? <==> Names(server(log[..from + 1]))))
    && (|log| - from <= 2 || before + (|log| - from) <= Stop(n, calls))
    && (r.Error? <==> Fails(log[|log| - 1].call, server(log)))
    && (r.Ok? && r.value.Some? ==> r.value.value == server(log) && !Succeeds(server(log)))
    && (r.Ok? && r.value.None? ==> Fine(log[|log| - 1].call, server(log)) && before + (|log| - from) >= Stop(n, calls))
  }

  lemma Opens(server: Server, log: seq<Request>, pooled: bool, n: Naming, calls: nat, before: nat)
    requires !Fails(Call.Initialize, server(log + [Planned(pooled, n, 0)])) ==>
      (n.id.Some? <==> Names(server(log + [Planned(pooled, n, 0)])))
    ensures var (first, from) := (log + [Planned(pooled, n, 0)], |log|);
      var second := log + [Planned(pooled, n, 0), Planned(pooled, n, 1)];
      var (opening, notified) := (server(first), server(second));
      && (Fails(Call.Initialize, opening) ==> Spent(server, first, from, pooled, n, calls, before, Error))
      && (!Fails(Call.Initialize, opening) && !Succeeds(opening) ==>
            Spent(server, first, from, pooled, n, calls, before, Ok(Some(opening))))
      && (Fine(Call.Initialize, opening) ==>
            && (Fails(Initialized, notified) ==> Spent(server, second, from, pooled, n, calls, before, Error))
            && (!Fails(Initialized, notified) && !Succeeds(notified) ==>
                  Spent(server, second, from, pooled, n, calls, before, Ok(Some(notified))))
            && (Fine(Initialized, notified) ==> Spending(server, second, from, pooled, n, calls, before)))
  {
    hide Fails, Fine, Succeeds, Names;
    var (first, from) := (log + [Planned(pooled, n, 0)], |log|);
    var second := log + [Planned(pooled, n, 0), Planned(pooled, n, 1)];
    FineMeaning(Call.Initialize, server(first));
    FineMeaning(Initialized, server(second));
    assert first[..from + 1] == first && second[..from + 1] == first && second[..from + 2] == second;
  }

  lemma Echoes(server: Server, log: seq<Request>, from: nat, pooled: bool, n: Naming, calls: nat, before: nat)
    requires Spending(server, log, from, pooled, n, calls, before) && before + (|log| - from) < Stop(n, calls)
    ensures var next := log + [Planned(pooled, n, 2)];
      && (Fails(Echo, server(next)) ==> Spent(server, next, from, pooled, n, calls, before, Error))
      && (!Fails(Echo, server(next)) && !Succeeds(server(next)) ==>
            Spent(server, next, from, pooled, n, calls, before, Ok(Some(server(next)))))
      && (Fine(Echo, server(next)) ==> Spending(server, next, from, pooled, n, calls, before))
      && (pooled ==> EchoesSwapped(next, from, n.code))
  {
    hide Fails, Fine, Succeeds, Names, EchoesSwapped;
    var next := log + [Planned(pooled, n, 2)];
    assert next[..from + 1] == log[..from + 1] && next[..|log| + 1] == next;
    AllFineNext(server, log, from, Planned(pooled, n, 2));
    if pooled {
      PlannedSwapped(next, from, n);
    }
  }

  lemma Stops(server: Server, log: seq<Request>, from: nat, pooled: bool, n: Naming, calls: nat, before: nat)
    requires Spending(server, log, from, pooled, n, calls, before) && before + (|log| - from) >= Stop(n, calls)
    ensures Spent(server, log, from, pooled, n, calls, before, Ok(None))
    ensures pooled ==> EchoesSwapped(log, from, n.code)
  {
    hide EchoesSwapped;
    if pooled {
      PlannedSwapped(log, from, n);
    }
    assert log[..|log|] == log;
    assert Fine(log[|log| - 1].call, server(log[..|log|]));
  }

  lemma SuccessesNext(exchanges: seq<Answer>, a: Answer)
    ensures Successes(exchanges + [a]) == Successes(exchanges) + if Succeeds(a) then 1 else 0
  {
    assert (exchanges + [a])[..|exchanges|] == exchanges;
  }

  lemma TwoSuccesses(a: Answer, b: Answer)
    ensures Successes([]) == 0 && Successes([b]) == (if Succeeds(b) then 1 else 0)
    ensures Successes([a, b]) == (if Succeeds(a) then 1 else 0) + if Succeeds(b) then 1 else 0
  {
    SuccessesNext([], a);
    SuccessesNext([], b);
    SuccessesNext([a], b);
    assert [] + [a] == [a] && [] + [b] == [b] && [a] + [b] == [a, b];
  }

  // What a session names in its requests from the second on, having opened with this code.
  function NamingOf(session: Session, code: Option<string>): Naming
    reads session
  {
    Naming(code, ProtocolHeader(session.protocol), session.sessionId)
  }

  // Opens the session that is to spend the pool.
  method OpenPool(session: Session, code: Option<string>, calls: nat, before: nat) returns (r: Result<Answer>)
    requires session.sessionId.None? && session.protocol.None? && session.exchanges == [] && session.deadline.None?
    requires session.pooled
    modifies session, session.client
    ensures session.costCenter == code && session.closedBy == old(session.closedBy)
    ensures var (client, from, n) := (session.client, |old(session.client.log)|, NamingOf(session, code));
      && from < |client.log| && client.log[..from] == old(client.log) && EchoesSwapped(client.log, from, code)
      && (r.Error? ==> Spent(client.server, client.log, from, true, n, calls, before, Error))
      && (r.Ok? && !Succeeds(r.value) ==>
        Spent(client.server, client.log, from, true, n, calls, before, Ok(Some(r.value))))
      && (r.Ok? && Succeeds(r.value) ==>
        |client.log| == from + 2 && Spending(client.server, client.log, from, true, n, calls, before))
      && (r.Ok? ==>
            && Successes(session.exchanges) == (if Succeeds(r.value) then |client.log| - from
                                                else |client.log| - from - 1)
            && (session.protocol.Some? <==> |client.log| - from >= 2)
              && (session.protocol.None? ==> session.sessionId.None?))
  {
    hide Fails, Fine, Received, Successes, Spending, Spent;
    var client := session.client;
    session.costCenter := code;
    r := session.Initialize();
    FineMeaning(Call.Initialize, client.server(old(client.log) + [Planned(true, NamingOf(session, code), 0)]));
    Opens(client.server, old(client.log), true, NamingOf(session, code), calls, before);
    if r.Ok? {
      assert [] + [r.value] == [r.value];
      assert session.exchanges == if session.protocol.Some? then [session.exchanges[0], r.value] else [r.value];
      TwoSuccesses(session.exchanges[0], r.value);
      FineMeaning(Initialized, r.value);
    }
  }

  // Opens the session and echoes, until a call is refused or the pool is as spent as planned; before calls went
  // through already.
  method SpendPool(session: Session, code: Option<string>, calls: nat, before: nat) returns (r: Result<Option<Answer>>)
    requires session.sessionId.None? && session.protocol.None? && session.exchanges == [] && session.deadline.None?
    requires session.pooled
    modifies session, session.client
    ensures var (client, from) := (session.client, |old(session.client.log)|);
      && Spent(client.server, client.log, from, true, NamingOf(session, code), calls, before, r)
      && client.log[..from] == old(client.log) && session.closedBy == old(session.closedBy)
      && session.costCenter in {code, Swapped(code)}
      && EchoesSwapped(client.log, from, code)
      && (r.Ok? ==>
            && Successes(session.exchanges) == (if r.value.None? then |client.log| - from else |client.log| - from - 1)
            && (session.protocol.Some? <==> |client.log| - from >= 2)
              && (session.protocol.None? ==> session.sessionId.None?))
  {
    hide Fails, Fine, Received, Successes, Spending, Spent, EchoesSwapped;
    var client, from := session.client, |session.client.log|;
    var begun := OpenPool(session, code, calls, before);
    if begun.Error? {
      return Error;
    }
    if !Succeeds(begun.value) {
      return Ok(Some(begun.value));
    }
    session.costCenter := Swapped(code);
    var last := if session.sessionId.Some? then calls - 1 else calls + 1;
    while before + Successes(session.exchanges) < last
      invariant from + 2 <= |client.log| && client.log[..from] == old(client.log) && session.protocol.Some?
      invariant session.closedBy == old(session.closedBy) && last == Stop(NamingOf(session, code), calls)
      invariant session.costCenter == Swapped(code)
      invariant Spending(client.server, client.log, from, true, NamingOf(session, code), calls, before)
      invariant Successes(session.exchanges) == |client.log| - from
    {
      Echoes(client.server, client.log, from, true, NamingOf(session, code), calls, before);
      var echoed := session.Send(Echo);
      EchoOutcome(client.server(client.log));
      if echoed.Error? {
        return Error;
      }
      SuccessesNext(session.exchanges[..|session.exchanges| - 1], echoed.value);
      if !Succeeds(echoed.value) {
        return Ok(Some(echoed.value));
      }
      if !echoed.value.acceptable {
        return Error;
      }
    }
    Stops(client.server, client.log, from, true, NamingOf(session, code), calls, before);
    return Ok(None);
  }

  // ---- The whole run ----

  // A probe counts as let through, or as refused by the quota; any other answer ends the run.
  function ProbeThrough(a: Answer): Result<bool> {
    if Received(Ping, a).Error? then Error
    else if LetThrough(Ping, a) then Ok(true)
    else if RefusedBy(a) == Quota then Ok(false)
    else Error
  }

  // A probe names the pool's cost center and, once a session negotiated one, its version; but no session.
  function Probe(code: string, protocol: Option<string>): Request {
    Request(true, Ping, Naming(Some(code), ProtocolHeader(protocol), None))
  }

  method PoolProbe(client: Client, code: string, protocol: Option<string>) returns (r: Result<bool>)
    modifies client
    ensures client.log == old(client.log) + [Probe(code, protocol)] && r == ProbeThrough(client.server(client.log))
  {
    var session := new Session(client, true, Some(code), protocol, None);
    var probed := session.Send(Ping);
    if probed.Error? {
      return Error;
    }
    if LetThrough(Ping, probed.value) {
      return Ok(true);
    }
    if RefusedBy(probed.value) == Quota {
      return Ok(false);
    }
    return Error;
  }

  // The other grant still opens a session and echoes, and its session, if it has one, ends.
  ghost predicate ControlWorks(server: Server, log: seq<Request>, from: nat) {
    && from + 3 <= |log| && Fine(Call.Initialize, server(log[..from + 1])) && Fine(Initialized, server(log[..from + 2]))
    && Fine(Echo, server(log[..from + 3]))
    && log[from].call.Initialize? && log[from + 1].call.Initialized? && log[from + 2].call.Echo?
    && (if Names(server(log[..from + 1])) then |log| > from + 3 && log[|log| - 1].call.Delete? && Closes(server(log))
        else |log| == from + 3)
  }

  // A call of the control that went as it should.
  predicate GoesOn(call: Call, a: Answer) {
    if call.Delete? then Closes(a) else Fine(call, a)
  }

  // What the control's session sends, until a call of it goes wrong.
  ghost predicate ControlSends(server: Server, before: seq<Request>, log: seq<Request>, n: Naming, works: bool) {
    var first := before + [Planned(false, n, 0)];
    var second := first + [Planned(false, n, 1)];
    var third := second + [Planned(false, n, 2)];
    if !Fine(Call.Initialize, server(first)) then log == first && !works
    else if !Fine(Initialized, server(second)) then log == second && !works
    else log == third && (works <==> Fine(Echo, server(third))) && (n.id.Some? <==> Names(server(first)))
  }

  method UseControl(control: Session, other: string) returns (works: bool)
    requires control.sessionId.None? && control.protocol.None? && control.deadline.None? && !control.pooled
    requires control.costCenter == Some(other)
    modifies control, control.client
    ensures control.costCenter == Some(other)
    ensures ControlSends(control.client.server, old(control.client.log), control.client.log,
                         NamingOf(control, Some(other)), works)
  {
    hide Fails, Received, Successes;
    var begun := control.Initialize();
    ghost var log := control.client.log;
    ghost var n := NamingOf(control, Some(other));
    ghost var (init, next) := (Planned(false, n, 0), Planned(false, n, 1));
    assert old(control.client.log) + [init, next] == old(control.client.log) + [init] + [next];
    FineMeaning(Call.Initialize, control.client.server(old(control.client.log) + [init]));
    FineMeaning(Initialized, control.client.server(log));
    works := begun.Ok? && Succeeds(begun.value);
    if works {
      EchoOutcome(control.client.server(log + [Planned(false, n, 2)]));
      var echoed := control.Send(Echo);
      works := echoed.Ok? && Succeeds(echoed.value) && echoed.value.acceptable;
    }
  }

  lemma ControlMeaning(server: Server, before: seq<Request>, log: seq<Request>, n: Naming, works: bool,
                       deletes: seq<Request>)
    requires ControlSends(server, before, log, n, works)
    requires deletes != [] ==> deletes[|deletes| - 1].call.Delete?
    ensures before < log && !log[|log| - 1].call.Ping?
    ensures forall k :: |before| <= k < |log| ==> !log[k].pooled && !log[k].call.Ping? && log[k].naming.code == n.code
    ensures !works ==> !GoesOn(log[|log| - 1].call, server(log))
    ensures works && (if n.id.Some? then deletes != [] && Closes(server(log + deletes)) else deletes == []) ==>
      ControlWorks(server, log + deletes, |before|)
  {
    hide Fine, Names, Closes;
    var all := log + deletes;
    assert all[..|before| + 1] == log[..|before| + 1] == before + [Planned(false, n, 0)];
    if works {
      assert all[..|before| + 2] == before + [Planned(false, n, 0)] + [Planned(false, n, 1)];
      assert all[..|before| + 3] == log;
    }
  }

  // The bad requests are those up to the one that went wrong.
  method CheckControl(client: Client, other: string) returns (ok: bool, ghost bad: seq<Request>)
    modifies client
    ensures old(client.log) <= client.log
    ensures forall k :: |old(client.log)| <= k < |client.log| ==>
      !client.log[k].pooled && !client.log[k].call.Ping? && client.log[k].naming.code == Some(other)
    ensures ok ==> ControlWorks(client.server, client.log, |old(client.log)|)
    ensures !ok ==> |old(client.log)| < |bad| && bad <= client.log && !GoesOn(bad[|bad| - 1].call, client.server(bad))
  {
    hide ControlSends, ControlWorks, Closes, Retries;
    var control := new Session(client, false, Some(other), None, None);
    var works := UseControl(control, other);
    ghost var (log, n) := (client.log, NamingOf(control, Some(other)));
    var closed := control.Close();
    ControlMeaning(client.server, old(client.log), log, n, works, client.log[|log|..]);
    assert log + client.log[|log|..] == client.log;
    bad := if works then client.log else log;
    assert !closed ==> !GoesOn(client.log[|client.log| - 1].call, client.server(client.log));
    ok := works && closed;
  }

  // Request k was under the pool, and no quota refused it.
  ghost predicate Admitted(server: Server, log: seq<Request>, k: nat)
    requires k < |log|
  {
    log[k].pooled && RefusedBy(server(log[..k + 1])) != Quota
  }

  // What the pooled requests so far show: how many were let through, and that no quota refused any.
  ghost predicate Counted(server: Server, log: seq<Request>, through: nat) {
    && Through(server, log, |log|) == through
    && (forall k :: 0 <= k < |log| ==> Admitted(server, log, k))
  }

  lemma CountedNext(server: Server, log: seq<Request>, through: nat, request: Request)
    requires Counted(server, log, through) && request.pooled && RefusedBy(server(log + [request])) != Quota
    ensures Counted(server, log + [request],
                    through + if LetThrough(request.call, server(log + [request])) then 1 else 0)
  {
    hide RefusedBy, LetThrough, Through;
    var next := log + [request];
    ThroughNext(server, log, request);
    forall k | 0 <= k < |next| ensures Admitted(server, next, k) {
      if k < |log| {
        assert Admitted(server, log, k) && next[..k + 1] == log[..k + 1];
      } else {
        assert next[..k + 1] == next;
      }
    }
  }

  // The log ends with a refusal by the quota, the first there is, after so many calls let through.
  ghost predicate Exhausted(server: Server, log: seq<Request>, through: nat) {
    && |log| > 0 && log[|log| - 1].pooled && RefusedBy(server(log)) == Quota
      && Counted(server, log[..|log| - 1], through)
  }

  // Request d is the session's DELETE, and the calls-th request let through.
  ghost predicate Deleted(server: Server, log: seq<Request>, d: nat, calls: nat) {
    d < |log| && log[d].call.Delete? && LetThrough(Delete, server(log[..d + 1])) && Through(server, log, d + 1) == calls
  }

  lemma DeletedNext(server: Server, log: seq<Request>, d: nat, calls: nat, request: Request)
    requires Deleted(server, log, d, calls)
    ensures Deleted(server, log + [request], d, calls)
  {
    ThroughExtends(server, log, [request], d + 1);
    assert (log + [request])[..d + 1] == log[..d + 1];
  }

  lemma {:induction false} FineCounts(server: Server, log: seq<Request>, from: nat, hi: nat, before: nat)
    requires from <= hi <= |log| && AllFine(server, log, from, hi) && Counted(server, log[..from], before)
    requires forall k :: from <= k < hi ==> log[k].pooled
    ensures Counted(server, log[..hi], before + hi - from)
  {
    if from == hi {
    } else {
      FineCounts(server, log, from, hi - 1, before);
      assert log[..hi] == log[..hi - 1] + [log[hi - 1]];
      CountedNext(server, log[..hi - 1], before + hi - 1 - from, log[hi - 1]);
    }
  }

  // Requests k - 1 and k are both DELETE.
  predicate TwoDeletes(log: seq<Request>, k: nat) {
    0 < k < |log| && log[k].call.Delete? && log[k - 1].call.Delete?
  }

  // A log of pooled requests is no longer than the run allows: at most three past the pool, and a second DELETE.
  ghost predicate Bounded(log: seq<Request>, calls: nat) {
    |log| <= calls + 3 || (|log| == calls + 4 && exists k: nat :: TwoDeletes(log, k))
  }

  lemma BoundedMeaning(log: seq<Request>, calls: nat)
    ensures Bounded(log, calls) <==>
      |log| < calls + 4
      || (|log| == calls + 4 && exists i, j :: 0 <= i < j < |log| && j == i + 1
                                               && log[i].call == Delete && log[j].call == Delete)
  {
    if k: nat :| TwoDeletes(log, k) {
      assert log[k - 1].call == Delete && log[k].call == Delete;
    }
    if i, j :| 0 <= i < j < |log| && j == i + 1 && log[i].call == Delete && log[j].call == Delete {
      assert TwoDeletes(log, j);
    }
  }

  // The second request opened the session, and more came after it.
  ghost predicate Opened(server: Server, log: seq<Request>) {
    2 < |log| && log[1].call.Initialize? && Fine(Call.Initialize, server(log[..2]))
  }

  // What a pass shows about the pooled requests: the quota refused the last, and none before. On a stateful server,
  // DELETE was the last call of the pool, and at most two more got through; on a stateless one, which is known to be
  // one since its session opened, no more than the pool.
  ghost predicate Proves(server: Server, log: seq<Request>, calls: nat, stateful: bool, through: nat) {
    && Exhausted(server, log, through)
    && if stateful then calls <= through <= calls + POOL_OVERSHOOT_PROBES && exists d :: Deleted(server, log, d, calls)
       else Opened(server, log) && 2 <= through <= calls && forall k :: 0 <= k < |log| ==> !log[k].call.Delete?
  }

  lemma AfterSpending(server: Server, log: seq<Request>, n: Naming, calls: nat, r: Result<Option<Answer>>)
    requires POOL_CALL_FLOOR <= calls && Spent(server, log, 1, true, n, calls, 1, r) && Counted(server, log[..1], 1)
    ensures |log| <= Stop(n, calls)
    ensures forall k :: 1 <= k < |log| ==>
      log[k].pooled && !log[k].call.Delete? && !log[k].call.Ping? && log[k].naming.code in {n.code, Swapped(n.code)}
    ensures |log| > 2 ==> Opened(server, log)
    ensures r.Ok? && r.value.None? ==> |log| == Stop(n, calls) && Counted(server, log, |log|)
    ensures r.Ok? && r.value.Some? && RefusedBy(r.value.value) == Quota ==> Exhausted(server, log, |log| - 1)
  {
    hide Counted, Fails;
    FineCounts(server, log, 1, |log| - 1, 1);
    if r.Ok? && r.value.None? {
      assert log[..|log| - 1] + [log[|log| - 1]] == log;
      CountedNext(server, log[..|log| - 1], |log| - 1, log[|log| - 1]);
    }
  }

  lemma ExactSpending(server: Server, log: seq<Request>, n: Naming, calls: nat, r: Result<Option<Answer>>,
                      stateful: bool)
    requires POOL_CALL_FLOOR <= calls && Spent(server, log, 1, true, n, calls, 1, r) && Counted(server, log[..1], 1)
    requires ExactCounter(server, calls, stateful)
    ensures r.Ok? && (n.id.Some? <==> stateful) && (r.value.Some? <==> !stateful) && |log| > 3
    ensures r.value.Some? ==> RefusedBy(r.value.value) == Quota
  {
    hide Counted, ExactCounter, AllFine, PooledCount;
    AfterSpending(server, log, n, calls, r);
    ThroughOf(server, log[..1], 1);
    assert log[0] == log[..1][0];
    ExactAnswer(server, calls, stateful, log, 1);
    ExactAnswer(server, calls, stateful, log, |log| - 1);
    assert log[..|log|] == log;
  }

  // One DELETE that is let through, or a second one that is, once a rate limit refused the first.
  lemma AfterDeleting(server: Server, log: seq<Request>, request: Request)
    requires Counted(server, log, |log|) && request.pooled && request.call.Delete?
    ensures var (first, second) := (log + [request], log + [request, request]);
      && (LetThrough(Delete, server(first)) ==>
            Counted(server, first, |log| + 1) && Deleted(server, first, |log|, |log| + 1))
      && (Retries(server(first)) && LetThrough(Delete, server(second)) ==>
            Counted(server, second, |log| + 1) && Deleted(server, second, |log| + 1, |log| + 1))
  {
    hide Counted, Through;
    var (first, second) := (log + [request], log + [request, request]);
    assert first + [request] == second && first[..|first|] == first && second[..|second|] == second;
    if LetThrough(Delete, server(first)) {
      CountedNext(server, log, |log|, request);
      ThroughOf(server, first, |log| + 1);
    }
    if Retries(server(first)) && LetThrough(Delete, server(second)) {
      CountedNext(server, log, |log|, request);
      CountedNext(server, first, |log|, request);
      ThroughOf(server, second, |log| + 1);
    }
  }

  lemma ExactDeleting(server: Server, log: seq<Request>, request: Request, calls: nat)
    requires ExactCounter(server, calls, true) && |log| == calls - 1 && request.pooled && request.call.Delete?
    requires forall k :: 0 <= k < |log| ==> log[k].pooled
    ensures Closes(server(log + [request])) && !Retries(server(log + [request]))
  {
    hide ExactCounter;
    ExactAnswer(server, calls, true, log + [request], |log|);
    assert (log + [request])[..|log| + 1] == log + [request];
  }

  // A request under the pool names its cost center, in one case or the other; a request of the control, the other one.
  predicate Coded(request: Request, code: string, other: string) {
    request.naming.code in if request.pooled then {Some(code), Some(SwapCase(code))} else {Some(other)}
  }

  lemma ThroughOf(server: Server, log: seq<Request>, through: nat)
    requires Counted(server, log, through)
    ensures Through(server, log, |log|) == through && forall k :: 0 <= k < |log| ==> log[k].pooled
  {
    forall k | 0 <= k < |log| ensures log[k].pooled {
      assert Admitted(server, log, k);
    }
  }

  // The session's part of the run: it spends the pool and closes the session. It succeeds when the pool allowed every
  // call planned, and returns the refusal of a stateless server's pool.
  method UseSession(client: Client, code: string, calls: nat)
    returns (ok: bool, stateful: bool, refused: bool, protocol: Option<string>)
    requires POOL_CALL_FLOOR <= calls && |client.log| == 1 && Counted(client.server, client.log, 1)
    requires !client.log[0].call.Delete? && Coded(client.log[0], code, code)
    modifies client
    ensures Bounded(client.log, calls)
    ensures forall k :: 0 <= k < |client.log| ==> client.log[k].pooled && Coded(client.log[k], code, code)
    ensures ok && stateful ==>
      !refused && Counted(client.server, client.log, calls)
        && Deleted(client.server, client.log, |client.log| - 1, calls)
      && (|client.log| == calls || (|client.log| == calls + 1 && TwoDeletes(client.log, calls)))
    ensures ok && !stateful ==>
      Opened(client.server, client.log) && |client.log| <= calls + 1 && !client.log[|client.log| - 1].call.Ping?
      && forall k :: 0 <= k < |client.log| ==> !client.log[k].call.Delete?
    ensures ok && !stateful ==>
      if refused then Exhausted(client.server, client.log, |client.log| - 1)
      else Counted(client.server, client.log, calls + 1)
    ensures forall st: bool :: ExactCounter(client.server, calls, st) ==> ok && stateful == st && refused == !st
  {
    hide Counted, Spent, Exhausted, Deleted, LetThrough, RefusedBy, Through, ExactCounter, Retries, Received, SwapCase;
    ThroughOf(client.server, client.log, 1);
    assert client.log[..1] == client.log;
    var session := new Session(client, true, None, None, None);
    var spent := SpendPool(session, Some(code), calls, 1);
    ok, stateful, refused, protocol := false, false, false, session.protocol;
    ghost var (log, n) := (client.log, NamingOf(session, Some(code)));
    ghost var request := Request(true, Delete, session.Named(Delete));
    AfterSpending(client.server, log, n, calls, spent);
    if spent.Ok? && !spent.value.Some? {
      AfterDeleting(client.server, log, request);
    }
    forall st | ExactCounter(client.server, calls, st)
      ensures spent.Ok? && session.sessionId.Some? == st && spent.value.Some? == !st && |log| > 3
      ensures spent.value.Some? ==> RefusedBy(spent.value.value) == Quota
      ensures st ==> Closes(client.server(log + [request])) && !Retries(client.server(log + [request]))
    {
      ExactSpending(client.server, log, n, calls, spent, st);
      if st {
        ExactDeleting(client.server, log, request, calls);
      }
    }
    if spent.Ok? {
      stateful := session.sessionId.Some?;
      refused := spent.value.Some?;
      ok := !refused || (RefusedBy(spent.value.value) == Quota && !stateful && protocol.Some?);
    }
    var closed := session.Close();
    if stateful {
      assert client.log == if Retries(client.server(log + [request])) then log + [request, request]
                           else log + [request];
    }
    ok := ok && closed;
  }

  // The probes after the session: at most one, and two more for counters that are distributed, until the pool refuses.
  method ProbePool(client: Client, code: string, protocol: Option<string>, calls: nat, ghost d: nat)
    returns (refused: bool, through: nat)
    requires Counted(client.server, client.log, calls) && Deleted(client.server, client.log, d, calls)
    modifies client
    ensures |old(client.log)| < |client.log| <= |old(client.log)| + 3
    ensures old(client.log) <= client.log
    ensures forall k :: |old(client.log)| <= k < |client.log| ==> client.log[k] == Probe(code, protocol)
    ensures refused ==> calls <= through <= calls + POOL_OVERSHOOT_PROBES
    ensures refused ==> Exhausted(client.server, client.log, through) && Deleted(client.server, client.log, d, calls)
    ensures forall k :: |old(client.log)| < k < |client.log| ==>
      ProbeThrough(client.server(client.log[..k])) == Ok(true)
    ensures match ProbeThrough(client.server(client.log))
      case Ok(through) => refused == !through && (through ==> |client.log| == |old(client.log)| + 3)
      case Error => !refused
    ensures RefusedBy(client.server(old(client.log) + [Probe(code, protocol)])) == Quota ==> refused && through == calls
  {
    hide Counted, Deleted, LetThrough, RefusedBy, Received;
    var ping := Probe(code, protocol);
    refused, through := false, calls;
    for i := 0 to 1 + POOL_OVERSHOOT_PROBES
      invariant through == calls + i && old(client.log) <= client.log && |client.log| == |old(client.log)| + i
      invariant forall k :: |old(client.log)| <= k < |client.log| ==> client.log[k] == ping
      invariant Counted(client.server, client.log, through) && Deleted(client.server, client.log, d, calls)
      invariant forall k :: |old(client.log)| < k <= |client.log| ==>
        ProbeThrough(client.server(client.log[..k])) == Ok(true)
      invariant i > 0 ==> RefusedBy(client.server(old(client.log) + [ping])) != Quota
    {
      ProbeMeaning(client.server(client.log + [ping]));
      DeletedNext(client.server, client.log, d, calls, ping);
      ghost var log := client.log;
      assert i == 0 ==> log == old(client.log);
      assert forall k :: 0 <= k <= |log| ==> (log + [ping])[..k] == log[..k];
      var probed := PoolProbe(client, code, protocol);
      assert client.log[..|client.log|] == client.log;
      if probed.Error? {
        return;
      }
      if !probed.value {
        ExhaustedNext(client.server, log, through, ping);
        refused := true;
        return;
      }
      CountedNext(client.server, log, through, ping);
      through := through + 1;
    }
    assert client.log[..|client.log|] == client.log;
  }

  lemma ProbeMeaning(a: Answer)
    ensures ProbeThrough(a) == Ok(true) ==> LetThrough(Ping, a) && RefusedBy(a) != Quota
    ensures ProbeThrough(a) == Ok(false) <==> RefusedBy(a) == Quota
  {
  }

  lemma ExhaustedNext(server: Server, log: seq<Request>, through: nat, request: Request)
    requires Counted(server, log, through) && request.pooled && RefusedBy(server(log + [request])) == Quota
    ensures Exhausted(server, log + [request], through)
  {
    assert (log + [request])[..|log|] == log;
  }

  lemma WrongIsNotExact(server: Server, size: nat, log: seq<Request>)
    requires |log| > 0 && !log[|log| - 1].pooled && !log[|log| - 1].call.Ping?
      && !GoesOn(log[|log| - 1].call, server(log))
    ensures forall st: bool :: !ExactCounter(server, size, st)
  {
  }

  // Requests under the pool come first; the rest are the control's.
  predicate Split(log: seq<Request>, pooled: nat) {
    pooled <= |log| && (forall k :: 0 <= k < pooled ==> log[k].pooled)
      && (forall k :: pooled <= k < |log| ==> !log[k].pooled)
  }

  lemma BoundedAfter(before: seq<Request>, log: seq<Request>, calls: nat)
    requires before <= log && |log| <= |before| + 3
      && (|before| == calls || (|before| == calls + 1 && TwoDeletes(before, calls)))
    ensures Bounded(log, calls)
  {
    if |before| == calls + 1 {
      assert TwoDeletes(log, calls);
    }
  }

  lemma ExactProbe(server: Server, calls: nat, log: seq<Request>, request: Request)
    requires |log| >= calls && request.pooled && forall k :: 0 <= k < |log| ==> log[k].pooled
    ensures forall st: bool :: ExactCounter(server, calls, st) ==> RefusedBy(server(log + [request])) == Quota
  {
    hide ExactCounter;
    forall st: bool | ExactCounter(server, calls, st) ensures RefusedBy(server(log + [request])) == Quota {
      var next := log + [request];
      ExactAnswer(server, calls, st, next, |log|);
      assert next[..|log| + 1] == next;
    }
  }

  lemma ExactRefusal(server: Server, calls: nat, log: seq<Request>)
    requires 0 < |log| <= calls + 1 && Exhausted(server, log, |log| - 1) && forall k :: 0 <= k < |log| ==> log[k].pooled
    requires !log[|log| - 1].call.Ping?
    ensures forall st: bool :: ExactCounter(server, calls, st) ==> |log| - 1 == calls
  {
    hide ExactCounter, Counted;
    forall st: bool | ExactCounter(server, calls, st) ensures |log| - 1 == calls {
      ExactAnswer(server, calls, st, log, |log| - 1);
      assert log[..|log|] == log;
    }
  }

  // The run, against any gateway and server, with a pool of so many calls. A pass means that the pool refused exactly
  // when it should have, and the other cost center's grant still worked; however it ends, the requests are bounded, and
  // each names the cost center it is to be counted for. Against an exact counter and a working server, it passes with
  // every call of the pool let through. No session here has a deadline, so what a clock says does not matter.
  method ProvePooledQuota(server: Server, clock: nat -> int, code: string, other: string, calls: nat)
    returns (passed: bool, stateful: bool, through: nat, log: seq<Request>, pooled: nat)
    requires calls >= 5
    ensures Split(log, pooled) && Bounded(log[..pooled], calls)
    ensures forall k :: 0 <= k < |log| ==> Coded(log[k], code, other)
    ensures passed ==> Proves(server, log[..pooled], calls, stateful, through) && ControlWorks(server, log, pooled)
    ensures |log| > pooled ==> Proves(server, log[..pooled], calls, stateful, through)
    ensures forall st: bool :: ExactCounter(server, calls, st) ==> passed && stateful == st && through == calls
  {
    hide ExactCounter, Counted, Deleted, Exhausted, ControlWorks, LetThrough, Received, RefusedBy, Works, SwapCase;
    var client := new Client(server, clock);
    passed, stateful, through := false, false, 0;
    Unasked(server, code, calls);
    var first := PoolProbe(client, code, None);
    log, pooled := client.log, |client.log|;
    assert log == [Probe(code, None)] && log[..pooled] == log;
    if first != Ok(true) {
      return;
    }
    ProbeMeaning(server(log));
    CountedNext(server, [], 0, Probe(code, None));
    var ok, refused, protocol;
    ok, stateful, refused, protocol := UseSession(client, code, calls);
    log, pooled := client.log, |client.log|;
    assert log[..pooled] == log && forall k :: 0 <= k < |log| ==> Coded(log[k], code, code);
    if !ok {
      return;
    }
    if stateful {
      ExactProbe(server, calls, log, Probe(code, protocol));
      refused, through := ProbePool(client, code, protocol, calls, |log| - 1);
      BoundedAfter(log, client.log, calls);
    } else {
      through := |log| - 1;
      if refused {
        ExactRefusal(server, calls, log);
      }
    }
    log, pooled := client.log, |client.log|;
    assert log[..pooled] == log;
    if !refused {
      return;
    }
    ghost var bad;
    passed, bad := CheckControl(client, other);
    if !passed {
      assert bad[|bad| - 1] == client.log[|bad| - 1];
      WrongIsNotExact(server, calls, bad);
    }
    assert client.log[..pooled] == log;
    log := client.log;
  }

  lemma Unasked(server: Server, code: string, calls: nat)
    ensures Counted(server, [], 0)
    ensures forall st: bool :: ExactCounter(server, calls, st) && calls > 0 ==>
      ProbeThrough(server([Probe(code, None)])) == Ok(true)
  {
    forall st: bool | ExactCounter(server, calls, st) && calls > 0
      ensures ProbeThrough(server([Probe(code, None)])) == Ok(true)
    {
      ExactAnswer(server, calls, st, [Probe(code, None)], 0);
    }
  }
}
