// The proof that two callers of one cost center draw on one pool of tokens.
module PooledTokens {
  import opened Wrappers
  import opened ModelSpend

  datatype Grant = Grant(id: string, tokenQuota: Option<int>)

  // A call made under a grant, and the statuses it expects.
  datatype Call = Call(id: string, expected: Expected)

  // What each call of a run comes back with, by its place and what it asks: an observation, or an error.
  type Replies = (nat, Call) -> Result<Observation>

  function PoolCall(first: Grant, second: Grant, k: nat): Call {
    Call(if k % 2 == 0 then first.id else second.id, Pool)
  }

  function PoolCalls(first: Grant, second: Grant, n: nat): (calls: seq<Call>)
    ensures |calls| == n && forall k :: 0 <= k < n ==> calls[k] == PoolCall(first, second, k)
  {
    seq(n, k requires 0 <= k => PoolCall(first, second, k))
  }

  lemma PoolCallsNext(first: Grant, second: Grant, n: nat)
    ensures PoolCalls(first, second, 0) == []
    ensures PoolCalls(first, second, n + 1) == PoolCalls(first, second, n) + [PoolCall(first, second, n)]
  {
  }

  function Used(entry: Observation): nat {
    if entry.promptTokens.Some? && entry.completionTokens.Some? then
      entry.promptTokens.value + entry.completionTokens.value
    else 0
  }

  // What the first k entries used together, and what those of one parity used: the callers alternate.
  function PoolUsed(entries: seq<Observation>, k: nat): nat
    requires k <= |entries|
  {
    if k == 0 then 0 else PoolUsed(entries, k - 1) + Used(entries[k - 1])
  }

  function OwnUsed(entries: seq<Observation>, k: nat, parity: nat): nat
    requires k <= |entries|
  {
    if k == 0 then 0 else OwnUsed(entries, k - 1, parity) + if (k - 1) % 2 == parity then Used(entries[k - 1]) else 0
  }

  lemma {:induction false} OwnUsesSum(entries: seq<Observation>, k: nat)
    requires k <= |entries|
    ensures OwnUsed(entries, k, 0) + OwnUsed(entries, k, 1) == PoolUsed(entries, k)
  {
    if k == 0 {
    } else {
      OwnUsesSum(entries, k - 1);
    }
  }

  lemma {:induction false} UsesExtend(entries: seq<Observation>, more: seq<Observation>, k: nat, parity: nat)
    requires k <= |entries|
    ensures PoolUsed(entries + more, k) == PoolUsed(entries, k)
    ensures OwnUsed(entries + more, k, parity) == OwnUsed(entries, k, parity)
  {
    if k == 0 {
    } else {
      UsesExtend(entries, more, k - 1, parity);
    }
  }

  lemma UsedNext(entries: seq<Observation>, entry: Observation, parity: nat)
    ensures PoolUsed(entries + [entry], |entries| + 1) == PoolUsed(entries, |entries|) + Used(entry)
    ensures OwnUsed(entries + [entry], |entries| + 1, parity)
         == OwnUsed(entries, |entries|, parity) + if |entries| % 2 == parity then Used(entry) else 0
  {
    UsesExtend(entries, [entry], |entries|, parity);
  }

  lemma {:induction false} OwnUsedGrows(entries: seq<Observation>, k: nat, n: nat, parity: nat)
    requires k <= n <= |entries|
    ensures OwnUsed(entries, k, parity) <= OwnUsed(entries, n, parity)
  {
    if k == n {
    } else {
      OwnUsedGrows(entries, k, n - 1, parity);
    }
  }

  // Entry k shows the shared counter and the caller's own: the pool fell by everything used so far, the caller's
  // own quota only by what that caller used.
  predicate ShowsCounters(entries: seq<Observation>, k: nat, monthly: nat, first: Grant, second: Grant)
    requires k < |entries|
  {
    var quota := if k % 2 == 0 then first.tokenQuota else second.tokenQuota;
    && quota.Some? && entries[k].promptTokens.Some? && entries[k].promptTokens.value > 0
      && entries[k].completionTokens.Some?
    && entries[k].poolRemaining.Some? && entries[k].poolRemaining.value == monthly - PoolUsed(entries, k + 1)
    && entries[k].ownQuotaRemaining.Some?
      && entries[k].ownQuotaRemaining.value == quota.value - OwnUsed(entries, k + 1, k % 2)
    && entries[k].ownRemaining.Some? && entries[k].ownRemaining.value > 0
  }

  // A refusal that the pool made: it has less left than a prompt may take, and the caller's own counters have not.
  predicate ShowsExhaustion(entry: Observation) {
    entry.poolRemaining.Some? && entry.poolRemaining.value < PROMPT_RESERVATION
    && entry.ownRemaining.Some? && entry.ownRemaining.value >= PROMPT_RESERVATION
    && entry.ownQuotaRemaining.Some? && entry.ownQuotaRemaining.value >= PROMPT_RESERVATION
  }

  // The pool has fewer than 160 tokens left; and the caller has 160 or more, both for the minute and of its quota.
  lemma ExhaustionMeaning(entry: Observation)
    ensures ShowsExhaustion(entry) <==>
      exists pool, own, quota :: pool < 160 && own >= 160 && quota >= 160
        && entry.poolRemaining == Some(pool) && entry.ownRemaining == Some(own)
        && entry.ownQuotaRemaining == Some(quota)
  {
    if ShowsExhaustion(entry) {
      assert entry.poolRemaining == Some(entry.poolRemaining.value);
    }
  }

  lemma {:induction false} ShowsCountersExtend(entries: seq<Observation>, entry: Observation, k: nat, monthly: nat,
                                               first: Grant, second: Grant)
    requires k < |entries|
    ensures ShowsCounters(entries + [entry], k, monthly, first, second)
      == ShowsCounters(entries, k, monthly, first, second)
  {
    UsesExtend(entries, [entry], k + 1, k % 2);
  }

  // What the map of own uses holds after k successes of callers with different IDs, who used a and b.
  function OwnUses(k: nat, a: nat, b: nat, first: string, second: string): map<string, int> {
    if k == 0 then map[] else if k == 1 then map[first := a] else map[first := a, second := b]
  }

  lemma OwnUsesPut(k: nat, a: nat, b: nat, first: string, second: string, used: nat)
    requires first != second && (k == 0 ==> a == 0) && (k <= 1 ==> b == 0)
    ensures var id := if k % 2 == 0 then first else second;
      var m := OwnUses(k, a, b, first, second);
      var own := (if id in m then m[id] else 0) + used;
      && own == (if k % 2 == 0 then a + used else b + used)
      && m[id := own] == if k % 2 == 0 then OwnUses(k + 1, own, b, first, second)
                         else OwnUses(k + 1, a, own, first, second)
  {
  }

  predicate OwnUsesFit(ownUsed: map<string, int>, entries: seq<Observation>, first: Grant, second: Grant) {
    var k := |entries|;
    && ownUsed == OwnUses(k, OwnUsed(entries, k, 0), OwnUsed(entries, k, 1), first.id, second.id)
    && (k <= 1 ==> OwnUsed(entries, k, 1) == 0)
  }

  lemma OwnUsesOf(ownUsed: map<string, int>, entries: seq<Observation>, first: Grant, second: Grant)
    returns (a: nat, b: nat)
    requires OwnUsesFit(ownUsed, entries, first, second)
    ensures a == OwnUsed(entries, |entries|, 0) && b == OwnUsed(entries, |entries|, 1)
    ensures ownUsed == OwnUses(|entries|, a, b, first.id, second.id) && (|entries| == 0 ==> a == 0)
      && (|entries| <= 1 ==> b == 0)
  {
    a, b := OwnUsed(entries, |entries|, 0), OwnUsed(entries, |entries|, 1);
  }

  lemma OwnUsesMake(entries: seq<Observation>, a: nat, b: nat, first: Grant, second: Grant)
    requires a == OwnUsed(entries, |entries|, 0) && b == OwnUsed(entries, |entries|, 1) && (|entries| <= 1 ==> b == 0)
    ensures OwnUsesFit(OwnUses(|entries|, a, b, first.id, second.id), entries, first, second)
  {
  }

  lemma OwnUsesNext(ownUsed: map<string, int>, entries: seq<Observation>, entry: Observation, first: Grant,
                    second: Grant)
    requires first.id != second.id && OwnUsesFit(ownUsed, entries, first, second)
    ensures var id := if |entries| % 2 == 0 then first.id else second.id;
      var own := (if id in ownUsed then ownUsed[id] else 0) + Used(entry);
      OwnUsesFit(ownUsed[id := own], entries + [entry], first, second)
      && own == OwnUsed(entries + [entry], |entries| + 1, |entries| % 2)
  {
    hide Used, OwnUses, OwnUsed, OwnUsesFit;
    var k := |entries|;
    UsedNext(entries, entry, 0);
    UsedNext(entries, entry, 1);
    var a, b := OwnUsesOf(ownUsed, entries, first, second);
    OwnUsesPut(k, a, b, first.id, second.id, Used(entry));
    if k % 2 == 0 {
      OwnUsesMake(entries + [entry], a + Used(entry), b, first, second);
    } else {
      OwnUsesMake(entries + [entry], a, b + Used(entry), first, second);
    }
  }

  lemma NoUses(first: Grant, second: Grant)
    ensures PoolUsed([], 0) == 0 && UsesFit(map[], [], first, second)
  {
  }

  // The successes of a run so far: each came from its own call, in order, and shows the counters.
  ghost predicate Successes(entries: seq<Observation>, replies: Replies, monthly: nat, first: Grant, second: Grant) {
    && (forall k :: 0 <= k < |entries| ==>
      Ok(entries[k]) == replies(k, PoolCall(first, second, k)) && entries[k].status != 429)
    && (first.id != second.id ==> forall k :: 0 <= k < |entries| ==> ShowsCounters(entries, k, monthly, first, second))
  }

  lemma SuccessesNext(entries: seq<Observation>, replies: Replies, monthly: nat, first: Grant, second: Grant,
                      entry: Observation)
    requires Successes(entries, replies, monthly, first, second) && entry.status != 429
    requires replies(|entries|, PoolCall(first, second, |entries|)) == Ok(entry)
    requires first.id != second.id ==> ShowsCounters(entries + [entry], |entries|, monthly, first, second)
    ensures Successes(entries + [entry], replies, monthly, first, second)
  {
    if first.id != second.id {
      forall k | 0 <= k < |entries| ensures ShowsCounters(entries + [entry], k, monthly, first, second) {
        ShowsCountersExtend(entries, entry, k, monthly, first, second);
      }
    }
  }

  predicate Refused(reply: Result<Observation>) {
    reply.Ok? && ShowsExhaustion(reply.value)
  }

  // Both callers spend the pool with these successes, and then the pool refuses the next call.
  ghost predicate Spends(entries: seq<Observation>, replies: Replies, monthly: nat, first: Grant, second: Grant) {
    var n := |entries|;
    && first.id != second.id && 2 <= n && Successes(entries, replies, monthly, first, second)
    && Refused(replies(n, PoolCall(first, second, n))) && replies(n, PoolCall(first, second, n)).value.status == 429
  }

  lemma {:induction false} ShowsCountersPrefix(entries: seq<Observation>, k: nat, n: nat, monthly: nat, first: Grant,
                                               second: Grant)
    requires k < n <= |entries|
    ensures ShowsCounters(entries[..n], k, monthly, first, second)
      == ShowsCounters(entries, k, monthly, first, second)
  {
    assert entries == entries[..n] + entries[n..];
    UsesExtend(entries[..n], entries[n..], k + 1, k % 2);
  }

  // Where the run has come to in such successes: the next one is there and fits, or the pool refuses.
  lemma SpendsNext(all: seq<Observation>, entries: seq<Observation>, replies: Replies, monthly: nat, first: Grant,
                   second: Grant)
    requires Spends(all, replies, monthly, first, second) && |entries| <= |all| && all[..|entries|] == entries
    ensures first.id != second.id && 2 <= |all|
    ensures var (k, called) := (|entries|, replies(|entries|, PoolCall(first, second, |entries|)));
      && called.Ok? && (called.value.status == 429 <==> k == |all|) && (k == |all| ==> Refused(called))
      && (k < |all| ==> all[..k + 1] == entries + [called.value]
                        && ShowsCounters(entries + [called.value], k, monthly, first, second))
  {
    hide ShowsCounters, ShowsExhaustion, PoolCall;
    var k := |entries|;
    if k < |all| {
      ShowsCountersPrefix(all, k, k + 1, monthly, first, second);
      assert all[..k + 1] == entries + [all[k]];
    } else {
      assert all == entries;
    }
  }

  lemma {:induction false} SpendsOnce(all: seq<Observation>, entries: seq<Observation>, k: nat, replies: Replies,
                                      monthly: nat, first: Grant, second: Grant)
    requires Spends(all, replies, monthly, first, second) && Spends(entries, replies, monthly, first, second)
    requires k <= |all| && k <= |entries| && all[..k] == entries[..k]
    ensures all == entries
    decreases |all| - k
  {
    hide Spends;
    SpendsNext(all, all[..k], replies, monthly, first, second);
    SpendsNext(entries, all[..k], replies, monthly, first, second);
    if k < |all| {
      SpendsOnce(all, entries, k + 1, replies, monthly, first, second);
    }
  }

  lemma ShowsNext(entries: seq<Observation>, entry: Observation, monthly: nat, first: Grant, second: Grant)
    ensures var (next, k) := (entries + [entry], |entries|);
      var quota := if k % 2 == 0 then first.tokenQuota else second.tokenQuota;
      ShowsCounters(next, k, monthly, first, second) <==>
      && entry.promptTokens.Some? && entry.completionTokens.Some? && entry.promptTokens.value > 0
      && entry.poolRemaining == Some(monthly - PoolUsed(next, k + 1)) && quota.Some?
      && entry.ownQuotaRemaining == Some(quota.value - OwnUsed(next, k + 1, k % 2))
      && entry.ownRemaining.Some? && entry.ownRemaining.value > 0
  {
    hide PoolUsed, OwnUsed;
  }

  lemma SpendsMeaning(entries: seq<Observation>, replies: Replies, monthly: nat, first: Grant, second: Grant)
    requires first.id != second.id && 2 <= |entries| && Successes(entries, replies, monthly, first, second)
    requires Refused(replies(|entries|, PoolCall(first, second, |entries|)))
    requires replies(|entries|, PoolCall(first, second, |entries|)).value.status == 429
    ensures Spends(entries, replies, monthly, first, second)
  {
    hide PoolCall, ShowsExhaustion, Successes;
  }

  lemma NoSuccesses(replies: Replies, monthly: nat, first: Grant, second: Grant)
    ensures Successes([], replies, monthly, first, second)
  {
  }

  // Callers with the same ID share what the map holds for it.
  ghost predicate UsesFit(ownUsed: map<string, int>, entries: seq<Observation>, first: Grant, second: Grant) {
    if first.id == second.id then ownUsed.Keys == (if entries == [] then {} else {first.id})
    else OwnUsesFit(ownUsed, entries, first, second)
  }

  lemma UsesNext(ownUsed: map<string, int>, entries: seq<Observation>, entry: Observation, first: Grant,
                 second: Grant)
    requires UsesFit(ownUsed, entries, first, second)
    ensures var id := if |entries| % 2 == 0 then first.id else second.id;
      var own := (if id in ownUsed then ownUsed[id] else 0) + Used(entry);
      && UsesFit(ownUsed[id := own], entries + [entry], first, second)
      && (first.id != second.id ==> own == OwnUsed(entries + [entry], |entries| + 1, |entries| % 2))
  {
    hide Used, OwnUsed, OwnUsesFit;
    if first.id != second.id {
      OwnUsesNext(ownUsed, entries, entry, first, second);
    }
  }

  lemma TwoCallers(ownUsed: map<string, int>, entries: seq<Observation>, first: Grant, second: Grant)
    requires 2 <= |entries| && UsesFit(ownUsed, entries, first, second)
    ensures |ownUsed| == 2 <==> first.id != second.id
  {
    assert ownUsed.Keys == {first.id, second.id};
    assert |ownUsed| == |ownUsed.Keys|;
  }

  ghost predicate CanSpend(replies: Replies, monthly: nat, first: Grant, second: Grant, calls: nat) {
    exists all :: |all| < calls && Spends(all, replies, monthly, first, second)
  }

  lemma Spending(replies: Replies, monthly: nat, first: Grant, second: Grant, calls: nat)
    returns (all: seq<Observation>)
    requires CanSpend(replies, monthly, first, second, calls)
    ensures |all| < calls && Spends(all, replies, monthly, first, second)
  {
    hide Spends;
    all :| |all| < calls && Spends(all, replies, monthly, first, second);
  }

  // The loop that spends the pool: successes whose counters fit, and then a refusal by the pool.
  method SpendTokens(first: Grant, second: Grant, monthly: nat, calls: nat, replies: Replies)
    returns (r: Result<(seq<Observation>, Observation, map<string, int>)>, sent: seq<Call>)
    ensures |sent| <= calls && sent == PoolCalls(first, second, |sent|)
    ensures r.Ok? ==> |sent| == |r.value.0| + 1
    ensures r.Ok? ==>
      && 2 <= |r.value.0| < calls && Successes(r.value.0, replies, monthly, first, second)
      && replies(|r.value.0|, PoolCall(first, second, |r.value.0|)) == Ok(r.value.1)
      && r.value.1.status == 429 && ShowsExhaustion(r.value.1)
      && UsesFit(r.value.2, r.value.0, first, second)
    ensures CanSpend(replies, monthly, first, second, calls) ==> r.Ok?
  {
    hide CanSpend, PoolCalls, OwnUsed, PoolUsed, UsesFit, Spends, Successes, ShowsCounters, ShowsExhaustion;
    NoUses(first, second);
    PoolCallsNext(first, second, 0);
    NoSuccesses(replies, monthly, first, second);
    ghost var works := CanSpend(replies, monthly, first, second, calls);
    ghost var all: seq<Observation> := [];
    if works {
      all := Spending(replies, monthly, first, second, calls);
    }
    var entries: seq<Observation> := [];
    var ownUsed: map<string, int> := map[];
    var poolUsed := 0;
    sent := [];
    for index := 0 to calls
      invariant |sent| == index && sent == PoolCalls(first, second, index)
      invariant |entries| == index && Successes(entries, replies, monthly, first, second)
        && poolUsed == PoolUsed(entries, index)
      invariant UsesFit(ownUsed, entries, first, second)
      invariant works ==> index <= |all| && all[..index] == entries
    {
      var grant := if index % 2 == 0 then first else second;
      PoolCallsNext(first, second, index);
      sent := sent + [Call(grant.id, Pool)];
      var called := replies(index, Call(grant.id, Pool));
      assert Call(grant.id, Pool) == PoolCall(first, second, index);
      if works {
        SpendsNext(all, entries, replies, monthly, first, second);
      }
      if called.Error? {
        return Error, sent;
      }
      var entry := called.value;
      if entry.status == 429 {
        if index < 2 || !ShowsExhaustion(entry) {
          return Error, sent;
        }
        return Ok((entries, entry, ownUsed)), sent;
      }
      ShowsNext(entries, entry, monthly, first, second);
      if entry.promptTokens.None? || entry.completionTokens.None? || entry.promptTokens.value == 0 {
        return Error, sent;
      }
      var used := entry.promptTokens.value + entry.completionTokens.value;
      poolUsed := poolUsed + used;
      var own := (if grant.id in ownUsed then ownUsed[grant.id] else 0) + used;
      UsedNext(entries, entry, 0);
      UsesNext(ownUsed, entries, entry, first, second);
      ownUsed := ownUsed[grant.id := own];
      if entry.poolRemaining.None? || entry.poolRemaining.value != monthly - poolUsed || grant.tokenQuota.None?
         || entry.ownQuotaRemaining.None? || entry.ownQuotaRemaining.value != grant.tokenQuota.value - own
         || entry.ownRemaining.None? || entry.ownRemaining.value <= 0
      {
        return Error, sent;
      }
      SuccessesNext(entries, replies, monthly, first, second, entry);
      entries := entries + [entry];
    }
    return Error, sent;
  }

  // What the calls of a run ask, when the pool refuses call n: then each caller once more, and a control.
  function Asked(first: Grant, second: Grant, control: string, n: nat, k: nat): Call {
    if k <= n then PoolCall(first, second, k)
    else if k == n + 1 then Call(first.id, Limited)
    else if k == n + 2 then Call(second.id, Limited)
    else Call(control, Success)
  }

  lemma AskedMeaning(first: Grant, second: Grant, control: string, n: nat)
    ensures forall k :: 0 <= k <= n ==> Asked(first, second, control, n, k) == PoolCall(first, second, k)
    ensures Asked(first, second, control, n, n + 1) == Call(first.id, Limited)
    ensures Asked(first, second, control, n, n + 2) == Call(second.id, Limited)
    ensures Asked(first, second, control, n, n + 3) == Call(control, Success)
  {
  }

  // Everything goes as it should: after these successes and the pool's refusal each caller is refused, and the control
  // call comes back.
  ghost predicate Works(entries: seq<Observation>, replies: Replies, monthly: nat, first: Grant, second: Grant,
                        control: string) {
    var n := |entries|;
    && Spends(entries, replies, monthly, first, second) && Refused(replies(n + 1, Call(first.id, Limited)))
    && Refused(replies(n + 2, Call(second.id, Limited))) && replies(n + 3, Call(control, Success)).Ok?
  }

  ghost predicate RunWorks(replies: Replies, monthly: nat, first: Grant, second: Grant, control: string,
                           maxRequests: nat) {
    exists all :: |all| + 4 <= maxRequests && Works(all, replies, monthly, first, second, control)
  }

  // There is at most one such list, the one that the pool was spent with.
  lemma WorksOnce(entries: seq<Observation>, replies: Replies, monthly: nat, first: Grant, second: Grant,
                  control: string, maxRequests: nat)
    requires Spends(entries, replies, monthly, first, second) && |entries| + 4 <= maxRequests
    ensures RunWorks(replies, monthly, first, second, control, maxRequests)
      <==> Works(entries, replies, monthly, first, second, control)
  {
    hide Spends, ShowsExhaustion;
    if all :| |all| + 4 <= maxRequests && Works(all, replies, monthly, first, second, control) {
      SpendsOnce(all, entries, 0, replies, monthly, first, second);
    }
  }

  lemma WorksMeaning(entries: seq<Observation>, replies: Replies, monthly: nat, first: Grant, second: Grant,
                     control: string)
    requires Spends(entries, replies, monthly, first, second)
    ensures var n := |entries|;
      Works(entries, replies, monthly, first, second, control) <==>
        Refused(replies(n + 1, Call(first.id, Limited))) && Refused(replies(n + 2, Call(second.id, Limited)))
          && replies(n + 3, Call(control, Success)).Ok?
  {
    hide Spends, ShowsExhaustion;
  }

  lemma WorksSpends(replies: Replies, monthly: nat, first: Grant, second: Grant, control: string, maxRequests: nat)
    requires RunWorks(replies, monthly, first, second, control, maxRequests)
    ensures maxRequests > 3 && first.id != second.id && CanSpend(replies, monthly, first, second, maxRequests - 3)
  {
    hide Successes, ShowsExhaustion;
    var all :| |all| + 4 <= maxRequests && Works(all, replies, monthly, first, second, control);
    assert |all| < maxRequests - 3 && Spends(all, replies, monthly, first, second);
  }

  // What a run shows that returns: callers that differ, n successes whose counters fit, three refusals by the pool, and
  // one more call; each entry is what its call came back with.
  ghost predicate Shows(entries: seq<Observation>, n: nat, sent: seq<Call>, replies: Replies, monthly: nat,
                        first: Grant, second: Grant) {
    && first.id != second.id && 2 <= n && |entries| == n + 4 == |sent|
    && (forall k :: 0 <= k < |entries| ==> Ok(entries[k]) == replies(k, sent[k]))
    && (forall k :: 0 <= k < n ==> ShowsCounters(entries[..n], k, monthly, first, second) && entries[k].status != 429)
    && entries[n].status == 429 && (forall k :: n <= k < n + 3 ==> ShowsExhaustion(entries[k]))
  }

  // Each part of a run's entries is what its calls came back with, and so are all of them.
  lemma Replied(successes: seq<Observation>, refusal: Observation, rest: seq<Observation>, first: Grant,
                second: Grant, confirming: seq<Call>, replies: Replies, monthly: nat)
    requires |confirming| == |rest| == 3 && first.id != second.id
    requires Successes(successes, replies, monthly, first, second)
    requires Ok(refusal) == replies(|successes|, PoolCall(first, second, |successes|))
    requires Ok(rest[0]) == replies(|successes| + 1, confirming[0])
    requires Ok(rest[1]) == replies(|successes| + 2, confirming[1])
    requires Ok(rest[2]) == replies(|successes| + 3, confirming[2])
    requires ShowsExhaustion(refusal) && ShowsExhaustion(rest[0]) && ShowsExhaustion(rest[1])
    requires 2 <= |successes| && refusal.status == 429
    ensures Shows(successes + [refusal] + rest, |successes|, PoolCalls(first, second, |successes| + 1) + confirming,
                  replies, monthly, first, second)
  {
    hide PoolCall, ShowsExhaustion, ShowsCounters;
    var (n, entries) := (|successes|, successes + [refusal] + rest);
    var sent := PoolCalls(first, second, n + 1) + confirming;
    assert entries[..n] == successes;
    forall k | 0 <= k < |entries| ensures Ok(entries[k]) == replies(k, sent[k]) {
      if k > n {
        assert entries[k] == rest[k - n - 1] && sent[k] == confirming[k - n - 1];
      }
    }
  }

  ghost predicate AllAsked(first: Grant, second: Grant, control: string, n: nat, sent: seq<Call>) {
    forall k :: 0 <= k < |sent| ==> sent[k] == Asked(first, second, control, n, k)
  }

  // Each caller once more, and the control.
  function Confirming(first: Grant, second: Grant, control: string): (calls: seq<Call>)
    ensures |calls| == 3
  {
    [Call(first.id, Limited), Call(second.id, Limited), Call(control, Success)]
  }

  lemma AskedAfter(first: Grant, second: Grant, control: string, n: nat, confirming: seq<Call>)
    requires confirming <= Confirming(first, second, control)
    ensures AllAsked(first, second, control, n, PoolCalls(first, second, n + 1) + confirming)
  {
    AskedMeaning(first, second, control, n);
    hide PoolCall, Asked;
  }

  // The end of the run, after the pool refused call n: each caller once more, and the control.
  method ConfirmRefusals(first: Grant, second: Grant, control: string, n: nat, replies: Replies)
    returns (r: Result<seq<Observation>>, sent: seq<Call>)
    ensures sent <= Confirming(first, second, control)
    ensures r.Ok? ==> |sent| == |r.value| == 3 && ShowsExhaustion(r.value[0]) && ShowsExhaustion(r.value[1])
    ensures r.Ok? ==> Ok(r.value[0]) == replies(n + 1, sent[0]) && Ok(r.value[1]) == replies(n + 2, sent[1])
                      && Ok(r.value[2]) == replies(n + 3, sent[2])
    ensures r.Ok? <==> Refused(replies(n + 1, Call(first.id, Limited)))
                       && Refused(replies(n + 2, Call(second.id, Limited)))
                         && replies(n + 3, Call(control, Success)).Ok?
  {
    hide ShowsExhaustion, Asked;
    AskedMeaning(first, second, control, n);
    var entries: seq<Observation> := [];
    sent := [];
    for index := 0 to 2
      invariant |sent| == |entries| == index
      invariant sent == Confirming(first, second, control)[..index]
      invariant forall k :: 0 <= k < index ==>
        Ok(entries[k]) == replies(n + 1 + k, sent[k]) && ShowsExhaustion(entries[k])
    {
      var call := Call(if index == 0 then first.id else second.id, Limited);
      var called := replies(n + 1 + index, call);
      sent := sent + [call];
      if called.Error? || !ShowsExhaustion(called.value) {
        return Error, sent;
      }
      entries := entries + [called.value];
    }
    var last := replies(n + 3, Call(control, Success));
    sent := sent + [Call(control, Success)];
    if last.Error? {
      return Error, sent;
    }
    return Ok(entries + [last.value]), sent;
  }

  // The rest of a run that spent the pool, and what the whole run then has.
  method FinishRun(first: Grant, second: Grant, control: string, monthly: nat, replies: Replies,
                   successes: seq<Observation>, refusal: Observation, before: seq<Call>)
    returns (r: Result<seq<Observation>>, sent: seq<Call>)
    requires Spends(successes, replies, monthly, first, second) && refusal.status == 429
    requires Ok(refusal) == replies(|successes|, PoolCall(first, second, |successes|))
    requires before == PoolCalls(first, second, |successes| + 1)
    ensures |sent| <= |successes| + 4 && AllAsked(first, second, control, |successes|, sent)
    ensures r.Ok? <==> Works(successes, replies, monthly, first, second, control)
    ensures r.Ok? ==>
      Shows(r.value, |successes|, sent, replies, monthly, first, second)
  {
    SpentWell(successes, refusal, replies, monthly, first, second);
    WorksMeaning(successes, replies, monthly, first, second, control);
    hide AllAsked, Confirming, Shows, ShowsCounters, ShowsExhaustion, Asked, PoolCall, PoolCalls, Spends, Works,
      Successes, Refused;
    var confirmed, confirming := ConfirmRefusals(first, second, control, |successes|, replies);
    AskedAfter(first, second, control, |successes|, confirming);
    sent := before + confirming;
    if confirmed.Error? {
      return Error, sent;
    }
    Replied(successes, refusal, confirmed.value, first, second, confirming, replies, monthly);
    return Ok(successes + [refusal] + confirmed.value), sent;
  }

  lemma SpentWell(successes: seq<Observation>, refusal: Observation, replies: Replies, monthly: nat, first: Grant,
                  second: Grant)
    requires Spends(successes, replies, monthly, first, second)
    requires Ok(refusal) == replies(|successes|, PoolCall(first, second, |successes|))
    ensures first.id != second.id && 2 <= |successes| && ShowsExhaustion(refusal)
      && Successes(successes, replies, monthly, first, second)
  {
    hide ShowsExhaustion, PoolCall, Successes;
  }

  // The run, against any replies to its calls. However it ends, its calls are those, in order, and at most
  // maxRequests. It returns only what shows one shared counter: n successes whose counters fit, a refusal by the pool,
  // then a refusal of each caller, and a call by another cost center; and it returns whenever that is what happens.
  method PooledTokenProof(first: Grant, second: Grant, control: string, monthly: nat, maxRequests: nat,
                          replies: Replies)
    returns (r: Result<seq<Observation>>, n: nat, sent: seq<Call>)
    ensures |sent| <= maxRequests && AllAsked(first, second, control, n, sent)
    ensures r.Ok? ==>
      Shows(r.value, n, sent, replies, monthly, first, second)
    ensures r.Ok? <==> RunWorks(replies, monthly, first, second, control, maxRequests)
  {
    hide CanSpend, Shows, ShowsCounters, UsesFit, ShowsExhaustion, Asked, PoolCall, Spends, Works, RunWorks, Successes;
    if RunWorks(replies, monthly, first, second, control, maxRequests) {
      WorksSpends(replies, monthly, first, second, control, maxRequests);
    }
    var spent;
    spent, sent := SpendTokens(first, second, monthly, if maxRequests < 3 then 0 else maxRequests - 3, replies);
    n := |sent|;
    AskedMeaning(first, second, control, n);
    if spent.Ok? {
      TwoCallers(spent.value.2, spent.value.0, first, second);
    }
    if spent.Error? || |spent.value.2| != 2 {
      return Error, n, sent;
    }
    var (successes, refusal, _) := spent.value;
    n := |successes|;
    SpendsMeaning(successes, replies, monthly, first, second);
    WorksOnce(successes, replies, monthly, first, second, control, maxRequests);
    assert sent == PoolCalls(first, second, n + 1);
    r, sent := FinishRun(first, second, control, monthly, replies, successes, refusal, sent);
  }

  lemma OwnUseOfTwo(entries: seq<Observation>, k: nat)
    requires 1 <= k < |entries|
    ensures OwnUsed(entries, k + 1, k % 2) == OwnUsed(entries, k - 1, k % 2) + Used(entries[k])
  {
    assert (k - 1) % 2 != k % 2;
  }

  // From one call to the next the pool falls by what the call used, and from one call of a caller to its next so does
  // that caller's own quota; and the caller has some of its minute left.
  lemma CountersFall(entries: seq<Observation>, k: nat, monthly: nat, first: Grant, second: Grant)
    requires k < |entries| && forall i :: 0 <= i <= k ==> ShowsCounters(entries, i, monthly, first, second)
    ensures var entry := entries[k];
      && entry.promptTokens.Some? && entry.completionTokens.Some? && entry.poolRemaining.Some?
      && entry.ownQuotaRemaining.Some? && entry.ownRemaining.Some?
    ensures var used := entries[k].promptTokens.value + entries[k].completionTokens.value;
      && entries[k].promptTokens.value >= 1 && entries[k].ownRemaining.value >= 1
      && Some(entries[k].poolRemaining.value + used)
         == (if k == 0 then Some(monthly) else entries[k - 1].poolRemaining)
      && Some(entries[k].ownQuotaRemaining.value + used)
         == (if k == 0 then first.tokenQuota else if k == 1 then second.tokenQuota
             else entries[k - 2].ownQuotaRemaining)
  {
    assert ShowsCounters(entries, k, monthly, first, second);
    if k > 0 {
      assert ShowsCounters(entries, k - 1, monthly, first, second);
      OwnUseOfTwo(entries, k);
    }
    if k > 1 {
      assert ShowsCounters(entries, k - 2, monthly, first, second) && (k - 2) % 2 == k % 2;
      hide OwnUsed;
    }
  }

  // So both callers used some of the pool, and what they used is exactly what left it.
  lemma PooledTokenMeaning(entries: seq<Observation>, n: nat, monthly: nat, first: Grant, second: Grant)
    requires 2 <= n == |entries| && forall k :: 0 <= k < n ==> ShowsCounters(entries, k, monthly, first, second)
    ensures OwnUsed(entries, n, 0) > 0 && OwnUsed(entries, n, 1) > 0
    ensures OwnUsed(entries, n, 0) + OwnUsed(entries, n, 1) == PoolUsed(entries, n) <= monthly
    ensures entries[n - 1].poolRemaining == Some(monthly - PoolUsed(entries, n))
  {
    OwnUsesSum(entries, n);
    assert ShowsCounters(entries, 0, monthly, first, second) && ShowsCounters(entries, 1, monthly, first, second);
    assert ShowsCounters(entries, n - 1, monthly, first, second);
    OwnUsedGrows(entries, 1, n, 0);
    OwnUsedGrows(entries, 2, n, 1);
  }
}
