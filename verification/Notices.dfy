// The evidence that a budget's notices were delivered: a threshold notice for each check that newly crossed one, one
// block and one unblock, and the receipts of each.
module Notices {
  import opened ModelConfig
  import opened Wrappers

  // A timestamp in a record: missing, unreadable, or a time.
  datatype Stamp = Missing | Unreadable | At(time: int)

  datatype Check = Check(isTarget: bool, spend: real, through: Stamp, observedAt: Stamp)

  datatype Kind = Threshold | Blocked | Unblocked | Other

  datatype Notice = Notice(isTarget: bool, id: string, kind: Kind, threshold: Option<int>, sent: bool,
                           operationId: string, sentAt: Stamp, firstAttemptAt: Stamp)

  datatype Receipt = Receipt(operationId: string, messageId: string, receivedAt: Stamp)

  datatype Window = Window(startedAt: Stamp, completedAt: Stamp)

  datatype Evidence = Evidence(amount: real, checks: seq<Check>, notices: seq<Notice>, noticesAfterRecheck: seq<string>,
                               recheck: Window, mailbox: Window, receipts: seq<Receipt>)

  // ---- The checks ----

  function Limit(amount: real, threshold: int): real {
    amount * threshold as real / 100.0
  }

  // A check's spend is at or above a threshold of the amount, in rounded cents.
  predicate Crosses(check: Check, amount: real, threshold: int) {
    Cents(check.spend).Ok? && Cents(Limit(amount, threshold)).Ok?
    && Cents(Limit(amount, threshold)).value <= Cents(check.spend).value
  }

  function Time(stamp: Stamp): int {
    if stamp.At? then stamp.time else 0
  }

  // Check k has its times, and both are later than those of the check before it.
  predicate InOrder(checks: seq<Check>, k: nat)
    requires k < |checks|
  {
    && checks[k].through.At? && checks[k].observedAt.At? && checks[k].through.time <= checks[k].observedAt.time
    && checks[k].spend >= 0.0
    && (k > 0 ==>
          Time(checks[k - 1].through) < checks[k].through.time
          && Time(checks[k - 1].observedAt) < checks[k].observedAt.time)
  }

  // The first of the first k checks that crosses a threshold, or k.
  function FirstCrossing(checks: seq<Check>, amount: real, threshold: int, k: nat): (f: nat)
    requires k <= |checks|
    ensures f <= k
  {
    if k == 0 then 0
    else
      var f := FirstCrossing(checks, amount, threshold, k - 1);
      if f < k - 1 || Crosses(checks[k - 1], amount, threshold) then f else k
  }

  lemma {:induction false} FirstCrossingMeaning(checks: seq<Check>, amount: real, threshold: int, k: nat)
    requires k <= |checks|
    ensures var f := FirstCrossing(checks, amount, threshold, k);
      (f < k ==> Crosses(checks[f], amount, threshold)) && forall i :: 0 <= i < f ==>
        !Crosses(checks[i], amount, threshold)
  {
    hide Crosses;
    if k == 0 {
    } else {
      FirstCrossingMeaning(checks, amount, threshold, k - 1);
    }
  }

  // A threshold is due a notice, at the first check that crosses it, unless that check crosses a higher one too.
  function Due(checks: seq<Check>, amount: real, k: nat): map<int, int>
    requires k <= |checks|
  {
    var (f80, f100) := (FirstCrossing(checks, amount, 80, k), FirstCrossing(checks, amount, 100, k));
    (if f80 < f100 then map[80 := Time(checks[f80].observedAt)] else map[])
    + (if f100 < k then map[100 := Time(checks[f100].observedAt)] else map[])
  }

  function Reached(checks: seq<Check>, amount: real, k: nat): set<int>
    requires k <= |checks|
  {
    (if FirstCrossing(checks, amount, 80, k) < k then {80} else {})
    + (if FirstCrossing(checks, amount, 100, k) < k then {100} else {})
  }

  // Crossing the amount is crossing 80 percent of it.
  lemma CrossesLower(check: Check, amount: real)
    requires amount >= 0.0 && Crosses(check, amount, 100)
    ensures Crosses(check, amount, 80)
  {
    CentsMonotone(Limit(amount, 80), Limit(amount, 100));
  }

  lemma NothingDue(checks: seq<Check>, amount: real)
    ensures Due(checks, amount, 0) == map[] && Reached(checks, amount, 0) == {}
  {
  }

  // What one more check does: the highest threshold that it newly crosses is due a notice, and no other.
  lemma DueNext(checks: seq<Check>, amount: real, k: nat)
    requires k < |checks| && amount >= 0.0
    ensures var reached := Reached(checks, amount, k);
      var crosses80 := Crosses(checks[k], amount, 80) && 80 !in reached;
      var crosses100 := Crosses(checks[k], amount, 100) && 100 !in reached;
      && Reached(checks, amount, k + 1)
         == reached + (if crosses80 then {80} else {}) + (if crosses100 then {100} else {})
      && Due(checks, amount, k + 1)
         == if crosses100 then Due(checks, amount, k)[100 := Time(checks[k].observedAt)]
            else if crosses80 then Due(checks, amount, k)[80 := Time(checks[k].observedAt)]
            else Due(checks, amount, k)
  {
    hide Crosses;
    if Crosses(checks[k], amount, 100) {
      CrossesLower(checks[k], amount);
    }
    FirstCrossingMeaning(checks, amount, 80, k);
    FirstCrossingMeaning(checks, amount, 100, k);
    var f100 := FirstCrossing(checks, amount, 100, k);
    if f100 < k {
      CrossesLower(checks[f100], amount);
    }
  }

  // The loop over the checks.
  method ScanChecks(amount: real, checks: seq<Check>) returns (r: Result<(set<int>, map<int, int>, int)>)
    requires amount >= 0.0
    ensures r.Ok? <==> forall k :: 0 <= k < |checks| ==> InOrder(checks, k)
    ensures r.Ok? && |checks| > 0 ==> r.value == (Reached(checks, amount, |checks|), Due(checks, amount, |checks|),
                                                  Time(checks[|checks| - 1].observedAt))
  {
    hide Cents, FirstCrossing, Due, Reached, Limit;
    var reached: set<int> := {};
    var notified: map<int, int> := map[];
    var last: Option<(int, int)> := None;
    NothingDue(checks, amount);
    for k := 0 to |checks|
      invariant forall i :: 0 <= i < k ==> InOrder(checks, i)
      invariant last == if k == 0 then None else Some((Time(checks[k - 1].through), Time(checks[k - 1].observedAt)))
      invariant reached == Reached(checks, amount, k) && notified == Due(checks, amount, k)
    {
      var check := checks[k];
      if !check.through.At? || !check.observedAt.At? || check.observedAt.time < check.through.time
         || (last.Some? && (check.through.time <= last.value.0 || check.observedAt.time <= last.value.1))
         || Cents(check.spend).Error?
      {
        assert !InOrder(checks, k);
        return Error;
      }
      last := Some((check.through.time, check.observedAt.time));
      DueNext(checks, amount, k);
      var crosses80 := Crosses(check, amount, 80) && 80 !in reached;
      var crosses100 := Crosses(check, amount, 100) && 100 !in reached;
      reached := reached + (if crosses80 then {80} else {}) + (if crosses100 then {100} else {});
      if crosses80 || crosses100 {
        notified := notified[(if crosses100 then 100 else 80) := check.observedAt.time];
      }
    }
    return Ok((reached, notified, if last.Some? then last.value.1 else 0));
  }

  predicate IsFirst(checks: seq<Check>, amount: real, threshold: int, f: nat)
    requires f < |checks|
  {
    Crosses(checks[f], amount, threshold) && forall i :: 0 <= i < f ==> !Crosses(checks[i], amount, threshold)
  }

  // Each threshold is due at most one notice, at its first crossing; 80 only if that was an earlier check than 100's.
  lemma DueMeaning(checks: seq<Check>, amount: real, threshold: int)
    requires amount >= 0.0
    ensures var (due, n) := (Due(checks, amount, |checks|), |checks|);
      var (f80, f100) := (FirstCrossing(checks, amount, 80, n), FirstCrossing(checks, amount, 100, n));
      && f80 <= f100 && due.Keys <= {80, 100}
      && (100 in due <==> f100 < n) && (80 in due <==> f80 < f100)
      && (threshold in due ==> exists f :: 0 <= f < n && IsFirst(checks, amount, threshold, f)
                                           && due[threshold] == Time(checks[f].observedAt))
  {
    hide Crosses;
    var n := |checks|;
    var (f80, f100) := (FirstCrossing(checks, amount, 80, n), FirstCrossing(checks, amount, 100, n));
    FirstCrossingMeaning(checks, amount, 80, n);
    FirstCrossingMeaning(checks, amount, 100, n);
    if f100 < n {
      CrossesLower(checks[f100], amount);
    }
    if threshold in Due(checks, amount, n) {
      var f := FirstCrossing(checks, amount, threshold, n);
      FirstCrossingMeaning(checks, amount, threshold, n);
      assert IsFirst(checks, amount, threshold, f);
    }
  }

  // ---- The notices and their receipts ----

  function FirstAttempt(notice: Notice): Stamp {
    if notice.firstAttemptAt.Missing? then notice.sentAt else notice.firstAttemptAt
  }

  function NoticeIds(notices: seq<Notice>): multiset<string> {
    if notices == [] then multiset{} else NoticeIds(notices[..|notices| - 1]) + multiset{notices[|notices| - 1].id}
  }

  // The thresholds that the threshold notices name.
  function Named(notices: seq<Notice>): multiset<Option<int>> {
    if notices == [] then multiset{}
    else
      var last := notices[|notices| - 1];
      Named(notices[..|notices| - 1]) + if last.kind.Threshold? then multiset{last.threshold} else multiset{}
  }

  function Count(notices: seq<Notice>, kind: Kind): nat {
    if notices == [] then 0
    else Count(notices[..|notices| - 1], kind) + if notices[|notices| - 1].kind == kind then 1 else 0
  }

  function Keys(due: map<int, int>): multiset<Option<int>> {
    (if 80 in due then multiset{Some(80)} else multiset{}) + (if 100 in due then multiset{Some(100)} else multiset{})
  }

  // The end of a window, which starts no earlier than a time and ends later than it starts.
  function WindowEnd(window: Window, after: int): Result<int> {
    if window.startedAt.At? && window.completedAt.At? && after <= window.startedAt.time < window.completedAt.time
    then Ok(window.completedAt.time) else Error
  }

  predicate Follows(receipt: Receipt, notice: Notice, end: int) {
    receipt.messageId != "" && receipt.receivedAt.At? && Time(FirstAttempt(notice)) <= receipt.receivedAt.time <= end
  }

  // A notice has its times in order, is no earlier than its check, and has receipts, all in the observed time.
  ghost predicate Delivered(notice: Notice, due: map<int, int>, receipts: seq<Receipt>, end: int) {
    && notice.sentAt.At? && FirstAttempt(notice).At? && FirstAttempt(notice).time <= notice.sentAt.time
    && (notice.kind.Threshold? ==>
          notice.threshold.Some? && notice.threshold.value in due
            && due[notice.threshold.value] <= FirstAttempt(notice).time)
    && (exists r :: r in receipts && r.operationId == notice.operationId)
    && (forall r :: r in receipts && r.operationId == notice.operationId ==> Follows(r, notice, end))
  }

  predicate Distinct(xs: seq<string>) {
    forall i, j :: 0 <= i < j < |xs| ==> xs[i] != xs[j]
  }

  function Operations(notices: seq<Notice>): (ids: seq<string>)
    ensures |ids| == |notices| && forall k :: 0 <= k < |ids| ==> ids[k] == notices[k].operationId
  {
    seq(|notices|, k requires 0 <= k < |notices| => notices[k].operationId)
  }

  function Ids(notices: seq<Notice>): (ids: seq<string>)
    ensures |ids| == |notices| && forall k :: 0 <= k < |ids| ==> ids[k] == notices[k].id
  {
    seq(|notices|, k requires 0 <= k < |notices| => notices[k].id)
  }

  function Messages(receipts: seq<Receipt>): (ids: seq<string>)
    ensures |ids| == |receipts| && forall k :: 0 <= k < |ids| ==> ids[k] == receipts[k].messageId
  {
    seq(|receipts|, k requires 0 <= k < |receipts| => receipts[k].messageId)
  }

  // The first notice of a kind, if there is one.
  function Find(notices: seq<Notice>, kind: Kind): Option<Notice> {
    if notices == [] then None
    else
      var earlier := Find(notices[..|notices| - 1], kind);
      if earlier.Some? then earlier else if notices[|notices| - 1].kind == kind then Some(notices[|notices| - 1])
      else None
  }

  // The loop over the notices, with a loop over the receipts of each.
  method CheckDelivery(notices: seq<Notice>, due: map<int, int>, receipts: seq<Receipt>, end: int) returns (ok: bool)
    ensures ok <==> forall k :: 0 <= k < |notices| ==> Delivered(notices[k], due, receipts, end)
  {
    for k := 0 to |notices|
      invariant forall i :: 0 <= i < k ==> Delivered(notices[i], due, receipts, end)
    {
      var notice := notices[k];
      var attempt := FirstAttempt(notice);
      if !notice.sentAt.At? || !attempt.At? || notice.sentAt.time < attempt.time
         || (notice.kind.Threshold?
             && (notice.threshold.None? || notice.threshold.value !in due
               || attempt.time < due[notice.threshold.value]))
      {
        return false;
      }
      var received := false;
      for j := 0 to |receipts|
        invariant received <==> exists i :: 0 <= i < j && receipts[i].operationId == notice.operationId
        invariant forall i :: 0 <= i < j && receipts[i].operationId == notice.operationId ==>
          Follows(receipts[i], notice, end)
      {
        if receipts[j].operationId == notice.operationId {
          received := true;
          if receipts[j].messageId == "" || !receipts[j].receivedAt.At?
             || receipts[j].receivedAt.time < attempt.time || end < receipts[j].receivedAt.time
          {
            assert receipts[j] in receipts;
            return false;
          }
        }
      }
      if !received {
        return false;
      }
    }
    return true;
  }

  // ---- The whole record ----

  predicate Identified(e: Evidence, target: real) {
    && Cents(e.amount).Ok? && Cents(e.amount) == Cents(target) && Cents(e.amount).value >= 1 && |e.checks| >= 2
    && (forall c :: c in e.checks ==> c.isTarget) && (forall n :: n in e.notices ==> n.isTarget)
  }

  // One notice for each threshold due, one block and one unblock, all sent, and the same after a recheck.
  predicate Complete(e: Evidence, due: map<int, int>) {
    && |e.notices| == |due| + 2 && Named(e.notices) == Keys(due)
    && Count(e.notices, Blocked) == 1 && Count(e.notices, Unblocked) == 1
    && (forall n :: n in e.notices ==> n.sent && n.operationId != "" && n.id != "")
    && Distinct(Ids(e.notices)) && Distinct(Operations(e.notices))
      && NoticeIds(e.notices) == multiset(e.noticesAfterRecheck)
  }

  // The block follows the check that reached the amount, and the unblock follows the block.
  predicate BlockFollows(e: Evidence, due: map<int, int>) {
    var (blocked, unblocked) := (Find(e.notices, Blocked), Find(e.notices, Unblocked));
    && blocked.Some? && unblocked.Some? && FirstAttempt(blocked.value).At? && FirstAttempt(unblocked.value).At?
      && 100 in due
    && due[100] <= FirstAttempt(blocked.value).time <= FirstAttempt(unblocked.value).time
  }

  // When the mailbox was observed to its end: after a recheck, which was after every check and every send.
  function ObservedEnd(e: Evidence): Result<int> {
    if |e.checks| == 0 || !e.recheck.startedAt.At? then Error
    else if exists n :: n in e.notices && !(n.sentAt.At? && n.sentAt.time <= e.recheck.startedAt.time) then Error
    else
      var rechecked :- WindowEnd(e.recheck, Time(e.checks[|e.checks| - 1].observedAt));
      WindowEnd(e.mailbox, rechecked)
  }

  predicate ReceiptsMatch(e: Evidence) {
    Distinct(Messages(e.receipts)) && forall r :: r in e.receipts ==>
      exists n :: n in e.notices && n.operationId == r.operationId
  }

  ghost predicate Accepted(e: Evidence, target: real) {
    var due := Due(e.checks, e.amount, |e.checks|);
    && Identified(e, target) && (forall k :: 0 <= k < |e.checks| ==> InOrder(e.checks, k))
    && 100 in due && Complete(e, due) && BlockFollows(e, due) && ObservedEnd(e).Ok? && ReceiptsMatch(e)
    && (forall k :: 0 <= k < |e.notices| ==> Delivered(e.notices[k], due, e.receipts, ObservedEnd(e).value))
  }

  method NotificationDeliveryEvidence(e: Evidence, target: real) returns (ok: bool)
    ensures ok <==> Accepted(e, target)
  {
    hide InOrder, Due, Reached, Complete, ObservedEnd, ReceiptsMatch, Delivered, Find, FirstAttempt, Cents;
    if Cents(e.amount).Error? || Cents(e.amount) != Cents(target) || (exists c :: c in e.checks && !c.isTarget)
       || (exists n :: n in e.notices && !n.isTarget)
    {
      return false;
    }
    if Cents(e.amount).value < 1 || |e.checks| < 2 {
      return false;
    }
    var scanned := ScanChecks(e.amount, e.checks);
    if scanned.Error? {
      return false;
    }
    var (reached, notified, _) := scanned.value;
    ReachedDue(e.checks, e.amount);
    if 100 !in reached || !Complete(e, notified) {
      return false;
    }
    var (blocked, unblocked) := (Find(e.notices, Blocked), Find(e.notices, Unblocked));
    if blocked.None? || unblocked.None? || !FirstAttempt(blocked.value).At? || !FirstAttempt(unblocked.value).At? {
      return false;
    }
    var (blockedAt, raisedAt) := (FirstAttempt(blocked.value).time, FirstAttempt(unblocked.value).time);
    if blockedAt < notified[100] || raisedAt < blockedAt {
      return false;
    }
    var end := ObservedEnd(e);
    if end.Error? || !ReceiptsMatch(e) {
      return false;
    }
    ok := CheckDelivery(e.notices, notified, e.receipts, end.value);
  }

  lemma ReachedDue(checks: seq<Check>, amount: real)
    ensures 100 in Reached(checks, amount, |checks|) <==> 100 in Due(checks, amount, |checks|)
  {
  }

  lemma {:induction false} CountsAdd(notices: seq<Notice>)
    ensures Count(notices, Threshold) + Count(notices, Blocked) + Count(notices, Unblocked) + Count(notices, Other)
      == |notices|
    ensures |Named(notices)| == Count(notices, Threshold)
  {
    if notices == [] {
    } else {
      CountsAdd(notices[..|notices| - 1]);
    }
  }

  lemma KeysSize(due: map<int, int>)
    requires due.Keys <= {80, 100}
    ensures |Keys(due)| == |due|
  {
    var keys := (if 80 in due then {80} else {}) + (if 100 in due then {100} else {});
    assert due.Keys == keys;
  }

  lemma {:induction false} FindMeaning(notices: seq<Notice>, kind: Kind, notice: Notice)
    requires notice in notices && notice.kind == kind && Count(notices, kind) == 1
    ensures Find(notices, kind) == Some(notice)
  {
    var front, last := notices[..|notices| - 1], notices[|notices| - 1];
    if notice in front {
      CountPositive(front, notice);
      FindMeaning(front, kind, notice);
    } else {
      assert notice == last;
      FindNone(front, kind);
    }
  }

  lemma {:induction false} FindNone(notices: seq<Notice>, kind: Kind)
    requires Count(notices, kind) == 0
    ensures Find(notices, kind).None?
  {
    if notices == [] {
    } else {
      FindNone(notices[..|notices| - 1], kind);
    }
  }

  lemma {:induction false} CountPositive(notices: seq<Notice>, notice: Notice)
    requires notice in notices
    ensures Count(notices, notice.kind) > 0
  {
    var front := notices[..|notices| - 1];
    if notice in front {
      CountPositive(front, notice);
    } else {
      assert notice == notices[|notices| - 1];
    }
  }

  // An accepted record has one threshold notice for each threshold due, one block, one unblock and nothing else. The
  // amount was first reached at a check no later than the block's first attempt, nor that than the unblock's.
  lemma AcceptedMeaning(e: Evidence, target: real, blocked: Notice, unblocked: Notice)
    requires Accepted(e, target)
    requires blocked in e.notices && blocked.kind.Blocked? && unblocked in e.notices && unblocked.kind.Unblocked?
    ensures var due := Due(e.checks, e.amount, |e.checks|);
      Count(e.notices, Threshold) == |due| && Named(e.notices) == Keys(due) && Count(e.notices, Other) == 0
    ensures exists f :: 0 <= f < |e.checks| && IsFirst(e.checks, e.amount, 100, f)
                        && Time(e.checks[f].observedAt) <= Time(FirstAttempt(blocked)) <= Time(FirstAttempt(unblocked))
  {
    hide InOrder, Delivered, ObservedEnd, ReceiptsMatch, Due, FirstCrossing, Named, Count, Find, Keys;
    hide NoticeIds, Distinct, IsFirst, Cents;
    CountsAdd(e.notices);
    DueMeaning(e.checks, e.amount, 100);
    KeysSize(Due(e.checks, e.amount, |e.checks|));
    FindMeaning(e.notices, Blocked, blocked);
    FindMeaning(e.notices, Unblocked, unblocked);
  }

  lemma OperationsDiffer(notices: seq<Notice>, j: nat, k: nat)
    requires Distinct(Operations(notices)) && j < |notices| && k < |notices| && j != k
    ensures notices[j].operationId != notices[k].operationId
  {
    var (lo, hi) := (if j < k then j else k, if j < k then k else j);
    assert Operations(notices)[lo] != Operations(notices)[hi];
  }

  // And each receipt is of exactly one notice, received after its first attempt.
  lemma ReceiptOfOneNotice(e: Evidence, target: real, receipt: Receipt) returns (k: nat)
    requires Accepted(e, target) && receipt in e.receipts
    ensures k < |e.notices| && Follows(receipt, e.notices[k], ObservedEnd(e).value)
    ensures forall j :: 0 <= j < |e.notices| ==> (e.notices[j].operationId == receipt.operationId <==> j == k)
  {
    hide InOrder, Due, FirstCrossing, Named, Count, Keys, NoticeIds, Identified, BlockFollows, ObservedEnd, Follows,
      Distinct;
    hide Operations, Ids, Messages;
    k :| 0 <= k < |e.notices| && e.notices[k].operationId == receipt.operationId;
    assert Delivered(e.notices[k], Due(e.checks, e.amount, |e.checks|), e.receipts, ObservedEnd(e).value);
    forall j | 0 <= j < |e.notices| && j != k ensures e.notices[j].operationId != receipt.operationId {
      OperationsDiffer(e.notices, j, k);
    }
  }

  // ---- What an accepted record says, one fact at a time ----

  lemma {:induction false} CountZero(notices: seq<Notice>, kind: Kind)
    ensures Count(notices, kind) == 0 <==> forall n :: n in notices ==> n.kind != kind
  {
    if notices == [] {
    } else {
      var front, last := notices[..|notices| - 1], notices[|notices| - 1];
      assert notices == front + [last];
      CountZero(front, kind);
    }
  }

  lemma {:induction false} CountOne(notices: seq<Notice>, kind: Kind) returns (i: nat)
    requires Count(notices, kind) == 1
    ensures i < |notices| && OnlyOfKind(notices, kind, i)
  {
    var front, last := notices[..|notices| - 1], notices[|notices| - 1];
    if last.kind == kind {
      i := |front|;
      CountZero(front, kind);
      forall j | 0 <= j < |front| ensures notices[j].kind != kind {
        assert notices[j] == front[j] && front[j] in front;
      }
    } else {
      i := CountOne(front, kind);
      assert forall j :: 0 <= j < |front| ==> notices[j] == front[j];
    }
  }

  predicate OnlyOfKind(notices: seq<Notice>, kind: Kind, i: nat)
    requires i < |notices|
  {
    forall j :: 0 <= j < |notices| ==> (notices[j].kind == kind <==> j == i)
  }

  lemma {:induction false} NamedOnce(notices: seq<Notice>, i: nat)
    requires i < |notices| && notices[i].kind.Threshold?
    ensures Named(notices)[notices[i].threshold] >= 1
    ensures forall j ::
      0 <= j < |notices| && j != i && notices[j].kind.Threshold? && notices[j].threshold == notices[i].threshold ==>
      Named(notices)[notices[i].threshold] >= 2
  {
    var front, last := notices[..|notices| - 1], notices[|notices| - 1];
    if i < |front| {
      NamedOnce(front, i);
    } else {
      forall j | 0 <= j < |front| && notices[j].kind.Threshold? && notices[j].threshold == last.threshold
        ensures Named(notices)[last.threshold] >= 2
      {
        NamedOnce(front, j);
      }
    }
  }

  lemma {:induction false} IdsAgain(notices: seq<Notice>, id: string)
    ensures id in NoticeIds(notices) <==> exists n :: n in notices && n.id == id
    ensures |NoticeIds(notices)| == |notices|
  {
    if notices == [] {
    } else {
      var front, last := notices[..|notices| - 1], notices[|notices| - 1];
      assert notices == front + [last];
      IdsAgain(front, id);
    }
  }

  // Of the record as a whole: the amount, the checks in their order, and the two windows after them and each other.
  lemma AcceptedTimes(e: Evidence, target: real)
    requires Accepted(e, target)
    ensures target >= 0.0 && Cents(e.amount) == Cents(target) && Cents(e.amount).value >= 1 && |e.checks| >= 2
    ensures forall c :: c in e.checks ==> c.isTarget
    ensures forall k :: 0 <= k < |e.checks| ==>
      && e.checks[k].spend >= 0.0 && e.checks[k].through.At? && e.checks[k].observedAt.At?
      && e.checks[k].through.time <= e.checks[k].observedAt.time
    ensures forall j, k :: 0 <= j && k == j + 1 < |e.checks| ==>
      e.checks[j].through.time < e.checks[k].through.time && e.checks[j].observedAt.time < e.checks[k].observedAt.time
    ensures e.recheck.startedAt.At? && e.recheck.completedAt.At? && e.mailbox.startedAt.At? && e.mailbox.completedAt.At?
    ensures e.checks[|e.checks| - 1].observedAt.time <= e.recheck.startedAt.time < e.recheck.completedAt.time
         <= e.mailbox.startedAt.time < e.mailbox.completedAt.time
  {
    hide Due, Complete, BlockFollows, ReceiptsMatch, Delivered, Cents;
    CentsKnown(target);
    forall k | 0 <= k < |e.checks|
      ensures e.checks[k].spend >= 0.0 && e.checks[k].through.At? && e.checks[k].observedAt.At?
      ensures e.checks[k].through.time <= e.checks[k].observedAt.time
    {
      assert InOrder(e.checks, k);
    }
    forall j, k | 0 <= j && k == j + 1 < |e.checks|
      ensures e.checks[j].through.At? && e.checks[k].through.At?
      ensures e.checks[j].observedAt.At? && e.checks[k].observedAt.At?
      ensures e.checks[j].through.time < e.checks[k].through.time
      ensures e.checks[j].observedAt.time < e.checks[k].observedAt.time
    {
      assert InOrder(e.checks, j) && InOrder(e.checks, k);
    }
  }

  lemma CentsKnown(value: real)
    ensures Cents(value).Ok? <==> value >= 0.0
  {
  }

  // Of each notice: it is the target's, was sent, has an ID and an operation that no other has, and was first attempted
  // no later than it was sent, which was before the recheck; and the recheck found the same IDs.
  lemma AcceptedNotices(e: Evidence, target: real, n: Notice)
    requires Accepted(e, target)
    ensures n in e.notices ==>
      && n.isTarget && n.sent && n.id != "" && n.operationId != "" && n.sentAt.At? && !n.firstAttemptAt.Unreadable?
      && (n.firstAttemptAt.At? ==> n.firstAttemptAt.time <= n.sentAt.time)
      && e.recheck.startedAt.At? && n.sentAt.time <= e.recheck.startedAt.time
    ensures forall i, j :: 0 <= i < j < |e.notices| ==>
      e.notices[i].id != e.notices[j].id && e.notices[i].operationId != e.notices[j].operationId
    ensures forall id :: id in e.noticesAfterRecheck <==> exists m :: m in e.notices && m.id == id
    ensures |e.noticesAfterRecheck| == |e.notices|
  {
    hide Due, BlockFollows, ReceiptsMatch, InOrder, Cents, WindowEnd;
    NoticesDistinct(e.notices);
    IdsAgain(e.notices, "");
    assert |multiset(e.noticesAfterRecheck)| == |e.noticesAfterRecheck|;
    forall id ensures id in e.noticesAfterRecheck <==> exists m :: m in e.notices && m.id == id {
      IdsAgain(e.notices, id);
      assert id in multiset(e.noticesAfterRecheck) <==> id in e.noticesAfterRecheck;
    }
    if n in e.notices {
      var k :| 0 <= k < |e.notices| && e.notices[k] == n;
      assert Delivered(e.notices[k], Due(e.checks, e.amount, |e.checks|), e.receipts, ObservedEnd(e).value);
    }
  }

  lemma NoticesDistinct(notices: seq<Notice>)
    requires Distinct(Ids(notices)) && Distinct(Operations(notices))
    ensures forall i, j :: 0 <= i < j < |notices| ==>
      notices[i].id != notices[j].id && notices[i].operationId != notices[j].operationId
  {
    forall i, j | 0 <= i < j < |notices|
      ensures notices[i].id != notices[j].id && notices[i].operationId != notices[j].operationId
    {
      assert Ids(notices)[i] != Ids(notices)[j] && Operations(notices)[i] != Operations(notices)[j];
    }
  }

  // Of the kinds: one block, one unblock, no other kind, and no two threshold notices for one threshold.
  lemma AcceptedKinds(e: Evidence, target: real) returns (b: nat, u: nat)
    requires Accepted(e, target)
    ensures b < |e.notices| && OnlyOfKind(e.notices, Blocked, b) && u < |e.notices|
      && OnlyOfKind(e.notices, Unblocked, u)
    ensures forall n :: n in e.notices ==> n.kind != Other
    ensures forall i :: 0 <= i < |e.notices| && e.notices[i].kind == Threshold ==>
      e.notices[i].threshold in {Some(80), Some(100)}
    ensures forall i, j :: 0 <= i < j < |e.notices| && e.notices[i].kind == e.notices[j].kind == Threshold ==>
      e.notices[i].threshold != e.notices[j].threshold
  {
    hide Due, BlockFollows, ReceiptsMatch, InOrder, Cents, ObservedEnd, Identified, Delivered, Distinct, NoticeIds, Ids;
    hide Operations, OnlyOfKind, Named, Count;
    var due := Due(e.checks, e.amount, |e.checks|);
    CountsAdd(e.notices);
    AcceptedAmount(e, target);
    DueMeaning(e.checks, e.amount, 100);
    KeysSize(due);
    b := CountOne(e.notices, Blocked);
    u := CountOne(e.notices, Unblocked);
    CountZero(e.notices, Other);
    forall i | 0 <= i < |e.notices| && e.notices[i].kind == Threshold
      ensures e.notices[i].threshold in {Some(80), Some(100)}
      ensures forall j :: i < j < |e.notices| && e.notices[j].kind == Threshold ==>
        e.notices[i].threshold != e.notices[j].threshold
    {
      NamedOnce(e.notices, i);
    }
  }

  lemma AcceptedAmount(e: Evidence, target: real)
    requires Accepted(e, target)
    ensures e.amount >= 0.0
  {
  }

  lemma MessagesDistinct(receipts: seq<Receipt>)
    requires Distinct(Messages(receipts))
    ensures forall i, j :: 0 <= i < j < |receipts| ==> receipts[i].messageId != receipts[j].messageId
  {
    forall i, j | 0 <= i < j < |receipts| ensures receipts[i].messageId != receipts[j].messageId {
      assert Messages(receipts)[i] != Messages(receipts)[j];
    }
  }

  // Of the receipts: no message counts twice, and each is of a notice.
  lemma AcceptedReceipts(e: Evidence, target: real)
    requires Accepted(e, target)
    ensures forall i, j :: 0 <= i < j < |e.receipts| ==> e.receipts[i].messageId != e.receipts[j].messageId
    ensures forall r :: r in e.receipts ==> exists m :: m in e.notices && m.operationId == r.operationId
  {
    hide Due, BlockFollows, InOrder, Identified, Complete, ObservedEnd, Delivered, Distinct, Messages;
    MessagesDistinct(e.receipts);
  }

  // Each notice has one.
  lemma AcceptedReceived(e: Evidence, target: real, n: Notice) returns (r: Receipt)
    requires Accepted(e, target) && n in e.notices
    ensures r in e.receipts && r.operationId == n.operationId
  {
    hide Due, BlockFollows, InOrder, Identified, Complete, ObservedEnd, Follows, FirstAttempt, ReceiptsMatch;
    var k :| 0 <= k < |e.notices| && e.notices[k] == n;
    assert Delivered(e.notices[k], Due(e.checks, e.amount, |e.checks|), e.receipts, ObservedEnd(e).value);
    r :| r in e.receipts && r.operationId == n.operationId;
  }

  // And each receipt has come in between the first attempt of its notice and the end of the mailbox's window.
  lemma AcceptedInTime(e: Evidence, target: real, n: Notice, r: Receipt)
    requires Accepted(e, target) && n in e.notices && r in e.receipts && r.operationId == n.operationId
    ensures r.messageId != "" && r.receivedAt.At? && e.mailbox.completedAt.At?
    ensures r.receivedAt.time <= e.mailbox.completedAt.time
    ensures n.firstAttemptAt.At? ==> n.firstAttemptAt.time <= r.receivedAt.time
    ensures n.firstAttemptAt.Missing? && n.sentAt.At? ==> n.sentAt.time <= r.receivedAt.time
  {
    hide Due, BlockFollows, InOrder, Cents, Identified, Complete, ReceiptsMatch;
    var k :| 0 <= k < |e.notices| && e.notices[k] == n;
    assert Delivered(e.notices[k], Due(e.checks, e.amount, |e.checks|), e.receipts, ObservedEnd(e).value);
    assert Follows(r, n, ObservedEnd(e).value);
  }

  // A check crosses 80 percent when its spend, in rounded cents, is no less than four fifths of the amount, in rounded
  // cents; and 100 percent when it is no less than the amount.
  lemma CrossingMeaning(check: Check, amount: real)
    requires amount >= 0.0 && check.spend >= 0.0
    ensures Crosses(check, amount, 100) <==> Cents(check.spend).value >= Cents(amount).value
    ensures Crosses(check, amount, 80) <==> Cents(check.spend).value >= Cents(amount * 4.0 / 5.0).value
  {
    assert Limit(amount, 100) == amount && Limit(amount, 80) == amount * 4.0 / 5.0;
  }

  // ---- A record that is accepted ----

  const SAMPLE_CHECKS := [Check(true, 5.0, At(1), At(2)), Check(true, 8.0, At(3), At(4)),
                          Check(true, 10.0, At(5), At(6))]

  const SAMPLE_NOTICES := [
    Notice(true, "a", Threshold, Some(80), true, "p", At(5), At(4)),
    Notice(true, "b", Threshold, Some(100), true, "q", At(7), Missing),
    Notice(true, "c", Blocked, None, true, "r", At(7), At(6)),
    Notice(true, "d", Unblocked, None, true, "s", At(8), Missing)]

  const SAMPLE_RECEIPTS := [
    Receipt("p", "1", At(4)), Receipt("q", "2", At(7)), Receipt("r", "3", At(14)), Receipt("s", "4", At(9)),
    Receipt("s", "5", At(8))]

  const SAMPLE := Evidence(10.0, SAMPLE_CHECKS, SAMPLE_NOTICES, ["d", "c", "b", "a"], Window(At(8), At(9)),
                           Window(At(9), At(14)), SAMPLE_RECEIPTS)

  lemma SampleDue()
    ensures Due(SAMPLE_CHECKS, 10.0, 3) == map[80 := 4, 100 := 6]
    ensures forall k :: 0 <= k < 3 ==> InOrder(SAMPLE_CHECKS, k)
  {
    CentsMeaning(5.0, 500, 0.0);
    CentsMeaning(8.0, 800, 0.0);
    CentsMeaning(10.0, 1000, 0.0);
    CrossingMeaning(SAMPLE_CHECKS[0], 10.0);
    CrossingMeaning(SAMPLE_CHECKS[1], 10.0);
    CrossingMeaning(SAMPLE_CHECKS[2], 10.0);
    hide Cents, Crosses, Limit;
    assert FirstCrossing(SAMPLE_CHECKS, 10.0, 80, 1) == 1 && FirstCrossing(SAMPLE_CHECKS, 10.0, 100, 1) == 1;
    assert FirstCrossing(SAMPLE_CHECKS, 10.0, 80, 2) == 1 && FirstCrossing(SAMPLE_CHECKS, 10.0, 100, 2) == 2;
  }

  lemma CountNext(front: seq<Notice>, n: Notice, kind: Kind)
    ensures Count(front + [n], kind) == Count(front, kind) + if n.kind == kind then 1 else 0
    ensures Find(front + [n], kind)
         == if Find(front, kind).Some? then Find(front, kind) else if n.kind == kind then Some(n) else None
  {
    assert (front + [n])[..|front|] == front;
  }

  lemma NamedNext(front: seq<Notice>, n: Notice)
    ensures Named(front + [n]) == Named(front) + if n.kind == Threshold then multiset{n.threshold} else multiset{}
    ensures NoticeIds(front + [n]) == NoticeIds(front) + multiset{n.id}
  {
    assert (front + [n])[..|front|] == front;
  }

  // Two threshold notices, a block and an unblock.
  lemma FourNotices(s: seq<Notice>, a: Notice, b: Notice, c: Notice, d: Notice, kind: Kind)
    requires s == [a] + [b] + [c] + [d] && a.kind == b.kind == Threshold && c.kind == Blocked && d.kind == Unblocked
    requires kind in {Blocked, Unblocked}
    ensures Count(s, kind) == 1 && Find(s, kind) == Some(if kind == Blocked then c else d)
  {
    assert Count([], kind) == 0 && Find([], kind) == None;
    hide Count, Find;
    var (one, two) := ([] + [a], [] + [a] + [b]);
    CountNext([], a, kind);
    CountNext(one, b, kind);
    CountNext(two, c, kind);
    CountNext(two + [c], d, kind);
    assert s == two + [c] + [d];
  }

  lemma FourNames(s: seq<Notice>, a: Notice, b: Notice, c: Notice, d: Notice)
    requires s == [a] + [b] + [c] + [d] && a.kind == b.kind == Threshold && c.kind == Blocked && d.kind == Unblocked
    ensures Named(s) == multiset{a.threshold} + multiset{b.threshold}
    ensures NoticeIds(s) == multiset{a.id} + multiset{b.id} + multiset{c.id} + multiset{d.id}
  {
    assert Named([]) == multiset{} && NoticeIds([]) == multiset{};
    hide Named, NoticeIds;
    var (one, two) := ([] + [a], [] + [a] + [b]);
    NamedNext([], a);
    NamedNext(one, b);
    NamedNext(two, c);
    NamedNext(two + [c], d);
    assert s == two + [c] + [d];
  }

  lemma SampleKinds(kind: Kind)
    requires kind in {Blocked, Unblocked}
    ensures Named(SAMPLE_NOTICES) == multiset{Some(80), Some(100)} && Count(SAMPLE_NOTICES, kind) == 1
    ensures Find(SAMPLE_NOTICES, kind) == Some(SAMPLE_NOTICES[if kind == Blocked then 2 else 3])
    ensures NoticeIds(SAMPLE_NOTICES) == multiset{"a", "b", "c", "d"}
  {
    hide Named, Count, Find, NoticeIds;
    var (a, b, c, d) := (SAMPLE_NOTICES[0], SAMPLE_NOTICES[1], SAMPLE_NOTICES[2], SAMPLE_NOTICES[3]);
    assert SAMPLE_NOTICES == [a] + [b] + [c] + [d];
    FourNotices(SAMPLE_NOTICES, a, b, c, d, kind);
    FourNames(SAMPLE_NOTICES, a, b, c, d);
  }

  lemma SampleDelivered(k: nat)
    requires k < 4
    ensures Delivered(SAMPLE_NOTICES[k], map[80 := 4, 100 := 6], SAMPLE_RECEIPTS, 14)
  {
    assert SAMPLE_RECEIPTS[k] in SAMPLE_RECEIPTS && SAMPLE_RECEIPTS[k].operationId == SAMPLE_NOTICES[k].operationId;
  }

  lemma SampleIdentified()
    ensures Identified(SAMPLE, 10.0)
  {
    CentsMeaning(10.0, 1000, 0.0);
    hide Cents;
  }

  lemma SampleDistinct()
    ensures Distinct(Ids(SAMPLE_NOTICES)) && Distinct(Operations(SAMPLE_NOTICES))
    ensures forall n :: n in SAMPLE_NOTICES ==> n.sent && n.operationId != "" && n.id != ""
    ensures multiset(SAMPLE.noticesAfterRecheck) == multiset{"a", "b", "c", "d"}
  {
    var (ids, operations) := (Ids(SAMPLE_NOTICES), Operations(SAMPLE_NOTICES));
    assert ids == ["a", "b", "c", "d"] && operations == ["p", "q", "r", "s"];
  }

  lemma IsComplete(e: Evidence, due: map<int, int>)
    requires |e.notices| == 4 && due.Keys == {80, 100}
    requires Named(e.notices) == multiset{Some(80), Some(100)}
    requires Count(e.notices, Blocked) == Count(e.notices, Unblocked) == 1
    requires Distinct(Ids(e.notices)) && Distinct(Operations(e.notices))
    requires forall n :: n in e.notices ==> n.sent && n.operationId != "" && n.id != ""
    requires NoticeIds(e.notices) == multiset(e.noticesAfterRecheck)
    ensures Complete(e, due)
  {
    hide Named, Count, NoticeIds, Ids, Operations, Distinct;
    KeysSize(due);
  }

  lemma SampleComplete(due: map<int, int>)
    requires due.Keys == {80, 100}
    ensures Complete(SAMPLE, due)
  {
    SampleKinds(Blocked);
    SampleKinds(Unblocked);
    SampleDistinct();
    hide Named, Count, Find, NoticeIds, Ids, Operations, Distinct, Complete;
    IsComplete(SAMPLE, due);
  }

  lemma SampleBlocks()
    ensures BlockFollows(SAMPLE, map[80 := 4, 100 := 6])
  {
    SampleKinds(Blocked);
    SampleKinds(Unblocked);
    hide Find, Named, Count, NoticeIds;
  }

  lemma SampleEnds()
    ensures ObservedEnd(SAMPLE) == Ok(14)
  {
  }

  lemma SampleReceipts()
    ensures ReceiptsMatch(SAMPLE)
  {
    assert Messages(SAMPLE_RECEIPTS) == ["1", "2", "3", "4", "5"];
    assert SAMPLE_NOTICES[0] in SAMPLE_NOTICES && SAMPLE_NOTICES[1] in SAMPLE_NOTICES;
    assert SAMPLE_NOTICES[2] in SAMPLE_NOTICES && SAMPLE_NOTICES[3] in SAMPLE_NOTICES;
  }

  // Its budget was crossed in two steps and then lifted; the notices went out in time, one of them at a second attempt,
  // and one was received twice.
  lemma SampleAccepted()
    ensures Accepted(SAMPLE, 10.0)
  {
    SampleDue();
    SampleIdentified();
    SampleComplete(map[80 := 4, 100 := 6]);
    SampleBlocks();
    SampleEnds();
    SampleReceipts();
    SampleAllDelivered();
    hide Due, Delivered, InOrder, Identified, Complete, BlockFollows, ObservedEnd, ReceiptsMatch, Accepted;
    assert SAMPLE.checks == SAMPLE_CHECKS && SAMPLE.notices == SAMPLE_NOTICES && SAMPLE.receipts == SAMPLE_RECEIPTS;
    assert SAMPLE.amount == 10.0 && |SAMPLE_CHECKS| == 3;
    hide SAMPLE, SAMPLE_CHECKS, SAMPLE_NOTICES, SAMPLE_RECEIPTS;
    IsAccepted(SAMPLE, 10.0, map[80 := 4, 100 := 6], 14);
  }

  lemma SampleAllDelivered()
    ensures forall k :: 0 <= k < |SAMPLE_NOTICES| ==>
      Delivered(SAMPLE_NOTICES[k], map[80 := 4, 100 := 6], SAMPLE_RECEIPTS, 14)
  {
    forall k | 0 <= k < |SAMPLE_NOTICES|
      ensures Delivered(SAMPLE_NOTICES[k], map[80 := 4, 100 := 6], SAMPLE_RECEIPTS, 14)
    {
      SampleDelivered(k);
    }
  }

  lemma IsAccepted(e: Evidence, target: real, due: map<int, int>, end: int)
    requires due == Due(e.checks, e.amount, |e.checks|) && 100 in due && ObservedEnd(e) == Ok(end)
    requires Identified(e, target) && Complete(e, due) && BlockFollows(e, due) && ReceiptsMatch(e)
    requires forall k :: 0 <= k < |e.checks| ==> InOrder(e.checks, k)
    requires forall k :: 0 <= k < |e.notices| ==> Delivered(e.notices[k], due, e.receipts, end)
    ensures Accepted(e, target)
  {
    hide Due, Delivered, InOrder, Identified, Complete, BlockFollows, ObservedEnd, ReceiptsMatch;
  }
}
