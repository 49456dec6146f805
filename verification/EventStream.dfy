// Reading the answer to a request from an event stream, line by line and within a budget.
module EventStream {
  import opened Wrappers

  const MAX_RESPONSE_BYTES := 1024 * 1024

  // The message that an event's text holds answers the request: what JSON parsing and the request's ID decide.
  type Answers = string -> bool

  datatype Outcome = Found(text: string) | TooLong | Unanswered

  // ---- Lines ----

  // The place of the first colon, or the end.
  function Colon(line: string): (i: nat)
    ensures i <= |line| && (forall k :: 0 <= k < i ==> line[k] != ':') && (i < |line| ==> line[i] == ':')
  {
    if line == "" || line[0] == ':' then 0 else 1 + Colon(line[1..])
  }

  function RemoveSpace(value: string): string {
    if value != "" && value[0] == ' ' then value[1..] else value
  }

  // The value of a data line; comments and other fields have none.
  function Data(line: string): Option<string> {
    var i := Colon(line);
    if i == 0 || line[..i] != "data" then None
    else Some(RemoveSpace(if i < |line| then line[i + 1..] else ""))
  }

  // A data line is the field's name alone, or the name, a colon, at most one space that does not count, and the value.
  lemma DataMeaning(line: string, value: string)
    ensures Data(line) == Some(value) <==>
      (line == "data" && value == "") || line == "data: " + value
      || (line == "data:" + value && (value == "" || value[0] != ' '))
  {
    hide Colon;
    if line == "data" {
      ColonAt(line, 4);
    } else if line == "data: " + value || line == "data:" + value {
      ColonAt(line, 4);
      assert line[5..] == if line == "data: " + value then " " + value else value;
    }
  }

  lemma ColonAt(line: string, i: nat)
    requires i <= |line| && (forall k :: 0 <= k < i ==> line[k] != ':') && (i < |line| ==> line[i] == ':')
    ensures Colon(line) == i
  {
  }

  // ---- Events ----

  // The values of the data lines among lines i to e.
  function AllData(lines: seq<string>, i: nat, e: nat): seq<string>
    requires i <= e <= |lines|
  {
    if i == e then []
    else
      var last := Data(lines[e - 1]);
      AllData(lines, i, e - 1) + if last.Some? then [last.value] else []
  }

  function Join(data: seq<string>): string {
    if data == [] then "" else if |data| == 1 then data[0] else Join(data[..|data| - 1]) + "\n" + data[|data| - 1]
  }

  // The values of the lines stand one after another, with a line break between any two.
  lemma {:induction false} JoinMeaning(front: seq<string>, value: string, back: seq<string>)
    ensures Join([]) == "" && Join([value]) == value
    ensures front != [] && back != [] ==> Join(front + back) == Join(front) + "\n" + Join(back)
  {
    if |back| <= 1 {
      assert front != [] && back != [] ==> (front + back)[..|front + back| - 1] == front;
    } else {
      var rest, last := back[..|back| - 1], back[|back| - 1];
      JoinMeaning(front, value, rest);
      assert (front + back)[..|front + back| - 1] == front + rest;
      if front != [] {
        assert Join(front + back) == Join(front) + "\n" + Join(rest) + "\n" + last;
        assert Join(back) == Join(rest) + "\n" + last;
      }
    }
  }

  // Lines i to e are an event: a blank line, or an end of the stream, is on either side, and none is within.
  predicate IsEvent(lines: seq<string>, i: nat, e: nat) {
    && i <= e <= |lines| && (i == 0 || lines[i - 1] == "") && (e == |lines| || lines[e] == "")
    && forall k :: i <= k < e ==> lines[k] != ""
  }

  // An event with data whose text answers.
  predicate Answering(lines: seq<string>, i: nat, e: nat, answers: Answers) {
    IsEvent(lines, i, e) && AllData(lines, i, e) != [] && answers(Join(AllData(lines, i, e)))
  }

  // Characters and line ends in the first k lines.
  function Cost(lines: seq<string>, k: nat): nat
    requires k <= |lines|
  {
    if k == 0 then 0 else Cost(lines, k - 1) + |lines[k - 1]| + 1
  }

  // What is read by the time that an event ending at e is complete: its blank line too, if it has one.
  function Read(lines: seq<string>, e: nat): nat
    requires e <= |lines|
  {
    Cost(lines, if e < |lines| then e + 1 else e)
  }

  // The event from i to e is the first that answers.
  ghost predicate IsFirst(lines: seq<string>, i: nat, e: nat, answers: Answers) {
    Answering(lines, i, e, answers) && forall j: nat, f: nat :: f < e ==> !Answering(lines, j, f, answers)
  }

  // What a reader should make of a stream: the first event that answers, if the budget lasts until it is complete.
  // Otherwise the stream is too long, or, if the budget lasts to its end, does not answer.
  ghost predicate Means(lines: seq<string>, answers: Answers, r: Outcome) {
    match r
    case Found(text) =>
      exists i: nat, e: nat :: IsFirst(lines, i, e, answers) && text == Join(AllData(lines, i, e))
                               && Read(lines, e) <= 1_048_576
    case TooLong =>
      && Cost(lines, |lines|) > 1_048_576
      && forall i: nat, e: nat :: Answering(lines, i, e, answers) ==> Read(lines, e) > 1_048_576
    case Unanswered =>
      && Cost(lines, |lines|) <= 1_048_576
      && forall i: nat, e: nat :: !Answering(lines, i, e, answers)
  }

  lemma {:induction false} CostGrows(lines: seq<string>, j: nat, k: nat)
    requires j <= k <= |lines|
    ensures Cost(lines, j) <= Cost(lines, k)
  {
    if j == k {
    } else {
      CostGrows(lines, j, k - 1);
    }
  }

  // Events that end at one place start at one place.
  lemma EventStart(lines: seq<string>, i: nat, j: nat, e: nat)
    requires IsEvent(lines, i, e) && IsEvent(lines, j, e)
    ensures i == j
  {
  }

  // Every stream means exactly one outcome.
  lemma MeaningIsUnique(lines: seq<string>, answers: Answers, r: Outcome, s: Outcome)
    requires Means(lines, answers, r) && Means(lines, answers, s)
    ensures r == s
  {
    if r.Found? && s.Found? {
      var i: nat, e: nat :| IsFirst(lines, i, e, answers) && r.text == Join(AllData(lines, i, e));
      var j: nat, f: nat :| IsFirst(lines, j, f, answers) && s.text == Join(AllData(lines, j, f));
      assert e == f;
      EventStart(lines, i, j, e);
    }
  }

  // ---- The reader ----

  // What a blank line, or the end of the stream, does with the data so far.
  method Dispatch(data: seq<string>, answers: Answers) returns (found: Option<string>)
    ensures found == if data != [] && answers(Join(data)) then Some(Join(data)) else None
  {
    if data == [] || !answers(Join(data)) {
      return None;
    }
    return Some(Join(data));
  }

  method ReadEventStream(lines: seq<string>, answers: Answers) returns (r: Outcome)
    ensures Means(lines, answers, r)
  {
    hide Data, Join;
    var data: seq<string> := [];
    var budget := MAX_RESPONSE_BYTES;
    ghost var start := 0;
    for k := 0 to |lines|
      invariant budget == MAX_RESPONSE_BYTES - Cost(lines, k) >= 0
      invariant start <= k && (start == 0 || lines[start - 1] == "") && (forall j :: start <= j < k ==> lines[j] != "")
      invariant data == AllData(lines, start, k)
      invariant forall i: nat, e: nat :: e < k ==> !Answering(lines, i, e, answers)
    {
      var line := lines[k];
      budget := budget - (|line| + 1);
      if budget < 0 {
        forall i: nat, e: nat | Answering(lines, i, e, answers) ensures Read(lines, e) > MAX_RESPONSE_BYTES {
          CostGrows(lines, k + 1, if e < |lines| then e + 1 else e);
        }
        CostGrows(lines, k + 1, |lines|);
        return TooLong;
      }
      if line == "" {
        OnlyEvent(lines, start, k, answers);
        var found := Dispatch(data, answers);
        if found.Some? {
          assert IsFirst(lines, start, k, answers);
          return Found(found.value);
        }
        data, start := [], k + 1;
      } else {
        var value := Data(line);
        if value.Some? {
          data := data + [value.value];
        }
      }
    }
    OnlyEvent(lines, start, |lines|, answers);
    var found := Dispatch(data, answers);
    if found.Some? {
      assert IsFirst(lines, start, |lines|, answers);
      return Found(found.value);
    }
    return Unanswered;
  }

  // Where an event ends, whether it answers is whether any event that ends there does.
  lemma OnlyEvent(lines: seq<string>, start: nat, e: nat, answers: Answers)
    requires IsEvent(lines, start, e)
    ensures Answering(lines, start, e, answers)
      <==> AllData(lines, start, e) != [] && answers(Join(AllData(lines, start, e)))
    ensures !Answering(lines, start, e, answers) ==> forall i: nat :: !Answering(lines, i, e, answers)
  {
    forall i: nat | IsEvent(lines, i, e) ensures i == start {
      EventStart(lines, i, start, e);
    }
  }

  // ---- The last event ----

  lemma {:induction false} AllDataPrefix(lines: seq<string>, more: seq<string>, i: nat, e: nat)
    requires i <= e <= |lines|
    ensures AllData(lines + more, i, e) == AllData(lines, i, e)
  {
    if i == e {
    } else {
      AllDataPrefix(lines, more, i, e - 1);
    }
  }

  // The last event need not be followed by a blank line: adding one changes no event that answers.
  lemma LastEventNeedsNoBlank(lines: seq<string>, answers: Answers, i: nat, e: nat)
    ensures Answering(lines + [""], i, e, answers) <==> Answering(lines, i, e, answers)
  {
    var more := lines + [""];
    if i <= e <= |lines| {
      AllDataPrefix(lines, [""], i, e);
      assert forall k :: 0 <= k < |lines| ==> more[k] == lines[k];
      assert IsEvent(more, i, e) <==> IsEvent(lines, i, e);
    }
  }

  lemma {:induction false} CostPrefix(lines: seq<string>, more: seq<string>, k: nat)
    requires k <= |lines|
    ensures Cost(lines + more, k) == Cost(lines, k)
  {
    if k == 0 {
    } else {
      CostPrefix(lines, more, k - 1);
    }
  }

  // Before an event's first line nothing answers that does not answer in the whole stream.
  lemma CutOff(lines: seq<string>, i: nat, answers: Answers, j: nat, f: nat)
    requires i <= |lines| && (i == 0 || lines[i - 1] == "") && Answering(lines[..i], j, f, answers)
    ensures f < |lines| && Answering(lines, j, f, answers)
  {
    assert lines == lines[..i] + lines[i..];
    AllDataPrefix(lines[..i], lines[i..], j, f);
  }

  // Section 9.2.6 of the WHATWG HTML standard discards an event that the stream ends within. This reader returns it,
  // when it is the first to answer and the budget lasts; as the standard reads the same stream, nothing answers.
  lemma UnterminatedEventCounts(lines: seq<string>, i: nat, answers: Answers)
    requires IsFirst(lines, i, |lines|, answers)
    ensures Means(lines, answers,
                  if Cost(lines, |lines|) <= MAX_RESPONSE_BYTES then Found(Join(AllData(lines, i, |lines|)))
                                  else TooLong)
    ensures Cost(lines, |lines|) <= MAX_RESPONSE_BYTES ==> Means(lines[..i], answers, Unanswered)
  {
    assert Read(lines, |lines|) == Cost(lines, |lines|);
    assert lines == lines[..i] + lines[i..];
    CostPrefix(lines[..i], lines[i..], i);
    CostGrows(lines, i, |lines|);
    forall j: nat, f: nat ensures !Answering(lines[..i], j, f, answers) {
      if Answering(lines[..i], j, f, answers) {
        CutOff(lines, i, answers, j, f);
      }
    }
  }
}
