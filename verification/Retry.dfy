/** One call to the control plane: how often and how long it is tried. */
module Retry {
  import opened Wrappers

  const FRAME_RETRY_SECONDS: real := 25.0
  const DEFAULT_SECONDS: real := 15.0
  const MAX_REQUESTS: nat := 9

  /** What the network does with a request: how long it takes, then an answer (with
      its Retry-After, 0 if there is none to read) or a transport error. `late`: by
      how much the sleep after it lasts longer than asked for. */
  datatype Try = Try(latency: real, answer: Option<(int, real)>, late: real)

  datatype Result = Data(status: int) | Rejected(status: int) | Broken | Deadline

  function Min(a: real, b: real): real {
    if a <= b then a else b
  }

  function Max(a: real, b: real): real {
    if a >= b then a else b
  }

  /** How long to sleep: never past the deadline. */
  function Asleep(wait: real, remaining: real): (s: real)
    ensures remaining >= 0.0 ==> s <= remaining && (s == wait || s == remaining)
  {
    Min(wait, Max(0.0, remaining))
  }

  function Limit(retry: bool, budget: Option<real>): real {
    if retry then FRAME_RETRY_SECONDS
    else if budget.Some? && budget.value != 0.0 then budget.value
    else DEFAULT_SECONDS
  }

  function Delay(n: nat): real {
    if n == 0 then 0.5 else Min(Delay(n - 1) * 2.0, 4.0)
  }

  /** The least time that `n` retries take. */
  function Elapsed(n: nat): real {
    if n == 0 then 0.0 else Elapsed(n - 1) + Delay(n - 1)
  }

  predicate Again(t: Try, retry: bool) {
    retry && (t.answer.None? || t.answer.value.0 in [429, 502, 503, 504])
  }

  function Verdict(t: Try): Result {
    if t.answer.None? then Broken
    else if 200 <= t.answer.value.0 < 300 then Data(t.answer.value.0)
    else Rejected(t.answer.value.0)
  }

  /** To wait for the delay, or for as long as the answer asks, whichever is longer. */
  predicate IsWait(t: Try, delay: real, wait: real) {
    wait == if t.answer.Some? && t.answer.value.1 > delay then t.answer.value.1 else delay
  }

  lemma NineFit()
    ensures Elapsed(MAX_REQUESTS) > FRAME_RETRY_SECONDS
  {}

  lemma FirstDelay()
    ensures Delay(0) == 0.5 && Elapsed(0) == 0.0
  {}

  lemma NextDelay(n: nat)
    ensures Delay(n + 1) == Min(Delay(n) * 2.0, 4.0)
  {}

  /** What the network does with the first requests; more than these are never made. */
  ghost predicate Sane(net: seq<Try>) {
    |net| >= MAX_REQUESTS && forall n :: 0 <= n < |net| ==> net[n].latency >= 0.0 && net[n].late >= 0.0
  }

  lemma NotNegative(net: seq<Try>, n: nat)
    requires Sane(net) && n < |net|
    ensures net[n].latency >= 0.0 && net[n].late >= 0.0
  {}

  /** No sleep is meant to last past the deadline. */
  ghost predicate InTime(wakes: seq<real>, deadline: real) {
    forall i :: 0 <= i < |wakes| ==> wakes[i] <= deadline
  }

  lemma AlsoInTime(wakes: seq<real>, deadline: real, wake: real)
    requires InTime(wakes, deadline)
    ensures wake <= deadline ==> InTime(wakes + [wake], deadline)
  {}

  /** Each request starts before the deadline. */
  ghost predicate Before(starts: seq<real>, deadline: real) {
    forall i :: 0 <= i < |starts| ==> starts[i] < deadline
  }

  /** A request follows exactly a failure that is worth it, no sooner than the delay. */
  ghost predicate Spaced(net: seq<Try>, retry: bool, starts: seq<real>) {
    |starts| <= |net| && forall i :: 0 <= i < |starts| - 1 ==>
        Again(net[i], retry) && starts[i + 1] >= starts[i] + Delay(i)
  }

  /** The same, as far as the next request, which would start at `now`. */
  ghost predicate Ready(net: seq<Try>, retry: bool, start: real, deadline: real, starts: seq<real>, now: real) {
    && Spaced(net, retry, starts)
    && (now < deadline ==> now >= start + Elapsed(|starts|))
    && (starts == [] ==> now == start)
    && (starts != [] ==> starts[0] == start && Again(net[|starts| - 1], retry))
    && (starts != [] && now < deadline ==> now >= starts[|starts| - 1] + Delay(|starts| - 1))
    && Before(starts, deadline)
  }

  lemma Sent(net: seq<Try>, retry: bool, start: real, deadline: real, starts: seq<real>, now: real)
    requires Ready(net, retry, start, deadline, starts, now) && now < deadline && |starts| < |net|
    ensures var more := starts + [now];
            && Spaced(net, retry, more) && more[0] == start
            && Before(more, deadline)
  {}

  lemma Waited(net: seq<Try>, retry: bool, start: real, deadline: real, starts: seq<real>, now: real, later: real)
    requires Sane(net) && Ready(net, retry, start, deadline, starts, now) && now < deadline && |starts| < |net|
    requires Again(net[|starts|], retry)
    requires later >= deadline || later >= now + Delay(|starts|)
    ensures Ready(net, retry, start, deadline, starts + [now], later)
  {}

  lemma ReadyMeans(net: seq<Try>, retry: bool, start: real, deadline: real, starts: seq<real>, now: real)
    requires Ready(net, retry, start, deadline, starts, now)
    ensures Spaced(net, retry, starts) && (starts == [] ==> now == start) && (starts != [] ==> starts[0] == start)
    ensures Before(starts, deadline)
    ensures |starts| >= MAX_REQUESTS && now < deadline ==>
              deadline > start + FRAME_RETRY_SECONDS || |starts| > MAX_REQUESTS
  {
    NineFit();
    hide Spaced, Delay, Again;
  }

  /** What is known of one request. */
  ghost predicate Told(t: Try, remaining: real, retry: bool, delay: real, result: Option<Result>, wait: real) {
    && result == (if t.latency >= remaining then Some(Deadline)
                  else if Again(t, retry) then None else Some(Verdict(t)))
    && (result == None ==> IsWait(t, delay, wait))
  }

  lemma ToldAgain(t: Try, remaining: real, retry: bool, delay: real, wait: real)
    requires Told(t, remaining, retry, delay, None, wait)
    ensures retry
  {}

  /** One request, of which at most `remaining` seconds are waited for; `None`: again
      after `wait`. */
  method Attempt(t: Try, remaining: real, retry: bool, delay: real) returns (result: Option<Result>, wait: real)
    ensures Told(t, remaining, retry, delay, result, wait)
  {
    wait := delay;
    if t.latency >= remaining {
      return Some(Deadline), wait;
    }
    if t.answer.Some? {
      if !(retry && t.answer.value.0 in [429, 502, 503, 504]) {
        return Some(Verdict(t)), wait;
      }
      wait := Max(delay, t.answer.value.1);
    } else if !retry {
      return Some(Broken), wait;
    }
    result := None;
  }

  /** Until when to sleep after a request that failed: for that time, but not past the
      deadline. */
  ghost predicate IsWake(t: Try, sent: real, delay: real, deadline: real, wake: real) {
    && wake <= deadline
    && (wake < deadline ==> IsWait(t, delay, wake - sent - t.latency))
    && (wake == deadline ==> exists wait :: IsWait(t, delay, wait) && sent + t.latency + wait >= deadline)
  }

  /** What is known of the sleep after a request sent at `now`. */
  ghost predicate Slept(t: Try, now: real, delay: real, deadline: real, wake: real, later: real) {
    && t.latency < deadline - now && IsWake(t, now, delay, deadline, wake) && later == wake + t.late
    && (later >= deadline || later >= now + delay)
  }

  /** Until the next request or the deadline, and as much longer as it takes to wake. */
  method Sleep(t: Try, now: real, wait: real, delay: real, deadline: real, ghost retry: bool)
    returns (wake: real, later: real)
    requires t.latency >= 0.0 && t.late >= 0.0 && Told(t, deadline - now, retry, delay, None, wait)
    ensures Slept(t, now, delay, deadline, wake, later)
  {
    var failed := now + t.latency;
    wake := failed + Asleep(wait, deadline - failed);
    later := wake + t.late;
    assert wake < deadline ==> wake - now - t.latency == wait;
  }

  /** An answer ends it when it comes in time and is not worth another request;
      otherwise the deadline does, during a request or after a sleep. */
  ghost predicate Explained(net: seq<Try>, retry: bool, deadline: real, result: Result,
                            starts: seq<real>, wakes: seq<real>)
    requires |starts| <= |net|
  {
    if starts == [] then result == Deadline && wakes == []
    else
      var n := |starts| - 1;
      var t := net[n];
      var late := starts[n] + t.latency >= deadline;
      if |wakes| == n then
        if late then result == Deadline else !Again(t, retry) && result == Verdict(t)
      else
        !late && Again(t, retry) && result == Deadline && |wakes| == n + 1 && wakes[n] + t.late >= deadline
  }

  lemma Answered(net: seq<Try>, retry: bool, deadline: real, starts: seq<real>, wakes: seq<real>)
    requires starts != [] && |starts| <= |net| && |wakes| == |starts| - 1
    ensures var t := net[|starts| - 1];
            var late := t.latency >= deadline - starts[|starts| - 1];
            late || !Again(t, retry) ==>
              Explained(net, retry, deadline, if late then Deadline else Verdict(t), starts, wakes)
  {}

  lemma SleptOver(net: seq<Try>, retry: bool, deadline: real, starts: seq<real>, wakes: seq<real>)
    requires starts != [] && |starts| <= |net| && |wakes| == |starts|
    requires var t := net[|starts| - 1]; t.latency < deadline - starts[|starts| - 1] && Again(t, retry)
    ensures wakes[|wakes| - 1] + net[|starts| - 1].late >= deadline ==>
              Explained(net, retry, deadline, Deadline, starts, wakes)
  {}

  /** Each sleep lasts as long as it should, and the next request follows at once. */
  ghost predicate Honoured(net: seq<Try>, deadline: real, starts: seq<real>, wakes: seq<real>) {
    && |wakes| <= |starts| <= |net|
    && (forall i :: 0 <= i < |wakes| ==> IsWake(net[i], starts[i], Delay(i), deadline, wakes[i]))
    && (forall i :: 0 <= i < |wakes| && i + 1 < |starts| ==> starts[i + 1] == wakes[i] + net[i].late)
  }

  /** A sleep ends at the deadline, or after the delay and the time the answer asks for,
      and no later than that. */
  lemma SleepsLongEnough(net: seq<Try>, deadline: real, starts: seq<real>, wakes: seq<real>, i: nat)
    requires Honoured(net, deadline, starts, wakes) && i < |wakes|
    ensures var failed, wake, answer := starts[i] + net[i].latency, wakes[i], net[i].answer;
            var last := failed + Delay(i) >= wake || (answer.Some? && failed + answer.value.1 >= wake);
            && wake <= deadline && last
            && (wake < deadline ==> wake >= failed + Delay(i) && (answer.Some? ==> wake >= failed + answer.value.1))
  {
    assert IsWake(net[i], starts[i], Delay(i), deadline, wakes[i]);
  }

  /** The same, as far as the next request, which would start at `now`. */
  ghost predicate Rested(net: seq<Try>, deadline: real, starts: seq<real>, wakes: seq<real>, now: real) {
    && Honoured(net, deadline, starts, wakes) && |wakes| == |starts|
    && (starts != [] ==> now == wakes[|wakes| - 1] + net[|starts| - 1].late)
  }

  lemma RestedSent(net: seq<Try>, deadline: real, starts: seq<real>, wakes: seq<real>, now: real)
    requires Rested(net, deadline, starts, wakes, now) && |starts| < |net|
    ensures Honoured(net, deadline, starts + [now], wakes)
  {
    hide IsWake, Delay;
  }

  lemma RestedSlept(net: seq<Try>, deadline: real, starts: seq<real>, wakes: seq<real>, wake: real, now: real)
    requires Honoured(net, deadline, starts, wakes) && |starts| == |wakes| + 1
    requires IsWake(net[|wakes|], starts[|wakes|], Delay(|wakes|), deadline, wake) && now == wake + net[|wakes|].late
    ensures Rested(net, deadline, starts, wakes + [wake], now)
  {
    hide IsWake, Delay;
  }

  /** As far as the next request, which would start at `now`. */
  ghost predicate Going(net: seq<Try>, retry: bool, start: real, deadline: real, starts: seq<real>, wakes: seq<real>,
                        now: real) {
    && Ready(net, retry, start, deadline, starts, now) && Rested(net, deadline, starts, wakes, now)
    && InTime(wakes, deadline) && |starts| <= |net| && |starts| <= (if retry then MAX_REQUESTS else 0)
    && (retry ==> deadline == start + FRAME_RETRY_SECONDS)
    && (now >= deadline ==> Explained(net, retry, deadline, Deadline, starts, wakes))
  }

  /** With a request under way. */
  ghost predicate Asking(net: seq<Try>, retry: bool, start: real, deadline: real, starts: seq<real>,
                         wakes: seq<real>) {
    && starts != [] && |starts| <= |net| && |wakes| == |starts| - 1 && starts[0] == start
    && Spaced(net, retry, starts) && Before(starts, deadline)
    && InTime(wakes, deadline) && Honoured(net, deadline, starts, wakes)
  }

  /** What is promised about a call that is over: when it asked, why, and why no more. */
  ghost predicate Over(net: seq<Try>, retry: bool, start: real, deadline: real, result: Result, starts: seq<real>,
                       wakes: seq<real>) {
    && |starts| <= |net|
    // never past the deadline
    && (deadline > start ==> starts != [] && starts[0] == start)
    && Before(starts, deadline) && InTime(wakes, deadline)
    // how far apart, and after what
    && Spaced(net, retry, starts) && Honoured(net, deadline, starts, wakes)
    // why it ended
    && Explained(net, retry, deadline, result, starts, wakes)
  }

  lemma GoingFirst(net: seq<Try>, retry: bool, start: real, deadline: real)
    requires retry ==> deadline == start + FRAME_RETRY_SECONDS
    ensures Going(net, retry, start, deadline, [], [], start)
  {}

  lemma GoingMeans(net: seq<Try>, retry: bool, start: real, deadline: real, starts: seq<real>, wakes: seq<real>,
                   now: real)
    requires Going(net, retry, start, deadline, starts, wakes, now)
    ensures |starts| <= (if retry then MAX_REQUESTS else 0)
    ensures now < deadline ==> |starts| < if retry then MAX_REQUESTS else 1
    ensures now >= deadline ==> Over(net, retry, start, deadline, Deadline, starts, wakes)
  {
    ReadyMeans(net, retry, start, deadline, starts, now);
    hide Ready, Explained, InTime, Honoured;
  }

  lemma AskNext(net: seq<Try>, retry: bool, start: real, deadline: real, starts: seq<real>, wakes: seq<real>, now: real)
    requires Going(net, retry, start, deadline, starts, wakes, now) && now < deadline && |starts| < |net|
    ensures Asking(net, retry, start, deadline, starts + [now], wakes)
  {
    Sent(net, retry, start, deadline, starts, now);
    RestedSent(net, deadline, starts, wakes, now);
    hide Ready, Explained, InTime, Honoured, Spaced, Before;
  }

  lemma RestNext(net: seq<Try>, retry: bool, start: real, deadline: real, starts: seq<real>, wakes: seq<real>,
                 now: real, wait: real, wake: real, later: real)
    requires Sane(net) && Going(net, retry, start, deadline, starts, wakes, now) && now < deadline
    requires |starts| < |net| && Told(net[|starts|], deadline - now, retry, Delay(|starts|), None, wait)
    requires Slept(net[|starts|], now, Delay(|starts|), deadline, wake, later)
    requires retry && |starts| < MAX_REQUESTS
    ensures Going(net, retry, start, deadline, starts + [now], wakes + [wake], later)
  {
    AskNext(net, retry, start, deadline, starts, wakes, now);
    Waited(net, retry, start, deadline, starts, now, later);
    AlsoInTime(wakes, deadline, wake);
    SleptOver(net, retry, deadline, starts + [now], wakes + [wake]);
    hide Ready, Explained, InTime, Spaced, Before, Again, Sane, Delay, Honoured;
    RestedSlept(net, deadline, starts + [now], wakes, wake, later);
    hide Rested;
  }

  lemma Finished(net: seq<Try>, retry: bool, start: real, deadline: real, starts: seq<real>, wakes: seq<real>,
                 now: real, delay: real, result: Result, wait: real)
    requires Asking(net, retry, start, deadline, starts + [now], wakes) && |starts| < |net|
    requires Told(net[|starts|], deadline - now, retry, delay, Some(result), wait)
    ensures Over(net, retry, start, deadline, result, starts + [now], wakes)
  {
    Answered(net, retry, deadline, starts + [now], wakes);
    hide Explained, InTime, Spaced, Before, Again, Honoured;
  }

  /** Another request and, if it is worth it, the sleep after it; or the deadline has
      passed. */
  method Round(net: seq<Try>, retry: bool, ghost start: real, deadline: real, starts: seq<real>, wakes: seq<real>,
               now: real, delay: real)
    returns (result: Option<Result>, sent: seq<real>, slept: seq<real>, later: real)
    requires Sane(net) && Going(net, retry, start, deadline, starts, wakes, now) && delay == Delay(|starts|)
    ensures result.None? ==> Going(net, retry, start, deadline, sent, slept, later) && |sent| == |starts| + 1
    ensures result.Some? ==> Over(net, retry, start, deadline, result.value, sent, slept)
    ensures |sent| <= if retry then MAX_REQUESTS else 1
  {
    GoingMeans(net, retry, start, deadline, starts, wakes, now);
    assert |net| >= MAX_REQUESTS >= 1;
    hide *;
    result, sent, slept, later := Some(Deadline), starts, wakes, now;
    var remaining := deadline - now;
    if remaining > 0.0 {
      var t := net[|starts|];
      NotNegative(net, |starts|);
      AskNext(net, retry, start, deadline, starts, wakes, now);
      var wait;
      result, wait := Attempt(t, remaining, retry, delay);
      sent := starts + [now];
      if result.None? {
        ToldAgain(t, remaining, retry, delay, wait);
        var wake;
        wake, later := Sleep(t, now, wait, delay, deadline, retry);
        RestNext(net, retry, start, deadline, starts, wakes, now, wait, wake, later);
        slept := wakes + [wake];
      } else {
        Finished(net, retry, start, deadline, starts, wakes, now, delay, result.value, wait);
      }
    }
  }

  /** `api`. `starts`: when each request was sent; `wakes`: until when each sleep was
      meant to last. */
  method Call(net: seq<Try>, start: real, retry: bool, budget: Option<real>)
    returns (result: Result, starts: seq<real>, wakes: seq<real>)
    requires Sane(net)
    ensures |starts| <= if retry then MAX_REQUESTS else 1
    ensures Over(net, retry, start, start + Limit(retry, budget), result, starts, wakes)
  {
    var deadline := start + Limit(retry, budget);
    var delay, now, over := 0.5, start, None;
    starts, wakes := [], [];
    FirstDelay();
    GoingFirst(net, retry, start, deadline);
    hide *;
    while over.None?
      invariant over.None? ==> Going(net, retry, start, deadline, starts, wakes, now) && delay == Delay(|starts|)
      invariant over.Some? ==> Over(net, retry, start, deadline, over.value, starts, wakes)
      invariant |starts| <= if retry then MAX_REQUESTS else 1
      decreases over.None?, MAX_REQUESTS - |starts|
    {
      NextDelay(|starts|);
      over, starts, wakes, now := Round(net, retry, start, deadline, starts, wakes, now, delay);
      delay := Min(delay * 2.0, 4.0);
    }
    result := over.value;
  }
}
