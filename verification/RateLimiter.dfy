/** The sliding-window rate limiter.

    Its buckets are pruned in place and forget old calls; `Admit` is the reference limiter that
    counts in the full history of accepted calls. Times are whole microseconds. */
module RateLimiter {

  datatype Call = Call(time: int, tool: string, run: string)

  /** The bucket keys "tool:..." and "run:...". */
  datatype Key = Tool(name: string) | Run(id: string)

  datatype Limits = Limits(perMinute: int, perHour: int, perTool: map<string, int>)

  const MINUTE := 60_000_000
  const HOUR := 3_600_000_000

  function ToolLimit(l: Limits, tool: string): int {
    if tool in l.perTool then l.perTool[tool] else l.perMinute
  }

  // ------------------------------------------------------------------ the buckets

  /** The entries after the cutoff. */
  function Prune(times: seq<int>, cutoff: int): seq<int> {
    if times == [] then []
    else Prune(times[..|times| - 1], cutoff) + (if times[|times| - 1] > cutoff then [times[|times| - 1]] else [])
  }

  datatype Buckets = Buckets(minute: map<Key, seq<int>>, hour: map<Key, seq<int>>)

  function Bucket(m: map<Key, seq<int>>, key: Key): seq<int> {
    if key in m then m[key] else []
  }

  function CheckStep(l: Limits, b: Buckets, c: Call): (Buckets, bool) {
    var minute := Prune(Bucket(b.minute, Tool(c.tool)), c.time - MINUTE);
    if |minute| >= ToolLimit(l, c.tool) then (b.(minute := b.minute[Tool(c.tool) := minute]), false)
    else
      var hour := Prune(Bucket(b.hour, Run(c.run)), c.time - HOUR);
      if |hour| >= l.perHour then (Buckets(b.minute[Tool(c.tool) := minute], b.hour[Run(c.run) := hour]), false)
      else (Buckets(b.minute[Tool(c.tool) := minute + [c.time]], b.hour[Run(c.run) := hour + [c.time]]), true)
  }

  function StatsStep(b: Buckets, now: int, run: string): (Buckets, nat) {
    var hour := Prune(Bucket(b.hour, Run(run)), now - HOUR);
    (b.(hour := b.hour[Run(run) := hour]), |hour|)
  }

  method PruneBucket(bucket: seq<int>, cutoff: int) returns (r: seq<int>)
    ensures r == Prune(bucket, cutoff)
  {
    r := [];
    for i := 0 to |bucket|
      invariant r == Prune(bucket[..i], cutoff)
    {
      assert bucket[..i + 1][..i] == bucket[..i];
      if bucket[i] > cutoff { r := r + [bucket[i]]; }
    }
    assert bucket[..|bucket|] == bucket;
  }

  class Limiter {
    var limits: Limits
    var minuteBuckets: map<Key, seq<int>>
    var hourBuckets: map<Key, seq<int>>

    constructor (limits: Limits)
      ensures this.limits == limits && State() == Buckets(map[], map[])
    {
      this.limits := limits;
      minuteBuckets, hourBuckets := map[], map[];
    }

    function State(): Buckets reads this { Buckets(minuteBuckets, hourBuckets) }

    method CheckAndRecord(tool: string, run: string, now: int) returns (allowed: bool)
      modifies this`minuteBuckets, this`hourBuckets
      ensures (State(), allowed) == CheckStep(limits, old(State()), Call(now, tool, run))
    {
      var room := CheckMinute(tool, now);
      if !room { return false; }
      room := CheckHour(run, now);
      if !room { return false; }
      minuteBuckets := minuteBuckets[Tool(tool) := minuteBuckets[Tool(tool)] + [now]];
      hourBuckets := hourBuckets[Run(run) := hourBuckets[Run(run)] + [now]];
      assert minuteBuckets == old(minuteBuckets)[Tool(tool) := minuteBuckets[Tool(tool)]];
      assert hourBuckets == old(hourBuckets)[Run(run) := hourBuckets[Run(run)]];
      return true;
    }

    method CheckMinute(tool: string, now: int) returns (room: bool)
      modifies this`minuteBuckets
      ensures minuteBuckets ==
                old(minuteBuckets)[Tool(tool) := Prune(Bucket(old(minuteBuckets), Tool(tool)), now - MINUTE)]
      ensures room == (|minuteBuckets[Tool(tool)]| < ToolLimit(limits, tool))
    {
      var pruned := PruneBucket(Bucket(minuteBuckets, Tool(tool)), now - MINUTE);
      minuteBuckets := minuteBuckets[Tool(tool) := pruned];
      room := |pruned| < ToolLimit(limits, tool);
    }

    method CheckHour(run: string, now: int) returns (room: bool)
      modifies this`hourBuckets
      ensures hourBuckets == old(hourBuckets)[Run(run) := Prune(Bucket(old(hourBuckets), Run(run)), now - HOUR)]
      ensures room == (|hourBuckets[Run(run)]| < limits.perHour)
    {
      var pruned := PruneBucket(Bucket(hourBuckets, Run(run)), now - HOUR);
      hourBuckets := hourBuckets[Run(run) := pruned];
      room := |pruned| < limits.perHour;
    }

    method GetStats(run: string, now: int) returns (calls: nat, remaining: int)
      modifies this`hourBuckets
      ensures (State(), calls) == StatsStep(old(State()), now, run)
      ensures remaining == if calls <= limits.perHour then limits.perHour - calls else 0
    {
      var pruned := PruneBucket(Bucket(hourBuckets, Run(run)), now - HOUR);
      hourBuckets := hourBuckets[Run(run) := pruned];
      calls := |pruned|;
      remaining := if calls <= limits.perHour then limits.perHour - calls else 0;
    }

    method Reset(run: string)
      modifies this`hourBuckets
      ensures hourBuckets == old(hourBuckets) - {Run(run)}
    {
      hourBuckets := hourBuckets - {Run(run)};
    }
  }

  // ------------------------------------------------------------------ the reference

  predicate Concerns(c: Call, k: Key) { k == Tool(c.tool) || k == Run(c.run) }

  /** The times of the calls of a tool or a run, in order. */
  function Times(calls: seq<Call>, k: Key): seq<int> {
    if calls == [] then []
    else Times(calls[..|calls| - 1], k) + (if Concerns(calls[|calls| - 1], k) then [calls[|calls| - 1].time] else [])
  }

  /** Whether the full history leaves room for a call. */
  predicate Admit(l: Limits, accepted: seq<Call>, c: Call) {
    && |Prune(Times(accepted, Tool(c.tool)), c.time - MINUTE)| < ToolLimit(l, c.tool)
    && |Prune(Times(accepted, Run(c.run)), c.time - HOUR)| < l.perHour
  }

  datatype Op = Check(call: Call) | Stats(now: int, run: string)

  function Time(op: Op): int { if op.Check? then op.call.time else op.now }

  /** What the reference accepts. */
  function Accepted(l: Limits, ops: seq<Op>): seq<Call> {
    if ops == [] then []
    else
      var before, op := Accepted(l, ops[..|ops| - 1]), ops[|ops| - 1];
      if op.Check? && Admit(l, before, op.call) then before + [op.call] else before
  }

  /** The limiter's buckets and, beside them, the calls it accepted so far. */
  datatype State = State(b: Buckets, calls: seq<Call>)

  function OpStep(l: Limits, s: State, op: Op): State {
    match op
    case Check(c) =>
      var (after, ok) := CheckStep(l, s.b, c);
      State(after, if ok then s.calls + [c] else s.calls)
    case Stats(now, run) => State(StatsStep(s.b, now, run).0, s.calls)
  }

  function RunOps(l: Limits, ops: seq<Op>): State {
    if ops == [] then State(Buckets(map[], map[]), [])
    else OpStep(l, RunOps(l, ops[..|ops| - 1]), ops[|ops| - 1])
  }

  /** A clock that does not go back. */
  predicate Ordered(ops: seq<Op>) {
    forall i, j :: 0 <= i < j < |ops| ==> Time(ops[i]) <= Time(ops[j])
  }

  // ------------------------------------------------------------------ pruned buckets agree with the history

  lemma {:induction false} PruneTwice(times: seq<int>, c: int, d: int)
    requires c <= d
    ensures Prune(Prune(times, c), d) == Prune(times, d)
  {
    if times != [] {
      var init, last := times[..|times| - 1], times[|times| - 1];
      PruneTwice(init, c, d);
      if last > c { PruneSnoc(Prune(init, c), last, d); } else { assert Prune(init, c) + [] == Prune(init, c); }
    }
  }

  lemma PruneSnoc(times: seq<int>, t: int, c: int)
    ensures Prune(times + [t], c) == Prune(times, c) + (if t > c then [t] else [])
  {
    assert (times + [t])[..|times|] == times;
  }

  /** Bucket and history hold the same entries after the cutoff. */
  predicate AgreeFrom(bucket: seq<int>, history: seq<int>, from: int) {
    Prune(bucket, from) == Prune(history, from)
  }

  lemma AgreeLater(bucket: seq<int>, history: seq<int>, from: int, later: int)
    requires AgreeFrom(bucket, history, from) && from <= later
    ensures AgreeFrom(bucket, history, later)
  {
    PruneTwice(bucket, from, later);
    PruneTwice(history, from, later);
  }

  lemma RecordingAgrees(bucket: seq<int>, history: seq<int>, from: int, t: int)
    requires AgreeFrom(bucket, history, from)
    ensures AgreeFrom(bucket + [t], history + [t], from)
  {
    PruneSnoc(bucket, t, from);
    PruneSnoc(history, t, from);
  }

  function Width(k: Key): int { if k.Tool? then MINUTE else HOUR }

  function BucketOf(b: Buckets, k: Key): seq<int> {
    Bucket(if k.Tool? then b.minute else b.hour, k)
  }

  lemma TimesSnoc(calls: seq<Call>, c: Call, k: Key)
    ensures Times(calls + [c], k) == Times(calls, k) + (if Concerns(c, k) then [c.time] else [])
  {
    assert (calls + [c])[..|calls|] == calls;
  }

  /** What a check leaves in a bucket. */
  lemma CheckedBucket(l: Limits, b: Buckets, c: Call, k: Key)
    ensures var (after, ok) := CheckStep(l, b, c);
      var pruned := Prune(BucketOf(b, k), c.time - Width(k));
      if !Concerns(c, k) then BucketOf(after, k) == BucketOf(b, k)
      else if ok then BucketOf(after, k) == pruned + [c.time]
      else BucketOf(after, k) == BucketOf(b, k) || BucketOf(after, k) == pruned
  {}

  /** The bucket of a tool or a run holds the calls the history has since `now` minus its window. */
  predicate Agrees(s: State, k: Key, now: int) {
    AgreeFrom(BucketOf(s.b, k), Times(s.calls, k), now - Width(k))
  }

  lemma EachOutcomeAgrees(bucket: seq<int>, history: seq<int>, from: int, t: int, after: seq<int>, later: seq<int>)
    requires AgreeFrom(bucket, history, from)
    requires (later == history && (after == bucket || after == Prune(bucket, from)))
      || (later == history + [t] && after == Prune(bucket, from) + [t])
    ensures AgreeFrom(after, later, from)
  {
    PruneTwice(bucket, from, from);
    RecordingAgrees(Prune(bucket, from), history, from, t);
  }

  lemma CheckOutcome(l: Limits, s: State, c: Call, k: Key)
    ensures var after := OpStep(l, s, Check(c));
      var pruned := Prune(BucketOf(s.b, k), c.time - Width(k));
      || (&& Times(after.calls, k) == Times(s.calls, k)
          && (BucketOf(after.b, k) == BucketOf(s.b, k) || BucketOf(after.b, k) == pruned))
      || (Times(after.calls, k) == Times(s.calls, k) + [c.time] && BucketOf(after.b, k) == pruned + [c.time])
  {
    CheckedBucket(l, s.b, c, k);
    CheckedHistory(l, s, c, k);
    assert Times(s.calls, k) + [] == Times(s.calls, k);
  }

  /** A refused call leaves no trace in the history, and none that matters in the bucket. */
  lemma CheckKeepsAgreement(l: Limits, s: State, c: Call, k: Key)
    requires Agrees(s, k, c.time)
    ensures Agrees(OpStep(l, s, Check(c)), k, c.time)
  {
    var after := OpStep(l, s, Check(c));
    CheckOutcome(l, s, c, k);
    EachOutcomeAgrees(BucketOf(s.b, k), Times(s.calls, k), c.time - Width(k), c.time,
                      BucketOf(after.b, k), Times(after.calls, k));
  }

  lemma CheckedHistory(l: Limits, s: State, c: Call, k: Key)
    ensures Times(OpStep(l, s, Check(c)).calls, k)
      == Times(s.calls, k) + (if CheckStep(l, s.b, c).1 && Concerns(c, k) then [c.time] else [])
  {
    TimesSnoc(s.calls, c, k);
    assert Times(s.calls, k) + [] == Times(s.calls, k);
  }

  lemma StatsKeepAgreement(l: Limits, s: State, now: int, run: string, k: Key)
    requires Agrees(s, k, now)
    ensures Agrees(OpStep(l, s, Stats(now, run)), k, now)
  {
    PruneTwice(BucketOf(s.b, k), now - Width(k), now - Width(k));
  }

  lemma OpKeepsAgreement(l: Limits, s: State, op: Op, k: Key)
    requires Agrees(s, k, Time(op))
    ensures Agrees(OpStep(l, s, op), k, Time(op))
  {
    match op
    case Check(c) => CheckKeepsAgreement(l, s, c, k);
    case Stats(at, run) => StatsKeepAgreement(l, s, at, run, k);
  }

  lemma AgreesLater(s: State, k: Key, now: int, later: int)
    requires Agrees(s, k, now) && now <= later
    ensures Agrees(s, k, later)
  {
    AgreeLater(BucketOf(s.b, k), Times(s.calls, k), now - Width(k), later - Width(k));
  }

  /** The operations come before `now`. */
  predicate Before(ops: seq<Op>, now: int) {
    Ordered(ops) && (ops == [] || Time(ops[|ops| - 1]) <= now)
  }

  lemma BeforeLast(ops: seq<Op>)
    requires ops != [] && Ordered(ops)
    ensures Before(ops[..|ops| - 1], Time(ops[|ops| - 1]))
  {}

  /** Each pruned bucket is the full history, as far as any later window can see. */
  lemma {:induction false} BucketsAgree(l: Limits, ops: seq<Op>, k: Key, now: int)
    requires Before(ops, now)
    ensures Agrees(RunOps(l, ops), k, now)
  {
    if ops != [] {
      var init, op := ops[..|ops| - 1], ops[|ops| - 1];
      BeforeLast(ops);
      BucketsAgree(l, init, k, Time(op));
      OpKeepsAgreement(l, RunOps(l, init), op, k);
      AgreesLater(RunOps(l, ops), k, Time(op), now);
    }
  }

  /** For every mix of calls and statistics under a clock that does not go back, the limiter
      accepts exactly what counting in the full history accepts. */
  lemma {:induction false} PruningChangesNothing(l: Limits, ops: seq<Op>)
    requires Ordered(ops)
    ensures RunOps(l, ops).calls == Accepted(l, ops)
  {
    if ops != [] {
      var init, op := ops[..|ops| - 1], ops[|ops| - 1];
      PruningChangesNothing(l, init);
      BeforeLast(ops);
      if op.Check? {
        BucketsAgree(l, init, Tool(op.call.tool), Time(op));
        BucketsAgree(l, init, Run(op.call.run), Time(op));
        CheckDecides(l, RunOps(l, init), op.call);
      }
    }
  }

  lemma CheckDecides(l: Limits, s: State, c: Call)
    requires Agrees(s, Tool(c.tool), c.time) && Agrees(s, Run(c.run), c.time)
    ensures CheckStep(l, s.b, c).1 == Admit(l, s.calls, c)
  {}

  lemma StatsCount(s: State, now: int, run: string)
    requires Agrees(s, Run(run), now)
    ensures StatsStep(s.b, now, run).1 == |Prune(Times(s.calls, Run(run)), now - HOUR)|
  {}

  /** The statistics count the accepted calls of the last hour. */
  lemma StatsCountTheHour(l: Limits, ops: seq<Op>, now: int, run: string)
    requires Before(ops, now)
    ensures StatsStep(RunOps(l, ops).b, now, run).1 == |Prune(Times(Accepted(l, ops), Run(run)), now - HOUR)|
  {
    BucketsAgree(l, ops, Run(run), now);
    StatsCount(RunOps(l, ops), now, run);
    PruningChangesNothing(l, ops);
  }

  // ------------------------------------------------------------------ the promise

  /** The entries of the window (t - width, t]. */
  function Window(times: seq<int>, t: int, width: int): seq<int> {
    if times == [] then []
    else
      var last := times[|times| - 1];
      Window(times[..|times| - 1], t, width) + (if t - width < last <= t then [last] else [])
  }

  lemma {:induction false} WindowIsPruned(times: seq<int>, t: int, width: int, cutoff: int)
    requires cutoff <= t - width
    ensures |Window(times, t, width)| <= |Prune(times, cutoff)|
  {
    if times != [] { WindowIsPruned(times[..|times| - 1], t, width, cutoff); }
  }

  lemma WindowSnoc(times: seq<int>, last: int, t: int, width: int)
    ensures Window(times + [last], t, width) == Window(times, t, width) + (if t - width < last <= t then [last] else [])
  {
    assert (times + [last])[..|times|] == times;
  }

  /** Every window holds at most the limit. */
  predicate WithinLimit(times: seq<int>, t: int, width: int, limit: int) {
    Window(times, t, width) == [] || |Window(times, t, width)| <= limit
  }

  lemma OneMoreWithin(times: seq<int>, last: int, t: int, width: int, limit: int)
    requires WithinLimit(times, t, width, limit) && |Prune(times, last - width)| < limit
    ensures WithinLimit(times + [last], t, width, limit)
  {
    WindowSnoc(times, last, t, width);
    if t - width < last <= t { WindowIsPruned(times, t, width, last - width); }
  }

  lemma AcceptedStep(l: Limits, ops: seq<Op>) returns (before: seq<Call>)
    requires ops != []
    ensures before == Accepted(l, ops[..|ops| - 1])
    ensures Accepted(l, ops) == before
      || (exists c :: Admit(l, before, c) && Accepted(l, ops) == before + [c])
  {
    before := Accepted(l, ops[..|ops| - 1]);
  }

  function Limit(l: Limits, k: Key): int { if k.Tool? then ToolLimit(l, k.name) else l.perHour }

  lemma {:induction false} AcceptedWindow(l: Limits, ops: seq<Op>, k: Key, t: int)
    ensures WithinLimit(Times(Accepted(l, ops), k), t, Width(k), Limit(l, k))
  {
    if ops != [] {
      var before := AcceptedStep(l, ops);
      AcceptedWindow(l, ops[..|ops| - 1], k, t);
      if Accepted(l, ops) != before {
        var c :| Admit(l, before, c) && Accepted(l, ops) == before + [c];
        AdmittedWindow(l, before, c, k, t);
      }
    }
  }

  lemma AdmittedWindow(l: Limits, before: seq<Call>, c: Call, k: Key, t: int)
    requires Admit(l, before, c) && WithinLimit(Times(before, k), t, Width(k), Limit(l, k))
    ensures WithinLimit(Times(before + [c], k), t, Width(k), Limit(l, k))
  {
    TimesSnoc(before, c, k);
    if Concerns(c, k) { OneMoreWithin(Times(before, k), c.time, t, Width(k), Limit(l, k)); }
    else { assert Times(before, k) + [] == Times(before, k); }
  }

  /** No minute ever holds more accepted calls of a tool than its limit, and no hour more of a run
      than the hourly limit, wherever the window lies. */
  lemma EveryWindowIsWithinLimits(l: Limits, ops: seq<Op>, tool: string, run: string, t: int)
    requires Ordered(ops)
    ensures WithinLimit(Times(RunOps(l, ops).calls, Tool(tool)), t, MINUTE, ToolLimit(l, tool))
    ensures WithinLimit(Times(RunOps(l, ops).calls, Run(run)), t, HOUR, l.perHour)
  {
    PruningChangesNothing(l, ops);
    AcceptedWindow(l, ops, Tool(tool), t);
    AcceptedWindow(l, ops, Run(run), t);
  }

  // ------------------------------------------------------------------ the same, counting calls

  /** The calls of a tool or a run in a window, by their positions. */
  function Positions(calls: seq<Call>, k: Key, t: int, width: int): set<nat> {
    set i: nat | i < |calls| && Concerns(calls[i], k) && t - width < calls[i].time <= t
  }

  lemma PositionsSnoc(calls: seq<Call>, c: Call, k: Key, t: int, width: int)
    ensures |Positions(calls + [c], k, t, width)|
         == |Positions(calls, k, t, width)| + if Concerns(c, k) && t - width < c.time <= t then 1 else 0
  {
    assert Positions(calls + [c], k, t, width)
        == Positions(calls, k, t, width) + if Concerns(c, k) && t - width < c.time <= t then {|calls|} else {};
  }

  lemma {:induction false} PositionsCount(calls: seq<Call>, k: Key, t: int, width: int)
    ensures |Window(Times(calls, k), t, width)| == |Positions(calls, k, t, width)|
  {
    if calls == [] {
      assert Positions(calls, k, t, width) == {};
    } else {
      var (init, c) := (calls[..|calls| - 1], calls[|calls| - 1]);
      assert calls == init + [c];
      PositionsCount(init, k, t, width);
      PositionsSnoc(init, c, k, t, width);
      CountSnoc(Times(init, k), Times(calls, k), c, k, t, width);
    }
  }

  lemma CountSnoc(before: seq<int>, times: seq<int>, c: Call, k: Key, t: int, width: int)
    requires times == before + if Concerns(c, k) then [c.time] else []
    ensures |Window(times, t, width)|
         == |Window(before, t, width)| + if Concerns(c, k) && t - width < c.time <= t then 1 else 0
  {
    WindowSnoc(before, c.time, t, width);
    assert before + [] == before;
  }

  lemma ToolCalls(calls: seq<Call>, tool: string, t: int)
    ensures |Window(Times(calls, Tool(tool)), t, 60_000_000)|
         == |set i: nat | i < |calls| && calls[i].tool == tool && t - 60_000_000 < calls[i].time <= t|
  {
    PositionsCount(calls, Tool(tool), t, 60_000_000);
    assert Positions(calls, Tool(tool), t, 60_000_000)
        == set i: nat | i < |calls| && calls[i].tool == tool && t - 60_000_000 < calls[i].time <= t;
  }

  lemma RunCalls(calls: seq<Call>, run: string, t: int)
    ensures |Window(Times(calls, Run(run)), t, 3_600_000_000)|
         == |set i: nat | i < |calls| && calls[i].run == run && t - 3_600_000_000 < calls[i].time <= t|
  {
    PositionsCount(calls, Run(run), t, 3_600_000_000);
    assert Positions(calls, Run(run), t, 3_600_000_000)
        == set i: nat | i < |calls| && calls[i].run == run && t - 3_600_000_000 < calls[i].time <= t;
  }

  /** The last minute and the last hour before the clock's present are what pruning leaves. */
  lemma {:induction false} PrunedIsWindow(times: seq<int>, now: int, width: int)
    requires forall i :: 0 <= i < |times| ==> times[i] <= now
    ensures Prune(times, now - width) == Window(times, now, width)
  {
    if times != [] { PrunedIsWindow(times[..|times| - 1], now, width); }
  }

  lemma {:induction false} TimesArePast(l: Limits, ops: seq<Op>, k: Key, now: int)
    requires Before(ops, now)
    ensures forall i :: 0 <= i < |Times(RunOps(l, ops).calls, k)| ==> Times(RunOps(l, ops).calls, k)[i] <= now
  {
    if ops != [] {
      var (init, op) := (ops[..|ops| - 1], ops[|ops| - 1]);
      BeforeLast(ops);
      TimesArePast(l, init, k, Time(op));
      if op.Check? { CheckedHistory(l, RunOps(l, init), op.call, k); }
    }
  }

  /** After any operations under a clock that does not go back, a call is allowed if and only if fewer
      calls of its tool than the tool's own limit, or else the common one, were allowed in the last
      minute, and fewer calls of its run than the hourly limit in the last hour. */
  lemma AllowedIff(l: Limits, ops: seq<Op>, c: Call, calls: seq<Call>)
    requires Before(ops, c.time) && calls == RunOps(l, ops).calls
    ensures CheckStep(l, RunOps(l, ops).b, c).1 <==>
      && |set i: nat | i < |calls| && calls[i].tool == c.tool && c.time - 60_000_000 < calls[i].time <= c.time|
           < (if c.tool in l.perTool then l.perTool[c.tool] else l.perMinute)
      && |set i: nat | i < |calls| && calls[i].run == c.run && c.time - 3_600_000_000 < calls[i].time <= c.time|
           < l.perHour
  {
    BucketsAgree(l, ops, Tool(c.tool), c.time);
    BucketsAgree(l, ops, Run(c.run), c.time);
    CheckDecides(l, RunOps(l, ops), c);
    TimesArePast(l, ops, Tool(c.tool), c.time);
    TimesArePast(l, ops, Run(c.run), c.time);
    AdmitCounts(l, calls, c);
  }

  lemma AdmitCounts(l: Limits, calls: seq<Call>, c: Call)
    requires forall i :: 0 <= i < |Times(calls, Tool(c.tool))| ==> Times(calls, Tool(c.tool))[i] <= c.time
    requires forall i :: 0 <= i < |Times(calls, Run(c.run))| ==> Times(calls, Run(c.run))[i] <= c.time
    ensures Admit(l, calls, c) <==>
      && |set i: nat | i < |calls| && calls[i].tool == c.tool && c.time - 60_000_000 < calls[i].time <= c.time|
           < (if c.tool in l.perTool then l.perTool[c.tool] else l.perMinute)
      && |set i: nat | i < |calls| && calls[i].run == c.run && c.time - 3_600_000_000 < calls[i].time <= c.time|
           < l.perHour
  {
    PrunedIsWindow(Times(calls, Tool(c.tool)), c.time, MINUTE);
    PrunedIsWindow(Times(calls, Run(c.run)), c.time, HOUR);
    ToolCalls(calls, c.tool, c.time);
    RunCalls(calls, c.run, c.time);
  }

  /** And the statistics count the calls of the run that were allowed in the last hour. */
  lemma StatsCountCalls(l: Limits, ops: seq<Op>, now: int, run: string, calls: seq<Call>)
    requires Before(ops, now) && calls == RunOps(l, ops).calls
    ensures StatsStep(RunOps(l, ops).b, now, run).1
         == |set i: nat | i < |calls| && calls[i].run == run && now - 3_600_000_000 < calls[i].time <= now|
  {
    BucketsAgree(l, ops, Run(run), now);
    StatsCount(RunOps(l, ops), now, run);
    TimesArePast(l, ops, Run(run), now);
    PrunedIsWindow(Times(calls, Run(run)), now, HOUR);
    RunCalls(calls, run, now);
  }

  /** So wherever a minute or an hour lies, it holds at most as many allowed calls as the limit. */
  lemma NoWindowHoldsMore(l: Limits, ops: seq<Op>, tool: string, run: string, t: int, calls: seq<Call>)
    requires Ordered(ops) && calls == RunOps(l, ops).calls
    ensures
      var n := |set i: nat | i < |calls| && calls[i].tool == tool && t - 60_000_000 < calls[i].time <= t|;
      n == 0 || n <= if tool in l.perTool then l.perTool[tool] else l.perMinute
    ensures
      var n := |set i: nat | i < |calls| && calls[i].run == run && t - 3_600_000_000 < calls[i].time <= t|;
      n == 0 || n <= l.perHour
  {
    EveryWindowIsWithinLimits(l, ops, tool, run, t);
    ToolCalls(calls, tool, t);
    RunCalls(calls, run, t);
  }

  // A clock that goes back: one call, a look at the statistics two hours later, and a call of the first
  // minute again.

  const OneAnHour := Limits(5, 1, map[])

  function FirstBuckets(tool: string, run: string): Buckets {
    Buckets(map[Tool(tool) := [0]], map[Run(run) := [0]])
  }

  function PrunedBuckets(tool: string, run: string): Buckets {
    Buckets(map[Tool(tool) := [0]], map[Run(run) := []])
  }

  lemma FirstCheck(tool: string, run: string)
    ensures CheckStep(OneAnHour, Buckets(map[], map[]), Call(0, tool, run)) == (FirstBuckets(tool, run), true)
  {
    assert [] + [0] == [0];
  }

  lemma StatsForget(tool: string, run: string)
    ensures StatsStep(FirstBuckets(tool, run), 2 * HOUR, run).0 == PrunedBuckets(tool, run)
  {
    PruneSnoc([], 0, HOUR);
    assert [] + [0] == [0];
    assert FirstBuckets(tool, run).hour[Run(run) := []] == PrunedBuckets(tool, run).hour;
  }

  lemma SecondCheck(tool: string, run: string)
    ensures CheckStep(OneAnHour, PrunedBuckets(tool, run), Call(1, tool, run)).1
  {
    PruneSnoc([], 0, 1 - MINUTE);
    assert [] + [0] == [0];
  }

  lemma RunOpsSnoc(l: Limits, ops: seq<Op>, o: Op)
    ensures RunOps(l, ops + [o]) == OpStep(l, RunOps(l, ops), o)
  {
    assert (ops + [o])[..|ops|] == ops;
  }

  lemma BothAccepted(tool: string, run: string)
    ensures RunOps(OneAnHour, [Check(Call(0, tool, run)), Stats(2 * HOUR, run), Check(Call(1, tool, run))]).calls
         == [Call(0, tool, run), Call(1, tool, run)]
  {
    var c, d := Call(0, tool, run), Call(1, tool, run);
    RunOpsSnoc(OneAnHour, [], Check(c));
    RunOpsSnoc(OneAnHour, [Check(c)], Stats(2 * HOUR, run));
    RunOpsSnoc(OneAnHour, [Check(c), Stats(2 * HOUR, run)], Check(d));
    FirstCheck(tool, run);
    StatsForget(tool, run);
    SecondCheck(tool, run);
    assert [] + [Check(c)] == [Check(c)] && [] + [c] == [c];
    assert [Check(c)] + [Stats(2 * HOUR, run)] == [Check(c), Stats(2 * HOUR, run)];
    assert [Check(c), Stats(2 * HOUR, run)] + [Check(d)] == [Check(c), Stats(2 * HOUR, run), Check(d)];
  }

  lemma TwoInTheHour(c: Call, d: Call, run: string)
    requires c.time == 0 && d.time == 1 && c.run == run && d.run == run
    ensures Window(Times([c, d], Run(run)), 1, HOUR) == [0, 1]
  {
    TimesSnoc([], c, Run(run));
    TimesSnoc([c], d, Run(run));
    assert [] + [c] == [c] && [c] + [d] == [c, d] && [] + [0] == [0] && [0] + [1] == [0, 1];
    WindowSnoc([], 0, 1, HOUR);
    WindowSnoc([0], 1, 1, HOUR);
  }

  /** With a clock that goes back, pruning has forgotten calls that count again. */
  lemma ClockMustNotGoBack(tool: string, run: string)
    ensures var l := Limits(5, 1, map[]);
      var ops := [Check(Call(0, tool, run)), Stats(2 * HOUR, run), Check(Call(1, tool, run))];
      && RunOps(l, ops).calls == [Call(0, tool, run), Call(1, tool, run)]
      && !WithinLimit(Times(RunOps(l, ops).calls, Run(run)), 1, HOUR, 1)
  {
    BothAccepted(tool, run);
    TwoInTheHour(Call(0, tool, run), Call(1, tool, run), run);
  }
}
