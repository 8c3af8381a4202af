/** Recent provider activity: grouped by day, and inside a day by consecutive equal timestamps. */
module ActivityGroups {

  datatype Log = Log(createdAt: string, path: string, statusCode: int)

  // ---------------------------------------------------------------------------------------
  // Consecutive grouping
  // ---------------------------------------------------------------------------------------

  /** `index` is the position of the group's first log; with the timestamp it makes the group's key. */
  datatype TimeGroup = TimeGroup(timestamp: string, index: nat, logs: seq<Log>)

  function Flatten(groups: seq<TimeGroup>): seq<Log>
    decreases |groups|
  {
    if groups == [] then [] else Flatten(groups[..|groups| - 1]) + groups[|groups| - 1].logs
  }

  predicate GroupWf(g: TimeGroup) { g.logs != [] && forall i | 0 <= i < |g.logs| :: g.logs[i].createdAt == g.timestamp }

  /** The groups concatenate to the logs; each is non-empty with one timestamp; neighbours differ;
      and each knows where it starts. */
  ghost predicate Consecutive(logs: seq<Log>, groups: seq<TimeGroup>) {
    && Flatten(groups) == logs
    && (forall g | 0 <= g < |groups| :: GroupWf(groups[g]) && groups[g].index == |Flatten(groups[..g])|)
    && (forall g | 0 < g < |groups| :: groups[g - 1].timestamp != groups[g].timestamp)
  }

  lemma FlattenSnoc(groups: seq<TimeGroup>, g: TimeGroup)
    ensures Flatten(groups + [g]) == Flatten(groups) + g.logs
  {
    assert (groups + [g])[..|groups|] == groups;
  }

  lemma ConsecutiveAppends(logs: seq<Log>, groups: seq<TimeGroup>, log: Log)
    requires Consecutive(logs, groups)
    requires groups != [] ==> groups[|groups| - 1].timestamp != log.createdAt
    ensures Consecutive(logs + [log], groups + [TimeGroup(log.createdAt, |logs|, [log])])
  {
    var g' := TimeGroup(log.createdAt, |logs|, [log]);
    var next := groups + [g'];
    FlattenSnoc(groups, g');
    forall g | 0 <= g < |next| ensures GroupWf(next[g]) && next[g].index == |Flatten(next[..g])| {
      assert next[..g] == groups[..g];
      if g == |groups| { assert groups[..g] == groups; } else { assert next[g] == groups[g]; }
    }
  }

  lemma ConsecutiveGrows(logs: seq<Log>, groups: seq<TimeGroup>, log: Log)
    requires Consecutive(logs, groups) && groups != [] && groups[|groups| - 1].timestamp == log.createdAt
    ensures var last := groups[|groups| - 1];
            Consecutive(logs + [log], groups[|groups| - 1 := last.(logs := last.logs + [log])])
  {
    var n := |groups| - 1;
    var next := groups[n := groups[n].(logs := groups[n].logs + [log])];
    assert next[..n] == groups[..n];
    forall g | 0 <= g <= n ensures next[..g] == groups[..g] {}
    assert Flatten(next) == logs + [log];
  }

  /** `groupConsecutiveActivityByTimestamp`. */
  method GroupConsecutiveActivityByTimestamp(logs: seq<Log>) returns (groups: seq<TimeGroup>)
    ensures Consecutive(logs, groups)
  {
    groups := [];
    for i := 0 to |logs|
      invariant Consecutive(logs[..i], groups)
    {
      var log := logs[i];
      assert logs[..i + 1] == logs[..i] + [log];
      if groups != [] && groups[|groups| - 1].timestamp == log.createdAt {
        ConsecutiveGrows(logs[..i], groups, log);
        var previous := groups[|groups| - 1];
        groups := groups[|groups| - 1 := previous.(logs := previous.logs + [log])];
      } else {
        ConsecutiveAppends(logs[..i], groups, log);
        groups := groups + [TimeGroup(log.createdAt, i, [log])];
      }
    }
    assert logs[..|logs|] == logs;
  }

  /** The last group is the longest run of equal timestamps at the end of the logs. */
  lemma LastGroupIsLastRun(logs: seq<Log>, groups: seq<TimeGroup>)
    requires Consecutive(logs, groups) && groups != []
    ensures var n, last := |groups| - 1, groups[|groups| - 1];
            var cut := last.index;
            && cut < |logs| && Flatten(groups[..n]) == logs[..cut] && last.logs == logs[cut..]
            && (forall i | cut <= i < |logs| :: logs[i].createdAt == last.timestamp)
            && (cut > 0 ==> logs[cut - 1].createdAt != last.timestamp)
  {
    var n := |groups| - 1;
    var cut := groups[n].index;
    assert logs == Flatten(groups[..n]) + groups[n].logs;
    forall i | cut <= i < |logs| ensures logs[i].createdAt == groups[n].timestamp { assert logs[i] == groups[n].logs[i - cut]; }
    if n > 0 {
      var init := groups[..n];
      var previous := groups[n - 1];
      assert Flatten(init) == Flatten(init[..n - 1]) + previous.logs;
      assert GroupWf(previous);
      assert logs[cut - 1] == previous.logs[|previous.logs| - 1];
    }
  }

  /** Without its last group a grouping is one of the logs before it. */
  lemma ConsecutiveInit(logs: seq<Log>, groups: seq<TimeGroup>)
    requires Consecutive(logs, groups) && groups != []
    ensures Consecutive(Flatten(groups[..|groups| - 1]), groups[..|groups| - 1])
  {
    var init := groups[..|groups| - 1];
    forall g | 0 <= g < |init| ensures init[..g] == groups[..g] {}
  }

  lemma LastGroupsAgree(logs: seq<Log>, a: seq<TimeGroup>, b: seq<TimeGroup>)
    requires Consecutive(logs, a) && Consecutive(logs, b) && a != [] && b != []
    ensures a[|a| - 1] == b[|b| - 1]
  {
    LastGroupIsLastRun(logs, a);
    LastGroupIsLastRun(logs, b);
    var x, y := a[|a| - 1], b[|b| - 1];
    assert x.timestamp == logs[|logs| - 1].createdAt == y.timestamp;
    assert x.index == y.index;
  }

  lemma EmptyExactlyWithoutLogs(logs: seq<Log>, groups: seq<TimeGroup>)
    requires Consecutive(logs, groups)
    ensures groups == [] <==> logs == []
  {
    if groups != [] { LastGroupIsLastRun(logs, groups); }
  }

  lemma InitsAgree(logs: seq<Log>, a: seq<TimeGroup>, b: seq<TimeGroup>)
    requires Consecutive(logs, a) && Consecutive(logs, b) && a != [] && b != []
    ensures Flatten(a[..|a| - 1]) == Flatten(b[..|b| - 1])
  {
    LastGroupIsLastRun(logs, a);
    LastGroupIsLastRun(logs, b);
    LastGroupsAgree(logs, a, b);
  }

  lemma SnocsAgree(a: seq<TimeGroup>, b: seq<TimeGroup>)
    requires a != [] && b != [] && a[..|a| - 1] == b[..|b| - 1] && a[|a| - 1] == b[|b| - 1]
    ensures a == b
  {
    assert a == a[..|a| - 1] + [a[|a| - 1]] && b == b[..|b| - 1] + [b[|b| - 1]];
  }

  /** There is only one such grouping. */
  lemma {:induction false} ConsecutiveIsUnique(logs: seq<Log>, a: seq<TimeGroup>, b: seq<TimeGroup>)
    requires Consecutive(logs, a) && Consecutive(logs, b)
    ensures a == b
    decreases |a|
  {
    EmptyExactlyWithoutLogs(logs, a);
    EmptyExactlyWithoutLogs(logs, b);
    if a != [] {
      LastGroupsAgree(logs, a, b);
      InitsAgree(logs, a, b);
      ConsecutiveInit(logs, a);
      ConsecutiveInit(logs, b);
      ConsecutiveIsUnique(Flatten(a[..|a| - 1]), a[..|a| - 1], b[..|b| - 1]);
      SnocsAgree(a, b);
    }
  }

  // ---------------------------------------------------------------------------------------
  // Day grouping
  // ---------------------------------------------------------------------------------------

  datatype DayGroup = DayGroup(key: string, logs: seq<Log>)

  /** The logs of one day, in order; `day` maps a timestamp to its day key. */
  function OnDay(logs: seq<Log>, day: string -> string, k: string): seq<Log>
    decreases |logs|
  {
    if logs == [] then []
    else
      var last := logs[|logs| - 1];
      OnDay(logs[..|logs| - 1], day, k) + if day(last.createdAt) == k then [last] else []
  }

  /** The day keys in order of first occurrence. */
  function Days(logs: seq<Log>, day: string -> string): seq<string>
    decreases |logs|
  {
    if logs == [] then []
    else
      var init, k := Days(logs[..|logs| - 1], day), day(logs[|logs| - 1].createdAt);
      if k in init then init else init + [k]
  }

  /** One group for each day that occurs, in order of first occurrence, with exactly its logs. */
  ghost predicate DayGrouped(logs: seq<Log>, day: string -> string, groups: seq<DayGroup>) {
    && |groups| == |Days(logs, day)|
    && forall g | 0 <= g < |groups| ::
         groups[g].key == Days(logs, day)[g] && groups[g].logs == OnDay(logs, day, groups[g].key)
  }

  lemma {:induction false} DaysAreDistinct(logs: seq<Log>, day: string -> string)
    ensures forall i, j | 0 <= i < j < |Days(logs, day)| :: Days(logs, day)[i] != Days(logs, day)[j]
    decreases |logs|
  {
    if logs != [] { DaysAreDistinct(logs[..|logs| - 1], day); }
  }

  lemma {:induction false} DaysAreNotEmpty(logs: seq<Log>, day: string -> string, k: string)
    ensures k in Days(logs, day) <==> OnDay(logs, day, k) != []
    decreases |logs|
  {
    if logs != [] { DaysAreNotEmpty(logs[..|logs| - 1], day, k); }
  }

  lemma {:induction false} DaysHaveLogs(logs: seq<Log>, day: string -> string, k: string)
    ensures k in Days(logs, day) <==> exists i :: 0 <= i < |logs| && day(logs[i].createdAt) == k
    decreases |logs|
  {
    if logs != [] {
      var n := |logs| - 1;
      var init := logs[..n];
      DaysHaveLogs(init, day, k);
      if i :| 0 <= i < |init| && day(init[i].createdAt) == k { assert logs[i] == init[i]; }
      if i :| 0 <= i < |logs| && day(logs[i].createdAt) == k { assert i < n ==> init[i] == logs[i]; }
    }
  }

  lemma OnDaySnoc(logs: seq<Log>, log: Log, day: string -> string, k: string)
    ensures OnDay(logs + [log], day, k) == OnDay(logs, day, k) + if day(log.createdAt) == k then [log] else []
  {
    assert (logs + [log])[..|logs|] == logs;
  }

  lemma OnDayOne(log: Log, day: string -> string, k: string)
    ensures OnDay([log], day, k) == if day(log.createdAt) == k then [log] else []
  {
    assert [] + [log] == [log];
    OnDaySnoc([], log, day, k);
  }

  lemma Rejoin(a: seq<Log>, b: seq<Log>, c: seq<Log>)
    ensures (a + b) + c == a + (b + c)
  {
  }

  /** The logs of a day are picked out of any two parts of the list, in their order; with single logs
      that determines them. */
  lemma {:induction false} OnDayExactly(a: seq<Log>, b: seq<Log>, log: Log, day: string -> string, k: string)
    ensures OnDay(a + b, day, k) == OnDay(a, day, k) + OnDay(b, day, k)
    ensures OnDay([log], day, k) == if day(log.createdAt) == k then [log] else []
    decreases |b|
  {
    OnDayOne(log, day, k);
    if b == [] {
      assert a + b == a;
    } else {
      var init, last := b[..|b| - 1], b[|b| - 1];
      assert b == init + [last];
      Rejoin(a, init, [last]);
      OnDayExactly(a, init, log, day, k);
      OnDaySnoc(a + init, last, day, k);
      OnDaySnoc(init, last, day, k);
      Rejoin(OnDay(a, day, k), OnDay(init, day, k), if day(last.createdAt) == k then [last] else []);
    }
  }

  /** `groups.find` followed by a push into the found group. */
  method GroupRecentActivity(logs: seq<Log>, day: string -> string) returns (groups: seq<DayGroup>)
    ensures DayGrouped(logs, day, groups)
  {
    groups := [];
    for i := 0 to |logs|
      invariant DayGrouped(logs[..i], day, groups)
    {
      var log, key := logs[i], day(logs[i].createdAt);
      assert logs[..i + 1][..i] == logs[..i];
      DaysAreDistinct(logs[..i], day);
      DaysAreNotEmpty(logs[..i], day, key);
      ghost var before := groups;
      var at := Find(groups, key);
      if at < |groups| {
        assert key == Days(logs[..i], day)[at];
        groups := groups[at := groups[at].(logs := groups[at].logs + [log])];
      } else {
        assert key !in Days(logs[..i], day) by {
          assert forall g | 0 <= g < |groups| :: groups[g].key == Days(logs[..i], day)[g];
        }
        groups := groups + [DayGroup(key, [log])];
      }
      assert Days(logs[..i + 1], day) == if at < |before| then Days(logs[..i], day) else Days(logs[..i], day) + [key];
    }
    assert logs[..|logs|] == logs;
  }

  method Find(groups: seq<DayGroup>, key: string) returns (at: nat)
    ensures at <= |groups| && (at < |groups| ==> groups[at].key == key)
    ensures forall g | 0 <= g < at :: groups[g].key != key
  {
    at := 0;
    while at < |groups| && groups[at].key != key
      invariant at <= |groups| && forall g | 0 <= g < at :: groups[g].key != key
    {
      at := at + 1;
    }
  }

  /** Earlier groups first occur earlier: the first log of each day is older in the list. */
  lemma {:induction false} DaysInFirstOccurrenceOrder(logs: seq<Log>, day: string -> string, i: nat, j: nat)
    requires i < j < |Days(logs, day)|
    ensures exists p :: 0 <= p < |logs| && day(logs[p].createdAt) == Days(logs, day)[i]
                     && forall q | 0 <= q <= p :: day(logs[q].createdAt) != Days(logs, day)[j]
    decreases |logs|
  {
    var n := |logs| - 1;
    var init := logs[..n];
    var ks := Days(init, day);
    if j < |ks| {
      DaysInFirstOccurrenceOrder(init, day, i, j);
      var p :| 0 <= p < |init| && day(init[p].createdAt) == ks[i] && forall q | 0 <= q <= p :: day(init[q].createdAt) != ks[j];
      assert logs[p] == init[p];
      forall q | 0 <= q <= p ensures day(logs[q].createdAt) != ks[j] { assert logs[q] == init[q]; }
    } else {
      DaysHaveLogs(init, day, ks[i]);
      assert ks[i] in ks;
      var p :| 0 <= p < |init| && day(init[p].createdAt) == ks[i];
      assert logs[p] == init[p];
      forall q | 0 <= q <= p ensures day(logs[q].createdAt) != Days(logs, day)[j] {
        DaysHaveLogs(init, day, day(init[q].createdAt));
        assert logs[q] == init[q];
      }
    }
  }

  // ---------------------------------------------------------------------------------------
  // The nested grouping
  // ---------------------------------------------------------------------------------------

  /** All logs on the page: day after day, group after group. */
  function Shown(inner: seq<seq<TimeGroup>>): seq<Log>
    decreases |inner|
  {
    if inner == [] then [] else Flatten(inner[0]) + Shown(inner[1..])
  }

  lemma {:induction false} OnDayMultiplicity(logs: seq<Log>, day: string -> string, k: string, log: Log)
    ensures multiset(OnDay(logs, day, k))[log] == if day(log.createdAt) == k then multiset(logs)[log] else 0
    decreases |logs|
  {
    if logs != [] {
      var n := |logs| - 1;
      OnDayMultiplicity(logs[..n], day, k, log);
      assert logs == logs[..n] + [logs[n]];
    }
  }

  /** Counting a log over some days: each of its occurrences once if its day is among them. */
  lemma {:induction false} ShownMultiplicity(logs: seq<Log>, day: string -> string, keys: seq<string>, inner: seq<seq<TimeGroup>>, log: Log)
    requires |inner| == |keys| && forall i, j | 0 <= i < j < |keys| :: keys[i] != keys[j]
    requires forall g | 0 <= g < |keys| :: Flatten(inner[g]) == OnDay(logs, day, keys[g])
    ensures multiset(Shown(inner))[log] == if day(log.createdAt) in keys then multiset(logs)[log] else 0
    decreases |keys|
  {
    if keys != [] {
      OnDayMultiplicity(logs, day, keys[0], log);
      ShownMultiplicity(logs, day, keys[1..], inner[1..], log);
      assert keys == [keys[0]] + keys[1..];
    }
  }

  /** Grouping by day and then by consecutive timestamps neither loses nor repeats a log. */
  lemma NestedGroupingConserves(logs: seq<Log>, day: string -> string, days: seq<DayGroup>, inner: seq<seq<TimeGroup>>)
    requires DayGrouped(logs, day, days) && |inner| == |days|
    requires forall g | 0 <= g < |days| :: Consecutive(days[g].logs, inner[g])
    ensures multiset(Shown(inner)) == multiset(logs)
  {
    DaysAreDistinct(logs, day);
    forall log ensures multiset(Shown(inner))[log] == multiset(logs)[log] {
      ShownMultiplicity(logs, day, Days(logs, day), inner, log);
      if log in multiset(logs) {
        var i :| 0 <= i < |logs| && logs[i] == log;
        DaysHaveLogs(logs, day, day(log.createdAt));
      }
    }
  }
}
