/** Usage counters with a daily rollover: the background's read-modify-write on a
    completed check, its start-up reset, the settings page's display rule, and
    the event message the page agent sends. */
module Counters {
  import opened Storage

  /** The payload of an `UPDATE_STATS` message: `kind` is its `type` field (the
      empty string when absent) and `issuesFound` its issue count. */
  datatype StatsEvent = StatsEvent(kind: string, issuesFound: nat)

  /** The four stored counter fields after an update. */
  datatype Counters = Counters(todayChecks: int, totalChecks: int, totalIssues: int, lastStatsDate: string)

  /** `stats.<key> || 0` for a stored counter; a value that is not a number reads as 0. */
  function CounterOr0(store: Store, key: string): int {
    if key in store && store[key].Number? && store[key].num.Int? then store[key].num.n else 0
  }

  /** The stored date is not today (an absent date is never today). */
  predicate Stale(store: Store, today: string) {
    !("lastStatsDate" in store && store["lastStatsDate"] == Str(today))
  }

  /** The event kinds that count as a completed operation. */
  predicate Counted(e: StatsEvent) {
    e.kind == "check_completed" || e.kind == "prompt_converted"
  }

  /** The background's `updateStats` on day `today`. */
  function UpdateStats(store: Store, today: string, e: StatsEvent): (r: Counters)
    ensures r.lastStatsDate == today
    ensures Counted(e) && Stale(store, today) ==> r.todayChecks == 1
    ensures Counted(e) && !Stale(store, today) ==> r.todayChecks == CounterOr0(store, "todayChecks") + 1
    ensures !Counted(e) ==> r.todayChecks == if Stale(store, today) then 0 else CounterOr0(store, "todayChecks")
    ensures r.totalChecks == CounterOr0(store, "totalChecks") + (if Counted(e) then 1 else 0)
    ensures r.totalIssues == CounterOr0(store, "totalIssues") + (if Counted(e) then e.issuesFound else 0)
    ensures r.totalIssues >= CounterOr0(store, "totalIssues")
  {
    var today0 := if Stale(store, today) then 0 else CounterOr0(store, "todayChecks");
    if Counted(e) then
      Counters(today0 + 1, CounterOr0(store, "totalChecks") + 1,
               CounterOr0(store, "totalIssues") + e.issuesFound, today)
    else
      Counters(today0, CounterOr0(store, "totalChecks"), CounterOr0(store, "totalIssues"), today)
  }

  /** The stored fields the counters live in. */
  const CounterKeys: set<string> := {"todayChecks", "totalChecks", "totalIssues", "lastStatsDate"}

  /** The record `updateStats` writes back. */
  function CountersPatch(c: Counters): Store {
    map[
      "todayChecks" := Number(Int(c.todayChecks)),
      "totalChecks" := Number(Int(c.totalChecks)),
      "totalIssues" := Number(Int(c.totalIssues)),
      "lastStatsDate" := Str(c.lastStatsDate)
    ]
  }

  /** The store after one `updateStats`. */
  function Record(store: Store, today: string, e: StatsEvent): Store {
    Write(store, CountersPatch(UpdateStats(store, today, e)))
  }

  /** The background's `initializeStats`: on a new day it writes a zero daily count
      and today's date and nothing else; otherwise it writes nothing. */
  function InitializeStats(store: Store, today: string): (r: Store)
    ensures Stale(store, today) ==> r == map["todayChecks" := Number(Int(0)), "lastStatsDate" := Str(today)]
    ensures !Stale(store, today) ==> r == map[]
    ensures "totalChecks" !in r && "totalIssues" !in r
  {
    if Stale(store, today) then map["todayChecks" := Number(Int(0)), "lastStatsDate" := Str(today)]
    else map[]
  }

  /** The three numbers the settings page shows. */
  datatype Display = Display(todayChecks: int, totalChecks: int, totalIssues: int)

  /** The settings page's `loadStats`: it reads the store and applies the rollover
      to what it shows, without writing anything back. */
  function DisplayStats(store: Store, today: string): Display {
    Display(
      if Stale(store, today) then 0 else CounterOr0(store, "todayChecks"),
      CounterOr0(store, "totalChecks"),
      CounterOr0(store, "totalIssues"))
  }

  /** The settings page shows exactly what the store holds once the background's
      start-up reset has run: the display rule and the reset agree. */
  lemma DisplayAgreesWithReset(store: Store, today: string)
    ensures var after := Write(store, InitializeStats(store, today));
      && DisplayStats(store, today) == DisplayStats(after, today)
      && DisplayStats(store, today).todayChecks == CounterOr0(after, "todayChecks")
      && !Stale(after, today)
  {
    var after := Write(store, InitializeStats(store, today));
    if Stale(store, today) {
      assert after["todayChecks"] == Number(Int(0));
      assert after["lastStatsDate"] == Str(today);
    }
  }

  /** The start-up reset does not change what the next update writes. */
  lemma ResetThenUpdate(store: Store, today: string, e: StatsEvent)
    ensures UpdateStats(Write(store, InitializeStats(store, today)), today, e) == UpdateStats(store, today, e)
  {
    DisplayAgreesWithReset(store, today);
  }

  /** The store after a run of events, each on its own day. */
  function Replay(store: Store, run: seq<(string, StatsEvent)>): Store
    decreases |run|
  {
    if |run| == 0 then store
    else Replay(Record(store, run[0].0, run[0].1), run[1..])
  }

  /** How many events of a run are counted. */
  function CountedIn(run: seq<(string, StatsEvent)>): nat {
    if |run| == 0 then 0
    else (if Counted(run[0].1) then 1 else 0) + CountedIn(run[1..])
  }

  /** Issues reported by the counted events of a run. */
  function IssuesIn(run: seq<(string, StatsEvent)>): nat {
    if |run| == 0 then 0
    else (if Counted(run[0].1) then run[0].1.issuesFound else 0) + IssuesIn(run[1..])
  }

  /** After a run of events the total count has grown by the number of counted
      events, and the issue total by their issues, whatever days they fell on. */
  lemma {:induction false} TotalsCountEvents(store: Store, run: seq<(string, StatsEvent)>)
    ensures CounterOr0(Replay(store, run), "totalChecks") == CounterOr0(store, "totalChecks") + CountedIn(run)
    ensures CounterOr0(Replay(store, run), "totalIssues") == CounterOr0(store, "totalIssues") + IssuesIn(run)
    decreases |run|
  {
    if |run| > 0 {
      var next := Record(store, run[0].0, run[0].1);
      assert CounterOr0(next, "totalChecks") == UpdateStats(store, run[0].0, run[0].1).totalChecks;
      assert CounterOr0(next, "totalIssues") == UpdateStats(store, run[0].0, run[0].1).totalIssues;
      TotalsCountEvents(next, run[1..]);
    }
  }

  /** A run of counted events all on day `today`, started from a store whose date
      is another day, leaves the daily count equal to the length of the run. */
  lemma {:induction false} DailyCountRestartsEachDay(store: Store, today: string, run: seq<(string, StatsEvent)>)
    requires |run| > 0 && Stale(store, today)
    requires forall i | 0 <= i < |run| :: run[i].0 == today && Counted(run[i].1)
    ensures CounterOr0(Replay(store, run), "todayChecks") == |run|
    ensures !Stale(Replay(store, run), today)
  {
    var next := Record(store, today, run[0].1);
    assert CounterOr0(next, "todayChecks") == 1;
    SameDayRunAdds(next, today, run[1..]);
  }

  /** Counted events on the day the store already holds add one each. */
  lemma {:induction false} SameDayRunAdds(store: Store, today: string, run: seq<(string, StatsEvent)>)
    requires !Stale(store, today)
    requires forall i | 0 <= i < |run| :: run[i].0 == today && Counted(run[i].1)
    ensures CounterOr0(Replay(store, run), "todayChecks") == CounterOr0(store, "todayChecks") + |run|
    ensures !Stale(Replay(store, run), today)
    decreases |run|
  {
    if |run| > 0 {
      var next := Record(store, today, run[0].1);
      assert CounterOr0(next, "todayChecks") == CounterOr0(store, "todayChecks") + 1;
      assert next["lastStatsDate"] == Str(today);
      SameDayRunAdds(next, today, run[1..]);
    }
  }
}
