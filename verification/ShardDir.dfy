/** The directory of daily shards: which file an event goes to and the order in which the files
    are read back. */
module ShardDir {
  import opened Events

  /** The lines of every shard; the file of a day is at the rank of its name. A missing file and
      an empty one read the same. */
  type Shards = seq<seq<Event>>

  /** All lines in file-name order, then line order. */
  function ReadAll(files: Shards): seq<Event> {
    if files == [] then [] else ReadAll(files[..|files| - 1]) + files[|files| - 1]
  }

  /** Appends a line to the shard of the event's day. */
  function AppendLine(files: Shards, e: Event): Shards {
    var d := e.ts.day;
    if d < |files| then files[d := files[d] + [e]]
    else files + seq(d - |files|, _ => []) + [[e]]
  }

  function FileAt(files: Shards, day: nat): seq<Event> {
    if day < |files| then files[day] else []
  }

  /** The events of one day, in the order of the log. */
  ghost function DayLines(log: seq<Event>, day: nat): seq<Event> {
    if log == [] then []
    else
      var n := |log| - 1;
      DayLines(log[..n], day) + if log[n].ts.day == day then [log[n]] else []
  }

  /** The events of all days before `day`, in the order of the log. */
  ghost function Before(log: seq<Event>, day: nat): seq<Event> {
    if log == [] then []
    else
      var n := |log| - 1;
      Before(log[..n], day) + if log[n].ts.day < day then [log[n]] else []
  }

  /** The shards hold the log, each file the events of its own day in append order. */
  ghost predicate FilesOf(files: Shards, log: seq<Event>) {
    && (forall day: nat :: FileAt(files, day) == DayLines(log, day))
    && (forall e :: e in log ==> e.ts.day < |files|)
  }

  ghost predicate DaysAscend(log: seq<Event>) {
    forall i, j :: 0 <= i < j < |log| ==> log[i].ts.day <= log[j].ts.day
  }

  lemma AppendFollowsLog(files: Shards, log: seq<Event>, e: Event)
    requires FilesOf(files, log)
    ensures FilesOf(AppendLine(files, e), log + [e])
  {
    var out := AppendLine(files, e);
    assert (log + [e])[..|log|] == log;
    forall day: nat ensures FileAt(out, day) == DayLines(log + [e], day) {
      assert FileAt(files, day) == DayLines(log, day);
    }
  }

  /** No day is without its own file: everything lies before the end of the directory. */
  lemma {:induction false} BeforeEverything(log: seq<Event>, day: nat)
    requires forall e :: e in log ==> e.ts.day < day
    ensures Before(log, day) == log
  {
    if log != [] {
      var n := |log| - 1;
      BeforeEverything(log[..n], day);
      assert log[n] in log && log == log[..n] + [log[n]];
    }
  }

  lemma {:induction false} BeforeNothing(log: seq<Event>)
    ensures Before(log, 0) == []
  {
    if log != [] {
      BeforeNothing(log[..|log| - 1]);
    }
  }

  lemma {:induction false} BeforeSplitsMultiset(log: seq<Event>, day: nat)
    ensures multiset(Before(log, day + 1)) == multiset(Before(log, day)) + multiset(DayLines(log, day))
  {
    if log != [] {
      BeforeSplitsMultiset(log[..|log| - 1], day);
    }
  }

  lemma {:induction false} NoDayLines(log: seq<Event>, day: nat)
    requires forall e :: e in log ==> e.ts.day < day
    ensures DayLines(log, day) == []
  {
    if log != [] {
      assert log[|log| - 1] in log;
      NoDayLines(log[..|log| - 1], day);
    }
  }

  lemma EarlierDays(log: seq<Event>, n: nat, day: nat)
    requires DaysAscend(log) && n < |log| && log[n].ts.day < day
    ensures forall e :: e in log[..n] ==> e.ts.day < day
  {
    forall e | e in log[..n] ensures e.ts.day < day {
      var i :| 0 <= i < n && log[i] == e;
    }
  }

  lemma {:induction false} BeforeSplits(log: seq<Event>, day: nat)
    requires DaysAscend(log)
    ensures Before(log, day + 1) == Before(log, day) + DayLines(log, day)
  {
    if log != [] {
      var n := |log| - 1;
      BeforeSplits(log[..n], day);
      var a, b := Before(log[..n], day), DayLines(log[..n], day);
      assert Before(log[..n], day + 1) == a + b;
      if log[n].ts.day < day {
        EarlierDays(log, n, day);
        NoDayLines(log[..n], day);
      } else if log[n].ts.day == day {
        assert a + (b + [log[n]]) == (a + b) + [log[n]];
      }
    }
  }

  lemma {:induction false} ReadPrefix(files: Shards, log: seq<Event>, k: nat)
    requires FilesOf(files, log) && k <= |files|
    ensures multiset(ReadAll(files[..k])) == multiset(Before(log, k))
    ensures DaysAscend(log) ==> ReadAll(files[..k]) == Before(log, k)
  {
    if k == 0 {
      BeforeNothing(log);
    } else {
      ReadPrefix(files, log, k - 1);
      BeforeSplitsMultiset(log, k - 1);
      if DaysAscend(log) { BeforeSplits(log, k - 1); }
      assert files[..k][..k - 1] == files[..k - 1];
      assert FileAt(files, k - 1) == DayLines(log, k - 1);
    }
  }

  /** Reading the shards returns every event of the log, each as often as it was appended. */
  lemma ReadIsPermutation(files: Shards, log: seq<Event>)
    requires FilesOf(files, log)
    ensures multiset(ReadAll(files)) == multiset(log)
    ensures |ReadAll(files)| == |log|
    ensures forall e :: e in ReadAll(files) <==> e in log
  {
    ReadPrefix(files, log, |files|);
    assert files[..|files|] == files;
    BeforeEverything(log, |files|);
    assert |multiset(ReadAll(files))| == |multiset(log)|;
    forall e ensures e in ReadAll(files) <==> e in log {
      assert e in ReadAll(files) <==> e in multiset(ReadAll(files));
      assert e in log <==> e in multiset(log);
    }
  }

  lemma {:induction false} DayLinesDay(log: seq<Event>, day: nat)
    ensures forall e :: e in DayLines(log, day) ==> e.ts.day == day
  {
    if log != [] { DayLinesDay(log[..|log| - 1], day); }
  }

  lemma {:induction false} ReadAscends(files: Shards, log: seq<Event>, k: nat)
    requires FilesOf(files, log) && k <= |files|
    ensures DaysAscend(ReadAll(files[..k]))
    ensures forall e :: e in ReadAll(files[..k]) ==> e.ts.day < k
  {
    if k > 0 {
      ReadAscends(files, log, k - 1);
      assert files[..k][..k - 1] == files[..k - 1];
      assert FileAt(files, k - 1) == DayLines(log, k - 1);
      DayLinesDay(log, k - 1);
      var init, last := ReadAll(files[..k - 1]), files[k - 1];
      var all: seq<Event> := init + last;
      assert ReadAll(files[..k]) == all;
      forall i, j | 0 <= i < j < |all| ensures all[i].ts.day <= all[j].ts.day {
        if j >= |init| { assert last[j - |init|] in last; }
        if i < |init| { assert init[i] in init; } else { assert last[i - |init|] in last; }
      }
    }
  }

  /** The read order is the append order exactly when no event was dated before an earlier one. */
  lemma ReadOrder(files: Shards, log: seq<Event>)
    requires FilesOf(files, log)
    ensures ReadAll(files) == log <==> DaysAscend(log)
  {
    assert files[..|files|] == files;
    ReadPrefix(files, log, |files|);
    BeforeEverything(log, |files|);
    ReadAscends(files, log, |files|);
  }
}
