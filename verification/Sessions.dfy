/** Conversation sessions of data_merger.py: each contact's messages in time order,
    cut into answered runs, and every run sliced by day. */
module Sessions {
  import opened Common

  const IDLE_CLOSE := 30
  const MAX_SESSION_SPAN_DAYS := 30
  const MAX_SESSION_TURNS := 5000

  predicate IsDigit(c: char) { '0' <= c <= '9' }

  /** A time as the log writes it: one or two digits, a colon, two digits. */
  predicate Shaped(t: string) {
    && 4 <= |t| <= 5 && t[|t| - 3] == ':' && IsDigit(t[|t| - 2]) && IsDigit(t[|t| - 1])
    && IsDigit(t[0]) && (|t| == 5 ==> IsDigit(t[1]))
  }

  type TimeText = t: string | Shaped(t) witness "0:00"

  function Digit(c: char): nat
    requires IsDigit(c)
  {
    c as int - '0' as int
  }

  function Hours(t: TimeText): nat { if |t| == 4 then Digit(t[0]) else 10 * Digit(t[0]) + Digit(t[1]) }

  function Minutes(t: TimeText): nat { 10 * Digit(t[|t| - 2]) + Digit(t[|t| - 1]) }

  /** A number below 100 in two digits. */
  function TwoDigits(n: nat): string
    requires n < 100
  {
    [('0' as int + n / 10) as char, ('0' as int + n % 10) as char]
  }

  /** The times are those of one or two digits for the hour and two for the minute, read as such. */
  lemma TimesRead(h: nat, m: nat)
    requires h < 100 && m < 100
    ensures var t := TwoDigits(h) + ":" + TwoDigits(m); Shaped(t) && Hours(t) == h && Minutes(t) == m
    ensures h < 10 ==> var t := TwoDigits(h)[1..] + ":" + TwoDigits(m); Shaped(t) && Hours(t) == h && Minutes(t) == m
  {
  }

  lemma OnlyTimes(t: string)
    requires Shaped(t)
    ensures Hours(t) < 100 && Minutes(t) < 100
    ensures t == (if |t| == 5 then TwoDigits(Hours(t)) else TwoDigits(Hours(t))[1..]) + ":" + TwoDigits(Minutes(t))
  {
  }

  /** The last day that datetime knows. */
  const LAST_DAY := 3652059

  /** A message. Dates are numbered, those of the calendar from 1 to LAST_DAY in their
      order and any other date text beyond. */
  datatype Msg = Msg(contact: string, sender: string, day: Maybe<int>, time: Maybe<TimeText>, isSelf: bool,
                     text: string)

  /** Messages without a date or a time are passed over. */
  predicate Dated(m: Msg) { m.day.Just? && m.time.Just? }

  /** _parse_dt does not raise. */
  predicate Readable(m: Msg) {
    Dated(m) && 1 <= m.day.value <= LAST_DAY && Hours(m.time.value) < 24 && Minutes(m.time.value) < 60
  }

  /** A message can be read when its day is one of the calendar and its time one of the day. */
  lemma ReadableMeaning(m: Msg)
    ensures Readable(m) <==> m.day.Just? && m.time.Just? && 1 <= m.day.value <= 3652059
                             && exists h: nat, n: nat :: h < 24 && n < 60
                                  && (m.time.value == TwoDigits(h) + ":" + TwoDigits(n)
                                      || (h < 10 && m.time.value == TwoDigits(h)[1..] + ":" + TwoDigits(n)))
  {
    if Readable(m) {
      OnlyTimes(m.time.value);
      var h, n := Hours(m.time.value), Minutes(m.time.value);
      assert m.time.value == TwoDigits(h) + ":" + TwoDigits(n)
             || (h < 10 && m.time.value == TwoDigits(h)[1..] + ":" + TwoDigits(n));
    }
    if m.day.Just? && m.time.Just? {
      forall h: nat, n: nat | h < 24 && n < 60
                              && (m.time.value == TwoDigits(h) + ":" + TwoDigits(n)
                                  || (h < 10 && m.time.value == TwoDigits(h)[1..] + ":" + TwoDigits(n)))
        ensures Hours(m.time.value) == h && Minutes(m.time.value) == n
      {
        TimesRead(h, n);
      }
    }
  }

  /** The time of a dated message, in minutes. */
  function At(m: Msg): int {
    if Dated(m) then m.day.value * 1440 + Hours(m.time.value) * 60 + Minutes(m.time.value) else 0
  }

  /** The minutes of a dated message, digit by digit. */
  lemma AtMinutes(m: Msg)
    requires Dated(m)
    ensures var t, day, zero := m.time.value, m.day.value, '0' as int;
            && (|t| == 4 ==> At(m) == day * 1440 + (t[0] as int - zero) * 60
                                      + (t[2] as int - zero) * 10 + (t[3] as int - zero))
            && (|t| == 5 ==> At(m) == day * 1440 + ((t[0] as int - zero) * 10 + (t[1] as int - zero)) * 60
                                      + (t[3] as int - zero) * 10 + (t[4] as int - zero))
  {
  }

  // ------------------------------------------------------------ stable sort

  function Insert<T>(sorted: seq<T>, x: T, key: T -> int): (r: seq<T>)
    ensures |r| == |sorted| + 1
  {
    if sorted == [] || key(sorted[|sorted| - 1]) <= key(x) then sorted + [x]
    else Insert(sorted[..|sorted| - 1], x, key) + [sorted[|sorted| - 1]]
  }

  /** sort(key=...), which is stable. */
  function SortBy<T>(s: seq<T>, key: T -> int): (r: seq<T>)
    ensures |r| == |s|
  {
    if s == [] then [] else Insert(SortBy(s[..|s| - 1], key), s[|s| - 1], key)
  }

  ghost predicate Ordered<T>(s: seq<T>, key: T -> int) {
    forall i, j :: 0 <= i < j < |s| ==> key(s[i]) <= key(s[j])
  }

  lemma {:induction false} InsertOrdered<T>(sorted: seq<T>, x: T, key: T -> int)
    requires Ordered(sorted, key)
    ensures Ordered(Insert(sorted, x, key), key)
  {
    if sorted != [] && key(sorted[|sorted| - 1]) > key(x) {
      var n := |sorted| - 1;
      InsertOrdered(sorted[..n], x, key);
      InsertAdds(sorted[..n], x, key);
      var r := Insert(sorted[..n], x, key);
      assert Insert(sorted, x, key) == r + [sorted[n]];
      hide Insert;
      forall i | 0 <= i < |r| ensures key(r[i]) <= key(sorted[n]) {
        assert r[i] in multiset(r);
        assert r[i] == x || r[i] in multiset(sorted[..n]);
      }
    }
  }

  lemma {:induction false} InsertAdds<T>(sorted: seq<T>, x: T, key: T -> int)
    ensures multiset(Insert(sorted, x, key)) == multiset(sorted) + multiset{x}
  {
    if sorted != [] && key(sorted[|sorted| - 1]) > key(x) {
      var n := |sorted| - 1;
      InsertAdds(sorted[..n], x, key);
      assert sorted == sorted[..n] + [sorted[n]];
    }
  }

  lemma {:induction false} SortOrders<T>(s: seq<T>, key: T -> int)
    ensures Ordered(SortBy(s, key), key) && multiset(SortBy(s, key)) == multiset(s)
  {
    if s != [] {
      SortOrders(s[..|s| - 1], key);
      InsertOrdered(SortBy(s[..|s| - 1], key), s[|s| - 1], key);
      InsertAdds(SortBy(s[..|s| - 1], key), s[|s| - 1], key);
      assert s == s[..|s| - 1] + [s[|s| - 1]];
    }
  }

  /** The elements with one key, in the order of the list. */
  function OfKey<T>(s: seq<T>, key: T -> int, k: int): seq<T> {
    if s == [] then []
    else OfKey(s[..|s| - 1], key, k) + if key(s[|s| - 1]) == k then [s[|s| - 1]] else []
  }

  lemma OfKeyStep<T>(s: seq<T>, x: T, key: T -> int, k: int)
    ensures OfKey(s + [x], key, k) == OfKey(s, key, k) + if key(x) == k then [x] else []
  {
    assert (s + [x])[..|s|] == s;
  }

  lemma {:induction false} InsertStable<T>(sorted: seq<T>, x: T, key: T -> int, k: int)
    ensures OfKey(Insert(sorted, x, key), key, k) == OfKey(sorted, key, k) + if key(x) == k then [x] else []
  {
    OfKeyStep(sorted, x, key, k);
    if sorted != [] && key(sorted[|sorted| - 1]) > key(x) {
      var n := |sorted| - 1;
      InsertStable(sorted[..n], x, key, k);
      OfKeyStep(Insert(sorted[..n], x, key), sorted[n], key, k);
    }
  }

  /** Elements with the same key keep their order. */
  lemma {:induction false} SortStable<T>(s: seq<T>, key: T -> int, k: int)
    ensures OfKey(SortBy(s, key), key, k) == OfKey(s, key, k)
  {
    if s != [] {
      var n := |s| - 1;
      SortStable(s[..n], key, k);
      InsertStable(SortBy(s[..n], key), s[n], key, k);
    }
  }

  // ------------------------------------------------------------ runs of one contact

  /** The messages first..last, first answered at reply, latency minutes after the
      other party's last message before it. */
  datatype Run = Run(first: nat, reply: nat, last: nat, latency: int)

  function NextOther(msgs: seq<Msg>, i: nat): (j: nat)
    requires i <= |msgs|
    ensures i <= j <= |msgs| && (forall k :: i <= k < j ==> msgs[k].isSelf) && (j < |msgs| ==> !msgs[j].isSelf)
    decreases |msgs| - i
  {
    if i == |msgs| || !msgs[i].isSelf then i else NextOther(msgs, i + 1)
  }

  function NextSelf(msgs: seq<Msg>, i: nat): (j: nat)
    requires i <= |msgs|
    ensures i <= j <= |msgs| && (forall k :: i <= k < j ==> !msgs[k].isSelf) && (j < |msgs| ==> msgs[j].isSelf)
    decreases |msgs| - i
  {
    if i == |msgs| || msgs[i].isSelf then i else NextSelf(msgs, i + 1)
  }

  predicate Idle(msgs: seq<Msg>, i: nat)
    requires 0 < i < |msgs|
  {
    At(msgs[i]) - At(msgs[i - 1]) >= IDLE_CLOSE
  }

  function NextIdle(msgs: seq<Msg>, i: nat): (j: nat)
    requires 0 < i <= |msgs|
    ensures i <= j <= |msgs| && (forall k :: i <= k < j ==> !Idle(msgs, k)) && (j < |msgs| ==> Idle(msgs, j))
    decreases |msgs| - i
  {
    if i == |msgs| || Idle(msgs, i) then i else NextIdle(msgs, i + 1)
  }

  /** From message i on: the other party opens, the owner answers some time, and the
      run lasts until the first pause after the answer. */
  function RunsFrom(msgs: seq<Msg>, i: nat): seq<Run>
    requires i <= |msgs|
    decreases |msgs| - i
  {
    var first := NextOther(msgs, i);
    var reply := NextSelf(msgs, first);
    if reply == |msgs| then []
    else
      var last := NextIdle(msgs, reply + 1);
      [Run(first, reply, last, At(msgs[reply]) - At(msgs[reply - 1]))] + RunsFrom(msgs, last)
  }

  /** The active dict of the message loop. */
  datatype Active = Active(first: nat, awaiting: bool, reply: nat, lastOther: int, latency: int)

  /** What the loop state at message i promises. */
  ghost predicate Tracks(msgs: seq<Msg>, active: Maybe<Active>, i: nat) {
    && i <= |msgs|
    && (active.Just? ==>
          var a := active.value;
          && a.first < i
          && if a.awaiting then
               && NextOther(msgs, a.first) == a.first && NextSelf(msgs, a.first) == NextSelf(msgs, i)
               && a.lastOther == At(msgs[i - 1])
             else a.first < a.reply < i)
  }

  /** The runs still to come. */
  ghost function Rest(msgs: seq<Msg>, active: Maybe<Active>, i: nat): seq<Run>
    requires Tracks(msgs, active, i)
  {
    if active.Nothing? then RunsFrom(msgs, i)
    else if active.value.awaiting then RunsFrom(msgs, active.value.first)
    else [Run(active.value.first, active.value.reply, NextIdle(msgs, i), active.value.latency)]
         + RunsFrom(msgs, NextIdle(msgs, i))
  }

  lemma StepClosed(msgs: seq<Msg>, i: nat)
    requires i < |msgs|
    ensures msgs[i].isSelf ==> RunsFrom(msgs, i) == RunsFrom(msgs, i + 1)
    ensures !msgs[i].isSelf ==>
              var open := Just(Active(i, true, 0, At(msgs[i]), 0));
              Tracks(msgs, open, i + 1) && RunsFrom(msgs, i) == Rest(msgs, open, i + 1)
  {
    hide At;
  }

  lemma RunUnfolded(msgs: seq<Msg>, first: nat)
    requires first <= |msgs| && NextOther(msgs, first) == first && NextSelf(msgs, first) < |msgs|
    ensures var reply := NextSelf(msgs, first);
            var last := NextIdle(msgs, reply + 1);
            reply > first ==>
              RunsFrom(msgs, first) ==
                  [Run(first, reply, last, At(msgs[reply]) - At(msgs[reply - 1]))] + RunsFrom(msgs, last)
  {
    hide At;
  }

  lemma SelfIsNext(msgs: seq<Msg>, i: nat)
    requires i < |msgs| && msgs[i].isSelf
    ensures NextSelf(msgs, i) == i
  {
  }

  lemma AwaitingRun(msgs: seq<Msg>, a: Active, i: nat)
    requires i < |msgs| && Tracks(msgs, Just(a), i) && a.awaiting && msgs[i].isSelf
    ensures NextOther(msgs, a.first) == a.first < i && NextSelf(msgs, a.first) == i && a.lastOther == At(msgs[i - 1])
    ensures Rest(msgs, Just(a), i) == RunsFrom(msgs, a.first)
  {
    hide At, RunsFrom, NextOther, NextSelf;
    SelfIsNext(msgs, i);
  }

  lemma AnsweredRun(msgs: seq<Msg>, a: Active, i: nat)
    requires i < |msgs| && !a.awaiting && a.first < a.reply <= i
    ensures Tracks(msgs, Just(a), i + 1)
    ensures Rest(msgs, Just(a), i + 1) ==
            [Run(a.first, a.reply, NextIdle(msgs, i + 1), a.latency)] + RunsFrom(msgs, NextIdle(msgs, i + 1))
  {
    hide At, RunsFrom, NextIdle;
  }

  lemma StepReply(msgs: seq<Msg>, a: Active, i: nat)
    requires i < |msgs| && Tracks(msgs, Just(a), i) && a.awaiting && msgs[i].isSelf
    ensures var answered := Just(a.(awaiting := false, reply := i, latency := At(msgs[i]) - a.lastOther));
            Tracks(msgs, answered, i + 1) && Rest(msgs, Just(a), i) == Rest(msgs, answered, i + 1)
  {
    hide At, RunsFrom, NextOther, NextIdle, NextSelf, Tracks, Rest;
    AwaitingRun(msgs, a, i);
    RunUnfolded(msgs, a.first);
    AnsweredRun(msgs, a.(awaiting := false, reply := i, latency := At(msgs[i]) - a.lastOther), i);
  }

  lemma StepWait(msgs: seq<Msg>, a: Active, i: nat)
    requires i < |msgs| && Tracks(msgs, Just(a), i) && a.awaiting && !msgs[i].isSelf
    ensures var later := Just(a.(lastOther := At(msgs[i])));
            Tracks(msgs, later, i + 1) && Rest(msgs, Just(a), i) == Rest(msgs, later, i + 1)
  {
    hide At;
  }

  lemma StepGoesOn(msgs: seq<Msg>, a: Active, i: nat)
    requires i < |msgs| && Tracks(msgs, Just(a), i) && !a.awaiting
    ensures Idle(msgs, i) ==> Rest(msgs, Just(a), i) == [Run(a.first, a.reply, i, a.latency)] + RunsFrom(msgs, i)
    ensures !Idle(msgs, i) ==> Tracks(msgs, Just(a), i + 1) && Rest(msgs, Just(a), i) == Rest(msgs, Just(a), i + 1)
  {
    hide RunsFrom, At;
  }

  lemma StepEnd(msgs: seq<Msg>, active: Maybe<Active>)
    requires Tracks(msgs, active, |msgs|)
    ensures Rest(msgs, active, |msgs|) ==
            if active.Just? && !active.value.awaiting
            then [Run(active.value.first, active.value.reply, |msgs|, active.value.latency)] else []
  {
    hide At;
  }

  /** The message loop of extract_conversation_sessions for one contact; active's
      messages are always those from its first one on. */
  method ExtractRuns(msgs: seq<Msg>) returns (runs: seq<Run>)
    ensures runs == RunsFrom(msgs, 0)
  {
    hide RunsFrom, Rest, Tracks, At;
    runs := [];
    var active: Maybe<Active> := Nothing;
    assert Tracks(msgs, active, 0) && Rest(msgs, active, 0) == RunsFrom(msgs, 0) by { StepStart(msgs); }
    for i := 0 to |msgs|
      invariant Tracks(msgs, active, i)
      invariant RunsFrom(msgs, 0) == runs + Rest(msgs, active, i)
    {
      var msg := msgs[i];
      if active.Nothing? {
        NothingTracks(msgs, i);
        StepClosed(msgs, i);
        if !msg.isSelf {
          active := Just(Active(i, true, 0, At(msg), 0));
        }
        continue;
      }
      FirstBefore(msgs, active, i);
      var gap := At(msg) - At(msgs[i - 1]);
      if active.value.awaiting {
        if msg.isSelf {
          StepReply(msgs, active.value, i);
          active := Just(active.value.(awaiting := false, reply := i, latency := At(msg) - active.value.lastOther));
        } else {
          StepWait(msgs, active.value, i);
          active := Just(active.value.(lastOther := At(msg)));
        }
      } else {
        StepGoesOn(msgs, active.value, i);
        if gap >= IDLE_CLOSE {
          NothingTracks(msgs, i);
          StepClosed(msgs, i);
          runs := runs + [Run(active.value.first, active.value.reply, i, active.value.latency)];
          active := Nothing;
          if !msg.isSelf {
            active := Just(Active(i, true, 0, At(msg), 0));
          }
        }
      }
    }
    StepEnd(msgs, active);
    if active.Just? && !active.value.awaiting {
      runs := runs + [Run(active.value.first, active.value.reply, |msgs|, active.value.latency)];
    }
  }

  lemma StepStart(msgs: seq<Msg>)
    ensures Tracks(msgs, Nothing, 0) && Rest(msgs, Nothing, 0) == RunsFrom(msgs, 0)
  {
  }

  lemma NothingTracks(msgs: seq<Msg>, i: nat)
    requires i < |msgs|
    ensures Tracks(msgs, Nothing, i) && Tracks(msgs, Nothing, i + 1)
    ensures Rest(msgs, Nothing, i) == RunsFrom(msgs, i) && Rest(msgs, Nothing, i + 1) == RunsFrom(msgs, i + 1)
  {
  }

  lemma FirstBefore(msgs: seq<Msg>, active: Maybe<Active>, i: nat)
    requires Tracks(msgs, active, i) && active.Just?
    ensures i > 0
  {
  }

  // ------------------------------------------------------------ what runs are

  /** One run: the other party starts and is alone until the reply, and after the
      reply no pause reaches 30 minutes. */
  ghost predicate GoodRun(msgs: seq<Msg>, r: Run) {
    && r.first < r.reply < r.last <= |msgs|
    && (forall i :: r.first <= i < r.reply ==> !msgs[i].isSelf) && msgs[r.reply].isSelf
    && (forall i :: r.reply < i < r.last ==> !Idle(msgs, i))
    && (r.last < |msgs| ==> Idle(msgs, r.last))
  }

  ghost predicate InRun(r: Run, i: int) { r.first <= i < r.last }

  ghost predicate Covered(runs: seq<Run>, i: int) { exists k :: 0 <= k < |runs| && InRun(runs[k], i) }

  /** From message i on: separate good runs in order, and only the owner's own
      messages and an unanswered rest stay outside. */
  ghost predicate GoodRuns(msgs: seq<Msg>, runs: seq<Run>, i: nat)
    requires i <= |msgs|
  {
    && (forall k :: 0 <= k < |runs| ==> GoodRun(msgs, runs[k]) && i <= runs[k].first)
    && (forall k, l :: 0 <= k < l < |runs| ==> runs[k].last <= runs[l].first)
    && (forall j :: i <= j < |msgs| && !Covered(runs, j) ==> msgs[j].isSelf || Unanswered(msgs, j))
  }

  ghost predicate Unanswered(msgs: seq<Msg>, j: nat) { forall k :: j <= k < |msgs| ==> !msgs[k].isSelf }

  lemma GoodCons(msgs: seq<Msg>, r: Run, rest: seq<Run>, i: nat)
    requires GoodRun(msgs, r) && i <= r.first && GoodRuns(msgs, rest, r.last)
    requires forall j :: i <= j < r.first ==> msgs[j].isSelf
    ensures GoodRuns(msgs, [r] + rest, i)
  {
    hide GoodRun;
    var runs := [r] + rest;
    assert r.last > r.first by { RunNotEmpty(msgs, r); }
    forall j | i <= j < |msgs| && !Covered(runs, j) ensures msgs[j].isSelf || Unanswered(msgs, j) {
      assert !InRun(runs[0], j);
      if j >= r.last {
        forall k | 0 <= k < |rest| ensures !InRun(rest[k], j) { assert !InRun(runs[k + 1], j); }
        assert !Covered(rest, j);
      }
    }
    forall k, l | 0 <= k < l < |runs| ensures runs[k].last <= runs[l].first {
      if k > 0 { assert runs[k] == rest[k - 1] && runs[l] == rest[l - 1]; }
    }
  }

  lemma RunNotEmpty(msgs: seq<Msg>, r: Run)
    requires GoodRun(msgs, r)
    ensures r.first < r.last <= |msgs|
  {
  }

  /** The sessions of a contact are separate runs of its messages that start with the
      other party, and everything else is the owner's own or unanswered. */
  lemma {:induction false} RunsAreGood(msgs: seq<Msg>, i: nat)
    requires i <= |msgs|
    ensures GoodRuns(msgs, RunsFrom(msgs, i), i)
    decreases |msgs| - i
  {
    hide GoodRuns;
    var first := NextOther(msgs, i);
    var reply := NextSelf(msgs, first);
    if reply < |msgs| {
      var last := NextIdle(msgs, reply + 1);
      RunsAreGood(msgs, last);
      GoodCons(msgs, Run(first, reply, last, At(msgs[reply]) - At(msgs[reply - 1])), RunsFrom(msgs, last), i);
    } else {
      NoRuns(msgs, i, first);
    }
  }

  lemma NoRuns(msgs: seq<Msg>, i: nat, first: nat)
    requires i <= first <= |msgs| && (forall k :: i <= k < first ==> msgs[k].isSelf)
             && forall k :: first <= k < |msgs| ==> !msgs[k].isSelf
    ensures GoodRuns(msgs, [], i)
  {
  }

  /** Between two sessions of a contact lie at least 30 minutes. */
  lemma RunsApart(msgs: seq<Msg>, runs: seq<Run>, k: nat)
    requires GoodRuns(msgs, runs, 0) && k + 1 < |runs| && Ordered(msgs, At)
    ensures runs[k].last <= runs[k + 1].first < |msgs|
    ensures At(msgs[runs[k + 1].first]) - At(msgs[runs[k].last - 1]) >= 30
  {
    assert GoodRun(msgs, runs[k]) && GoodRun(msgs, runs[k + 1]);
    var last := runs[k].last;
    assert Idle(msgs, last);
    if last < runs[k + 1].first { assert At(msgs[last]) <= At(msgs[runs[k + 1].first]); }
  }

  /** After its answer a run goes on over every pause below 30 minutes, and over no other. */
  lemma PausesWithin(msgs: seq<Msg>, r: Run, i: nat)
    requires GoodRun(msgs, r) && r.reply < i <= r.last && i < |msgs|
    ensures i < r.last <==> At(msgs[i]) - At(msgs[i - 1]) < 30
  {
    hide At;
    if i < r.last { assert !Idle(msgs, i); } else { assert Idle(msgs, i); }
  }

  /** The description leaves no choice: good runs with their latencies are RunsFrom. */
  lemma {:induction false} RunsDetermined(msgs: seq<Msg>, runs: seq<Run>, i: nat)
    requires i <= |msgs| && GoodRuns(msgs, runs, i)
    requires forall k :: 0 <= k < |runs| ==> runs[k].latency == RunLatency(msgs, runs[k])
    ensures runs == RunsFrom(msgs, i)
    decreases |msgs| - i
  {
    hide GoodRuns, GoodRun, RunLatency, NextOther, NextSelf, NextIdle, Idle, At;
    if runs == [] {
      NoRunsAtAll(msgs, i);
    } else {
      HeadDetermined(msgs, runs, i);
      TailGood(msgs, runs, i);
      RunsDetermined(msgs, runs[1..], runs[0].last);
      assert runs == [runs[0]] + runs[1..];
    }
  }

  lemma NoRunsAtAll(msgs: seq<Msg>, i: nat)
    requires i <= |msgs| && GoodRuns(msgs, [], i)
    ensures RunsFrom(msgs, i) == []
  {
    var first := NextOther(msgs, i);
    if first < |msgs| {
      assert !Covered([], first);
      assert Unanswered(msgs, first);
    }
    assert NextSelf(msgs, first) == |msgs|;
  }

  lemma HeadDetermined(msgs: seq<Msg>, runs: seq<Run>, i: nat)
    requires i <= |msgs| && GoodRuns(msgs, runs, i) && runs != []
    ensures var r := runs[0];
            && i < r.last <= |msgs| && NextOther(msgs, i) == r.first && NextSelf(msgs, r.first) == r.reply < |msgs|
                 && NextIdle(msgs, r.reply + 1) == r.last
            && RunLatency(msgs, r) == At(msgs[r.reply]) - At(msgs[r.reply - 1])
  {
    hide Covered, Unanswered, Idle, At, NextOther, NextSelf, NextIdle;
    FirstIsNextOther(msgs, runs, i);
    var r := runs[0];
    assert GoodRun(msgs, r);
    hide GoodRuns;
    assert msgs[r.reply].isSelf;
    SelfIs(msgs, r.first, r.reply);
    IdleIs(msgs, r.reply + 1, r.last);
  }

  lemma SelfIs(msgs: seq<Msg>, i: nat, j: nat)
    requires i <= j < |msgs| && msgs[j].isSelf && forall k :: i <= k < j ==> !msgs[k].isSelf
    ensures NextSelf(msgs, i) == j
  {
  }

  lemma IdleIs(msgs: seq<Msg>, i: nat, j: nat)
    requires 0 < i <= j <= |msgs| && (forall k :: i <= k < j ==> !Idle(msgs, k)) && (j < |msgs| ==> Idle(msgs, j))
    ensures NextIdle(msgs, i) == j
  {
    hide Idle;
  }

  lemma TailGood(msgs: seq<Msg>, runs: seq<Run>, i: nat)
    requires i <= |msgs| && GoodRuns(msgs, runs, i) && runs != []
    ensures runs[0].last <= |msgs| && GoodRuns(msgs, runs[1..], runs[0].last)
  {
    var r, rest := runs[0], runs[1..];
    assert GoodRun(msgs, r);
    hide GoodRun;
    forall j | r.last <= j < |msgs| && !Covered(rest, j) ensures msgs[j].isSelf || Unanswered(msgs, j) {
      forall k | 0 <= k < |runs| ensures !InRun(runs[k], j) {
        if k > 0 { assert !InRun(rest[k - 1], j); }
      }
      assert !Covered(runs, j);
    }
  }

  ghost function RunLatency(msgs: seq<Msg>, r: Run): int {
    if 0 < r.reply < |msgs| then At(msgs[r.reply]) - At(msgs[r.reply - 1]) else 0
  }

  lemma LatencyIs(msgs: seq<Msg>, r: Run)
    requires GoodRun(msgs, r)
    ensures 0 < r.reply < |msgs| && RunLatency(msgs, r) == At(msgs[r.reply]) - At(msgs[r.reply - 1])
  {
  }

  lemma FirstIsNextOther(msgs: seq<Msg>, runs: seq<Run>, i: nat)
    requires i <= |msgs| && GoodRuns(msgs, runs, i) && runs != []
    ensures NextOther(msgs, i) == runs[0].first
  {
    var r := runs[0];
    assert GoodRun(msgs, r);
    var first := NextOther(msgs, i);
    assert !msgs[r.first].isSelf;
    forall j | i <= j < r.first ensures msgs[j].isSelf {
      forall k | 0 <= k < |runs| ensures !InRun(runs[k], j) {
        if k > 0 { assert r.last <= runs[k].first; }
      }
      assert !Covered(runs, j);
      assert !Unanswered(msgs, j) by { assert msgs[r.reply].isSelf; }
    }
  }

  // ------------------------------------------------------------ day slices

  function OnDay(msgs: seq<Msg>, day: Maybe<int>): (r: seq<Msg>)
    ensures forall m :: m in r <==> m in msgs && m.day == day
  {
    if msgs == [] then []
    else OnDay(msgs[..|msgs| - 1], day) + if msgs[|msgs| - 1].day == day then [msgs[|msgs| - 1]] else []
  }

  /** The slices of the given days, one after the other. */
  function Rejoined(msgs: seq<Msg>, days: seq<Maybe<int>>): seq<Msg> {
    if days == [] then [] else Rejoined(msgs, days[..|days| - 1]) + OnDay(msgs, days[|days| - 1])
  }

  /** turns_by_date of _session_from_buffer; days are its keys in insertion order. */
  method SliceByDay(msgs: seq<Msg>) returns (days: seq<Maybe<int>>, slices: map<Maybe<int>, seq<Msg>>)
    ensures Sliced(msgs, days, slices)
    ensures forall d :: d in slices <==> exists m :: m in msgs && m.day == d
    ensures forall d, m :: d in slices && m in slices[d] <==> m in msgs && m.day == d
  {
    hide Sliced;
    days, slices := [], map[];
    assert Sliced(msgs[..0], days, slices) by { NothingSliced(msgs[..0]); }
    for i := 0 to |msgs|
      invariant Sliced(msgs[..i], days, slices)
    {
      var m := msgs[i];
      assert msgs[..i + 1] == msgs[..i] + [m];
      SliceStep(msgs[..i], m, days, slices);
      if m.day !in slices {
        days := days + [m.day];
        slices := slices[m.day := []];
      }
      slices := slices[m.day := slices[m.day] + [m]];
    }
    assert msgs[..|msgs|] == msgs;
    SlicedMeans(msgs, days, slices);
  }

  lemma SlicedMeans(msgs: seq<Msg>, days: seq<Maybe<int>>, slices: map<Maybe<int>, seq<Msg>>)
    requires Sliced(msgs, days, slices)
    ensures forall d :: d in slices <==> exists m :: m in msgs && m.day == d
    ensures forall d, m :: d in slices && m in slices[d] <==> m in msgs && m.day == d
  {
    hide OnDay, DaysOf;
    DaysCover(msgs);
  }

  ghost predicate Sliced(msgs: seq<Msg>, days: seq<Maybe<int>>, slices: map<Maybe<int>, seq<Msg>>) {
    && days == DaysOf(msgs)
    && (forall d :: d in days <==> d in slices)
    && forall d :: d in slices ==> slices[d] == OnDay(msgs, d)
  }

  lemma NothingSliced(msgs: seq<Msg>)
    requires msgs == []
    ensures Sliced(msgs, [], map[])
  {
  }

  lemma SliceStep(msgs: seq<Msg>, m: Msg, days: seq<Maybe<int>>, slices: map<Maybe<int>, seq<Msg>>)
    requires Sliced(msgs, days, slices)
    ensures m.day in slices ==> Sliced(msgs + [m], days, slices[m.day := slices[m.day] + [m]])
    ensures m.day !in slices ==> Sliced(msgs + [m], days + [m.day], slices[m.day := []][m.day := [] + [m]])
  {
    hide OnDay, DaysOf;
    DaysStep(msgs, m);
    forall d ensures OnDay(msgs + [m], d) == OnDay(msgs, d) + if m.day == d then [m] else [] { OnDayStep(msgs, m, d); }
    if m.day !in slices {
      DaysCover(msgs);
      NotOnDay(msgs, m.day);
    }
  }

  function DaysOf(msgs: seq<Msg>): seq<Maybe<int>> {
    if msgs == [] then []
    else
      var before, m := DaysOf(msgs[..|msgs| - 1]), msgs[|msgs| - 1];
      if m.day in before then before else before + [m.day]
  }

  lemma {:induction false} DaysCover(msgs: seq<Msg>)
    ensures forall m :: m in msgs ==> m.day in DaysOf(msgs)
    ensures forall d :: d in DaysOf(msgs) ==> exists m :: m in msgs && m.day == d
  {
    if msgs != [] {
      var n := |msgs| - 1;
      DaysCover(msgs[..n]);
      assert msgs == msgs[..n] + [msgs[n]];
      forall d | d in DaysOf(msgs) ensures exists m :: m in msgs && m.day == d {
        if d in DaysOf(msgs[..n]) {
          var m :| m in msgs[..n] && m.day == d;
          assert m in msgs;
        } else {
          assert msgs[n] in msgs;
        }
      }
    }
  }

  lemma OnDayStep(msgs: seq<Msg>, m: Msg, d: Maybe<int>)
    ensures OnDay(msgs + [m], d) == OnDay(msgs, d) + if m.day == d then [m] else []
  {
    assert (msgs + [m])[..|msgs|] == msgs;
  }

  lemma DaysStep(msgs: seq<Msg>, m: Msg)
    ensures DaysOf(msgs + [m]) == if m.day in DaysOf(msgs) then DaysOf(msgs) else DaysOf(msgs) + [m.day]
  {
    assert (msgs + [m])[..|msgs|] == msgs;
  }

  lemma {:induction false} NotOnDay(msgs: seq<Msg>, d: Maybe<int>)
    requires forall m :: m in msgs ==> m.day != d
    ensures OnDay(msgs, d) == []
  {
    if msgs != [] {
      NotOnDay(msgs[..|msgs| - 1], d);
      assert msgs[|msgs| - 1] in msgs;
    }
  }

  ghost predicate DaysForward(msgs: seq<Msg>) {
    && (forall m :: m in msgs ==> m.day.Just?)
    && forall i, j :: 0 <= i < j < |msgs| ==>
         msgs[i].day.Just? && msgs[j].day.Just? && msgs[i].day.value <= msgs[j].day.value
  }

  lemma TimeOrderIsDayOrder(msgs: seq<Msg>)
    requires (forall m :: m in msgs ==> Readable(m)) && Ordered(msgs, At)
    ensures DaysForward(msgs)
  {
    forall i, j | 0 <= i < j < |msgs|
      ensures msgs[i].day.Just? && msgs[j].day.Just? && msgs[i].day.value <= msgs[j].day.value
    {
      assert Readable(msgs[i]) && Readable(msgs[j]) && At(msgs[i]) <= At(msgs[j]);
    }
  }

  lemma {:induction false} RejoinedOther(msgs: seq<Msg>, m: Msg, days: seq<Maybe<int>>)
    requires m.day !in days
    ensures Rejoined(msgs + [m], days) == Rejoined(msgs, days)
  {
    if days != [] {
      RejoinedOther(msgs, m, days[..|days| - 1]);
      OnDayStep(msgs, m, days[|days| - 1]);
    }
  }

  ghost predicate Ascending(days: seq<Maybe<int>>) {
    forall i, j :: 0 <= i < j < |days| ==> days[i].Just? && days[j].Just? && days[i].value < days[j].value
  }

  /** In time order the days come in ascending order, each once, and the slices joined
      again are the messages: every turn is in exactly one of them. */
  lemma {:induction false} SlicesRejoin(msgs: seq<Msg>)
    requires DaysForward(msgs)
    ensures Rejoined(msgs, DaysOf(msgs)) == msgs && Ascending(DaysOf(msgs))
  {
    SlicesRejoinTo(msgs, |msgs|);
    assert msgs[..|msgs|] == msgs;
  }

  ghost predicate Rejoins(msgs: seq<Msg>) {
    && Rejoined(msgs, DaysOf(msgs)) == msgs && Ascending(DaysOf(msgs))
    && (msgs != [] ==> DaysOf(msgs) != [] && DaysOf(msgs)[|DaysOf(msgs)| - 1] == msgs[|msgs| - 1].day)
  }

  lemma {:induction false} SlicesRejoinTo(msgs: seq<Msg>, n: nat)
    requires DaysForward(msgs) && n <= |msgs|
    ensures Rejoins(msgs[..n])
  {
    if n > 0 {
      SlicesRejoinTo(msgs, n - 1);
      assert msgs[..n] == msgs[..n - 1] + [msgs[n - 1]];
      ForwardTo(msgs, n);
      RejoinStep(msgs[..n - 1], msgs[n - 1]);
    }
  }

  lemma ForwardTo(msgs: seq<Msg>, n: nat)
    requires DaysForward(msgs) && n <= |msgs|
    ensures DaysForward(msgs[..n])
  {
  }

  lemma RejoinStep(before: seq<Msg>, m: Msg)
    requires DaysForward(before + [m]) && Rejoins(before)
    ensures Rejoins(before + [m])
  {
    hide DaysForward, Ascending, DaysOf, Rejoined;
    ForwardPrefix(before, m);
    DaysStep(before, m);
    var days := DaysOf(before);
    if before == [] {
      FirstDay(m);
      assert before + [m] == [m];
    } else if m.day == days[|days| - 1] {
      SameDay(before, m, days);
    } else {
      DaysCover(before);
      NewDay(before, m, days);
    }
  }

  lemma ForwardPrefix(before: seq<Msg>, m: Msg)
    requires DaysForward(before + [m])
    ensures DaysForward(before) && m.day.Just?
    ensures before != [] ==> before[|before| - 1].day.Just? && before[|before| - 1].day.value <= m.day.value
  {
    var all := before + [m];
    assert all[|before|] == m && m in all;
    forall x | x in before ensures x.day.Just? { assert x in all; }
    forall i, j | 0 <= i < j < |before|
      ensures before[i].day.Just? && before[j].day.Just? && before[i].day.value <= before[j].day.value
    {
      assert all[i] == before[i] && all[j] == before[j];
    }
    if before != [] { assert all[|before| - 1] == before[|before| - 1]; }
  }

  lemma FirstDay(m: Msg)
    requires m.day.Just?
    ensures DaysOf([]) == [] && DaysOf([m]) == [m.day] && Rejoined([m], [m.day]) == [m] && Ascending([m.day])
  {
    assert [m][..0] == [] && [m.day][..0] == [];
    assert OnDay([m], m.day) == [m];
  }

  lemma SameDay(before: seq<Msg>, m: Msg, days: seq<Maybe<int>>)
    requires days != [] && Ascending(days) && days[|days| - 1] == m.day && m.day.Just?
             && Rejoined(before, days) == before
    ensures Rejoined(before + [m], days) == before + [m] && m.day in days
  {
    hide OnDay;
    var n := |days| - 1;
    assert m.day !in days[..n] by {
      forall i | 0 <= i < n ensures days[i] != m.day { assert days[i].value < days[n].value; }
    }
    RejoinedOther(before, m, days[..n]);
    OnDayStep(before, m, m.day);
  }

  lemma RejoinedStep(msgs: seq<Msg>, days: seq<Maybe<int>>, d: Maybe<int>)
    ensures Rejoined(msgs, days + [d]) == Rejoined(msgs, days) + OnDay(msgs, d)
  {
    assert (days + [d])[..|days|] == days;
  }

  lemma NewDay(before: seq<Msg>, m: Msg, days: seq<Maybe<int>>)
    requires days != [] && Ascending(days) && days[|days| - 1].Just? && m.day.Just?
             && days[|days| - 1].value < m.day.value
    requires Rejoined(before, days) == before && forall x :: x in before ==> x.day in days
    ensures m.day !in days && Ascending(days + [m.day]) && Rejoined(before + [m], days + [m.day]) == before + [m]
  {
    hide OnDay, Rejoined;
    forall i | 0 <= i < |days| ensures days[i] != m.day && days[i].Just? && days[i].value < m.day.value {
      if i < |days| - 1 { assert days[i].value < days[|days| - 1].value; }
    }
    RejoinedOther(before, m, days);
    OnDayStep(before, m, m.day);
    NotOnDay(before, m.day);
    RejoinedStep(before + [m], days, m.day);
  }

  // ------------------------------------------------------------ contacts

  function SendersOf(messages: seq<Msg>, contact: string): set<string> {
    set m | m in messages && m.contact == contact :: m.sender
  }

  /** Three senders or more. */
  predicate IsGroup(messages: seq<Msg>, contact: string) { |SendersOf(messages, contact)| >= 3 }

  ghost predicate Writes(messages: seq<Msg>, contact: string, sender: string) {
    exists m :: m in messages && m.contact == contact && m.sender == sender
  }

  /** A group is a contact to which three different senders write. */
  lemma GroupMeaning(messages: seq<Msg>, contact: string)
    ensures IsGroup(messages, contact) <==>
            exists x, y, z ::
              && Writes(messages, contact, x) && Writes(messages, contact, y) && Writes(messages, contact, z)
              && x != y && y != z && x != z
  {
    var senders := SendersOf(messages, contact);
    assert forall x :: x in senders <==> Writes(messages, contact, x);
    hide Writes, SendersOf;
    if |senders| >= 3 {
      var x, y, z := ThreeOf(senders);
      assert Writes(messages, contact, x) && Writes(messages, contact, y) && Writes(messages, contact, z);
    }
    if x, y, z :| Writes(messages, contact, x) && Writes(messages, contact, y) && Writes(messages, contact, z)
                  && x != y && y != z && x != z {
      SubsetSize({x, y, z}, senders);
    }
  }

  lemma ThreeOf(s: set<string>) returns (x: string, y: string, z: string)
    requires |s| >= 3
    ensures x in s && y in s && z in s && x != y && y != z && x != z
  {
    x := OneOf(s);
    y := OneOf(s - {x});
    z := OneOf(s - {x} - {y});
  }

  lemma OneOf(s: set<string>) returns (x: string)
    requires |s| > 0
    ensures x in s
  {
    x :| x in s;
  }

  /** _group_chat_contacts. */
  method GroupChatContacts(messages: seq<Msg>) returns (groups: set<string>)
    ensures forall c :: c in groups <==> IsGroup(messages, c)
  {
    var per: map<string, set<string>> := map[];
    for i := 0 to |messages|
      invariant forall c ::
                  if c in per then per[c] == SendersOf(messages[..i], c) else SendersOf(messages[..i], c) == {}
    {
      var m := messages[i];
      assert messages[..i + 1] == messages[..i] + [m];
      forall c
        ensures SendersOf(messages[..i + 1], c) ==
                SendersOf(messages[..i], c) + if m.contact == c then {m.sender} else {}
      {
      }
      per := per[m.contact := (if m.contact in per then per[m.contact] else {}) + {m.sender}];
    }
    assert messages[..|messages|] == messages;
    groups := set c | c in per && |per[c]| >= 3;
  }

  /** The dated messages of a contact, in the order of the log. */
  function DatedOf(messages: seq<Msg>, contact: string): (r: seq<Msg>)
    ensures forall m :: m in r <==> m in messages && m.contact == contact && Dated(m)
  {
    if messages == [] then []
    else
      var m := messages[|messages| - 1];
      DatedOf(messages[..|messages| - 1], contact) + if m.contact == contact && Dated(m) then [m] else []
  }

  /** The contacts with a dated message that keep accepts, in the order they are first met. */
  function ContactsMet(messages: seq<Msg>, skip: set<string>): seq<string> {
    if messages == [] then []
    else
      var before, m := ContactsMet(messages[..|messages| - 1], skip), messages[|messages| - 1];
      if Dated(m) && m.contact !in skip && m.contact !in before then before + [m.contact] else before
  }

  lemma {:induction false} MetMeaning(messages: seq<Msg>, skip: set<string>)
    ensures forall c :: c in ContactsMet(messages, skip) <==> c !in skip && DatedOf(messages, c) != []
    ensures forall i, j :: 0 <= i < j < |ContactsMet(messages, skip)| ==>
            ContactsMet(messages, skip)[i] != ContactsMet(messages, skip)[j]
  {
    if messages != [] { MetMeaning(messages[..|messages| - 1], skip); }
  }

  lemma DatedStep(messages: seq<Msg>, m: Msg, contact: string)
    ensures DatedOf(messages + [m], contact) ==
            DatedOf(messages, contact) + if m.contact == contact && Dated(m) then [m] else []
  {
    assert (messages + [m])[..|messages|] == messages;
  }

  lemma MetStep(messages: seq<Msg>, m: Msg, skip: set<string>)
    ensures ContactsMet(messages + [m], skip) ==
            ContactsMet(messages, skip)
            + if Dated(m) && m.contact !in skip && m.contact !in ContactsMet(messages, skip) then [m.contact] else []
  {
    assert (messages + [m])[..|messages|] == messages;
  }

  ghost predicate Grouped(messages: seq<Msg>, skip: set<string>, order: seq<string>, groupsOf: map<string, seq<Msg>>) {
    && order == ContactsMet(messages, skip)
    && (forall c :: c in order <==> c in groupsOf)
    && forall c :: c in groupsOf ==> groupsOf[c] == DatedOf(messages, c)
  }

  lemma NothingGrouped(messages: seq<Msg>, skip: set<string>)
    requires messages == []
    ensures Grouped(messages, skip, [], map[])
  {
  }

  lemma GroupStep(messages: seq<Msg>, m: Msg, skip: set<string>, order: seq<string>, groupsOf: map<string, seq<Msg>>)
    requires Grouped(messages, skip, order, groupsOf)
    ensures m.contact in skip || !Dated(m) ==> Grouped(messages + [m], skip, order, groupsOf)
    ensures m.contact !in skip && Dated(m) && m.contact in groupsOf ==>
            Grouped(messages + [m], skip, order, groupsOf[m.contact := groupsOf[m.contact] + [m]])
    ensures m.contact !in skip && Dated(m) && m.contact !in groupsOf ==>
            Grouped(messages + [m], skip, order + [m.contact], groupsOf[m.contact := []][m.contact := [] + [m]])
  {
    MetMeaning(messages, skip);
    hide ContactsMet, DatedOf, Dated;
    MetStep(messages, m, skip);
    forall c
      ensures DatedOf(messages + [m], c) == DatedOf(messages, c) + if m.contact == c && Dated(m) then [m] else []
    {
      DatedStep(messages, m, c);
    }
  }

  /** Every dated message that is not skipped has a date and a time of the calendar. */
  ghost predicate AllReadable(messages: seq<Msg>, skip: set<string>) {
    forall m :: m in messages && m.contact !in skip && Dated(m) ==> Readable(m)
  }

  /** by_contact, an insertion-ordered dict; not ok is the error of datetime. */
  method GroupByContact(messages: seq<Msg>, skip: set<string>)
    returns (ok: bool, order: seq<string>, groupsOf: map<string, seq<Msg>>)
    ensures ok <==> AllReadable(messages, skip)
    ensures ok ==> Grouped(messages, skip, order, groupsOf)
  {
    hide Grouped, Dated, Readable;
    ok, order, groupsOf := true, [], map[];
    NothingGrouped(messages[..0], skip);
    for i := 0 to |messages|
      invariant Grouped(messages[..i], skip, order, groupsOf) && AllReadable(messages[..i], skip)
    {
      var m := messages[i];
      assert messages[..i + 1] == messages[..i] + [m];
      GroupStep(messages[..i], m, skip, order, groupsOf);
      if m.contact in skip || !Dated(m) { continue; }
      if !Readable(m) { return false, order, groupsOf; }
      if m.contact !in groupsOf {
        order := order + [m.contact];
        groupsOf := groupsOf[m.contact := []];
      }
      groupsOf := groupsOf[m.contact := groupsOf[m.contact] + [m]];
    }
    assert messages[..|messages|] == messages;
  }

  // ------------------------------------------------------------ all sessions

  datatype Session = Session(contact: string, msgs: seq<Msg>, latency: int)

  predicate Oversized(s: Session) {
    |set m | m in s.msgs :: m.day| > MAX_SESSION_SPAN_DAYS || |s.msgs| > MAX_SESSION_TURNS
  }

  function SessionAt(contact: string, msgs: seq<Msg>, r: Run): Session {
    Session(contact, if r.first <= r.last <= |msgs| then msgs[r.first..r.last] else [], r.latency)
  }

  function SessionsOf(contact: string, msgs: seq<Msg>, runs: seq<Run>): seq<Session> {
    if runs == [] then []
    else SessionsOf(contact, msgs, runs[..|runs| - 1]) + [SessionAt(contact, msgs, runs[|runs| - 1])]
  }

  /** A contact's messages in time order. */
  function Timeline(messages: seq<Msg>, contact: string): seq<Msg> { SortBy(DatedOf(messages, contact), At) }

  /** The sessions of the given contacts, one contact after the other. */
  function SessionsBy(messages: seq<Msg>, contacts: seq<string>): seq<Session> {
    if contacts == [] then []
    else
      var c := contacts[|contacts| - 1];
      SessionsBy(messages, contacts[..|contacts| - 1])
          + SessionsOf(c, Timeline(messages, c), RunsFrom(Timeline(messages, c), 0))
  }

  function StartOf(s: Session): int { if s.msgs == [] then 0 else At(s.msgs[0]) }

  function GroupsIn(messages: seq<Msg>): set<string> {
    set m | m in messages && IsGroup(messages, m.contact) :: m.contact
  }

  /** extract_conversation_sessions; Nothing is the raised error, for a time that does not
      exist or an oversized session. */
  method ExtractConversationSessions(messages: seq<Msg>) returns (r: Maybe<seq<Session>>)
    ensures var all := SessionsBy(messages, ContactsMet(messages, GroupsIn(messages)));
            r == if !AllReadable(messages, GroupsIn(messages)) || exists s :: s in all && Oversized(s) then Nothing
                 else Just(SortBy(all, StartOf))
  {
    hide DatedOf, ContactsMet, RunsFrom, Oversized, SessionsBy, IsGroup, SortBy, AllReadable;
    var groups := GroupChatContacts(messages);
    assert groups == GroupsIn(messages) by { GroupsAreIn(messages, groups); }
    var ok, order, groupsOf := GroupByContact(messages, groups);
    if !ok { return Nothing; }
    ghost var all := SessionsBy(messages, order);
    var sessions: seq<Session> := [];
    assert SessionsBy(messages, order[..0]) == [] by { NoContacts(messages, order); }
    for i := 0 to |order|
      invariant sessions == SessionsBy(messages, order[..i]) && forall s :: s in sessions ==> !Oversized(s)
    {
      var contact := order[i];
      var msgs := SortBy(groupsOf[contact], At);
      assert msgs == Timeline(messages, contact);
      ContactStep(messages, order, i);
      var runs := ExtractRuns(msgs);
      var more := FinalizeAll(contact, msgs, runs);
      SessionsGrow(messages, order, i + 1);
      if more.Nothing? { return Nothing; }
      sessions := sessions + more.value;
    }
    assert order[..|order|] == order;
    r := Just(SortBy(sessions, StartOf));
  }

  /** _finalize for every run. */
  method FinalizeAll(contact: string, msgs: seq<Msg>, runs: seq<Run>) returns (r: Maybe<seq<Session>>)
    ensures r.Nothing? <==> exists s :: s in SessionsOf(contact, msgs, runs) && Oversized(s)
    ensures r.Just? ==> r.value == SessionsOf(contact, msgs, runs)
  {
    hide Oversized, SessionAt;
    var sessions: seq<Session> := [];
    for i := 0 to |runs|
      invariant sessions == SessionsOf(contact, msgs, runs[..i]) && forall s :: s in sessions ==> !Oversized(s)
    {
      assert runs[..i + 1][..i] == runs[..i];
      var session := SessionAt(contact, msgs, runs[i]);
      OfRun(contact, msgs, runs, i);
      if Oversized(session) { return Nothing; }
      sessions := sessions + [session];
    }
    assert runs[..|runs|] == runs;
    r := Just(sessions);
  }

  lemma {:induction false} OfRun(contact: string, msgs: seq<Msg>, runs: seq<Run>, i: nat)
    requires i < |runs|
    ensures |SessionsOf(contact, msgs, runs)| == |runs|
            && SessionsOf(contact, msgs, runs)[i] == SessionAt(contact, msgs, runs[i])
  {
    hide SessionAt;
    var n := |runs| - 1;
    SessionCount(contact, msgs, runs);
    SessionCount(contact, msgs, runs[..n]);
    if i < n {
      OfRun(contact, msgs, runs[..n], i);
    }
  }

  lemma NoContacts(messages: seq<Msg>, order: seq<string>)
    ensures SessionsBy(messages, order[..0]) == []
  {
  }

  lemma ContactStep(messages: seq<Msg>, order: seq<string>, i: nat)
    requires i < |order|
    ensures SessionsBy(messages, order[..i + 1]) ==
            SessionsBy(messages, order[..i])
                + SessionsOf(order[i], Timeline(messages, order[i]), RunsFrom(Timeline(messages, order[i]), 0))
  {
    assert order[..i + 1][..i] == order[..i];
  }

  lemma {:induction false} SessionsGrow(messages: seq<Msg>, order: seq<string>, n: nat)
    requires n <= |order|
    ensures forall s :: s in SessionsBy(messages, order[..n]) ==> s in SessionsBy(messages, order)
    decreases |order| - n
  {
    if n < |order| {
      SessionsGrow(messages, order, n + 1);
      ContactStep(messages, order, n);
    } else {
      assert order[..n] == order;
    }
  }

  lemma GroupsAreIn(messages: seq<Msg>, groups: set<string>)
    requires forall c :: c in groups <==> IsGroup(messages, c)
    ensures groups == GroupsIn(messages)
  {
    forall c | c in groups ensures c in GroupsIn(messages) {
      assert IsGroup(messages, c);
      var x :| x in SendersOf(messages, c);
    }
  }

  lemma {:induction false} SessionFrom(messages: seq<Msg>, contacts: seq<string>, s: Session)
    returns (c: string, k: nat)
    requires s in SessionsBy(messages, contacts)
    ensures c in contacts && k < |RunsFrom(Timeline(messages, c), 0)|
    ensures s == SessionAt(c, Timeline(messages, c), RunsFrom(Timeline(messages, c), 0)[k])
  {
    hide RunsFrom, Timeline, SessionAt;
    var n := |contacts| - 1;
    if s in SessionsBy(messages, contacts[..n]) {
      c, k := SessionFrom(messages, contacts[..n], s);
      assert c in contacts[..n];
    } else {
      c := contacts[n];
      var msgs, runs := Timeline(messages, c), RunsFrom(Timeline(messages, c), 0);
      SessionCount(c, msgs, runs);
      var all := SessionsOf(c, msgs, runs);
      k :| 0 <= k < |all| && all[k] == s;
      OfRun(c, msgs, runs, k);
    }
  }

  lemma {:induction false} SessionCount(contact: string, msgs: seq<Msg>, runs: seq<Run>)
    ensures |SessionsOf(contact, msgs, runs)| == |runs|
  {
    if runs != [] { SessionCount(contact, msgs, runs[..|runs| - 1]); }
  }

  /** The sessions of one contact, in the order of the list. */
  function OfContact(sessions: seq<Session>, contact: string): seq<Session> {
    if sessions == [] then []
    else
      var s := sessions[|sessions| - 1];
      OfContact(sessions[..|sessions| - 1], contact) + if s.contact == contact then [s] else []
  }

  lemma {:induction false} OfContactConcat(a: seq<Session>, b: seq<Session>, contact: string)
    ensures OfContact(a + b, contact) == OfContact(a, contact) + OfContact(b, contact)
  {
    if b == [] {
      assert a + b == a;
    } else {
      var n := |b| - 1;
      assert (a + b)[..|a| + n] == a + b[..n];
      OfContactConcat(a, b[..n], contact);
    }
  }

  lemma {:induction false} OfOneContact(c: string, msgs: seq<Msg>, runs: seq<Run>, contact: string)
    ensures OfContact(SessionsOf(c, msgs, runs), contact) == if c == contact then SessionsOf(c, msgs, runs) else []
  {
    if runs != [] {
      var n := |runs| - 1;
      OfOneContact(c, msgs, runs[..n], contact);
      var before := SessionsOf(c, msgs, runs[..n]);
      assert (before + [SessionAt(c, msgs, runs[n])])[..|before|] == before;
    }
  }

  lemma SessionsOfRuns(c: string, msgs: seq<Msg>, runs: seq<Run>)
    ensures |SessionsOf(c, msgs, runs)| == |runs|
    ensures forall k :: 0 <= k < |runs| ==> SessionsOf(c, msgs, runs)[k] == SessionAt(c, msgs, runs[k])
  {
    hide SessionAt;
    SessionCount(c, msgs, runs);
    forall k | 0 <= k < |runs| ensures SessionsOf(c, msgs, runs)[k] == SessionAt(c, msgs, runs[k]) {
      OfRun(c, msgs, runs, k);
    }
  }

  /** Nothing is left out and nothing said twice: the sessions of a contact are those of
      its runs, one each, in their order. */
  lemma {:induction false} EveryRunOnce(messages: seq<Msg>, contacts: seq<string>, contact: string)
    requires forall i, j :: 0 <= i < j < |contacts| ==> contacts[i] != contacts[j]
    ensures var runs := RunsFrom(Timeline(messages, contact), 0);
            var sessions := OfContact(SessionsBy(messages, contacts), contact);
            && |sessions| == (if contact in contacts then |runs| else 0)
            && forall k :: 0 <= k < |sessions| ==>
                 sessions[k] == SessionAt(contact, Timeline(messages, contact), runs[k])
  {
    hide RunsFrom, Timeline, SessionAt, SessionsOf, OfContact;
    if contacts == [] {
      NoSessions(contact);
    } else {
      var n := |contacts| - 1;
      var c := contacts[n];
      EveryRunOnce(messages, contacts[..n], contact);
      assert contacts == contacts[..n] + [c];
      var line, runs := Timeline(messages, c), RunsFrom(Timeline(messages, c), 0);
      OfContactConcat(SessionsBy(messages, contacts[..n]), SessionsOf(c, line, runs), contact);
      OfOneContact(c, line, runs, contact);
      if c == contact {
        assert contact !in contacts[..n];
        SessionsOfRuns(c, line, runs);
      }
    }
  }

  lemma NoSessions(contact: string)
    ensures OfContact([], contact) == []
  {
  }

  /** Every answered run of every contact that is no group is a session, once. */
  lemma AllRunsAreSessions(messages: seq<Msg>, contact: string)
    ensures var all := SessionsBy(messages, ContactsMet(messages, GroupsIn(messages)));
            var runs := RunsFrom(Timeline(messages, contact), 0);
            if IsGroup(messages, contact) && (exists m :: m in messages && m.contact == contact)
            then OfContact(all, contact) == []
            else |OfContact(all, contact)| == |runs|
                 && forall k :: 0 <= k < |runs| ==>
                      OfContact(all, contact)[k] == SessionAt(contact, Timeline(messages, contact), runs[k])
  {
    hide RunsFrom, SessionAt, IsGroup, SessionsBy, OfContact;
    var contacts := ContactsMet(messages, GroupsIn(messages));
    MetMeaning(messages, GroupsIn(messages));
    EveryRunOnce(messages, contacts, contact);
    if contact !in contacts && !(IsGroup(messages, contact) && exists m :: m in messages && m.contact == contact) {
      assert contact !in GroupsIn(messages);
      NoTimeline(messages, contact);
    }
  }

  lemma NoTimeline(messages: seq<Msg>, contact: string)
    requires DatedOf(messages, contact) == []
    ensures RunsFrom(Timeline(messages, contact), 0) == []
  {
  }

  /** A session that is too long: over 30 days or over 5000 turns. */
  lemma OversizedMeaning(s: Session)
    ensures Oversized(s) <==> |set m | m in s.msgs :: m.day| > 30 || |s.msgs| > 5000
  {
  }

  lemma TimelineOrdered(messages: seq<Msg>, contact: string)
    ensures Ordered(Timeline(messages, contact), At)
    ensures forall m :: m in Timeline(messages, contact) ==> m in messages && m.contact == contact && Dated(m)
  {
    SortOrders(DatedOf(messages, contact), At);
    forall m | m in Timeline(messages, contact) ensures m in DatedOf(messages, contact) {
      assert m in multiset(Timeline(messages, contact));
    }
  }

  /** A session is a good run of the timeline of a contact that is no group, with its
      latency, and its day slices joined again are the session. */
  lemma SessionFacts(messages: seq<Msg>, s: Session) returns (run: Run)
    requires AllReadable(messages, GroupsIn(messages))
    requires s in SessionsBy(messages, ContactsMet(messages, GroupsIn(messages)))
    ensures !IsGroup(messages, s.contact)
    ensures var line := Timeline(messages, s.contact);
            && GoodRun(line, run) && s.msgs == line[run.first..run.last] && s.latency == RunLatency(line, run)
            && s.latency == At(line[run.reply]) - At(line[run.reply - 1])
    ensures Rejoined(s.msgs, DaysOf(s.msgs)) == s.msgs && Ascending(DaysOf(s.msgs))
  {
    hide RunsFrom, IsGroup, ContactsMet, SessionsBy, GoodRun, GoodRuns, RunLatency, Rejoined, DaysOf, Ascending,
         Timeline, Dated, Readable;
    var skip := GroupsIn(messages);
    var c, k := SessionFrom(messages, ContactsMet(messages, skip), s);
    var line := Timeline(messages, c);
    run := RunsFrom(line, 0)[k];
    RunsAreGood(line, 0);
    GoodAt(line, RunsFrom(line, 0), k);
    LatencyAt(line, 0, k);
    LatencyIs(line, run);
    MetMeaning(messages, skip);
    NotAGroup(messages, c);
    TimelineOrdered(messages, c);
    SliceForward(line, run);
    assert s.contact == c && s.msgs == line[run.first..run.last];
    SlicesRejoin(s.msgs);
  }

  lemma GoodAt(msgs: seq<Msg>, runs: seq<Run>, k: nat)
    requires GoodRuns(msgs, runs, 0) && k < |runs|
    ensures GoodRun(msgs, runs[k]) && runs[k].first <= runs[k].last <= |msgs|
  {
  }

  lemma {:induction false} LatencyAt(msgs: seq<Msg>, i: nat, k: nat)
    requires i <= |msgs| && k < |RunsFrom(msgs, i)|
    ensures RunsFrom(msgs, i)[k].latency == RunLatency(msgs, RunsFrom(msgs, i)[k])
    decreases k
  {
    if k > 0 {
      var last := RunsFrom(msgs, i)[0].last;
      assert RunsFrom(msgs, i)[1..] == RunsFrom(msgs, last);
      LatencyAt(msgs, last, k - 1);
    }
  }

  lemma NotAGroup(messages: seq<Msg>, c: string)
    requires c !in GroupsIn(messages) && DatedOf(messages, c) != []
    ensures !IsGroup(messages, c)
  {
    var m := DatedOf(messages, c)[0];
    assert m in DatedOf(messages, c);
    assert m in messages && m.contact == c;
  }

  lemma SliceForward(line: seq<Msg>, run: Run)
    requires run.first <= run.last <= |line| && Ordered(line, At) && forall m :: m in line ==> Readable(m)
    ensures DaysForward(line[run.first..run.last])
  {
    hide Readable, At;
    var part := line[run.first..run.last];
    forall m | m in part ensures Readable(m) { assert m in line; }
    forall i, j | 0 <= i < j < |part| ensures At(part[i]) <= At(part[j]) {
      assert part[i] == line[run.first + i] && part[j] == line[run.first + j];
    }
    TimeOrderIsDayOrder(part);
  }

  // ------------------------------------------------------------ group logs

  /** <= of Python strings. */
  predicate TextLe(a: string, b: string) {
    a == [] || (b != [] && (a[0] < b[0] || (a[0] == b[0] && TextLe(a[1..], b[1..]))))
  }

  function TextOf(m: Msg): string { if m.time.Just? then m.time.value else "" }

  function InsertText(sorted: seq<Msg>, m: Msg): seq<Msg> {
    if sorted == [] || TextLe(TextOf(sorted[|sorted| - 1]), TextOf(m)) then sorted + [m]
    else InsertText(sorted[..|sorted| - 1], m) + [sorted[|sorted| - 1]]
  }

  /** sorted(key=time), which compares the texts of the times and is stable. */
  function SortText(msgs: seq<Msg>): seq<Msg> {
    if msgs == [] then [] else InsertText(SortText(msgs[..|msgs| - 1]), msgs[|msgs| - 1])
  }

  ghost predicate TextOrdered(msgs: seq<Msg>) {
    forall i, j :: 0 <= i < j < |msgs| ==> TextLe(TextOf(msgs[i]), TextOf(msgs[j]))
  }

  function OfText(msgs: seq<Msg>, t: string): seq<Msg> {
    if msgs == [] then []
    else OfText(msgs[..|msgs| - 1], t) + if TextOf(msgs[|msgs| - 1]) == t then [msgs[|msgs| - 1]] else []
  }

  lemma OfTextStep(msgs: seq<Msg>, m: Msg, t: string)
    ensures OfText(msgs + [m], t) == OfText(msgs, t) + if TextOf(m) == t then [m] else []
  {
    assert (msgs + [m])[..|msgs|] == msgs;
  }

  lemma {:induction false} TextTransitive(a: string, b: string, c: string)
    requires TextLe(a, b) && TextLe(b, c)
    ensures TextLe(a, c)
  {
    if a != [] && a[0] == b[0] == c[0] { TextTransitive(a[1..], b[1..], c[1..]); }
  }

  lemma {:induction false} TextTotal(a: string, b: string)
    ensures TextLe(a, b) || TextLe(b, a)
    ensures TextLe(a, b) && TextLe(b, a) ==> a == b
  {
    if a != [] && b != [] {
      TextTotal(a[1..], b[1..]);
      if a[1..] == b[1..] && a[0] == b[0] { assert a == [a[0]] + a[1..] && b == [b[0]] + b[1..]; }
    }
  }

  lemma Swapped(before: seq<Msg>, r: seq<Msg>, x: Msg, m: Msg, t: string)
    requires TextOf(x) != TextOf(m) && OfText(r, t) == OfText(before + [m], t)
    ensures OfText(r + [x], t) == OfText((before + [x]) + [m], t)
  {
    hide OfText, TextOf;
    OfTextStep(r, x, t);
    OfTextStep(before + [x], m, t);
    OfTextStep(before, x, t);
    OfTextStep(before, m, t);
  }

  lemma {:induction false} InsertTextOrders(sorted: seq<Msg>, m: Msg)
    requires TextOrdered(sorted)
    ensures TextOrdered(InsertText(sorted, m))
    ensures multiset(InsertText(sorted, m)) == multiset(sorted) + multiset{m}
    ensures forall t :: OfText(InsertText(sorted, m), t) == OfText(sorted + [m], t)
  {
    hide TextLe, OfText, TextOf;
    var n := |sorted| - 1;
    if sorted == [] || TextLe(TextOf(sorted[n]), TextOf(m)) {
      forall i | 0 <= i <= n ensures TextLe(TextOf(sorted[i]), TextOf(m)) {
        if i < n { TextTransitive(TextOf(sorted[i]), TextOf(sorted[n]), TextOf(m)); }
      }
    } else {
      var x, r := sorted[n], InsertText(sorted[..n], m);
      InsertTextOrders(sorted[..n], m);
      TextTotal(TextOf(x), TextOf(m));
      assert sorted == sorted[..n] + [x];
      forall i | 0 <= i < |r| ensures TextLe(TextOf(r[i]), TextOf(x)) {
        assert r[i] in multiset(r);
        assert r[i] == m || r[i] in multiset(sorted[..n]);
      }
      forall t ensures OfText(r + [x], t) == OfText(sorted + [m], t) { Swapped(sorted[..n], r, x, m, t); }
    }
  }

  lemma SortTextStep(msgs: seq<Msg>, m: Msg)
    ensures SortText(msgs + [m]) == InsertText(SortText(msgs), m)
  {
    assert (msgs + [m])[..|msgs|] == msgs;
  }

  ghost predicate SortedText(sorted: seq<Msg>, msgs: seq<Msg>) {
    && TextOrdered(sorted) && multiset(sorted) == multiset(msgs)
    && forall t :: OfText(sorted, t) == OfText(msgs, t)
  }

  lemma InsertSorted(sorted: seq<Msg>, msgs: seq<Msg>, m: Msg)
    requires SortedText(sorted, msgs)
    ensures SortedText(InsertText(sorted, m), msgs + [m])
  {
    hide TextLe, TextOrdered, OfText, InsertText;
    InsertTextOrders(sorted, m);
    forall t ensures OfText(InsertText(sorted, m), t) == OfText(msgs + [m], t) {
      OfTextStep(sorted, m, t);
      OfTextStep(msgs, m, t);
    }
  }

  /** The sorted list has the messages in the order of their time texts, and those with
      the same text in the order of the log. */
  lemma {:induction false} TextSorted(msgs: seq<Msg>)
    ensures SortedText(SortText(msgs), msgs)
  {
    if msgs == [] {
      assert SortText(msgs) == msgs;
    } else {
      hide SortedText, SortText, InsertText;
      var before, m := msgs[..|msgs| - 1], msgs[|msgs| - 1];
      assert msgs == before + [m];
      TextSorted(before);
      SortTextStep(before, m);
      InsertSorted(SortText(before), before, m);
    }
  }

  /** The time on the clock as one number. */
  function Clock(m: Msg): int { if m.time.Just? then Hours(m.time.value) * 100 + Minutes(m.time.value) else 0 }

  /** An hour with one digit against one with two: the text order is not the time order. */
  ghost predicate Crossed(x: Msg, y: Msg) {
    && x.time.Just? && y.time.Just? && |x.time.value| == 4 && |y.time.value| == 5
    && x.time.value[0] >= y.time.value[0] && Clock(x) < Clock(y)
  }

  lemma ShapedOrder(a: TimeText, b: TimeText)
    ensures |a| == |b| == 4 ==> (TextLe(a, b) <==> Hours(a) * 100 + Minutes(a) <= Hours(b) * 100 + Minutes(b))
    ensures |a| == |b| == 5 ==> (TextLe(a, b) <==> Hours(a) * 100 + Minutes(a) <= Hours(b) * 100 + Minutes(b))
    ensures |a| == 4 && |b| == 5 ==> (TextLe(a, b) <==> a[0] < b[0]) && (TextLe(b, a) <==> b[0] <= a[0])
  {
    Unfolded(a, b);
    Unfolded(b, a);
  }

  /** Five characters of comparison. */
  lemma Unfolded(a: string, b: string)
    requires 4 <= |a| <= 5 && 4 <= |b| <= 5
    ensures TextLe(a, b) <==>
            a[0] < b[0] || (a[0] == b[0] && (a[1] < b[1] || (a[1] == b[1] && (a[2] < b[2] || (a[2] == b[2] &&
            (a[3] < b[3] || (a[3] == b[3] && (|a| == 4 || (|b| == 5 && a[4] <= b[4])))))))))
  {
    assert TextLe(a, b) <==> a[0] < b[0] || (a[0] == b[0] && TextLe(a[1..], b[1..]));
    TextTail(a, b, 1);
    TextTail(a, b, 2);
    TextTail(a, b, 3);
    if |a| == 5 && |b| == 5 {
      TextTail(a, b, 4);
      assert a[5..] == [];
    }
  }

  lemma TextTail(a: string, b: string, k: nat)
    requires k < |a| && k < |b|
    ensures TextLe(a[k..], b[k..]) <==> a[k] < b[k] || (a[k] == b[k] && TextLe(a[k + 1..], b[k + 1..]))
  {
    assert a[k..][1..] == a[k + 1..] && b[k..][1..] == b[k + 1..];
  }

  lemma TextIsClock(x: Msg, y: Msg)
    requires x.time.Just? && y.time.Just?
    ensures TextLe(TextOf(x), TextOf(y)) && !Crossed(y, x) ==> Clock(x) <= Clock(y)
    ensures Crossed(x, y) ==> !TextLe(TextOf(x), TextOf(y)) && Clock(x) < Clock(y)
  {
    hide TextLe;
    ShapedOrder(x.time.value, y.time.value);
    ShapedOrder(y.time.value, x.time.value);
  }

  /** A day's block is in time order exactly when no message with a one-digit hour is
      crossed by a later one with a two-digit hour. */
  lemma BlockInTimeOrder(msgs: seq<Msg>)
    requires forall m :: m in msgs ==> m.time.Just?
    ensures Ordered(SortText(msgs), Clock) <==> forall x, y :: x in msgs && y in msgs ==> !Crossed(x, y)
  {
    hide TextLe, Clock, Crossed, TextOf, SortText;
    var r := SortText(msgs);
    TextSorted(msgs);
    forall m ensures m in r <==> m in msgs { assert m in multiset(r) <==> m in multiset(msgs); }
    if forall x, y :: x in msgs && y in msgs ==> !Crossed(x, y) {
      forall i, j | 0 <= i < j < |r| ensures Clock(r[i]) <= Clock(r[j]) {
        assert r[i] in r && r[j] in r;
        TextIsClock(r[i], r[j]);
      }
    } else {
      var x, y :| x in msgs && y in msgs && Crossed(x, y);
      var i :| 0 <= i < |r| && r[i] == x;
      var j :| 0 <= j < |r| && r[j] == y;
      TextIsClock(x, y);
      assert j < i;
      assert Clock(r[j]) > Clock(r[i]);
    }
  }

  /** Times written alike, all with one or all with two digits for the hour, sort by time. */
  lemma SameWidthInTimeOrder(msgs: seq<Msg>, width: nat)
    requires forall m :: m in msgs ==> m.time.Just? && |m.time.value| == width
    ensures Ordered(SortText(msgs), Clock)
  {
    forall x, y | x in msgs && y in msgs ensures !Crossed(x, y) { }
    BlockInTimeOrder(msgs);
  }

  /** Two messages, of which the second has the smaller time text. */
  lemma SortTwo(x: Msg, y: Msg)
    requires !TextLe(TextOf(x), TextOf(y))
    ensures SortText([x, y]) == [y, x]
  {
    hide TextLe, TextOf;
    var both := [x, y];
    assert both[..1] == [x] && both[1] == y && [x][..0] == [];
    assert SortText([x]) == InsertText(SortText([x][..0]), x) == [x];
    assert InsertText([x], y) == InsertText([x][..0], y) + [x];
  }

  /** Ten o'clock is listed before five past nine. */
  lemma TenBeforeNine(nine: Msg, ten: Msg)
    requires nine.time.Just? && nine.time.value == "9:05" && ten.time.Just? && ten.time.value == "10:00"
    ensures SortText([nine, ten]) == [ten, nine] && Clock(nine) < Clock(ten)
  {
    hide TextLe, SortText;
    assert Crossed(nine, ten) by { assert Clock(nine) == 905 && Clock(ten) == 1000; }
    TextIsClock(nine, ten);
    SortTwo(nine, ten);
  }

  /** The dated messages of a group on a day. */
  function GroupDay(messages: seq<Msg>, contact: string, day: int): seq<Msg> {
    OnDay(DatedOf(messages, contact), Just(day))
  }

  ghost predicate GroupLogged(messages: seq<Msg>, groups: set<string>, logged: map<(string, int), seq<Msg>>) {
    forall c, d ::
      if c in groups && GroupDay(messages, c, d) != []
      then (c, d) in logged && logged[(c, d)] == GroupDay(messages, c, d) else (c, d) !in logged
  }

  lemma GroupLogStep(messages: seq<Msg>, m: Msg, groups: set<string>, logged: map<(string, int), seq<Msg>>)
    requires GroupLogged(messages, groups, logged)
    ensures m.contact !in groups || !Dated(m) ==> GroupLogged(messages + [m], groups, logged)
    ensures m.contact in groups && Dated(m) ==>
              var key := (m.contact, m.day.value);
              GroupLogged(messages + [m], groups, logged[key := (if key in logged then logged[key] else []) + [m]])
  {
    hide OnDay, DatedOf;
    forall c, d
      ensures GroupDay(messages + [m], c, d) ==
              GroupDay(messages, c, d) + if m.contact == c && Dated(m) && m.day == Just(d) then [m] else []
    {
      DatedStep(messages, m, c);
      OnDayStep(DatedOf(messages, c), m, Just(d));
      assert DatedOf(messages, c) + [] == DatedOf(messages, c);
      assert GroupDay(messages, c, d) + [] == GroupDay(messages, c, d);
    }
  }

  /** extract_group_daily_logs up to the rendering: every dated message of a group is
      in the block of its own contact and day, and nowhere else, by the text of its time. */
  method ExtractGroupDailyLogs(messages: seq<Msg>) returns (logs: map<(string, int), seq<Msg>>)
    ensures forall c, d ::
              if IsGroup(messages, c) && GroupDay(messages, c, d) != []
              then (c, d) in logs && logs[(c, d)] == SortText(GroupDay(messages, c, d))
              else (c, d) !in logs
    ensures forall c, d, m ::
              ((c, d) in logs && m in logs[(c, d)]) <==>
              IsGroup(messages, c) && m in messages && m.contact == c && m.day == Just(d) && m.time.Just?
  {
    forall c, d ensures forall m :: m in SortText(GroupDay(messages, c, d)) <==>
                                  m in messages && m.contact == c && m.day == Just(d) && m.time.Just?
    {
      LoggedMessages(messages, c, d);
    }
    hide IsGroup, GroupDay, SortText, GroupLogged;
    var groups := GroupChatContacts(messages);
    var byGroupDate: map<(string, int), seq<Msg>> := map[];
    NothingLogged(messages[..0], groups);
    for i := 0 to |messages|
      invariant GroupLogged(messages[..i], groups, byGroupDate)
    {
      var m := messages[i];
      assert messages[..i + 1] == messages[..i] + [m];
      GroupLogStep(messages[..i], m, groups, byGroupDate);
      if m.contact !in groups { continue; }
      if !Dated(m) { continue; }
      var key := (m.contact, m.day.value);
      byGroupDate := byGroupDate[key := (if key in byGroupDate then byGroupDate[key] else []) + [m]];
    }
    assert messages[..|messages|] == messages;
    LoggedMeans(messages, groups, byGroupDate);
    logs := map key | key in byGroupDate :: SortText(byGroupDate[key]);
  }

  lemma LoggedMessages(messages: seq<Msg>, c: string, d: int)
    ensures forall m :: m in SortText(GroupDay(messages, c, d)) <==>
                        m in messages && m.contact == c && m.day == Just(d) && m.time.Just?
  {
    hide SortText;
    TextSorted(GroupDay(messages, c, d));
    var sorted, day := SortText(GroupDay(messages, c, d)), GroupDay(messages, c, d);
    forall m ensures m in sorted <==> m in day {
      assert m in multiset(sorted) <==> m in multiset(day);
    }
  }

  lemma NothingLogged(messages: seq<Msg>, groups: set<string>)
    requires messages == []
    ensures GroupLogged(messages, groups, map[])
  {
  }

  lemma LoggedMeans(messages: seq<Msg>, groups: set<string>, logged: map<(string, int), seq<Msg>>)
    requires GroupLogged(messages, groups, logged)
    ensures forall c, d ::
              if c in groups && GroupDay(messages, c, d) != []
              then (c, d) in logged && logged[(c, d)] == GroupDay(messages, c, d) else (c, d) !in logged
  {
  }
}
