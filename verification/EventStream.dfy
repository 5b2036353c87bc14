/** The owner's live feed of registration stages, read from an append-only event log in pages. */
module EventStream {
  /** A row of the log; `ours` says whether it belongs to this owner and is a registration stage. */
  datatype Event = Event(id: nat, ours: bool, data: string)

  const PAGE := 50

  /** Ids become visible in increasing order. */
  ghost predicate Increasing(log: seq<Event>)
  {
    forall i, j :: 0 <= i < j < |log| ==> log[i].id < log[j].id
  }

  /** All rows the feed is about with an id above the cursor, in id order. */
  function Matching(log: seq<Event>, cursor: nat): seq<Event>
  {
    if log == [] then []
    else
      var last := log[|log| - 1];
      Matching(log[..|log| - 1], cursor) + if last.ours && last.id > cursor then [last] else []
  }

  function FirstPage(s: seq<Event>): seq<Event>
  {
    if |s| <= PAGE then s else s[..PAGE]
  }

  function EventsAfter(log: seq<Event>, cursor: nat): seq<Event> { FirstPage(Matching(log, cursor)) }

  datatype Frame = Ready(cursor: nat) | Stage(event: Event) | Closed

  function Stages(frames: seq<Frame>): seq<Event>
  {
    if frames == [] then []
    else
      Stages(frames[..|frames| - 1])
      + if frames[|frames| - 1].Stage? then [frames[|frames| - 1].event] else []
  }

  lemma StagesSnoc(frames: seq<Frame>, f: Frame)
    ensures Stages(frames + [f]) == Stages(frames) + if f.Stage? then [f.event] else []
  {
    assert (frames + [f])[..|frames|] == frames;
  }

  /** The cursor after a number of emitted events. */
  function CursorAfter(emitted: seq<Event>, start: nat): nat
  {
    if emitted == [] then start else emitted[|emitted| - 1].id
  }

  lemma StartOfStream(start: nat)
    ensures Stages([]) == [] && CursorAfter([], start) == start
  {
  }

  lemma CursorSnoc(emitted: seq<Event>, e: Event, start: nat)
    ensures CursorAfter(emitted + [e], start) == e.id
  {
  }

  // ---------- The log and its matching rows ----------

  lemma {:induction false} MatchingIsIncreasing(log: seq<Event>, cursor: nat)
    requires Increasing(log)
    ensures Increasing(Matching(log, cursor))
    ensures forall e :: e in Matching(log, cursor) ==> e in log && e.ours && e.id > cursor
    ensures forall e :: e in log && e.ours && e.id > cursor ==> e in Matching(log, cursor)
  {
    if log != [] {
      var n := |log| - 1;
      MatchingIsIncreasing(log[..n], cursor);
      assert log == log[..n] + [log[n]];
      var before := Matching(log[..n], cursor);
      forall i | 0 <= i < |before|
        ensures before[i].id < log[n].id
      {
        var k :| 0 <= k < n && log[..n][k] == before[i];
        assert log[k].id < log[n].id;
      }
    }
  }

  /** A longer log only adds matching rows at the end. */
  lemma {:induction false} MatchingGrows(log: seq<Event>, longer: seq<Event>, cursor: nat)
    requires log <= longer
    ensures Matching(log, cursor) <= Matching(longer, cursor)
    decreases |longer|
  {
    if |log| == |longer| {
      assert log == longer;
    } else {
      MatchingGrows(log, longer[..|longer| - 1], cursor);
    }
  }

  /** Moving the cursor to a row already matched leaves exactly the rows after it. */
  lemma {:induction false} MatchingFromLater(log: seq<Event>, start: nat, k: nat)
    requires Increasing(log) && k < |Matching(log, start)|
    ensures Matching(log, Matching(log, start)[k].id) == Matching(log, start)[k + 1..]
  {
    var n := |log| - 1;
    var front, last := log[..n], log[n];
    IncreasingFront(log);
    MatchingIsIncreasing(front, start);
    var m := Matching(front, start);
    var all := Matching(log, start);
    hide Increasing;
    if k < |m| {
      MatchingFromLater(front, start, k);
      assert m[k] in front;
      assert all[k + 1..] == m[k + 1..] + if last.ours && last.id > start then [last] else [];
    } else {
      assert all == m + [last];
      NothingBeyond(front, last.id);
    }
  }

  lemma IncreasingFront(log: seq<Event>)
    requires Increasing(log) && log != []
    ensures var n := |log| - 1; Increasing(log[..n]) && forall e :: e in log[..n] ==> e.id < log[n].id
  {
  }

  /** After emitting some first rows, polling from the last of them finds exactly the others. */
  lemma CursorResumes(log: seq<Event>, emitted: seq<Event>, start: nat)
    requires Increasing(log) && emitted <= Matching(log, start)
    ensures Matching(log, CursorAfter(emitted, start)) == Matching(log, start)[|emitted|..]
  {
    if emitted != [] {
      var k := |emitted| - 1;
      assert emitted[k] == Matching(log, start)[k];
      MatchingFromLater(log, start, k);
    }
  }

  lemma {:induction false} NothingBeyond(log: seq<Event>, cursor: nat)
    requires forall e :: e in log ==> e.id <= cursor
    ensures Matching(log, cursor) == []
  {
    if log != [] {
      NothingBeyond(log[..|log| - 1], cursor);
      assert log[|log| - 1] in log;
    }
  }

  // ---------- The feed ----------

  /** The log at each poll only grows. */
  ghost predicate Growing(logs: seq<seq<Event>>)
  {
    && (forall i :: 0 <= i < |logs| ==> Increasing(logs[i]))
    && (forall i, j :: 0 <= i <= j < |logs| ==> logs[i] <= logs[j])
  }

  /** What has been emitted after polling these logs. */
  function Emitted(logs: seq<seq<Event>>, start: nat): seq<Event>
  {
    if logs == [] then []
    else
      var before := Emitted(logs[..|logs| - 1], start);
      before + EventsAfter(logs[|logs| - 1], CursorAfter(before, start))
  }

  /** One connection: announce the cursor, emit a frame per new row at each poll, close at the end. */
  method RegistrationStream(logs: seq<seq<Event>>, start: nat) returns (frames: seq<Frame>)
    ensures frames != [] && frames[0] == Ready(start) && frames[|frames| - 1] == Closed
    ensures Stages(frames) == Emitted(logs, start)
  {
    hide EventsAfter, CursorAfter, Stages;
    StartOfStream(start);
    frames := [] + [Ready(start)];
    StagesSnoc([], Ready(start));
    assert logs[..0] == [];
    var cursor := start;
    for poll := 0 to |logs|
      invariant frames != [] && frames[0] == Ready(start)
      invariant Stages(frames) == Emitted(logs[..poll], start)
      invariant cursor == CursorAfter(Emitted(logs[..poll], start), start)
    {
      assert logs[..poll + 1][..poll] == logs[..poll];
      ghost var before := Emitted(logs[..poll], start);
      var items := EventsAfter(logs[poll], cursor);
      for i := 0 to |items|
        invariant frames != [] && frames[0] == Ready(start)
        invariant Stages(frames) == before + items[..i]
        invariant cursor == CursorAfter(before + items[..i], start)
      {
        cursor := items[i].id;
        StagesSnoc(frames, Stage(items[i]));
        CursorSnoc(before + items[..i], items[i], start);
        frames := frames + [Stage(items[i])];
        assert before + items[..i + 1] == before + items[..i] + [items[i]];
      }
      assert items[..|items|] == items;
    }
    assert logs[..|logs|] == logs;
    StagesSnoc(frames, Closed);
    frames := frames + [Closed];
  }

  lemma GrowingFront(logs: seq<seq<Event>>)
    requires Growing(logs) && logs != []
    ensures var n := |logs| - 1;
            && Growing(logs[..n]) && Increasing(logs[n]) && (n > 0 ==> logs[n - 1] <= logs[n])
  {
    hide Increasing;
  }

  lemma PrefixIsIncreasing(a: seq<Event>, b: seq<Event>)
    requires a <= b && Increasing(b)
    ensures Increasing(a)
  {
    assert forall i :: 0 <= i < |a| ==> a[i] == b[i];
  }

  lemma NextPageStaysPrefix(before: seq<Event>, all: seq<Event>)
    requires before <= all
    ensures before + FirstPage(all[|before|..]) <= all
    ensures var m := |before + FirstPage(all[|before|..])|;
            m == if |before| + PAGE <= |all| then |before| + PAGE else |all|
  {
  }

  /** The stage frames are always a prefix of the owner's rows after the starting cursor, in id order:
      nothing skipped, repeated or reordered across pages and polls. Every poll adds a full page, or
      whatever is left. */
  lemma {:induction false} EmittedIsAPrefix(logs: seq<seq<Event>>, start: nat)
    requires Growing(logs) && logs != []
    ensures Emitted(logs, start) <= Matching(logs[|logs| - 1], start)
    ensures Increasing(Emitted(logs, start))
    ensures var before, all := |Emitted(logs[..|logs| - 1], start)|, |Matching(logs[|logs| - 1], start)|;
            |Emitted(logs, start)| == if before + 50 <= all then before + 50 else all
  {
    hide Growing, Increasing, Matching, FirstPage, CursorAfter;
    var n := |logs| - 1;
    var front := logs[..n];
    var before, all := Emitted(front, start), Matching(logs[n], start);
    GrowingFront(logs);
    if n > 0 {
      EmittedIsAPrefix(front, start);
      MatchingGrows(logs[n - 1], logs[n], start);
      PrefixIsTransitive(before, Matching(logs[n - 1], start), all);
    }
    CursorResumes(logs[n], before, start);
    NextPageStaysPrefix(before, all);
    MatchingIsIncreasing(logs[n], start);
    PrefixIsIncreasing(Emitted(logs, start), all);
  }

  lemma PrefixIsTransitive(a: seq<Event>, b: seq<Event>, c: seq<Event>)
    requires a <= b && b <= c
    ensures a <= c
  {
  }

  lemma {:induction false} QuietPolls(logs: seq<seq<Event>>, start: nat, quiet: nat)
    requires Growing(logs) && logs != [] && quiet <= |logs|
    requires forall i :: |logs| - quiet <= i < |logs| ==> logs[i] == logs[|logs| - 1]
    ensures var all, before := |Matching(logs[|logs| - 1], start)|, |Emitted(logs[..|logs| - quiet], start)|;
            |Emitted(logs, start)| >= if before + PAGE * quiet <= all then before + PAGE * quiet else all
    decreases quiet
  {
    hide Growing, Increasing, Matching, FirstPage, CursorAfter, Emitted;
    if quiet == 0 {
      assert logs[..|logs|] == logs;
      EmittedIsAPrefix(logs, start);
    } else {
      var n := |logs| - 1;
      EmittedIsAPrefix(logs, start);
      GrowingFront(logs);
      if quiet > 1 {
        QuietPolls(logs[..n], start, quiet - 1);
        assert logs[..n][..n - (quiet - 1)] == logs[..|logs| - quiet];
      }
    }
  }

  /** Once the log has gone quiet, one poll per started page of what is left emits all of it; polls
      after that emit nothing more. */
  lemma QuietLogIsDrained(logs: seq<seq<Event>>, start: nat, quiet: nat)
    requires Growing(logs) && logs != [] && quiet <= |logs|
    requires forall i :: |logs| - quiet <= i < |logs| ==> logs[i] == logs[|logs| - 1]
    requires |Matching(logs[|logs| - 1], start)| <= |Emitted(logs[..|logs| - quiet], start)| + PAGE * quiet
    ensures Emitted(logs, start) == Matching(logs[|logs| - 1], start)
  {
    QuietPolls(logs, start, quiet);
    EmittedIsAPrefix(logs, start);
  }

  // ---------- Rows that become visible late ----------

  /** Each poll reads the rows visible at that time in id order; a row may become visible below others. */
  ghost predicate InOrder(logs: seq<seq<Event>>)
  {
    forall i :: 0 <= i < |logs| ==> Increasing(logs[i])
  }

  function Cursor(logs: seq<seq<Event>>, start: nat): nat { CursorAfter(Emitted(logs, start), start) }

  /** One page, seen by itself: in id order, above the cursor, and everything visible up to its end. */
  lemma PageIsComplete(log: seq<Event>, cursor: nat)
    requires Increasing(log)
    ensures var page := EventsAfter(log, cursor);
            && Increasing(page)
            && CursorAfter(page, cursor) >= cursor
            && (forall e :: e in page ==> cursor < e.id <= CursorAfter(page, cursor))
            && (forall e: Event :: cursor < e.id <= CursorAfter(page, cursor) ==> (e in page <==> e in log && e.ours))
  {
    var all, page := Matching(log, cursor), EventsAfter(log, cursor);
    MatchingIsIncreasing(log, cursor);
    hide Matching;
    assert page <= all;
    PrefixIsIncreasing(page, all);
    forall e | e in all && e.id <= CursorAfter(page, cursor)
      ensures e in page
    {
      if page != [] {
        var i :| 0 <= i < |all| && all[i] == e;
        assert all[|page| - 1] == page[|page| - 1];
        assert i < |page| ==> page[i] == e;
      }
    }
  }

  lemma CursorOfMore(before: seq<Event>, page: seq<Event>, start: nat)
    ensures CursorAfter(before + page, start) == CursorAfter(page, CursorAfter(before, start))
  {
  }

  /** Emission resumes where it stopped. */
  lemma {:induction false} EmittedInTwoParts(first: seq<seq<Event>>, more: seq<seq<Event>>, start: nat)
    ensures Emitted(first + more, start) == Emitted(first, start) + Emitted(more, Cursor(first, start))
    decreases |more|
  {
    hide EventsAfter, CursorAfter;
    if more == [] {
      assert first + more == first;
    } else {
      var k := |more| - 1;
      EmittedInTwoParts(first, more[..k], start);
      assert (first + more)[..|first + more| - 1] == first + more[..k];
      CursorOfMore(Emitted(first, start), Emitted(more[..k], Cursor(first, start)), start);
    }
  }

  /** However late rows become visible: what is emitted is in id order, without repetition, lies between
      the starting cursor and the present one, and the cursor never moves back. */
  lemma {:induction false} EmittedStaysInOrder(logs: seq<seq<Event>>, start: nat)
    requires InOrder(logs)
    ensures Increasing(Emitted(logs, start)) && Cursor(logs, start) >= start
    ensures forall e :: e in Emitted(logs, start) ==> e.ours && start < e.id <= Cursor(logs, start)
    decreases |logs|
  {
    if logs != [] {
      var n := |logs| - 1;
      var front := logs[..n];
      assert InOrder(front);
      EmittedStaysInOrder(front, start);
      PageIsComplete(logs[n], Cursor(front, start));
      CursorOfMore(Emitted(front, start), EventsAfter(logs[n], Cursor(front, start)), start);
      OursOnly(logs[n], Cursor(front, start));
      hide EventsAfter, CursorAfter;
    }
  }

  lemma OursOnly(log: seq<Event>, cursor: nat)
    requires Increasing(log)
    ensures forall e :: e in EventsAfter(log, cursor) ==> e.ours
  {
    MatchingIsIncreasing(log, cursor);
    assert EventsAfter(log, cursor) <= Matching(log, cursor);
    hide Matching;
  }

  /** What one poll in the middle adds. */
  lemma PollInTheMiddle(logs: seq<seq<Event>>, start: nat, k: nat)
    requires k < |logs|
    ensures var c := Cursor(logs[..k], start);
            var page := EventsAfter(logs[k], c);
            && Cursor(logs[..k + 1], start) == CursorAfter(page, c)
            && Emitted(logs, start) == Emitted(logs[..k], start) + page + Emitted(logs[k + 1..], CursorAfter(page, c))
  {
    hide EventsAfter, CursorAfter;
    var before, poll, after := logs[..k], logs[k], logs[k + 1..];
    assert logs == before + [poll] + after && logs[..k + 1] == before + [poll];
    EmittedInTwoParts(before + [poll], after, start);
    EmittedInTwoParts(before, [poll], start);
    OnePoll(poll, Cursor(before, start));
    CursorOfMore(Emitted(before, start), EventsAfter(poll, Cursor(before, start)), start);
  }

  /** Exactly which rows are emitted, whenever rows become visible: a row the cursor moves past at some
      poll is emitted if and only if it is one of the feed's and was visible at that very poll. */
  lemma RowIsEmittedExactlyWhenVisibleInTime(logs: seq<seq<Event>>, start: nat, k: nat, e: Event)
    requires InOrder(logs) && k < |logs|
    requires Cursor(logs[..k], start) < e.id <= Cursor(logs[..k + 1], start)
    ensures e in Emitted(logs, start) <==> e.ours && e in logs[k]
  {
    var c := Cursor(logs[..k], start);
    var page := EventsAfter(logs[k], c);
    PollInTheMiddle(logs, start, k);
    assert InOrder(logs[..k]) && InOrder(logs[k + 1..]);
    EmittedStaysInOrder(logs[..k], start);
    EmittedStaysInOrder(logs[k + 1..], CursorAfter(page, c));
    PageIsComplete(logs[k], c);
    hide Emitted, EventsAfter, CursorAfter, Increasing, InOrder, Cursor;
    assert e !in Emitted(logs[..k], start) && e !in Emitted(logs[k + 1..], CursorAfter(page, c));
  }

  lemma OnePoll(log: seq<Event>, cursor: nat)
    ensures Emitted([log], cursor) == EventsAfter(log, cursor)
  {
    assert [log][..0] == [];
    assert [] + EventsAfter(log, CursorAfter([], cursor)) == EventsAfter(log, cursor);
  }

  /** The same log, polled often enough for all that is left of it. */
  function Repeated(log: seq<Event>, times: nat): seq<seq<Event>> { seq(times, _ => log) }

  /** Exactly which visible rows are lost for good - whatever the log becomes and however long the feed
      goes on: those not emitted whose id the cursor has reached. Any other row is emitted if only the
      log stays as it is for long enough. */
  lemma RowIsLostExactlyWhenTheCursorPassedIt(logs: seq<seq<Event>>, start: nat, e: Event)
    requires InOrder(logs) && logs != [] && e in logs[|logs| - 1] && e.ours && e !in Emitted(logs, start)
    ensures (forall more: seq<seq<Event>> :: InOrder(more) ==> e !in Emitted(logs + more, start))
            <==> e.id <= Cursor(logs, start)
  {
    var c := Cursor(logs, start);
    if e.id <= c {
      forall more: seq<seq<Event>> | InOrder(more)
        ensures e !in Emitted(logs + more, start)
      {
        EmittedInTwoParts(logs, more, start);
        EmittedStaysInOrder(more, c);
      }
    } else {
      var log := logs[|logs| - 1];
      var n := |Matching(log, c)| + 1;
      var more := Repeated(log, n);
      assert InOrder(more) && Growing(more);
      assert more[..0] == [];
      QuietLogIsDrained(more, c, n);
      EmittedInTwoParts(logs, more, start);
      MatchingIsIncreasing(log, c);
      assert e in Emitted(logs + more, start);
    }
  }

  const EARLY := Event(1, true, "early id")
  const LATE := Event(2, true, "late id")

  lemma LateRowComesFirst()
    ensures Emitted([[LATE]], 0) == [LATE] && Cursor([[LATE]], 0) == 2
  {
    OnePoll([LATE], 0);
    assert [LATE][..0] == [] && Matching([LATE], 0) == [LATE];
  }

  /** A row that becomes visible below one already emitted never arrives. */
  lemma LateRowIsLost(more: seq<seq<Event>>)
    requires InOrder(more)
    ensures EARLY !in Emitted([[LATE], [EARLY, LATE]] + more, 0)
  {
    hide Emitted, EventsAfter, Cursor, Matching;
    var rest := [[EARLY, LATE]] + more;
    LateRowComesFirst();
    assert [[LATE], [EARLY, LATE]] + more == [[LATE]] + rest;
    EmittedInTwoParts([[LATE]], rest, 0);
    EmittedStaysInOrder(rest, 2);
  }
}
