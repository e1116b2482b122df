/**
 The timed event script of src/EventsScript.h under an ideal clock: every timer
 fires exactly at its date, in date order, and takes no time.
 */
module EventsScript {
  import opened Events

  /** One entry of the script: the offset from its start, and the event to dispatch. */
  datatype Entry = Entry(due: nat, event: Event)

  datatype Action = DispatchEvent(event: Event) | Restart

  datatype Timer = Timer(date: nat, action: Action)

  datatype Dispatched = Dispatched(date: nat, event: Event)

  datatype Script = Script(
    entries: seq<Entry>,
    cyclic: bool,
    timers: seq<Timer>,
    fired: nat,               // timers of the current pass that have fired
    log: seq<Dispatched>)

  /** The keys of the script increase; it has none until it is filled. */
  ghost predicate Increasing(entries: seq<Entry>) {
    forall i, j :: 0 <= i < j < |entries| ==> entries[i].due < entries[j].due
  }

  /** A script can be started once it holds an entry. */
  ghost predicate Scripted(entries: seq<Entry>) {
    entries != [] && Increasing(entries)
  }

  function LastDue(entries: seq<Entry>): nat
    requires entries != []
  {
    entries[|entries| - 1].due
  }

  /** One timer per entry; in a cyclic script the last one restarts the script instead. */
  function Schedule(entries: seq<Entry>, cyclic: bool, begin: nat, upTo: nat): seq<Timer>
    requires upTo <= |entries|
  {
    if upTo == 0 then []
    else
      var e := entries[upTo - 1];
      Schedule(entries, cyclic, begin, upTo - 1) +
      [Timer(begin + e.due,
             if cyclic && begin + e.due == begin + LastDue(entries) then Restart else DispatchEvent(e.event))]
  }

  function Start(s: Script, now: nat): Script {
    s.(timers := Schedule(s.entries, s.cyclic, now, |s.entries|), fired := 0)
  }

  /** The next timer reaches its date. */
  function Fire(s: Script): Script {
    if s.fired >= |s.timers| then s
    else
      var t := s.timers[s.fired];
      match t.action
      case DispatchEvent(e) => s.(fired := s.fired + 1, log := s.log + [Dispatched(t.date, e)])
      case Restart => Start(s, t.date)
  }

  function FireMany(s: Script, n: nat): Script {
    if n == 0 then s else Fire(FireMany(s, n - 1))
  }

  /** Assignment through operator[] of std::map: one entry per key, in order. */
  function Put(entries: seq<Entry>, e: Entry): seq<Entry> {
    if entries == [] then [e]
    else
      var last := entries[|entries| - 1];
      if last.due < e.due then entries + [e]
      else if last.due == e.due then entries[..|entries| - 1] + [e]
      else Put(entries[..|entries| - 1], e) + [last]
  }

  lemma EarlierThanLast(entries: seq<Entry>, x: Entry)
    requires Increasing(entries) && entries != [] && x in entries[..|entries| - 1]
    ensures x.due < entries[|entries| - 1].due
  {
    var i :| 0 <= i < |entries| - 1 && entries[..|entries| - 1][i] == x;
    assert entries[i] == x;
  }

  lemma InInitOrLast<T>(q: seq<T>, x: T)
    requires q != []
    ensures x in q <==> x in q[..|q| - 1] || x == q[|q| - 1]
  {
    assert q == q[..|q| - 1] + [q[|q| - 1]];
  }

  /** The new entry takes the place of the one with its key, and leaves all others. */
  lemma {:induction false} PutSetsOne(entries: seq<Entry>, e: Entry, x: Entry)
    requires Increasing(entries)
    ensures x in Put(entries, e) <==> x == e || (x in entries && x.due != e.due)
    decreases |entries|
  {
    if entries != [] {
      var init, last := entries[..|entries| - 1], entries[|entries| - 1];
      InInitOrLast(entries, x);
      if x in init {
        EarlierThanLast(entries, x);
      }
      if last.due > e.due {
        PutSetsOne(init, e, x);
      }
    }
  }

  lemma {:induction false} PutKeepsOrder(entries: seq<Entry>, e: Entry)
    requires Increasing(entries)
    ensures var r := Put(entries, e);
            && Increasing(r) && r != []
            && r[|r| - 1].due == if entries == [] || entries[|entries| - 1].due < e.due then e.due
                                 else entries[|entries| - 1].due
    decreases |entries|
  {
    if entries != [] {
      var n := |entries| - 1;
      if entries[n].due > e.due {
        PutKeepsOrder(entries[..n], e);
      }
    }
  }

  class EventsScript {
    const cyclic: bool
    var entries: seq<Entry>
    var timers: seq<Timer>
    var fired: nat
    var log: seq<Dispatched>
    var handles: seq<nat>     // the timer objects of the pass, timer for timer
    var live: set<nat>        // timer objects created and not deleted
    var created: nat
    var fault: bool           // a timer object was deleted twice

    ghost predicate Valid()
      reads this
    {
      && Increasing(entries) && |handles| == |timers| && (timers != [] ==> entries != [])
      && (forall i, j :: 0 <= i < j < |handles| ==> handles[i] != handles[j])
      && (forall h :: h in live <==> h in handles)
      && (forall h :: h in live ==> h < created)
      && !fault
    }

    ghost function View(): Script
      reads this
    {
      Script(entries, cyclic, timers, fired, log)
    }

    constructor (cyclic: bool)
      ensures Valid() && View() == Script([], cyclic, [], 0, [])
    {
      this.cyclic := cyclic;
      entries, timers, fired, log := [], [], 0, [];
      handles, live, created, fault := [], {}, 0, false;
    }

    /** Assignment through operator[] of the map the script is. */
    method Assign(due: nat, event: Event)
      requires Valid()
      modifies this`entries
      ensures Valid()
      ensures forall x :: x in entries <==> x == Entry(due, event) || (x in old(entries) && x.due != due)
    {
      PutKeepsOrder(entries, Entry(due, event));
      forall x
        ensures x in Put(entries, Entry(due, event)) <==> x == Entry(due, event) || (x in entries && x.due != due)
      {
        PutSetsOne(entries, Entry(due, event), x);
      }
      entries := Put(entries, Entry(due, event));
    }

    method AddTimer(date: nat, action: Action)
      requires Valid() && entries != []
      modifies this`timers, this`handles, this`live, this`created
      ensures Valid() && timers == old(timers) + [Timer(date, action)]
      ensures created == old(created) + 1 && live == old(live) + {old(created)}
    {
      timers := timers + [Timer(date, action)];
      handles := handles + [created];
      live := live + {created};
      created := created + 1;
    }

    method DeleteTimer(h: nat)
      modifies this`live, this`fault
      ensures live == old(live) - {h} && fault == (old(fault) || h !in old(live))
    {
      fault := fault || h !in live;
      live := live - {h};
    }

    /** Every timer object of the pass is deleted, each of them once. */
    method StopScript()
      requires Valid()
      modifies this`timers, this`handles, this`live, this`fault
      ensures Valid() && timers == [] && live == {}
    {
      timers := [];
      var i := 0;
      while i < |handles|
        invariant 0 <= i <= |handles| && handles == old(handles) && timers == [] && !fault
        invariant forall h :: h in live <==> h in handles[i..]
      {
        assert handles[i..] == [handles[i]] + handles[i + 1..];
        DeleteTimer(handles[i]);
        i := i + 1;
      }
      handles := [];
    }

    method StartScript(now: nat)
      requires Valid() && entries != []
      modifies this`timers, this`fired, this`handles, this`live, this`created, this`fault
      ensures Valid() && View() == Start(old(View()), now)
      ensures live !! old(live)
    {
      StopScript();
      fired := 0;
      var lastDate := now + entries[|entries| - 1].due;
      var i := 0;
      while i < |entries|
        invariant 0 <= i <= |entries| && fired == 0 && Valid()
        invariant timers == Schedule(entries, cyclic, now, i)
        invariant created >= old(created) && forall h :: h in live ==> h >= old(created)
      {
        var date := now + entries[i].due;
        if cyclic && date == lastDate {
          AddTimer(date, Restart);
        } else {
          AddTimer(date, DispatchEvent(entries[i].event));
        }
        i := i + 1;
      }
    }

    method FireNext()
      requires Valid() && fired < |timers|
      modifies this
      ensures Valid() && View() == Fire(old(View()))
    {
      var t := timers[fired];
      match t.action {
        case DispatchEvent(e) =>
          log := log + [Dispatched(t.date, e)];
          fired := fired + 1;
        case Restart =>
          StartScript(t.date);
      }
    }
  }

  // ----- The script that runs once -----

  function Once(entries: seq<Entry>, begin: nat): Script {
    Start(Script(entries, false, [], 0, []), begin)
  }

  /** Every entry is dispatched at its date, each of them once and in order, and then nothing more. */
  lemma {:induction false} PlainScript(entries: seq<Entry>, begin: nat, firings: nat)
    requires Scripted(entries)
    ensures var s, n := FireMany(Once(entries, begin), firings), if firings < |entries| then firings else |entries|;
            && s.timers == Schedule(entries, false, begin, |entries|) && s.fired == n
            && |s.log| == n
            && forall k :: 0 <= k < n ==> s.log[k] == Dispatched(begin + entries[k].due, entries[k].event)
    decreases firings
  {
    ScheduleLength(entries, false, begin, |entries|);
    if firings > 0 {
      PlainScript(entries, begin, firings - 1);
      if firings <= |entries| {
        ScheduleAt(entries, false, begin, |entries|, firings - 1);
      }
    }
  }

  // ----- The cyclic script -----

  lemma {:induction false} ScheduleAt(entries: seq<Entry>, cyclic: bool, begin: nat, upTo: nat, i: nat)
    requires Scripted(entries) && i < upTo <= |entries|
    ensures var ts := Schedule(entries, cyclic, begin, upTo);
            && |ts| == upTo
            && ts[i].date == begin + entries[i].due
            && ts[i].action == if cyclic && i == |entries| - 1 then Restart else DispatchEvent(entries[i].event)
    decreases upTo
  {
    ScheduleLength(entries, cyclic, begin, upTo - 1);
    if i < upTo - 1 {
      ScheduleAt(entries, cyclic, begin, upTo - 1, i);
    }
  }

  lemma {:induction false} ScheduleLength(entries: seq<Entry>, cyclic: bool, begin: nat, upTo: nat)
    requires upTo <= |entries|
    ensures |Schedule(entries, cyclic, begin, upTo)| == upTo
    decreases upTo
  {
    if upTo > 0 {
      ScheduleLength(entries, cyclic, begin, upTo - 1);
    }
  }

  lemma Product(a: int, m: nat)
    ensures a >= 1 ==> a * m >= m
    ensures a <= -1 ==> a * m + m <= 0
  {
  }

  lemma DivMod(q: nat, m: nat, r: nat)
    requires r < m
    ensures (q * m + r) / m == q && (q * m + r) % m == r
  {
    var x := q * m + r;
    assert x == x / m * m + x % m;
    assert (x / m - q) * m == r - x % m;
    Product(x / m - q, m);
  }

  /** The k-th event of a cyclic script: entry k mod (n-1), one last-duration later in each pass. */
  function Expected(entries: seq<Entry>, begin: nat, k: nat): Dispatched
    requires |entries| >= 2
  {
    var n := |entries| - 1;
    Dispatched(begin + k / n * LastDue(entries) + entries[k % n].due, entries[k % n].event)
  }

  /** In pass number `pass`, after `fired` of its timers. */
  ghost predicate InPass(s: Script, entries: seq<Entry>, begin: nat, pass: nat) {
    && |entries| >= 2 && Scripted(entries) && s.entries == entries && s.cyclic
    && s.timers == Schedule(entries, true, begin + pass * LastDue(entries), |entries|)
    && s.fired < |entries|
    && |s.log| == pass * (|entries| - 1) + s.fired
    && forall k :: 0 <= k < |s.log| ==> s.log[k] == Expected(entries, begin, k)
  }

  lemma FireStaysInPass(s: Script, entries: seq<Entry>, begin: nat, pass: nat)
    requires InPass(s, entries, begin, pass)
    ensures if s.fired == |entries| - 1 then InPass(Fire(s), entries, begin, pass + 1) && Fire(s).fired == 0
            else InPass(Fire(s), entries, begin, pass) && Fire(s).fired == s.fired + 1
  {
    var n, base := |entries| - 1, begin + pass * LastDue(entries);
    ScheduleAt(entries, true, base, |entries|, s.fired);
    if s.fired == n {
      assert base + LastDue(entries) == begin + (pass + 1) * LastDue(entries);
      assert pass * n + n == (pass + 1) * n;
    } else {
      DivMod(pass, n, s.fired);
    }
  }

  function Started(entries: seq<Entry>, begin: nat): Script {
    Start(Script(entries, true, [], 0, []), begin)
  }

  lemma {:induction false} PassOf(entries: seq<Entry>, begin: nat, firings: nat) returns (pass: nat)
    requires Scripted(entries) && |entries| >= 2
    ensures var s := FireMany(Started(entries, begin), firings);
            InPass(s, entries, begin, pass) && firings == pass * |entries| + s.fired
    decreases firings
  {
    if firings == 0 {
      pass := 0;
      assert begin + pass * LastDue(entries) == begin;
    } else {
      var before := PassOf(entries, begin, firings - 1);
      var s := FireMany(Started(entries, begin), firings - 1);
      FireStaysInPass(s, entries, begin, before);
      pass := if s.fired == |entries| - 1 then before + 1 else before;
      assert (before + 1) * |entries| == before * |entries| + |entries|;
    }
  }

  /** After any number of firings, every event dispatched is the expected one. */
  lemma CyclicScript(entries: seq<Entry>, begin: nat, firings: nat)
    requires Scripted(entries) && |entries| >= 2
    ensures var s := FireMany(Started(entries, begin), firings);
            && s.fired == firings % |entries|
            && |s.log| == firings / |entries| * (|entries| - 1) + s.fired
            && forall k :: 0 <= k < |s.log| ==> s.log[k] == Expected(entries, begin, k)
  {
    var pass := PassOf(entries, begin, firings);
    DivMod(pass, |entries|, FireMany(Started(entries, begin), firings).fired);
  }

  ghost predicate WasDispatched(entries: seq<Entry>, begin: nat, firings: nat, event: Event)
    requires Scripted(entries) && |entries| >= 2
  {
    var log := FireMany(Started(entries, begin), firings).log;
    exists k :: 0 <= k < |log| && log[k].event == event
  }

  /** The entries that come before the last one. */
  predicate HasBeforeLast(entries: seq<Entry>, event: Event)
    requires entries != []
  {
    exists i :: 0 <= i < |entries| - 1 && entries[i].event == event
  }

  lemma DispatchedIsBeforeLast(entries: seq<Entry>, begin: nat, firings: nat, event: Event)
    requires Scripted(entries) && |entries| >= 2 && WasDispatched(entries, begin, firings, event)
    ensures HasBeforeLast(entries, event)
  {
    CyclicScript(entries, begin, firings);
    var log, n := FireMany(Started(entries, begin), firings).log, |entries| - 1;
    var k :| 0 <= k < |log| && log[k].event == event;
    assert log[k] == Expected(entries, begin, k);
    assert 0 <= k % n < n;
  }

  lemma BeforeLastIsDispatched(entries: seq<Entry>, begin: nat, i: nat)
    requires Scripted(entries) && i < |entries| - 1
    ensures WasDispatched(entries, begin, i + 1, entries[i].event)
  {
    var log, n := FireMany(Started(entries, begin), i + 1).log, |entries| - 1;
    FirstPass(entries, begin, i + 1);
    CyclicScript(entries, begin, i + 1);
    assert i % n == i by { DivMod(0, n, i); }
    assert log[i] == Expected(entries, begin, i);
  }

  lemma FirstPass(entries: seq<Entry>, begin: nat, firings: nat)
    requires Scripted(entries) && 2 <= |entries| && firings < |entries|
    ensures |FireMany(Started(entries, begin), firings).log| == firings
  {
    CyclicScript(entries, begin, firings);
    DivMod(0, |entries|, firings);
  }

  /** The last entry only marks the end of the pass: an event is ever dispatched exactly if an entry
      before the last one carries it. */
  lemma DispatchedExactly(entries: seq<Entry>, begin: nat, event: Event)
    requires Scripted(entries) && |entries| >= 2
    ensures (exists firings: nat :: WasDispatched(entries, begin, firings, event)) <==> HasBeforeLast(entries, event)
  {
    if firings: nat :| WasDispatched(entries, begin, firings, event) {
      DispatchedIsBeforeLast(entries, begin, firings, event);
    }
    if i :| 0 <= i < |entries| - 1 && entries[i].event == event {
      BeforeLastIsDispatched(entries, begin, i);
    }
  }
}
