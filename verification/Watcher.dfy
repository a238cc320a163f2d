/** The watcher's debouncing (internal/watcher/watcher.go). */
module Watcher {
  import opened Prelude

  type Name = string

  datatype Flag = Create | Modify | Remove | Rename | Chmod

  // fsnotify.Op: a set of flags, joined with bitwise or.
  type Ops = set<Flag>

  datatype Pending = Pending(op: Ops, timer: nat)

  // `armed` holds the timers whose callback has not finished its locked part, `next` the number
  // of the next timer, `log` what was accepted and what was handed to processEvent, in order.
  datatype Entry = Accepted(name: Name, op: Ops) | HandedOff(name: Name, op: Ops)

  datatype State = State(pending: map<Name, Pending>, armed: map<nat, Name>, next: nat, log: seq<Entry>)

  const EMPTY: State := State(map[], map[], 0, [])

  // A raw event, with whether stopping the running timer succeeded; or a timer's callback.
  datatype Step = Raw(name: Name, op: Ops, stopped: bool) | Fire(timer: nat)

  function Next(s: State, step: Step): State {
    match step
    case Raw(name, op, stopped) =>
      var p := if name in s.pending then Pending(s.pending[name].op + op, s.next) else Pending(op, s.next);
      var armed := if name in s.pending && stopped then s.armed - {s.pending[name].timer} else s.armed;
      State(s.pending[name := p], armed[s.next := name], s.next + 1, s.log + [Accepted(name, op)])
    case Fire(timer) =>
      if timer !in s.armed then s
      else
        var name := s.armed[timer];
        var rest := s.(armed := s.armed - {timer});
        if name !in s.pending then rest
        else rest.(pending := s.pending - {name}, log := s.log + [HandedOff(name, s.pending[name].op)])
  }

  function Run(steps: seq<Step>): State {
    if steps == [] then EMPTY else Next(Run(steps[..|steps| - 1]), steps[|steps| - 1])
  }

  // The ops accepted for a name since its last handoff, and whether there are any.
  function Since(log: seq<Entry>, name: Name): Option<Ops> {
    if log == [] then None
    else
      var before := Since(log[..|log| - 1], name);
      match log[|log| - 1]
      case Accepted(n, op) =>
        if n != name then before else Some(if before.Some? then before.value + op else op)
      case HandedOff(n, _) => if n == name then None else before
  }

  // Each handoff carries exactly the ops accepted for its name since the one before.
  ghost predicate Conserves(log: seq<Entry>) {
    forall i :: 0 <= i < |log| && log[i].HandedOff? ==> Since(log[..i], log[i].name) == Some(log[i].op)
  }

  ghost predicate Valid(s: State) {
    && (forall n :: n in s.pending ==> s.pending[n].timer in s.armed && s.armed[s.pending[n].timer] == n)
    && (forall t :: t in s.armed ==> t < s.next)
    && (forall n :: Since(s.log, n) == if n in s.pending then Some(s.pending[n].op) else None)
    && Conserves(s.log)
  }

  lemma ConservesOneMore(log: seq<Entry>, e: Entry)
    requires Conserves(log) && (e.HandedOff? ==> Since(log, e.name) == Some(e.op))
    ensures Conserves(log + [e])
  {
    var all := log + [e];
    forall i | 0 <= i < |all| && all[i].HandedOff? ensures Since(all[..i], all[i].name) == Some(all[i].op) {
      assert all[..i] == log[..i];
      if i == |log| { assert all[..i] == log; }
    }
  }

  lemma SinceOneMore(log: seq<Entry>, e: Entry, n: Name)
    ensures e.name != n ==> Since(log + [e], n) == Since(log, n)
    ensures e.name == n && e.HandedOff? ==> Since(log + [e], n) == None
    ensures e.name == n && e.Accepted? ==>
              Since(log + [e], n) == Some(if Since(log, n).Some? then Since(log, n).value + e.op else e.op)
  {
    assert (log + [e])[..|log|] == log;
  }

  lemma StepKeepsValid(s: State, step: Step)
    requires Valid(s)
    ensures Valid(Next(s, step))
  {
    var t := Next(s, step);
    if t.log != s.log {
      var e := t.log[|s.log|];
      assert t.log == s.log + [e];
      ConservesOneMore(s.log, e);
      forall n ensures Since(t.log, n) == if n in t.pending then Some(t.pending[n].op) else None {
        SinceOneMore(s.log, e, n);
      }
    }
  }

  lemma {:induction false} RunKeepsValid(steps: seq<Step>)
    ensures Valid(Run(steps))
  {
    if steps != [] {
      RunKeepsValid(steps[..|steps| - 1]);
      StepKeepsValid(Run(steps[..|steps| - 1]), steps[|steps| - 1]);
    }
  }

  // Over every interleaving of raw events, failed stops and late callbacks: each pending name
  // has a callback outstanding, each handoff carries the ops accepted for its name since the
  // previous one, what is pending is what has not been handed off, and nothing is left once
  // no callback is outstanding.
  lemma {:induction false} DebounceConserves(steps: seq<Step>)
    ensures var s := Run(steps);
            && (forall n :: n in s.pending ==> exists t :: t in s.armed && s.armed[t] == n)
            && Conserves(s.log)
            && (forall n :: Since(s.log, n) == if n in s.pending then Some(s.pending[n].op) else None)
            && (s.armed == map[] ==> s.pending == map[] && forall n :: Since(s.log, n) == None)
  {
    RunKeepsValid(steps);
    var s := Run(steps);
    forall n | n in s.pending ensures exists t :: t in s.armed && s.armed[t] == n {
      assert s.pending[n].timer in s.armed;
    }
  }

  // Once events stop the outstanding callbacks run out: firing them all, in any order, ends
  // with nothing pending.
  lemma {:induction false} TimersRunOut(s: State, timers: seq<nat>)
    requires Valid(s) && (forall t :: t in s.armed ==> t in timers)
    ensures FireAll(s, timers).armed == map[] && FireAll(s, timers).pending == map[]
    ensures Valid(FireAll(s, timers))
    decreases |timers|
  {
    if timers == [] {
      assert s.armed == map[];
    } else {
      StepKeepsValid(s, Fire(timers[0]));
      TimersRunOut(Next(s, Fire(timers[0])), timers[1..]);
    }
  }

  function FireAll(s: State, timers: seq<nat>): State
    decreases |timers|
  {
    if timers == [] then s else FireAll(Next(s, Fire(timers[0])), timers[1..])
  }

  // What processEvent makes of one handoff when it runs alone; module WatcherCalls takes it apart.
  datatype Stat = Missing | Directory | Regular(sha: string)

  datatype Event = Wrote(path: Name, sha: string) | Removed(path: Name)

  datatype Handoff = Handoff(path: Name, op: Ops, stat: Stat)

  // The known hashes and the event raised, if any. A hash that is not known reads as "".
  function Process(hashes: map<Name, string>, h: Handoff): (map<Name, string>, Option<Event>) {
    if Modify in h.op || Create in h.op then
      match h.stat
      case Regular(sha) =>
        if sha == (if h.path in hashes then hashes[h.path] else "") then (hashes, None)
        else (hashes[h.path := sha], Some(Wrote(h.path, sha)))
      case _ => (hashes, None)
    else if Remove in h.op || Rename in h.op then (hashes - {h.path}, Some(Removed(h.path)))
    else (hashes, None)
  }

  function ProcessAll(hs: seq<Handoff>): (map<Name, string>, seq<Event>) {
    if hs == [] then (map[], [])
    else
      var (hashes, raised) := ProcessAll(hs[..|hs| - 1]);
      var (hashes', ev) := Process(hashes, hs[|hs| - 1]);
      (hashes', if ev.Some? then raised + [ev.value] else raised)
  }

  // What a listener that hears every event knows.
  function Heard(evs: seq<Event>): map<Name, string> {
    if evs == [] then map[]
    else
      var before := Heard(evs[..|evs| - 1]);
      match evs[|evs| - 1]
      case Wrote(path, sha) => before[path := sha]
      case Removed(path) => before - {path}
  }

  // Each write tells a listener something it does not know.
  predicate AllNews(evs: seq<Event>) {
    evs == [] || (AllNews(evs[..|evs| - 1]) && News(Heard(evs[..|evs| - 1]), evs[|evs| - 1]))
  }

  predicate News(known: map<Name, string>, ev: Event) {
    ev.Wrote? ==> !(ev.path in known && known[ev.path] == ev.sha)
  }

  lemma AllNewsOneMore(evs: seq<Event>, ev: Event)
    requires AllNews(evs) && News(Heard(evs), ev)
    ensures AllNews(evs + [ev])
    ensures Heard(evs + [ev]) == if ev.Wrote? then Heard(evs)[ev.path := ev.sha] else Heard(evs) - {ev.path}
  {
    assert (evs + [ev])[..|evs|] == evs;
  }

  // The known hashes are what the events raised so far tell, and no write is raised twice.
  lemma {:induction false} HashesAreWhatWasRaised(hs: seq<Handoff>)
    ensures ProcessAll(hs).0 == Heard(ProcessAll(hs).1)
    ensures AllNews(ProcessAll(hs).1)
  {
    if hs != [] {
      var (hashes, raised) := ProcessAll(hs[..|hs| - 1]);
      HashesAreWhatWasRaised(hs[..|hs| - 1]);
      var (_, ev) := Process(hashes, hs[|hs| - 1]);
      if ev.Some? {
        AllNewsOneMore(raised, ev.value);
      }
    }
  }

  // What a path last held, told by its handoffs alone: a write or create names the content
  // unless the file is gone or unreadable by then, and only without them does a removal count.
  function LastSeen(hs: seq<Handoff>, path: Name): Option<string> {
    if hs == [] then None
    else
      var h, before := hs[|hs| - 1], LastSeen(hs[..|hs| - 1], path);
      if h.path != path then before
      else if Create in h.op || Modify in h.op then (if h.stat.Regular? then Some(h.stat.sha) else before)
      else if Remove in h.op || Rename in h.op then None
      else before
  }

  lemma {:induction false} HashesAreLastSeen(hs: seq<Handoff>, path: Name)
    requires forall i :: 0 <= i < |hs| && hs[i].stat.Regular? ==> hs[i].stat.sha != ""
    ensures var known := ProcessAll(hs).0;
            LastSeen(hs, path) == if path in known then Some(known[path]) else None
  {
    if hs != [] {
      HashesAreLastSeen(hs[..|hs| - 1], path);
    }
  }

  // A listener that hears every event knows exactly that of every path.
  lemma ListenerIsCurrent(hs: seq<Handoff>, path: Name)
    requires forall i :: 0 <= i < |hs| && hs[i].stat.Regular? ==> hs[i].stat.sha != ""
    ensures var known := Heard(ProcessAll(hs).1);
            LastSeen(hs, path) == if path in known then Some(known[path]) else None
  {
    HashesAreWhatWasRaised(hs);
    HashesAreLastSeen(hs, path);
  }

  // After any handoffs, a write is raised exactly when its content is not what the path was last
  // seen to hold; so content whose event was lost is raised again once something else was seen.
  lemma RaisedIff(hs: seq<Handoff>, h: Handoff)
    requires forall i :: 0 <= i < |hs| && hs[i].stat.Regular? ==> hs[i].stat.sha != ""
    requires (Modify in h.op || Create in h.op) && h.stat.Regular? && h.stat.sha != ""
    ensures Process(ProcessAll(hs).0, h).1 == Some(Wrote(h.path, h.stat.sha)) <==> LastSeen(hs, h.path) != Some(h.stat.sha)
  {
    HashesAreLastSeen(hs, h.path);
  }

  // A file that is gone when its ops are handed off is reported removed exactly when the ops
  // contain no write or create: a write shortly before the removal hides it.
  lemma RemovalReportedIff(hashes: map<Name, string>, path: Name, op: Ops)
    requires Remove in op || Rename in op
    ensures Process(hashes, Handoff(path, op, Missing)).1 == Some(Removed(path)) <==> Modify !in op && Create !in op
  {
  }

  // So a file known to the watcher, written and then removed within the delay, stays known.
  lemma WriteHidesRemoval(path: Name, sha: string)
    ensures var s := Run([Raw(path, {Modify}, true), Raw(path, {Remove}, true), Fire(1)]);
            && s.log == [Accepted(path, {Modify}), Accepted(path, {Remove}), HandedOff(path, {Modify, Remove})]
            && Process(map[path := sha], Handoff(path, {Modify, Remove}, Missing)) == (map[path := sha], None)
  {
    var written, gone := Raw(path, {Modify}, true), Raw(path, {Remove}, true);
    var s1 := State(map[path := Pending({Modify}, 0)], map[0 := path], 1, [Accepted(path, {Modify})]);
    var s2 := State(map[path := Pending({Modify, Remove}, 1)], map[1 := path], 2, s1.log + [Accepted(path, {Remove})]);
    assert Next(EMPTY, written) == s1;
    assert {Modify} + {Remove} == {Modify, Remove} && s1.armed - {0} == map[];
    assert Next(s1, gone) == s2;
    assert [written][..0] == [] && Run([written]) == s1;
    assert [written, gone][..1] == [written] && Run([written, gone]) == s2;
    assert [written, gone, Fire(1)][..2] == [written, gone];
  }

  /** The debouncer; each method is one section under `debounceMu`. */
  class Debouncer {
    var pending: map<Name, Pending>
    var armed: map<nat, Name>
    var next: nat
    ghost var log: seq<Entry>

    constructor ()
      ensures Current() == EMPTY
    {
      pending, armed, next, log := map[], map[], 0, [];
    }

    ghost function Current(): State reads this {
      State(pending, armed, next, log)
    }

    method OnRaw(name: Name, op: Ops, stopped: bool)
      modifies this
      ensures Current() == Next(old(Current()), Raw(name, op, stopped))
    {
      var ops := op;
      if name in pending {
        ops := pending[name].op + op;
        if stopped {
          armed := armed - {pending[name].timer};
        }
      }
      pending := pending[name := Pending(ops, next)];
      armed := armed[next := name];
      next := next + 1;
      log := log + [Accepted(name, op)];
    }

    // The callback: the handoff it makes, if the name is still pending.
    method OnFire(timer: nat) returns (handoff: Option<(Name, Ops)>)
      requires timer in armed
      modifies this
      ensures Current() == Next(old(Current()), Fire(timer))
      ensures handoff == var name := old(armed)[timer];
                         if name in old(pending) then Some((name, old(pending)[name].op)) else None
    {
      var name := armed[timer];
      armed := armed - {timer};
      handoff := None;
      if name in pending {
        var op := pending[name].op;
        pending := pending - {name};
        log := log + [HandedOff(name, op)];
        handoff := Some((name, op));
      }
    }
  }
}
