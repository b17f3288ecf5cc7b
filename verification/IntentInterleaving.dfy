/** One instance's row under users' requests, lifecycle workflows and reconcilers that overlap: all of them write both
    of its states at once, each with what it has read before for the state that it does not mean to change. */
module IntentInterleaving {
  import opened Options
  import opened Identifiers
  import opened Instances

  type CallId = nat

  /** What a request, or a reconciler, has read and has yet to answer. */
  datatype State = State(row: Instance, requests: map<CallId, Instance>, looks: map<CallId, Instance>)

  datatype Event =
    | ReadForRequest(c: CallId)
    | WriteRequest(c: CallId, desired: string)
    | Achieve(target: string)
    | Look(c: CallId)
    | WriteBack(c: CallId, observed: string)
    | Drop(c: CallId)

  predicate Enabled(s: State, e: Event) {
    match e
    case ReadForRequest(c) => c !in s.requests
    case WriteRequest(c, _) => c in s.requests
    case Achieve(_) => true
    case Look(c) => c !in s.looks
    case WriteBack(c, _) => c in s.looks
    case Drop(_) => true
  }

  function Step(s: State, e: Event): State
    requires Enabled(s, e)
  {
    match e
    case ReadForRequest(c) => s.(requests := s.requests[c := s.row])
    case WriteRequest(c, desired) =>
      s.(row := s.row.WithStates(desired, s.requests[c].observed, None), requests := s.requests - {c})
    case Achieve(target) => s.(row := s.row.WithStates(target, target, None))
    case Look(c) => s.(looks := s.looks[c := s.row])
    case WriteBack(c, observed) =>
      s.(row := s.row.WithStates(s.looks[c].desired, observed, None), looks := s.looks - {c})
    case Drop(c) => s.(requests := s.requests - {c}, looks := s.looks - {c})
  }

  function Run(s: State, events: seq<Event>): Option<State>
    decreases |events|
  {
    if events == [] then Some(s)
    else if Enabled(s, events[0]) then Run(Step(s, events[0]), events[1..])
    else None
  }

  /** Nobody says anew what the instance is meant to be. */
  predicate NoIntent(events: seq<Event>) {
    forall e :: e in events ==> !e.WriteRequest? && !e.Achieve?
  }

  // ---- Exactly when the reconciler takes an intent back ----

  /** A reconciler has read the row while it was meant to be something else. */
  ghost predicate StaleLook(s: State) {
    exists c :: c in s.looks && s.looks[c].desired != s.row.desired
  }

  predicate TakesBack(s: State, more: seq<Event>) {
    NoIntent(more) && Run(s, more).Some? && Run(s, more).value.row.desired != s.row.desired
  }

  lemma {:induction false} KeepsIntent(s: State, more: seq<Event>)
    requires !StaleLook(s) && NoIntent(more) && Run(s, more).Some?
    ensures !StaleLook(Run(s, more).value) && Run(s, more).value.row.desired == s.row.desired
    decreases |more|
  {
    if more != [] {
      var e, s' := more[0], Step(s, more[0]);
      assert e in more && NoIntent(more[1..]);
      forall c | c in s'.looks ensures s'.looks[c].desired == s'.row.desired {
        assert c in s.looks ==> s.looks[c].desired == s.row.desired;
      }
      KeepsIntent(s', more[1..]);
    }
  }

  /** From any state, what the instance is meant to be can change without anybody asking for it exactly when a
      reconciler that has read it before the last request or workflow wrote it, as something else, still has to write
      its row back; otherwise no reconciler ever changes it. */
  lemma {:induction false} IntentIsKeptExactlyWhen(s: State)
    ensures (exists more :: TakesBack(s, more)) <==> StaleLook(s)
  {
    if StaleLook(s) {
      var c :| c in s.looks && s.looks[c].desired != s.row.desired;
      var more := [WriteBack(c, UNKNOWN)];
      assert more[1..] == [];
      assert TakesBack(s, more);
    } else {
      forall more ensures !TakesBack(s, more) {
        if NoIntent(more) && Run(s, more).Some? {
          KeepsIntent(s, more);
        }
      }
    }
  }

  /** A user stops an instance while a reconciler, which has listed it as meant to run, waits for its provider: in the
      end it is meant to run again. */
  lemma {:induction false} ReconcilerUndoesStop(row: Instance, observed: string)
    requires row.desired != "stopped"
    ensures var s := State(row, map[], map[]);
      var run := [Look(0), ReadForRequest(0), WriteRequest(0, "stopped"), WriteBack(0, observed)];
      && Run(s, run[..3]).Some? && Run(s, run[..3]).value.row.desired == "stopped"
      && Run(s, run).Some? && Run(s, run).value.row == row.(observed := observed)
  {
    var s := State(row, map[], map[]);
    var run := [Look(0), ReadForRequest(0), WriteRequest(0, "stopped"), WriteBack(0, observed)];
    Unfolds(s, run);
    Unfolds(s, run[..3]);
    var last := run[3..];
    assert last == [WriteBack(0, observed)] && last[1..] == [] && run[..3][3..] == [];
    var stopped := Step(Step(Step(s, run[0]), run[1]), run[2]);
    assert stopped.looks[0] == row;
    assert Run(stopped, last) == Some(Step(stopped, WriteBack(0, observed)));
  }

  lemma {:induction false} Unfolds(s: State, events: seq<Event>)
    requires 3 <= |events| <= 4
    requires Enabled(s, events[0]) && Enabled(Step(s, events[0]), events[1])
    requires Enabled(Step(Step(s, events[0]), events[1]), events[2])
    ensures Run(s, events) == Run(Step(Step(Step(s, events[0]), events[1]), events[2]), events[3..])
  {
    var s1 := Step(s, events[0]);
    var s2 := Step(s1, events[1]);
    assert Run(s, events) == Run(s1, events[1..]);
    assert events[1..][0] == events[1] && events[1..][1..] == events[2..];
    assert Run(s1, events[1..]) == Run(s2, events[2..]);
    assert events[2..][0] == events[2] && events[2..][1..] == events[3..];
  }

  // ---- Where what it is meant to be comes from ----

  /** What requests and workflows have asked for in a run. */
  function Asked(events: seq<Event>): set<string> {
    set e | e in events && (e.WriteRequest? || e.Achieve?) :: if e.WriteRequest? then e.desired else e.target
  }

  ghost predicate AllFrom(s: State, wishes: set<string>) {
    s.row.desired in wishes && forall c :: c in s.looks ==> s.looks[c].desired in wishes
  }

  /** In every interleaving the instance is meant to be what it was at the start or what somebody has asked for since,
      and its subscription, node, provider, provider's id and resources are what they were: reconcilers only ever delay
      or revive an intent, and never make one up. */
  lemma {:induction false} IntentsAreAskedFor(s: State, events: seq<Event>, wishes: set<string>)
    requires AllFrom(s, wishes) && Run(s, events).Some?
    ensures var end := Run(s, events).value;
      && AllFrom(end, wishes + Asked(events))
      && end.row == s.row.(desired := end.row.desired, observed := end.row.observed)
    decreases |events|
  {
    if events != [] {
      var e, s' := events[0], Step(s, events[0]);
      assert Asked(events) == Asked([e]) + Asked(events[1..]);
      assert e in [e];
      IntentsAreAskedFor(s', events[1..], wishes + Asked([e]));
      assert wishes + Asked([e]) + Asked(events[1..]) == wishes + Asked(events);
    }
  }
}
