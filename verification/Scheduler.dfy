/** The scheduler: it filters and ranks a listing of nodes that may be stale by the time it is used, and then tries to
    reserve on one candidate after the other while other transactions go on. */
module Scheduler {
  import opened Identifiers
  import opened Resources
  import opened Allocator

  /** A node as it was when the listing was read. */
  datatype Listed = Listed(id: NodeId, node: Node)

  datatype Candidate = Candidate(id: NodeId, node: Node, score: real)

  datatype Requirements = Requirements(operation: OperationId, amount: Resources, ttl: int)

  datatype Answer =
    | Selected(reservation: ReservationId, node: NodeId)
    | NoSchedulableNode
    | Failed(error: Outcome)

  const DEFAULT_TTL := 15 * 60

  // ---- Candidates and their rank ----

  predicate Positive(node: Node) {
    0 < node.total.cpu && 0 < node.total.memory && 0 < node.total.disk
  }

  predicate Qualifies(node: Node, amount: Resources) {
    node.status == Active && amount.AtMost(node.Available())
  }

  function FreeRatio(node: Node): real
    requires Positive(node)
  {
    var free := node.Available();
    (free.cpu as real / node.total.cpu as real
     + free.memory as real / node.total.memory as real
     + free.disk as real / node.total.disk as real) / 3.0
  }

  function Scored(listed: Listed): Candidate
    requires Positive(listed.node)
  {
    Candidate(listed.id, listed.node, listed.node.weight as real * 1000.0 + FreeRatio(listed.node) * 100.0)
  }

  /** The comparison given to the sort: higher score first, and among equal scores the smaller id. */
  predicate Precedes(a: Candidate, b: Candidate) {
    if a.score != b.score then a.score > b.score else a.id < b.id
  }

  /** Nodes that qualify have something of everything, so that a ratio can be taken; others may have nothing. */
  predicate Measurable(listing: seq<Listed>, amount: Resources) {
    forall l :: l in listing && Qualifies(l.node, amount) ==> Positive(l.node)
  }

  predicate Plausible(listing: seq<Listed>, amount: Resources) {
    Measurable(listing, amount) && forall i, j :: 0 <= i < j < |listing| ==> listing[i].id != listing[j].id
  }

  /** For a plan that asks for some CPU, memory and disk, every listing is measurable whose counters are not
      negative. */
  lemma {:induction false} PositivePlansAreMeasurable(listing: seq<Listed>, amount: Resources)
    requires 0 < amount.cpu && 0 < amount.memory && 0 < amount.disk
    requires forall l :: l in listing ==> l.node.alloc.Plus(l.node.reserved).NonNegative()
    ensures Measurable(listing, amount)
  {
  }

  function Candidates(listing: seq<Listed>, amount: Resources): seq<Candidate>
    requires Measurable(listing, amount)
  {
    if listing == [] then []
    else
      var rest, last := Candidates(listing[..|listing| - 1], amount), listing[|listing| - 1];
      if Qualifies(last.node, amount) then rest + [Scored(last)] else rest
  }

  /** x, put behind every element of s up to the last one that x does not precede. */
  function Insert(x: Candidate, s: seq<Candidate>): (r: seq<Candidate>)
    ensures |r| == |s| + 1
  {
    if s == [] then [x]
    else
      var last := |s| - 1;
      if Precedes(x, s[last]) then Insert(x, s[..last]) + [s[last]] else s + [x]
  }

  function Ranked(s: seq<Candidate>): seq<Candidate> {
    if s == [] then [] else Insert(s[|s| - 1], Ranked(s[..|s| - 1]))
  }

  ghost predicate StrictlyRanked(s: seq<Candidate>) {
    forall i, j :: 0 <= i < j < |s| ==> Precedes(s[i], s[j])
  }

  /** The free ratio of a node whose counters are not negative lies between 0 and 1. */
  lemma {:induction false} FreeRatioInUnit(node: Node)
    requires Positive(node) && node.alloc.Plus(node.reserved).NonNegative()
    ensures 0.0 <= FreeRatio(node) <= 1.0
  {
    var free := node.Available();
    Quotient(free.cpu, node.total.cpu);
    Quotient(free.memory, node.total.memory);
    Quotient(free.disk, node.total.disk);
  }

  lemma {:induction false} Quotient(part: int, whole: int)
    requires 0 <= part <= whole && 0 < whole
    ensures 0.0 <= part as real / whole as real <= 1.0
  {
  }

  /** The order that the score is meant to give: weight first, then the free ratio, then the id. */
  ghost predicate LexicographicallyBefore(a: Listed, b: Listed)
    requires Positive(a.node) && Positive(b.node)
  {
    || a.node.weight > b.node.weight
    || (a.node.weight == b.node.weight && FreeRatio(a.node) > FreeRatio(b.node))
    || (a.node.weight == b.node.weight && FreeRatio(a.node) == FreeRatio(b.node) && a.id < b.id)
  }

  /** The lighter node has so much more free, ten times its total for each step of weight, that it overtakes the
      heavier. */
  ghost predicate Overtakes(light: Listed, heavy: Listed)
    requires Positive(light.node) && Positive(heavy.node)
  {
    var steps := (heavy.node.weight - light.node.weight) as real;
    && light.node.weight < heavy.node.weight
    && (|| FreeRatio(light.node) - FreeRatio(heavy.node) > 10.0 * steps
        || (FreeRatio(light.node) - FreeRatio(heavy.node) == 10.0 * steps && light.id < heavy.id))
  }

  /** The score order is lexicographic on two nodes exactly when neither overtakes the other, which takes counters that
      have gone far below zero. */
  lemma {:induction false} ScoreOrderExactlyLexicographic(a: Listed, b: Listed)
    requires Positive(a.node) && Positive(b.node) && a.id != b.id
    ensures (Precedes(Scored(a), Scored(b)) <==> LexicographicallyBefore(a, b)) <==>
      !Overtakes(a, b) && !Overtakes(b, a)
  {
    hide FreeRatio;
    var difference := (a.node.weight - b.node.weight) as real;
    assert Scored(a).score - Scored(b).score
      == 1000.0 * difference + 100.0 * (FreeRatio(a.node) - FreeRatio(b.node));
  }

  /** In particular it is lexicographic on nodes whose counters are not negative: a ratio never outweighs a weight. */
  lemma {:induction false} ScoreOrderIsLexicographic(a: Listed, b: Listed)
    requires Positive(a.node) && Positive(b.node) && a.id != b.id
    requires a.node.alloc.Plus(a.node.reserved).NonNegative() && b.node.alloc.Plus(b.node.reserved).NonNegative()
    ensures Precedes(Scored(a), Scored(b)) <==> LexicographicallyBefore(a, b)
  {
    FreeRatioInUnit(a.node);
    FreeRatioInUnit(b.node);
    ScoreOrderExactlyLexicographic(a, b);
  }

  ghost predicate Offers(listing: seq<Listed>, amount: Resources, c: Candidate)
    requires Measurable(listing, amount)
  {
    exists l :: l in listing && Qualifies(l.node, amount) && c == Scored(l)
  }

  lemma {:induction false} CandidatesAre(listing: seq<Listed>, amount: Resources)
    requires Plausible(listing, amount)
    ensures forall c :: c in Candidates(listing, amount) <==> Offers(listing, amount, c)
    ensures forall i, j :: 0 <= i < j < |Candidates(listing, amount)| ==>
      Candidates(listing, amount)[i].id != Candidates(listing, amount)[j].id
  {
    if listing != [] {
      var init, last := listing[..|listing| - 1], listing[|listing| - 1];
      CandidatesAre(init, amount);
      assert listing == init + [last];
      forall c ensures Offers(listing, amount, c) <==>
        Offers(init, amount, c) || (Qualifies(last.node, amount) && c == Scored(last))
      {
      }
      forall c | c in Candidates(init, amount) ensures c.id != last.id {
        assert Offers(init, amount, c);
      }
    }
  }

  lemma {:induction false} InsertRanks(x: Candidate, s: seq<Candidate>)
    requires StrictlyRanked(s) && forall c :: c in s ==> c.id != x.id
    ensures StrictlyRanked(Insert(x, s))
    ensures forall c :: c in Insert(x, s) <==> c in s || c == x
  {
    if s != [] {
      var init, last := s[..|s| - 1], s[|s| - 1];
      assert s == init + [last];
      if Precedes(x, last) {
        InsertRanks(x, init);
        forall c | c in init ensures Precedes(c, last) {
        }
      } else {
        forall c | c in s ensures Precedes(c, x) {
          assert Precedes(last, x);
        }
      }
    }
  }

  lemma {:induction false} RankedRanks(s: seq<Candidate>)
    requires forall i, j :: 0 <= i < j < |s| ==> s[i].id != s[j].id
    ensures StrictlyRanked(Ranked(s))
    ensures forall c :: c in Ranked(s) <==> c in s
    ensures |Ranked(s)| == |s|
  {
    if s != [] {
      var init, last := s[..|s| - 1], s[|s| - 1];
      RankedRanks(init);
      assert s == init + [last];
      InsertRanks(last, Ranked(init));
    }
  }

  lemma {:induction false} HasElement(s: seq<Candidate>)
    requires s != []
    ensures exists c :: c in s
  {
    assert s[0] in s;
  }

  lemma {:induction false} LastOfRanking(s: seq<Candidate>)
    requires StrictlyRanked(s) && s != []
    ensures forall c :: c in s[..|s| - 1] <==> c in s && c != s[|s| - 1]
    ensures forall c :: c in s ==> c == s[|s| - 1] || Precedes(c, s[|s| - 1])
  {
  }

  /** A strict ranking of given candidates is unique, so it does not matter which sorting algorithm finds it. */
  lemma {:induction false} RankingIsUnique(s: seq<Candidate>, t: seq<Candidate>)
    requires StrictlyRanked(s) && StrictlyRanked(t)
    requires forall c :: c in s <==> c in t
    ensures s == t
    decreases |s|
  {
    if s == [] {
      if t != [] {
        HasElement(t);
      }
    } else {
      HasElement(s);
      LastOfRanking(s);
      LastOfRanking(t);
      var a, b := s[|s| - 1], t[|t| - 1];
      assert a in s && b in t;
      assert a == b;
      var s', t' := s[..|s| - 1], t[..|t| - 1];
      assert forall c :: c in s' ==> c in t' by {
        forall c | c in s' ensures c in t' {
          assert c in s && c in t;
        }
      }
      assert forall c :: c in t' ==> c in s' by {
        forall c | c in t' ensures c in s' {
          assert c in t && c in s;
        }
      }
      RankingIsUnique(s', t');
    }
  }

  /** The ranking does not depend on the order of the listing. */
  lemma {:induction false} ListingOrderIrrelevant(listing: seq<Listed>, listing': seq<Listed>, amount: Resources)
    requires Plausible(listing, amount) && Plausible(listing', amount)
    requires forall l :: l in listing <==> l in listing'
    ensures Ranked(Candidates(listing, amount)) == Ranked(Candidates(listing', amount))
  {
    CandidatesAre(listing, amount);
    CandidatesAre(listing', amount);
    RankedRanks(Candidates(listing, amount));
    RankedRanks(Candidates(listing', amount));
    RankingIsUnique(Ranked(Candidates(listing, amount)), Ranked(Candidates(listing', amount)));
  }

  // ---- The attempts ----

  function Asked(requirements: Requirements, node: NodeId, now: Time): Request {
    Request(node, requirements.operation, requirements.amount,
      now + if requirements.ttl <= 0 then DEFAULT_TTL else requirements.ttl)
  }

  predicate Retryable(outcome: Outcome) {
    outcome == ResourceExhausted || outcome == NodeOffline
  }

  /** The outside world of one call: the fresh reservation ids it draws, and the transactions of others that complete
      before its k-th attempt and after the one before. */
  datatype World = World(now: Time, ids: seq<ReservationId>, others: seq<seq<Transaction>>)

  predicate Covers(world: World, ranked: seq<Candidate>) {
    |world.ids| >= |ranked| && |world.others| >= |ranked|
  }

  /** The database as the k-th attempt meets it, when none of the attempts before has left anything in it. */
  ghost function Met(db: Database, world: World, k: nat): Database
    requires k < |world.others|
  {
    ApplyAll(if k == 0 then db else Met(db, world, k - 1), world.others[k])
  }

  /** What attempt k on the ranked candidates answers when none before it has left anything. */
  ghost function Verdict(
    db: Database, ranked: seq<Candidate>, requirements: Requirements, world: World, k: nat): Outcome
    requires k < |ranked| && Covers(world, ranked)
  {
    Admit(Met(db, world, k), world.ids[k], Asked(requirements, ranked[k].id, world.now))
  }

  /** What the fallback loop does from candidate k on: the database it leaves and its answer. */
  ghost function TryFrom(
    db: Database, ranked: seq<Candidate>, requirements: Requirements, world: World, k: nat): (Database, Answer)
    requires k <= |ranked| && Covers(world, ranked)
    decreases |ranked| - k
  {
    if k == |ranked| then (db, NoSchedulableNode)
    else
      var before := ApplyAll(db, world.others[k]);
      var (after, outcome) := Apply(before, Reserve(world.ids[k], Asked(requirements, ranked[k].id, world.now)));
      if outcome == Done then (after, Selected(world.ids[k], ranked[k].id))
      else if Retryable(outcome) then TryFrom(after, ranked, requirements, world, k + 1)
      else (after, Failed(outcome))
  }

  ghost function Schedule(
    db: Database, listing: seq<Listed>, requirements: Requirements, world: World): (Database, Answer)
    requires Plausible(listing, requirements.amount)
    requires Covers(world, Ranked(Candidates(listing, requirements.amount)))
  {
    TryFrom(db, Ranked(Candidates(listing, requirements.amount)), requirements, world, 0)
  }

  /** The database once others have done what they do before and between the first k attempts, and nothing else. */
  ghost function OthersAlone(db: Database, world: World, k: nat): Database
    requires k <= |world.others|
  {
    if k == 0 then db else Met(db, world, k - 1)
  }

  /** The loop stops at a candidate before which every attempt found its node full or offline. */
  lemma {:induction false} StopsAfterFailedAttempts(
    db: Database, ranked: seq<Candidate>, requirements: Requirements, world: World, start: nat) returns (stop: nat)
    requires start <= |ranked| && Covers(world, ranked)
    ensures start <= stop <= |ranked|
    ensures forall j :: start <= j < stop ==> Retryable(Verdict(db, ranked, requirements, world, j))
    ensures TryFrom(OthersAlone(db, world, start), ranked, requirements, world, start) ==
      if stop == |ranked| then (OthersAlone(db, world, stop), NoSchedulableNode)
      else
        var (met, verdict) := (Met(db, world, stop), Verdict(db, ranked, requirements, world, stop));
        if verdict == Done then
          (Admitted(met, world.ids[stop], Asked(requirements, ranked[stop].id, world.now)),
           Selected(world.ids[stop], ranked[stop].id))
        else (met, Failed(verdict))
    ensures stop < |ranked| ==> !Retryable(Verdict(db, ranked, requirements, world, stop))
    decreases |ranked| - start
  {
    hide Admit, Admitted, ApplyAll;
    if start == |ranked| || !Retryable(Verdict(db, ranked, requirements, world, start)) {
      stop := start;
    } else {
      stop := StopsAfterFailedAttempts(db, ranked, requirements, world, start + 1);
    }
  }

  /** The node returned is the best-ranked of all nodes that qualified in the listing, but for those whose attempt found
      them full or offline; its reservation is all that the call has added to what others did. */
  lemma {:induction false} SelectsBestReservable(
    db: Database, listing: seq<Listed>, requirements: Requirements, world: World) returns (chosen: Listed, k: nat)
    requires Plausible(listing, requirements.amount) && Covers(world, Ranked(Candidates(listing, requirements.amount)))
    requires Schedule(db, listing, requirements, world).1.Selected?
    ensures chosen in listing && Qualifies(chosen.node, requirements.amount)
    ensures k < |Ranked(Candidates(listing, requirements.amount))|
    ensures Schedule(db, listing, requirements, world) ==
      (Admitted(Met(db, world, k), world.ids[k], Asked(requirements, chosen.id, world.now)),
        Selected(world.ids[k], chosen.id))
    ensures Admit(Met(db, world, k), world.ids[k], Asked(requirements, chosen.id, world.now)) == Done
    ensures forall l :: l in listing && Qualifies(l.node, requirements.amount) && Precedes(Scored(l),
      Scored(chosen)) ==>
      exists j :: 0 <= j < k && Retryable(Admit(Met(db, world, j), world.ids[j], Asked(requirements, l.id, world.now)))
  {
    hide Admit, Admitted, Met, Qualifies, Ranked, Candidates;
    var candidates := Candidates(listing, requirements.amount);
    var ranked := Ranked(candidates);
    k := StopsAfterFailedAttempts(db, ranked, requirements, world, 0);
    CandidatesAre(listing, requirements.amount);
    RankedRanks(candidates);
    assert Offers(listing, requirements.amount, ranked[k]);
    chosen :| chosen in listing && Qualifies(chosen.node, requirements.amount) && ranked[k] == Scored(chosen);
    forall l | l in listing && Qualifies(l.node, requirements.amount) && Precedes(Scored(l), Scored(chosen))
      ensures exists j :: 0 <= j < k && Retryable(Admit(Met(db, world, j), world.ids[j],
        Asked(requirements, l.id, world.now)))
    {
      assert Offers(listing, requirements.amount, Scored(l));
      var j :| 0 <= j < |ranked| && ranked[j] == Scored(l);
      assert j < k;
      assert Retryable(Verdict(db, ranked, requirements, world, j));
    }
  }

  /** A call that returns an error has added nothing at all to what others did. */
  lemma {:induction false} ErrorsLeaveNothing(
    db: Database, listing: seq<Listed>, requirements: Requirements, world: World) returns (k: nat)
    requires Plausible(listing, requirements.amount) && Covers(world, Ranked(Candidates(listing, requirements.amount)))
    requires !Schedule(db, listing, requirements, world).1.Selected?
    ensures k <= |world.others| && Schedule(db, listing, requirements, world).0 == OthersAlone(db, world, k)
  {
    var ranked := Ranked(Candidates(listing, requirements.amount));
    k := StopsAfterFailedAttempts(db, ranked, requirements, world, 0);
    if k < |ranked| && Verdict(db, ranked, requirements, world, k) != Done {
      k := k + 1;
    }
  }

  /** Neither the answer nor the tables depend on the order in which the nodes are listed. */
  lemma {:induction false} AnswerIgnoresListingOrder(
    db: Database, listing: seq<Listed>, listing': seq<Listed>, requirements: Requirements, world: World)
    requires Plausible(listing, requirements.amount) && Plausible(listing', requirements.amount)
    requires forall l :: l in listing <==> l in listing'
    requires Covers(world, Ranked(Candidates(listing, requirements.amount)))
    ensures Covers(world, Ranked(Candidates(listing', requirements.amount)))
    ensures Schedule(db, listing, requirements, world) == Schedule(db, listing', requirements, world)
  {
    ListingOrderIrrelevant(listing, listing', requirements.amount);
  }

  lemma {:induction false} TryKeepsInvariant(
    db: Database, base: map<NodeId, Resources>, ranked: seq<Candidate>, requirements: Requirements, world: World,
    k: nat)
    requires k <= |ranked| && Covers(world, ranked)
    requires Invariant(db, base) && requirements.amount.NonNegative()
    requires forall j, t :: 0 <= j < |world.others| && t in world.others[j] ==> t.WellFormed()
    ensures Invariant(TryFrom(db, ranked, requirements, world, k).0, base)
    decreases |ranked| - k
  {
    if k < |ranked| {
      RunsNeverOvercommit(db, base, world.others[k]);
      var before := ApplyAll(db, world.others[k]);
      var reserve := Reserve(world.ids[k], Asked(requirements, ranked[k].id, world.now));
      ApplyKeepsInvariant(before, base, reserve);
      TryKeepsInvariant(Apply(before, reserve).0, base, ranked, requirements, world, k + 1);
    }
  }

  /** However stale the listing, scheduling keeps the counters conserved and every node within its capacity. */
  lemma {:induction false} StaleListingNeverOvercommits(
    db: Database, base: map<NodeId, Resources>, listing: seq<Listed>, requirements: Requirements, world: World)
    requires Plausible(listing, requirements.amount) && Covers(world, Ranked(Candidates(listing, requirements.amount)))
    requires Invariant(db, base) && requirements.amount.NonNegative()
    requires forall j, t :: 0 <= j < |world.others| && t in world.others[j] ==> t.WellFormed()
    ensures Invariant(Schedule(db, listing, requirements, world).0, base)
  {
    TryKeepsInvariant(db, base, Ranked(Candidates(listing, requirements.amount)), requirements, world, 0);
  }

  // ---- The scheduler ----

  lemma {:induction false} InsertStep(x: Candidate, s: seq<Candidate>, j: nat)
    requires j <= |s|
    ensures Insert(x, s[..j]) ==
      if j > 0 && Precedes(x, s[j - 1]) then Insert(x, s[..j - 1]) + [s[j - 1]] else s[..j] + [x]
  {
    if j > 0 {
      assert s[..j][..j - 1] == s[..j - 1];
    }
  }

  lemma {:induction false} RankedStep(s: seq<Candidate>, i: nat)
    requires i < |s|
    ensures Ranked(s[..i + 1]) == Insert(s[i], Ranked(s[..i]))
  {
    assert s[..i + 1][..i] == s[..i];
  }

  lemma {:induction false} FourParts(s: seq<Candidate>, j: nat, i: nat)
    requires j <= i < |s|
    ensures s == s[..j] + [s[j]] + s[j + 1..i + 1] + s[i + 1..]
  {
  }

  lemma {:induction false} ThreeParts(front: seq<Candidate>, s: seq<Candidate>, i: nat)
    requires |front| == i < |s|
    ensures var joined := front + s[i..];
      joined[..i] == front && joined[i] == s[i] && joined[i + 1..] == s[i + 1..]
  {
  }

  /** Moves element i of a forward, in place, past all that it precedes. */
  method Sink(a: array<Candidate>, i: nat)
    requires i < a.Length
    modifies a
    ensures a[..] == Insert(old(a[i]), old(a[..i])) + old(a[i + 1..])
  {
    hide Insert, Precedes;
    ghost var was, x := a[..], a[i];
    var j := i;
    while 0 < j && Precedes(a[j], a[j - 1])
      invariant 0 <= j <= i
      invariant a[..j] == was[..j] && a[j] == x && a[j + 1..i + 1] == was[j..i] && a[i + 1..] == was[i + 1..]
      invariant Insert(x, was[..i]) == Insert(x, was[..j]) + was[j..i]
    {
      InsertStep(x, was, j);
      a[j], a[j - 1] := a[j - 1], a[j];
      j := j - 1;
    }
    InsertStep(x, was, j);
    FourParts(a[..], j, i);
  }

  /** Puts candidates in order in place; the ranking being unique, any comparison sort leaves the same array. */
  method SortCandidates(a: array<Candidate>)
    modifies a
    ensures a[..] == Ranked(old(a[..]))
  {
    ghost var was := a[..];
    var i := 0;
    assert Ranked(was[..0]) == [];
    hide Insert, Ranked, Precedes;
    while i < a.Length
      invariant 0 <= i <= a.Length
      invariant |Ranked(was[..i])| == i && a[..] == Ranked(was[..i]) + was[i..]
    {
      ThreeParts(Ranked(was[..i]), was, i);
      Sink(a, i);
      RankedStep(was, i);
      i := i + 1;
    }
    assert was[..i] == was;
  }

  /** The transactions of others, run on the same tables. */
  method RunOthers(store: Store, transactions: seq<Transaction>)
    modifies store
    ensures store.Snapshot() == ApplyAll(old(store.Snapshot()), transactions)
  {
    var i := 0;
    while i < |transactions|
      invariant 0 <= i <= |transactions|
      invariant store.Snapshot() == ApplyAll(old(store.Snapshot()), transactions[..i])
    {
      assert transactions[..i + 1][..i] == transactions[..i];
      var outcome;
      match transactions[i] {
        case Reserve(id, request) => outcome := store.ReserveResources(id, request);
        case Commit(id) => outcome := store.CommitReservation(id);
        case Release(id) => outcome := store.ReleaseReservation(id);
        case SetStatus(node, status) => store.UpdateNodeStatus(node, status);
      }
      i := i + 1;
    }
    assert transactions[..i] == transactions;
  }

  method QualifyingCandidates(listing: seq<Listed>, amount: Resources) returns (candidates: seq<Candidate>)
    requires Measurable(listing, amount)
    ensures candidates == Candidates(listing, amount)
  {
    hide Qualifies, Scored;
    candidates := [];
    for n := 0 to |listing|
      invariant candidates == Candidates(listing[..n], amount)
    {
      assert listing[..n + 1][..n] == listing[..n];
      if Qualifies(listing[n].node, amount) {
        candidates := candidates + [Scored(listing[n])];
      }
    }
    assert listing[..|listing|] == listing;
  }

  method SelectAndReserve(
    store: Store, listing: seq<Listed>, requirements: Requirements, world: World) returns (answer: Answer)
    requires Plausible(listing, requirements.amount)
    requires Covers(world, Ranked(Candidates(listing, requirements.amount)))
    modifies store
    ensures (store.Snapshot(), answer) == Schedule(old(store.Snapshot()), listing, requirements, world)
  {
    assert Ranked([]) == [];
    hide Candidates, Ranked, ApplyAll, Apply;
    ghost var db := store.Snapshot();
    var candidates := QualifyingCandidates(listing, requirements.amount);
    if candidates == [] {
      return NoSchedulableNode;
    }
    var a := new Candidate[|candidates|](i requires 0 <= i < |candidates| => candidates[i]);
    assert a[..] == candidates;
    SortCandidates(a);
    answer := TryInOrder(store, a, requirements, world);
  }

  /** The fallback loop: the next candidate is tried when one turns out to be full or offline. */
  method TryInOrder(
    store: Store, ranked: array<Candidate>, requirements: Requirements, world: World) returns (answer: Answer)
    requires Covers(world, ranked[..])
    modifies store
    ensures (store.Snapshot(), answer) == TryFrom(old(store.Snapshot()), ranked[..], requirements, world, 0)
  {
    hide ApplyAll, Apply;
    ghost var db := store.Snapshot();
    for k := 0 to ranked.Length
      invariant TryFrom(store.Snapshot(), ranked[..], requirements, world, k) == TryFrom(db, ranked[..], requirements,
        world, 0)
    {
      RunOthers(store, world.others[k]);
      var outcome := store.ReserveResources(world.ids[k], Asked(requirements, ranked[k].id, world.now));
      if outcome == Done {
        return Selected(world.ids[k], ranked[k].id);
      }
      if !Retryable(outcome) {
        return Failed(outcome);
      }
    }
    return NoSchedulableNode;
  }
}
