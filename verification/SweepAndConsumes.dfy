/**
  A grant sweep beside consumes of one artifact, every storage call one atomic step. No upsert writes the artifact, yet
  it can outlive the sweep's deletion of it: exactly when a consume that had read it before writes it back after.
 */
module SweepAndConsumes {
  import opened Options
  import opened Keys
  import opened Storage
  import opened OidcSpec
  import Sweep = ConcurrentSweep
  import Race = ConsumeRace

  datatype State = State(t: Typed, now: int, consumers: seq<Race.Consumer>, sweep: Sweep.Sweep)

  datatype Action =
    | Begin
    | Advance(consumer: nat)
    | List(markers: seq<Key>)
    | Delete
    | Pass(ms: nat)
    | Expire(keys: set<Key>)

  /** What the consumes of the artifact under `k` see of the store. */
  function Seen(k: Key, s: State): Race.State {
    Race.State(if k in s.t then Some(s.t[k]) else None, s.now, s.consumers)
  }

  function PutBack(t: Typed, k: Key, e: Option<Entry>): Typed {
    if e.Some? then t[k := e.value] else t - {k}
  }

  /** Made without a break, the three calls of a consume come to the consume. */
  lemma ConsumeAlone(k: Key, s: State, i: nat)
    requires k.PayloadKey? && i < |s.consumers| && s.consumers[i].Reading?
    ensures var s1 := Next(k, s, Advance(i));
      var s3 := if s1.consumers[i].Done? then s1 else Next(k, Next(k, s1, Advance(i)), Advance(i));
      s3 == s.(t := Consumed(s.t, s.now, k.model, k.id), consumers := s.consumers[i := Race.Done])
  {
  }

  predicate Deletes(s: State, a: Action, k: Key) {
    a.Delete? && s.sweep.Deleting? && s.sweep.doomed != [] && s.sweep.doomed[0] == k
  }

  ghost predicate Enabled(grant: string, k: Key, s: State, a: Action) {
    match a
    case Begin => true
    case Advance(i) => Race.Enabled(Seen(k, s), Race.Advance(i))
    case List(markers) =>
      && s.sweep.Idle?
      && (forall m :: m in markers ==> m in s.t && m.GrantKey? && m.grant == grant)
      && (forall m :: m in s.t && m.GrantKey? && m.grant == grant && Live(s.t[m], s.now) ==> m in markers)
    case Delete => s.sweep.Deleting?
    case Pass(_) => true
    case Expire(keys) => forall q :: q in keys && q in s.t ==> !Live(s.t[q], s.now)
  }

  function Next(k: Key, s: State, a: Action): State
    requires a.Advance? ==> a.consumer < |s.consumers|
    requires a.Delete? ==> s.sweep.Deleting?
  {
    match a
    case Begin => s.(consumers := s.consumers + [Race.Reading])
    case Advance(i) =>
      var r := Race.Next(Seen(k, s), Race.Advance(i));
      s.(t := PutBack(s.t, k, r.entry), consumers := r.consumers)
    case List(markers) => s.(sweep := Sweep.Deleting(Sweep.Deletions(markers)))
    case Delete =>
      if s.sweep.doomed == [] then s.(sweep := Sweep.Finished)
      else s.(t := s.t - {s.sweep.doomed[0]}, sweep := Sweep.Deleting(s.sweep.doomed[1..]))
    case Pass(ms) => s.(now := s.now + ms)
    case Expire(keys) => s.(t := s.t - keys)
  }

  ghost predicate IsRun(grant: string, k: Key, states: seq<State>, actions: seq<Action>) {
    && |states| == |actions| + 1
    && forall i :: 0 <= i < |actions| ==>
      Enabled(grant, k, states[i], actions[i]) && states[i + 1] == Next(k, states[i], actions[i])
  }

  /** What a step is to the consumes: the artifact's deletion removes it, its expiry reaps it, the rest passes it by. */
  function RaceAction(k: Key, s: State, a: Action): Race.Action {
    match a
    case Begin => Race.Begin
    case Advance(i) => Race.Advance(i)
    case List(_) => Race.Pass(0)
    case Delete => if Deletes(s, a, k) then Race.Remove else Race.Pass(0)
    case Pass(ms) => Race.Pass(ms)
    case Expire(keys) => if k in keys && k in s.t then Race.Reap else Race.Pass(0)
  }

  lemma SeenStep(grant: string, k: Key, s: State, a: Action)
    requires Enabled(grant, k, s, a)
    ensures Race.Enabled(Seen(k, s), RaceAction(k, s, a))
    ensures Seen(k, Next(k, s, a)) == Race.Next(Seen(k, s), RaceAction(k, s, a))
  {
    if a.Advance? {
      AdvanceNow(Seen(k, s), a.consumer);
    }
  }

  lemma AdvanceNow(s: Race.State, i: nat)
    requires Race.Enabled(s, Race.Advance(i))
    ensures Race.Next(s, Race.Advance(i)).now == s.now
  {
  }

  function SeenRun(k: Key, states: seq<State>): seq<Race.State> {
    seq(|states|, i requires 0 <= i < |states| => Seen(k, states[i]))
  }

  function RaceActions(k: Key, states: seq<State>, actions: seq<Action>): seq<Race.Action>
    requires |actions| <= |states|
  {
    seq(|actions|, i requires 0 <= i < |actions| => RaceAction(k, states[i], actions[i]))
  }

  /** To the consumes, every run is one of theirs. */
  lemma SeenRuns(grant: string, k: Key, states: seq<State>, actions: seq<Action>)
    requires IsRun(grant, k, states, actions)
    ensures Race.IsRun(SeenRun(k, states), RaceActions(k, states, actions))
  {
    hide Next, Enabled, Seen, RaceAction, Race.Next;
    forall i | 0 <= i < |actions|
      ensures Race.Enabled(Seen(k, states[i]), RaceAction(k, states[i], actions[i]))
      ensures Seen(k, states[i + 1]) == Race.Next(Seen(k, states[i]), RaceAction(k, states[i], actions[i]))
    {
      SeenStep(grant, k, states[i], actions[i]);
    }
  }

  predicate Lives(s: State, k: Key) {
    k in s.t && Live(s.t[k], s.now)
  }

  /** A consume that had read the artifact when it was deleted writes it back afterwards. */
  ghost predicate Overtaken(k: Key, states: seq<State>, actions: seq<Action>, deleted: nat)
    requires deleted < |actions| < |states|
  {
    exists j ::
      && deleted < j < |actions| && actions[j].Advance?
      && Race.IsWrite(Seen(k, states[j]), Race.Advance(actions[j].consumer))
      && Race.InHand(Seen(k, states[deleted]), actions[j].consumer)
  }

  /**
    The sweep's deletion does not last, exactly: the artifact lives again at some later time if and only if it is
    overtaken.
   */
  lemma SurvivesExactly(grant: string, k: Key, states: seq<State>, actions: seq<Action>, deleted: nat)
    requires IsRun(grant, k, states, actions) && deleted < |actions| && Deletes(states[deleted], actions[deleted], k)
    ensures (exists n :: deleted < n <= |actions| && Lives(states[n], k)) <==> Overtaken(k, states, actions, deleted)
  {
    var seen, doing := SeenRun(k, states), RaceActions(k, states, actions);
    SeenRuns(grant, k, states, actions);
    assert doing[deleted] == Race.Remove;
    Race.RemovedComesBack(seen, doing, deleted);
    hide Race.IsRun;
    if n :| deleted < n <= |actions| && Lives(states[n], k) {
      assert seen[n].entry.Some?;
      var j :| deleted < j < |doing| && Race.IsWrite(seen[j], doing[j]) &&
        Race.InHand(seen[deleted], doing[j].consumer);
      assert actions[j].Advance? && doing[j] == Race.Advance(actions[j].consumer);
    }
    if Overtaken(k, states, actions, deleted) {
      var j :| deleted < j < |actions| && actions[j].Advance?
        && Race.IsWrite(Seen(k, states[j]), Race.Advance(actions[j].consumer));
      assert states[j + 1] == Next(k, states[j], actions[j]);
      WriteLives(k, states[j], actions[j].consumer);
    }
  }

  /** What a consume writes is live when it is written. */
  lemma WriteLives(k: Key, s: State, i: nat)
    requires Race.IsWrite(Seen(k, s), Race.Advance(i))
    ensures Lives(Next(k, s, Advance(i)), k)
  {
  }

  /** Doomed until deleted: a listed marker's payload is deleted at some step of a sweep that finishes. */
  lemma {:induction false} DeletedOnce(grant: string, k: Key, states: seq<State>, actions: seq<Action>)
    returns (deleted: nat)
    requires IsRun(grant, k, states, actions) && states[0].sweep.Deleting? && k in states[0].sweep.doomed
    requires states[|actions|].sweep.Finished?
    ensures deleted < |actions| && Deletes(states[deleted], actions[deleted], k)
    decreases |actions|
  {
    assert Enabled(grant, k, states[0], actions[0]) && states[1] == Next(k, states[0], actions[0]);
    if Deletes(states[0], actions[0], k) {
      deleted := 0;
    } else {
      StillDoomed(k, states[0], actions[0]);
      var later := DeletedOnce(grant, k, states[1..], actions[1..]);
      deleted := later + 1;
    }
  }

  lemma StillDoomed(k: Key, s: State, a: Action)
    requires a.Advance? ==> a.consumer < |s.consumers|
    requires s.sweep.Deleting? && k in s.sweep.doomed && !Deletes(s, a, k) && !a.List?
    ensures Next(k, s, a).sweep.Deleting? && k in Next(k, s, a).sweep.doomed
  {
    if a.Delete? {
      assert s.sweep.doomed == [s.sweep.doomed[0]] + s.sweep.doomed[1..];
    }
  }

  /** A sweep that lists the artifact's marker deletes its payload, and the deletion lasts unless it is overtaken. */
  lemma SweptUnlessOvertaken(grant: string, model: string, id: string, states: seq<State>, actions: seq<Action>)
    returns (deleted: nat)
    requires var k := PayloadKey(model, id);
      && IsRun(grant, k, states, actions) && actions != [] && actions[0].List?
      && GrantKey(grant, model, id) in actions[0].markers
      && states[|actions|].sweep.Finished?
    ensures var k := PayloadKey(model, id);
      && deleted < |actions| && Deletes(states[deleted], actions[deleted], k)
      && ((exists n :: deleted < n <= |actions| && Lives(states[n], k)) <==> Overtaken(k, states, actions, deleted))
  {
    var k := PayloadKey(model, id);
    assert states[1] == Next(k, states[0], actions[0]);
    Sweep.DeletionsNames(actions[0].markers);
    var later := DeletedOnce(grant, k, states[1..], actions[1..]);
    deleted := later + 1;
    SurvivesExactly(grant, k, states, actions, deleted);
  }
}
