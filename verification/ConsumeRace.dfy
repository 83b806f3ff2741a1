/**
  Several consumes of one artifact at once, each a read, a time-to-live query and a write, their
  steps interleaved in any order while the clock moves. Others may remove the artifact, but not write it.
 */
module ConsumeRace {
  import opened Options
  import opened Storage

  /**
    A consume in progress. After its time-to-live query it remembers the answer, and when and of what expiry it was.
   */
  datatype Consumer =
    | Reading
    | Querying(payload: Payload)
    | Writing(payload: Payload, remaining: int, at: int, seen: Option<Entry>)
    | Done

  datatype State = State(entry: Option<Entry>, now: int, consumers: seq<Consumer>)

  datatype Action = Begin | Advance(consumer: nat) | Pass(ms: nat) | Reap | Remove

  ghost predicate Enabled(s: State, a: Action) {
    match a
    case Advance(i) => i < |s.consumers| && !s.consumers[i].Done?
    case Reap => s.entry.Some? && !Live(s.entry.value, s.now)
    case _ => true
  }

  /** What a consume writes back. */
  function Rewritten(p: Payload, remaining: int, now: int): Entry {
    Entry(Json(p.(consumed := Some(now / 1000))), if remaining > 0 then Some(now + remaining * 1000) else None)
  }

  function Next(s: State, a: Action): State
    requires a.Advance? ==> a.consumer < |s.consumers|
  {
    match a
    case Begin => s.(consumers := s.consumers + [Reading])
    case Pass(ms) => s.(now := s.now + ms)
    case Reap => s.(entry := None)
    case Remove => s.(entry := None)
    case Advance(i) =>
      match s.consumers[i]
      case Reading =>
        if s.entry.Some? && !Live(s.entry.value, s.now) then s.(entry := None, consumers := s.consumers[i := Done])
        else if s.entry.Some? && s.entry.value.value.Json?
        then s.(consumers := s.consumers[i := Querying(s.entry.value.value.payload)])
        else s.(consumers := s.consumers[i := Done])
      case Querying(p) =>
        var remaining := if s.entry.Some? then Remaining(s.entry.value, s.now) else -2;
        s.(consumers := s.consumers[i := Writing(p, remaining, s.now, s.entry)])
      case Writing(p, remaining, at, seen) =>
        s.(entry := Some(Rewritten(p, remaining, s.now)), consumers := s.consumers[i := Done])
      case Done => s
  }

  ghost predicate IsRun(states: seq<State>, actions: seq<Action>) {
    && |states| == |actions| + 1
    && forall i :: 0 <= i < |actions| ==> Enabled(states[i], actions[i]) && states[i + 1] == Next(states[i], actions[i])
  }

  /** The same artifact up to its consumed mark, which is kept if it was there. */
  predicate Same(p: Payload, original: Payload) {
    && p.(consumed := None) == original.(consumed := None)
    && (original.consumed.Some? ==> p.consumed.Some?)
  }

  /** The stored payload and every copy a consume holds are the original, and stay consumed once `spent`. */
  ghost predicate Faithful(s: State, original: Payload, spent: bool) {
    && (s.entry.Some? ==> s.entry.value.value.Json? && Same(s.entry.value.value.payload, original))
    && (spent && s.entry.Some? ==> s.entry.value.value.payload.consumed.Some?)
    && forall c :: c in s.consumers && (c.Querying? || c.Writing?) ==> Same(c.payload, original)
  }

  ghost predicate Fresh(s: State, original: Payload) {
    s.entry.Some? && s.entry.value.value == Json(original) && s.consumers == []
  }

  lemma FaithfulStep(s: State, a: Action, original: Payload, spent: bool)
    requires Enabled(s, a) && Faithful(s, original, spent)
    ensures Faithful(Next(s, a), original, spent)
    ensures a.Advance? && s.consumers[a.consumer].Writing? ==> Faithful(Next(s, a), original, true)
  {
  }

  /** Some consume finished its write during the run. */
  ghost predicate Wrote(states: seq<State>, actions: seq<Action>)
    requires |states| == |actions| + 1
  {
    exists i :: 0 <= i < |actions| && actions[i].Advance? && actions[i].consumer < |states[i].consumers|
      && states[i].consumers[actions[i].consumer].Writing?
  }

  /**
    However consumes interleave, expire or revive the artifact, it never becomes un-consumed and
    never changes in any other field.
   */
  lemma {:induction false} ConsumedForever(states: seq<State>, actions: seq<Action>, original: Payload)
    requires IsRun(states, actions) && Fresh(states[0], original)
    ensures Faithful(states[|actions|], original, Wrote(states, actions))
  {
    if actions == [] {
    } else {
      var n := |actions| - 1;
      ConsumedForever(states[..n + 1], actions[..n], original);
      assert Enabled(states[n], actions[n]) && states[n + 1] == Next(states[n], actions[n]);
      FaithfulStep(states[n], actions[n], original, Wrote(states[..n + 1], actions[..n]));
      hide Faithful, Next;
      if Wrote(states, actions) && !(actions[n].Advance? && states[n].consumers[actions[n].consumer].Writing?) {
        var i :| 0 <= i < |actions| && actions[i].Advance? && actions[i].consumer < |states[i].consumers|
          && states[i].consumers[actions[i].consumer].Writing?;
        assert i < n && actions[..n][i].Advance? && states[..n + 1][i].consumers[actions[..n][i].consumer].Writing?;
      }
    }
  }

  /** The query finds the artifact there, and permanent or with a whole second left. */
  ghost predicate Prompt(s: State, a: Action) {
    a.Advance? && a.consumer < |s.consumers| && s.consumers[a.consumer].Querying? ==>
      s.entry.Some? && (s.entry.value.expiresAt.Some? ==> s.entry.value.expiresAt.value - s.now >= 1000)
  }

  /** The artifact never has more life left than it had at the start, nor does any write in progress promise more. */
  ghost predicate Bounded(s: State, start: int, deadline: Option<int>) {
    && s.now >= start
    && (s.entry.Some? ==>
          var e := s.entry.value.expiresAt;
          e.Some? == deadline.Some? && (e.Some? ==> e.value - s.now <= deadline.value - start))
    && forall c :: c in s.consumers && c.Writing? ==>
          && c.at <= s.now
          && (deadline.Some? ==> c.remaining > 0 && c.remaining * 1000 <= deadline.value - start)
          && (deadline.None? ==> c.remaining == -1)
          && c.seen.Some? && c.remaining == Remaining(c.seen.value, c.at)
          && c.seen.value.expiresAt.Some? == deadline.Some?
  }

  lemma BoundedStep(s: State, a: Action, start: int, deadline: Option<int>)
    requires Enabled(s, a) && Bounded(s, start, deadline) && Prompt(s, a)
    ensures Bounded(Next(s, a), start, deadline)
  {
  }

  /** With every query prompt, interleaved consumes never lengthen the life the artifact has left. */
  lemma {:induction false} LifetimeBounded(states: seq<State>, actions: seq<Action>, original: Payload)
    requires IsRun(states, actions) && Fresh(states[0], original)
    requires forall i :: 0 <= i < |actions| ==> Prompt(states[i], actions[i])
    ensures Bounded(states[|actions|], states[0].now, states[0].entry.value.expiresAt)
  {
    if actions != [] {
      var n := |actions| - 1;
      LifetimeBounded(states[..n + 1], actions[..n], original);
      BoundedStep(states[n], actions[n], states[0].now, states[0].entry.value.expiresAt);
    }
  }

  /**
    What a write does to the expiry it replaces, exactly: it moves it later by no more than the time since its query
    if and only if the stored expiry was then still as far off as the whole seconds the query answered.
   */
  lemma WriteDelay(s: State, i: nat)
    requires i < |s.consumers| && s.consumers[i].Writing? && s.consumers[i].remaining > 0
    requires s.entry.Some? && s.entry.value.expiresAt.Some?
    ensures var c, stored, next :=
      s.consumers[i], s.entry.value.expiresAt.value, Next(s, Advance(i)).entry.value.expiresAt;
      && next.Some?
      && (next.value - stored <= s.now - c.at <==> stored - c.at >= c.remaining * 1000)
  {
  }

  /** The consumer's write, and what it saw: the entry is still that one, or gone. */
  ghost predicate Undisturbed(s: State, i: nat, e: Entry, at: int) {
    && i < |s.consumers| && s.consumers[i].Writing?
    && s.consumers[i].at == at <= s.now && s.consumers[i].remaining == Remaining(e, at)
    && (s.entry.Some? ==> s.entry.value == e)
  }

  predicate IsWrite(s: State, a: Action) {
    a.Advance? && a.consumer < |s.consumers| && s.consumers[a.consumer].Writing?
  }

  lemma UndisturbedStep(s: State, a: Action, i: nat, e: Entry, at: int)
    requires Enabled(s, a) && Undisturbed(s, i, e, at) && !IsWrite(s, a)
    ensures Undisturbed(Next(s, a), i, e, at)
  {
  }

  lemma {:induction false} UndisturbedUntil(states: seq<State>, actions: seq<Action>, i: nat, from: nat, until: nat)
    requires IsRun(states, actions) && from < until < |actions| && actions[from] == Advance(i)
    requires states[from].consumers[i].Querying? && states[from].entry.Some?
    requires forall j :: from < j < until ==> !IsWrite(states[j], actions[j])
    ensures Undisturbed(states[until], i, states[from].entry.value, states[from].now)
    decreases until
  {
    if until == from + 1 {
      assert Enabled(states[from], actions[from]) && states[from + 1] == Next(states[from], actions[from]);
    } else {
      hide Next, Undisturbed;
      UndisturbedUntil(states, actions, i, from, until - 1);
      assert Enabled(states[until - 1], actions[until - 1]);
      UndisturbedStep(states[until - 1], actions[until - 1], i, states[from].entry.value, states[from].now);
    }
  }

  /**
    The bound on the stored expiry over runs: when no other consume writes between a consume's prompt query and its
    write, the write finds the entry its query saw, or none, and moves its expiry later by at most the time between.
   */
  lemma StoredBound(states: seq<State>, actions: seq<Action>, i: nat, from: nat, until: nat)
    requires IsRun(states, actions) && from < until < |actions| && actions[from] == Advance(i) &&
      actions[until] == Advance(i)
    requires states[from].consumers[i].Querying? && Prompt(states[from], actions[from])
    requires forall j :: from < j < until ==> !IsWrite(states[j], actions[j])
    ensures states[until].entry.None? || states[until].entry == states[from].entry
    ensures states[from].entry.Some? && states[until + 1].entry.Some?
    ensures var seen, next := states[from].entry.value.expiresAt, states[until + 1].entry.value.expiresAt;
      && next.Some? == seen.Some?
      && (seen.Some? ==> next.value <= seen.value + (states[until].now - states[from].now))
  {
    assert Enabled(states[from], actions[from]);
    UndisturbedUntil(states, actions, i, from, until);
    assert states[until + 1] == Next(states[until], actions[until]);
  }

  ghost function Deadline(s: State): int {
    if s.entry.Some? && s.entry.value.expiresAt.Some? then s.entry.value.expiresAt.value else s.now
  }

  /** A run goes on with any enabled, prompt action. */
  lemma Extend(states: seq<State>, actions: seq<Action>, a: Action) returns (states': seq<State>, actions': seq<Action>)
    requires IsRun(states, actions) && Enabled(states[|actions|], a) && Prompt(states[|actions|], a)
    requires forall i :: 0 <= i < |actions| ==> Prompt(states[i], actions[i])
    ensures IsRun(states', actions') && states' == states + [Next(states[|actions|], a)] && actions' == actions + [a]
    ensures forall i :: 0 <= i < |actions'| ==> Prompt(states'[i], actions'[i])
  {
    states', actions' := states + [Next(states[|actions|], a)], actions + [a];
    hide Next, Enabled, Prompt;
  }

  /**
    The bound is on the expiry the query saw, not on the one being replaced: rounding down to whole
    seconds lets another consume shorten the expiry in between, and this one then puts it back.
   */
  lemma WriteOvertakes(p: Payload, now: int) returns (states: seq<State>, actions: seq<Action>)
    ensures IsRun(states, actions) && Fresh(states[0], p)
    ensures forall i :: 0 <= i < |actions| ==> Prompt(states[i], actions[i])
    ensures var n := |actions|;
      && n > 0 && actions[n - 1] == Advance(0)
      && |states[n - 1].consumers| > 0 && states[n - 1].consumers[0].Writing?
      && states[n - 1].now - states[n - 1].consumers[0].at == 1
      && Deadline(states[n]) - Deadline(states[n - 1]) == 1000
  {
    var e := Entry(Json(p), Some(now + 2000));
    states, actions := [State(Some(e), now, [])], [];
    hide IsRun;
    assert IsRun(states, actions) by { IsRunNone(states); }
    states, actions := Extend(states, actions, Begin);
    states, actions := Extend(states, actions, Begin);
    assert states[|actions|] == State(Some(e), now, [Reading, Reading]);
    states, actions := Extend(states, actions, Advance(0));
    states, actions := Extend(states, actions, Advance(1));
    states, actions := Extend(states, actions, Advance(0));
    assert states[|actions|] == State(Some(e), now, [Writing(p, 2, now, Some(e)), Querying(p)]);
    states, actions := Extend(states, actions, Pass(1));
    states, actions := Extend(states, actions, Advance(1));
    states, actions := Extend(states, actions, Advance(1));
    assert states[|actions|] == State(Some(Rewritten(p, 1, now + 1)), now + 1, [Writing(p, 2, now, Some(e)), Done]);
    states, actions := Extend(states, actions, Advance(0));
  }

  lemma IsRunNone(states: seq<State>)
    requires |states| == 1
    ensures IsRun(states, [])
  {
  }

  /** The consume has read the artifact and not yet written it. */
  predicate InHand(s: State, c: nat) {
    c < |s.consumers| && (s.consumers[c].Querying? || s.consumers[c].Writing?)
  }

  /** Gone, and in nobody's hand who had not read it before. */
  ghost predicate GoneSince(s: State, removal: State) {
    s.entry.None? && forall c :: InHand(s, c) ==> InHand(removal, c)
  }

  lemma GoneStep(s: State, a: Action, removal: State)
    requires Enabled(s, a) && GoneSince(s, removal)
    ensures IsWrite(s, a) ==> InHand(removal, a.consumer)
    ensures !IsWrite(s, a) ==> GoneSince(Next(s, a), removal)
  {
    if IsWrite(s, a) {
      assert InHand(s, a.consumer);
    } else {
      forall c | InHand(Next(s, a), c) ensures InHand(removal, c) {
        assert InHand(s, c);
      }
    }
  }

  /** A consume that had read the artifact when it was removed writes it back afterwards, by step `n`. */
  ghost predicate WrittenBack(states: seq<State>, actions: seq<Action>, removed: nat, n: nat)
    requires removed < n <= |actions| < |states|
  {
    exists j :: removed < j < n && IsWrite(states[j], actions[j]) && InHand(states[removed], actions[j].consumer)
  }

  lemma {:induction false} GoneUntilWritten(states: seq<State>, actions: seq<Action>, removed: nat, n: nat)
    requires IsRun(states, actions) && removed < n <= |actions| && actions[removed] == Remove
    ensures WrittenBack(states, actions, removed, n) || GoneSince(states[n], states[removed])
    decreases n
  {
    if n == removed + 1 {
      assert states[n] == Next(states[removed], actions[removed]);
    } else {
      hide Next, GoneSince;
      GoneUntilWritten(states, actions, removed, n - 1);
      if !WrittenBack(states, actions, removed, n - 1) {
        assert Enabled(states[n - 1], actions[n - 1]) && states[n] == Next(states[n - 1], actions[n - 1]);
        GoneStep(states[n - 1], actions[n - 1], states[removed]);
      }
    }
  }

  /**
    What interleaves unsafely, exactly: after a removal the artifact comes back at some time if and only if some
    consume had read it before the removal and writes after it.
   */
  lemma RemovedComesBack(states: seq<State>, actions: seq<Action>, removed: nat)
    requires IsRun(states, actions) && removed < |actions| && actions[removed] == Remove
    ensures (exists n :: removed < n <= |actions| && states[n].entry.Some?) <==>
      WrittenBack(states, actions, removed, |actions|)
  {
    if n :| removed < n <= |actions| && states[n].entry.Some? {
      GoneUntilWritten(states, actions, removed, n);
    }
    if WrittenBack(states, actions, removed, |actions|) {
      var j :| removed < j < |actions| && IsWrite(states[j], actions[j]) &&
        InHand(states[removed], actions[j].consumer);
      assert Enabled(states[j], actions[j]) && states[j + 1] == Next(states[j], actions[j]);
      assert states[j + 1].entry.Some?;
    }
  }
}
