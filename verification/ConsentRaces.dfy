/**
  Consents whose read of the grant and save of it lie apart, with anything in between: when a grant comes back after its
  removal, and when it loses scopes, exactly.
 */
module ConsentRaces {
  import opened Options
  import opened ConsentSpec
  import opened ConsentRuns

  /** The provider, and the consents begun: under way until they save. */
  datatype State = State(provider: Provider, drafts: seq<Option<Draft>>)

  datatype Action =
    | Start(uid: string, decision: Decision, gate: Gate)
    | Save(draft: nat, newId: string)
    | Other(event: Event)

  predicate CanDo(s: State, a: Action) {
    match a
    case Start(_, _, _) => true
    case Save(i, newId) => i < |s.drafts| && s.drafts[i].Some? && newId !in s.provider.issued
    case Other(e) => !e.ConsentStep?
  }

  function Next(s: State, a: Action): State
    requires CanDo(s, a)
  {
    match a
    case Start(uid, d, gate) =>
      (match Begin(s.provider, uid, d, gate)
       case Answered(reply) => State(reply.provider, s.drafts + [None])
       case Underway(draft) => s.(drafts := s.drafts + [Some(draft)]))
    case Save(i, newId) => State(Finish(s.provider, s.drafts[i].value, newId).provider, s.drafts[i := None])
    case Other(e) => s.(provider := Do(s.provider, e).provider)
  }

  ghost predicate IsRun(states: seq<State>, actions: seq<Action>) {
    && |states| == |actions| + 1 && Inv(states[0].provider) && states[0].drafts == []
    && forall i :: 0 <= i < |actions| ==> CanDo(states[i], actions[i]) && states[i + 1] == Next(states[i], actions[i])
  }

  predicate Has(s: State, id: string) {
    id in s.provider.grants
  }

  /** The step saves a consent that had read the grant `id`. */
  predicate Saves(s: State, a: Action, id: string) {
    a.Save? && a.draft < |s.drafts| && s.drafts[a.draft].Some? && s.drafts[a.draft].value.grantId == Some(id)
  }

  function Saved(s: State, a: Action): Grant
    requires a.Save? && a.draft < |s.drafts| && s.drafts[a.draft].Some?
  {
    s.drafts[a.draft].value.grant
  }

  /** Every draft of an existing grant names one that was given out. */
  ghost predicate Good(s: State) {
    && Inv(s.provider)
    && forall i :: 0 <= i < |s.drafts| && s.drafts[i].Some? && s.drafts[i].value.grantId.Some? ==>
      s.drafts[i].value.grantId.value in s.provider.issued
  }

  /**
    One grant over one step: a save stores what its consent had in hand, and nothing else changes or revives a grant.
   */
  lemma GrantOver(s: State, a: Action, id: string)
    requires Good(s) && CanDo(s, a) && id in s.provider.issued
    ensures Good(Next(s, a)) && id in Next(s, a).provider.issued
    ensures Saves(s, a, id) ==> Has(Next(s, a), id) && Next(s, a).provider.grants[id] == Saved(s, a)
    ensures !Saves(s, a, id) ==>
      (Has(Next(s, a), id) ==> Has(s, id) && Next(s, a).provider.grants[id] == s.provider.grants[id])
  {
    hide Approved;
    if a.Other? {
      GrantStep(s.provider, a.event, id);
    }
  }

  lemma GoodStep(s: State, a: Action)
    requires Good(s) && CanDo(s, a)
    ensures Good(Next(s, a)) && s.provider.issued <= Next(s, a).provider.issued
  {
    hide Approved;
    if a.Other? {
      GrantStep(s.provider, a.event, "");
    }
  }

  lemma {:induction false} GoodRun(states: seq<State>, actions: seq<Action>, n: nat)
    requires IsRun(states, actions) && n <= |actions|
    ensures Good(states[n])
  {
    if n > 0 {
      GoodRun(states, actions, n - 1);
      hide Next, Good;
      GoodStep(states[n - 1], actions[n - 1]);
    }
  }

  lemma {:induction false} IssuedRun(states: seq<State>, actions: seq<Action>, m: nat, n: nat, id: string)
    requires IsRun(states, actions) && m <= n <= |actions| && id in states[m].provider.issued
    ensures id in states[n].provider.issued
  {
    if m < n {
      IssuedRun(states, actions, m, n - 1, id);
      GoodRun(states, actions, n - 1);
      hide Next, Good;
      GoodStep(states[n - 1], actions[n - 1]);
    }
  }

  /** No consent that had read the grant saves from `m` up to `n`. */
  ghost predicate Unsaved(states: seq<State>, actions: seq<Action>, m: nat, n: nat, id: string)
    requires m <= n <= |actions| < |states|
  {
    forall j :: m <= j < n ==> !Saves(states[j], actions[j], id)
  }

  /** While nobody saves it, a grant stays as it is or goes, and does not come back. */
  lemma {:induction false} UntilSaved(states: seq<State>, actions: seq<Action>, m: nat, n: nat, id: string)
    requires IsRun(states, actions) && m <= n <= |actions| && Unsaved(states, actions, m, n, id)
    requires id in states[m].provider.issued
    ensures Has(states[n], id) ==> Has(states[m], id) && states[n].provider.grants[id] == states[m].provider.grants[id]
  {
    if m < n {
      UntilSaved(states, actions, m, n - 1, id);
      IssuedRun(states, actions, m, n - 1, id);
      GoodRun(states, actions, n - 1);
      hide Next, Good, Saves;
      GrantOver(states[n - 1], actions[n - 1], id);
    }
  }

  /** The last save of the grant before `n`, if there is one from `m` on. */
  lemma LastSave(states: seq<State>, actions: seq<Action>, m: nat, n: nat, id: string) returns (j: nat)
    requires IsRun(states, actions) && m <= n <= |actions| && !Unsaved(states, actions, m, n, id)
    ensures m <= j < n && Saves(states[j], actions[j], id) && Unsaved(states, actions, j + 1, n, id)
  {
    hide Saves, Next;
    if Saves(states[n - 1], actions[n - 1], id) {
      j := n - 1;
    } else {
      j := LastSave(states, actions, m, n - 1, id);
    }
  }

  /** The step takes the grant away. */
  predicate Removes(states: seq<State>, j: nat, id: string)
    requires j + 1 < |states|
  {
    Has(states[j], id) && !Has(states[j + 1], id)
  }

  /** It was removed, and no consent has saved it since. */
  ghost predicate RemovedLast(states: seq<State>, actions: seq<Action>, m: nat, n: nat, id: string)
    requires m <= n <= |actions| < |states|
  {
    exists j :: m <= j < n && Removes(states, j, id) && Unsaved(states, actions, j + 1, n, id)
  }

  lemma {:induction false} GoneIsRemoved(states: seq<State>, actions: seq<Action>, m: nat, n: nat, id: string)
    requires IsRun(states, actions) && m <= n <= |actions| && Has(states[m], id) && !Has(states[n], id)
    ensures RemovedLast(states, actions, m, n, id)
    decreases n
  {
    hide Next, Saves;
    GoodRun(states, actions, m);
    IssuedRun(states, actions, m, n - 1, id);
    GoodRun(states, actions, n - 1);
    GrantOver(states[n - 1], actions[n - 1], id);
    if Has(states[n - 1], id) {
      assert Removes(states, n - 1, id) && Unsaved(states, actions, n, n, id);
    } else {
      GoneIsRemoved(states, actions, m, n - 1, id);
      var j :| m <= j < n - 1 && Removes(states, j, id) && Unsaved(states, actions, j + 1, n - 1, id);
      assert Unsaved(states, actions, j + 1, n, id);
    }
  }

  /** A grant that was live is gone exactly when it has been removed and no consent has saved it since. */
  lemma GoneExactly(states: seq<State>, actions: seq<Action>, m: nat, n: nat, id: string)
    requires IsRun(states, actions) && m <= n <= |actions| && Has(states[m], id)
    ensures !Has(states[n], id) <==> RemovedLast(states, actions, m, n, id)
  {
    hide Next, Saves;
    if !Has(states[n], id) {
      GoneIsRemoved(states, actions, m, n, id);
    }
    if RemovedLast(states, actions, m, n, id) {
      var j :| m <= j < n && Removes(states, j, id) && Unsaved(states, actions, j + 1, n, id);
      GoodRun(states, actions, m);
      IssuedRun(states, actions, m, j + 1, id);
      UntilSaved(states, actions, j + 1, n, id);
    }
  }

  /**
    When a grant comes back, exactly: the save at step `n` of a consent that read it at step `m` revives it if and only
    if it was removed in between and no other consent has saved it since.
   */
  lemma ComesBackExactly(states: seq<State>, actions: seq<Action>, m: nat, n: nat, id: string)
    requires IsRun(states, actions) && m < n < |actions| && Has(states[m], id) && Saves(states[n], actions[n], id)
    ensures !Has(states[n], id) && Has(states[n + 1], id) <==> RemovedLast(states, actions, m, n, id)
  {
    GoneExactly(states, actions, m, n, id);
    GoodRun(states, actions, m);
    IssuedRun(states, actions, m, n, id);
    GoodRun(states, actions, n);
    hide Next, Good;
    GrantOver(states[n], actions[n], id);
  }

  /** The step begins a consent that reads the grant and becomes draft `i`. */
  predicate Reads(s: State, a: Action, i: nat, id: string) {
    && a.Start? && i == |s.drafts|
    && Begin(s.provider, a.uid, a.decision, a.gate).Underway?
    && Begin(s.provider, a.uid, a.decision, a.gate).draft.grantId == Some(id)
  }

  lemma ReadGrows(s: State, a: Action, i: nat, id: string)
    requires CanDo(s, a) && Reads(s, a, i, id)
    ensures Has(s, id) && i < |Next(s, a).drafts| && Next(s, a).drafts[i].Some?
    ensures Next(s, a).drafts[i].value.grantId == Some(id)
    ensures Grows(s.provider.grants[id], Next(s, a).drafts[i].value.grant) && Next(s, a).provider == s.provider
  {
    hide Approved;
    ApprovedGrows(s.provider.grants[id], s.provider.interactions[a.uid], a.decision);
  }

  lemma {:induction false} DraftKept(states: seq<State>, actions: seq<Action>, m: nat, n: nat, i: nat)
    requires IsRun(states, actions) && m <= n <= |actions| && i < |states[m].drafts|
    ensures i < |states[n].drafts| && (states[n].drafts[i].Some? ==> states[n].drafts[i] == states[m].drafts[i])
  {
    if m < n {
      DraftKept(states, actions, m, n - 1, i);
      hide Begin, Finish, Do;
      assert CanDo(states[n - 1], actions[n - 1]);
    }
  }

  /** Another consent saved the grant last before step `n`, with a scope that is not in `g`. */
  ghost predicate Outdated(states: seq<State>, actions: seq<Action>, m: nat, n: nat, id: string, g: Grant)
    requires m <= n <= |actions| < |states|
  {
    exists j :: m <= j < n && Saves(states[j], actions[j], id) && Unsaved(states, actions, j + 1, n, id)
      && !(Saved(states[j], actions[j]).scopes <= g.scopes)
  }

  /**
    When a grant loses scopes, exactly: a consent that read it at step `m` and saves it, still live, at step `n` drops a
    scope the stored grant has by then if and only if the last consent to save it in between had put there one that
    this consent does not have.
   */
  lemma LosesExactly(states: seq<State>, actions: seq<Action>, m: nat, n: nat, i: nat, id: string)
    requires IsRun(states, actions) && m < n < |actions| && Reads(states[m], actions[m], i, id)
    requires actions[n].Save? && actions[n].draft == i && Has(states[n], id)
    ensures Saves(states[n], actions[n], id) && Has(states[n + 1], id)
    ensures !(states[n].provider.grants[id].scopes <= states[n + 1].provider.grants[id].scopes)
      <==> Outdated(states, actions, m + 1, n, id, Saved(states[n], actions[n]))
  {
    assert CanDo(states[m], actions[m]) && states[m + 1] == Next(states[m], actions[m]);
    assert CanDo(states[n], actions[n]) && states[n + 1] == Next(states[n], actions[n]);
    ReadGrows(states[m], actions[m], i, id);
    DraftKept(states, actions, m + 1, n, i);
    GoodRun(states, actions, m + 1);
    GoodRun(states, actions, n);
    assert id in states[m + 1].provider.issued;
    IssuedRun(states, actions, m + 1, n, id);
    hide Next, Good, Begin, Reads;
    GrantOver(states[n], actions[n], id);
    var mine := Saved(states[n], actions[n]);
    assert states[m + 1].provider.grants[id].scopes <= mine.scopes;
    if Unsaved(states, actions, m + 1, n, id) {
      UntilSaved(states, actions, m + 1, n, id);
    } else {
      var j := LastSave(states, actions, m + 1, n, id);
      IssuedRun(states, actions, m + 1, j, id);
      StoredByLast(states, actions, j, n, id);
      OnlyLast(states, actions, m + 1, n, j, id, mine);
    }
  }

  /** A live grant is what the last consent to save it had in hand. */
  lemma StoredByLast(states: seq<State>, actions: seq<Action>, j: nat, n: nat, id: string)
    requires IsRun(states, actions) && j < n <= |actions| && id in states[j].provider.issued
    requires Saves(states[j], actions[j], id) && Unsaved(states, actions, j + 1, n, id) && Has(states[n], id)
    ensures states[n].provider.grants[id] == Saved(states[j], actions[j])
  {
    GoodRun(states, actions, j);
    hide Next, Good;
    GrantOver(states[j], actions[j], id);
    UntilSaved(states, actions, j + 1, n, id);
  }

  lemma OnlyLast(states: seq<State>, actions: seq<Action>, m: nat, n: nat, j: nat, id: string, g: Grant)
    requires m <= j < n <= |actions| < |states| && Saves(states[j], actions[j], id)
    requires Unsaved(states, actions, j + 1, n, id)
    ensures Outdated(states, actions, m, n, id, g) <==> !(Saved(states[j], actions[j]).scopes <= g.scopes)
  {
    hide Saves;
    forall l | m <= l < n && Saves(states[l], actions[l], id) && Unsaved(states, actions, l + 1, n, id) ensures l == j {
      LastUnique(states, actions, l, j, n, id);
    }
  }

  lemma LastUnique(states: seq<State>, actions: seq<Action>, l: nat, j: nat, n: nat, id: string)
    requires l < n <= |actions| < |states| && j < n
    requires Saves(states[l], actions[l], id) && Unsaved(states, actions, l + 1, n, id)
    requires Saves(states[j], actions[j], id) && Unsaved(states, actions, j + 1, n, id)
    ensures l == j
  {
    hide Saves;
  }
}
