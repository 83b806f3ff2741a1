/** Runs of bridge calls, terminations and expiries under an arbitrarily changing gate. */
module ConsentRuns {
  import opened Options
  import opened ConsentSpec

  /** The bridge's calls, and what happens around them: requests are parked and vanish, grants end. */
  datatype Event =
    | Park(uid: string, interaction: Interaction)
    | Vanish(uid: string)
    | LoginStep(uid: string, gate: Gate)
    | ConsentStep(uid: string, decision: Decision, gate: Gate, newId: string)
    | AbortStep(uid: string)
    | Terminate(account: string)
    | Expire(grantId: string)

  /** The id of a new grant has never been used. */
  predicate Enabled(p: Provider, e: Event) {
    e.ConsentStep? ==> e.newId !in p.issued
  }

  /** What the caller of a step gets; the provider's own steps answer nobody. */
  datatype Outcome = Outcome(provider: Provider, answer: Option<Answer>, entry: Option<AuditEntry>)

  function OutcomeOf(r: Reply): Outcome {
    Outcome(r.provider, Some(r.answer), r.entry)
  }

  function Do(p: Provider, e: Event): Outcome {
    match e
    case Park(uid, i) => Outcome(p.(interactions := p.interactions[uid := i]), None, None)
    case Vanish(uid) => Outcome(p.(interactions := p.interactions - {uid}), None, None)
    case LoginStep(uid, gate) => OutcomeOf(Login(p, uid, gate))
    case ConsentStep(uid, d, gate, newId) => OutcomeOf(Consent(p, uid, d, gate, newId))
    case AbortStep(uid) => OutcomeOf(Abort(p, uid))
    case Terminate(account) => Outcome(Terminated(p, account), None, None)
    case Expire(id) => Outcome(p.(grants := p.grants - {id}), None, None)
  }

  /** Every live grant has an id that was given out. */
  ghost predicate Inv(p: Provider) {
    forall id :: id in p.grants ==> id in p.issued
  }

  ghost predicate IsRun(states: seq<Provider>, events: seq<Event>) {
    && |states| == |events| + 1 && Inv(states[0])
    && forall i :: 0 <= i < |events| ==>
      Enabled(states[i], events[i]) && states[i + 1] == Do(states[i], events[i]).provider
  }

  /** A grant of the same account and client, with at least the same contents. */
  ghost predicate Grows(g: Grant, g2: Grant) {
    && g2.account == g.account && g2.client == g.client
    && g.scopes <= g2.scopes && g.claims <= g2.claims
    && forall indicator :: ResourceAt(g, indicator) <= ResourceAt(g2, indicator)
  }

  /** The step approves a consent, with an authenticated gate and an account in the provider's session. */
  ghost predicate Approves(p: Provider, e: Event) {
    && e.ConsentStep? && e.decision.approve && e.gate.Authenticated?
    && e.uid in p.interactions && Truthy(p.interactions[e.uid].account)
  }

  /** The step approves more for the grant `id`. */
  ghost predicate Extends(p: Provider, e: Event, id: string) {
    Approves(p, e) && Truthy(p.interactions[e.uid].grantId) && p.interactions[e.uid].grantId.value == id
  }

  /** The step creates the grant `id`, for the account of the provider's session. */
  ghost predicate Creates(p: Provider, e: Event, id: string) {
    Approves(p, e) && !Truthy(p.interactions[e.uid].grantId) && e.newId == id
  }

  /** What a request may be resolved with: a login the gate vouches for, a live grant just approved, or a denial. */
  ghost predicate Justified(p: Provider, e: Event, p2: Provider, r: Resolution) {
    match r.result
    case LoggedIn(account) =>
      e.LoginStep? && e.gate.Authenticated? && e.gate.sub == account && !r.merge && p2.grants == p.grants
    case Consented(id) =>
      && (if r.merge then Extends(p, e, id) else Creates(p, e, id))
      && id in p2.grants && AllWords(Granting(p.interactions[e.uid], e.decision)) <= p2.grants[id].scopes
    case Denied(_) =>
      && r.merge && p2.grants == p.grants
      && (e.AbortStep? || (e.ConsentStep? && !e.decision.approve) ||
        ((e.LoginStep? || e.ConsentStep?) && e.gate.Refused?))
  }

  /**
    A call that redirects has resolved exactly the request it names, with a result it can justify; a call that fails
    has changed nothing and leaves no audit entry.
   */
  lemma AnswersFaithful(p: Provider, e: Event)
    requires e.LoginStep? || e.ConsentStep? || e.AbortStep?
    ensures var o := Do(p, e);
      if o.answer.value.Redirect? then
        && e.uid in p.interactions && o.answer.value.to == p.interactions[e.uid].returnTo
        && e.uid in o.provider.interactions && o.provider.interactions[e.uid].resolution.Some?
        && var r := o.provider.interactions[e.uid].resolution;
          && o.provider.interactions == p.interactions[e.uid := p.interactions[e.uid].(resolution := r)]
          && Justified(p, e, o.provider, r.value)
      else o == Outcome(p, o.answer, None)
  {
    hide Approved, Words, AllWords;
    if Approves(p, e) {
      var i := p.interactions[e.uid];
      if Truthy(i.grantId) {
        if i.grantId.value in p.grants {
          ApprovedExactly(p.grants[i.grantId.value], i, e.decision, "");
        }
      } else {
        ApprovedExactly(Grant(i.account.value, i.clientId, {}, {}, map[]), i, e.decision, "");
      }
    }
  }

  lemma ApprovedGrows(g: Grant, i: Interaction, d: Decision)
    ensures Grows(g, Approved(g, i, d))
  {
    hide Words, AllWords, ResourceWords, Approved, ResourceAt;
    forall indicator ensures ResourceAt(g, indicator) <= ResourceAt(Approved(g, i, d), indicator) {
      ApprovedExactly(g, i, d, indicator);
    }
    ApprovedExactly(g, i, d, "");
  }

  /**
    The life of one grant over one step: it appears only by creation under an unused id, and changes only by approval.
   */
  lemma GrantStep(p: Provider, e: Event, id: string)
    requires Inv(p) && Enabled(p, e)
    ensures Inv(Do(p, e).provider) && p.issued <= Do(p, e).provider.issued
    ensures id !in p.grants && id in Do(p, e).provider.grants ==>
      && id !in p.issued && Creates(p, e, id)
      && Do(p, e).provider.grants[id].account == p.interactions[e.uid].account.value
    ensures id in p.grants && id in Do(p, e).provider.grants ==>
      && Grows(p.grants[id], Do(p, e).provider.grants[id])
      && (Do(p, e).provider.grants[id] != p.grants[id] ==> Extends(p, e, id))
    ensures id in p.grants && id !in Do(p, e).provider.grants ==>
      e == Expire(id) || e == Terminate(p.grants[id].account)
  {
    hide Approved, Words, ResourceAt;
    if Approves(p, e) {
      var i := p.interactions[e.uid];
      if Truthy(i.grantId) {
        if i.grantId.value in p.grants {
          ApprovedGrows(p.grants[i.grantId.value], i, e.decision);
        }
      } else {
        ApprovedGrows(Grant(i.account.value, i.clientId, {}, {}, map[]), i, e.decision);
      }
    }
  }

  lemma {:induction false} InvRun(states: seq<Provider>, events: seq<Event>, n: nat)
    requires IsRun(states, events) && n <= |events|
    ensures Inv(states[n])
  {
    hide Do, Inv, Enabled;
    if n > 0 {
      InvRun(states, events, n - 1);
      GrantStep(states[n - 1], events[n - 1], "");
    }
  }

  /** An id once given out whose grant is gone never names a grant again. */
  lemma {:induction false} NeverRevived(states: seq<Provider>, events: seq<Event>, a: nat, b: nat, id: string)
    requires IsRun(states, events) && a <= b <= |events|
    requires id in states[a].issued && id !in states[a].grants
    ensures id in states[b].issued && id !in states[b].grants
  {
    hide Do, Inv, Enabled;
    if a < b {
      NeverRevived(states, events, a, b - 1, id);
      InvRun(states, events, b - 1);
      GrantStep(states[b - 1], events[b - 1], id);
    }
  }

  /**
    A grant live at two moments of a run has kept everything it had, and if it has changed at all, some step in
    between approved more for exactly this grant.
   */
  lemma {:induction false} GrantOnlyGrows(states: seq<Provider>, events: seq<Event>, a: nat, b: nat, id: string)
    requires IsRun(states, events) && a <= b <= |events|
    requires id in states[a].grants && id in states[b].grants
    ensures Grows(states[a].grants[id], states[b].grants[id])
    ensures states[b].grants[id] != states[a].grants[id] ==>
      exists k :: a <= k < b && Extends(states[k], events[k], id)
  {
    hide Do, Inv, Enabled, Extends, ResourceAt;
    if a < b {
      InvRun(states, events, b - 1);
      GrantStep(states[b - 1], events[b - 1], id);
      assert id in states[b - 1].grants by {
        if id !in states[b - 1].grants {
          InvRun(states, events, a);
          GivenOut(states, events, a, b - 1, id);
        }
      }
      GrantOnlyGrows(states, events, a, b - 1, id);
    }
  }

  lemma {:induction false} GivenOut(states: seq<Provider>, events: seq<Event>, a: nat, b: nat, id: string)
    requires IsRun(states, events) && a <= b <= |events| && id in states[a].grants
    ensures id in states[b].issued
  {
    hide Do, Enabled;
    if a < b {
      GivenOut(states, events, a, b - 1, id);
      InvRun(states, events, b - 1);
      GrantStep(states[b - 1], events[b - 1], id);
    } else {
      InvRun(states, events, a);
    }
  }

  /**
    After an account's sessions are ended, a grant it had stays gone, and a consent still naming it fails and changes
    nothing.
   */
  lemma TerminationIsFinal(states: seq<Provider>, events: seq<Event>, a: nat, b: nat, account: string, id: string)
    requires IsRun(states, events) && a < b <= |events|
    requires events[a] == Terminate(account) && id in states[a].grants && states[a].grants[id].account == account
    ensures id !in states[b].grants
    ensures forall e :: Enabled(states[b], e) && Extends(states[b], e, id) ==>
      Do(states[b], e) == Outcome(states[b], Some(GrantGone(e.uid)), None)
  {
    hide Inv, Approved;
    InvRun(states, events, a);
    GrantStep(states[a], events[a], id);
    GivenOut(states, events, a, a + 1, id);
    NeverRevived(states, events, a + 1, b, id);
  }

  /** The provider, every answer given, and what the audit service kept. */
  datatype World = World(provider: Provider, answers: seq<Option<Answer>>, trail: seq<AuditEntry>)

  /** One step with its audit write. The service may be left out, and each write may be rejected. */
  function Happen(w: World, e: Event, auditing: bool, up: bool): World {
    var o := Do(w.provider, e);
    var promise := Caught(Recorded(o.entry, auditing, up));
    World(
      o.provider,
      w.answers + [if o.answer.Some? then Some(AnswerAfter(o.answer.value, promise)) else None],
      if auditing && up && o.entry.Some? then w.trail + [o.entry.value] else w.trail)
  }

  function Played(w: World, events: seq<Event>, auditing: bool, ups: seq<bool>): World
    requires |ups| == |events|
  {
    if events == [] then w
    else
      var n := |events| - 1;
      Happen(Played(w, events[..n], auditing, ups[..n]), events[n], auditing, ups[n])
  }

  lemma NeverRejects(p: Provider, e: Event)
    ensures Do(p, e).answer != Some(AuditRejected)
    ensures Do(p, e).entry.Some? ==> Do(p, e).answer.Some?
  {
    hide Approved, Words;
  }

  /**
    Whether there is an audit service, and whichever of its writes are rejected, every call answers
    and does the same, and no rejection reaches an answer.
   */
  lemma {:induction false} AuditNeverMatters(p: Provider, events: seq<Event>,
      auditing: bool, ups: seq<bool>, auditing2: bool, ups2: seq<bool>)
    requires |ups| == |events| == |ups2|
    ensures
      var w, w2 := Played(World(p, [], []), events, auditing, ups), Played(World(p, [], []), events, auditing2, ups2);
      w.provider == w2.provider && w.answers == w2.answers && Some(AuditRejected) !in w.answers
  {
    hide Do;
    if events != [] {
      var n := |events| - 1;
      AuditNeverMatters(p, events[..n], auditing, ups[..n], auditing2, ups2[..n]);
      NeverRejects(Played(World(p, [], []), events[..n], auditing, ups[..n]).provider, events[n]);
    }
  }

  /** A new grant belongs to the user the gate vouches for exactly when the provider's session does. */
  lemma NewGrantOwner(p: Provider, e: Event, id: string)
    requires Inv(p) && Enabled(p, e) && Creates(p, e, id)
    ensures id in Do(p, e).provider.grants
    ensures Do(p, e).provider.grants[id].account == e.gate.sub <==> p.interactions[e.uid].account == Some(e.gate.sub)
  {
    hide Approved;
    var i := p.interactions[e.uid];
    ApprovedExactly(Grant(i.account.value, i.clientId, {}, {}, map[]), i, e.decision, "");
  }

  /** Read before and saved now, the consent leaves the stored grant with every scope it has. */
  ghost predicate SaveKeeps(before: Provider, now: Provider, uid: string, d: Decision, gate: Gate, id: string,
      newId: string)
    requires Begin(before, uid, d, gate).Underway? && id in now.grants
  {
    var saved := Finish(now, Begin(before, uid, d, gate).draft, newId).provider;
    id in saved.grants && now.grants[id].scopes <= saved.grants[id].scopes
  }

  /**
    Read and save apart: whatever is approved, the save keeps all scopes the stored grant has by then, if and only if
    it has gained none since it was read.
   */
  lemma SaveKeepsScopes(before: Provider, now: Provider, uid: string, gate: Gate, id: string)
    requires uid in before.interactions && gate.Authenticated? && Truthy(before.interactions[uid].account)
    requires before.interactions[uid].grantId == Some(id) && id != "" && id in before.grants && id in now.grants
    ensures (forall d: Decision, newId :: d.approve ==> SaveKeeps(before, now, uid, d, gate, id, newId))
      <==> now.grants[id].scopes <= before.grants[id].scopes
  {
    hide Approved;
    var i := before.interactions[uid];
    if now.grants[id].scopes <= before.grants[id].scopes {
      forall d: Decision, newId | d.approve ensures SaveKeeps(before, now, uid, d, gate, id, newId) {
        ApprovedGrows(before.grants[id], i, d);
      }
    } else {
      var none := Decision(true, Some([]));
      ApprovedExactly(before.grants[id], i, none, "");
      assert !SaveKeeps(before, now, uid, none, gate, id, "");
    }
  }

  /** A removal between a consent's read and its save is undone by the save, whatever else happened to the grants. */
  lemma RemovalBetweenIsUndone(before: Provider, now: Provider, uid: string, d: Decision, gate: Gate, id: string,
      newId: string)
    requires Begin(before, uid, d, gate).Underway? && Begin(before, uid, d, gate).draft.grantId == Some(id)
    requires id !in now.grants
    ensures id in before.grants && id in Finish(now, Begin(before, uid, d, gate).draft, newId).provider.grants
    ensures Grows(before.grants[id], Finish(now, Begin(before, uid, d, gate).draft, newId).provider.grants[id])
  {
    hide Approved, ResourceAt;
    ApprovedGrows(before.grants[id], before.interactions[uid], d);
  }
}
