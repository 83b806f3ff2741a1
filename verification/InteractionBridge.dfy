/** The interaction bridge: nauth's decisions on the provider's parked requests. */
module InteractionBridge {
  import opened Options
  import opened Text
  import opened ConsentSpec

  /** A grant in hand, as the provider's own object: what is added to it counts once it is saved. */
  class GrantObject {
    var id: Option<string>
    var value: Grant

    constructor (id: Option<string>, value: Grant)
      ensures this.id == id && this.value == value
    {
      this.id, this.value := id, value;
    }

    method AddOIDCScope(scope: string)
      modifies this`value
      ensures value == old(value).(scopes := old(value).scopes + Words(scope))
    {
      value := value.(scopes := value.scopes + Words(scope));
    }

    method AddOIDCClaims(claims: seq<string>)
      modifies this`value
      ensures value == old(value).(claims := old(value).claims + set c | c in claims)
    {
      value := value.(claims := value.claims + set c | c in claims);
    }

    method AddResourceScope(indicator: string, scope: string)
      modifies this`value
      ensures value == old(value).(resources :=
        old(value).resources[indicator := ResourceAt(old(value), indicator) + Words(scope)])
    {
      value := value.(resources := value.resources[indicator := ResourceAt(value, indicator) + Words(scope)]);
    }
  }

  /** The provider's stored interactions and grants. */
  class OidcProvider {
    var interactions: map<string, Interaction>
    var grants: map<string, Grant>
    var issued: set<string>

    ghost function Abstract(): Provider
      reads this
    {
      Provider(interactions, grants, issued)
    }

    method FindGrant(id: string) returns (grant: GrantObject?)
      ensures grant == null <==> id !in grants
      ensures grant != null ==> fresh(grant) && grant.id == Some(id) && grant.value == grants[id]
    {
      if id in grants {
        grant := new GrantObject(Some(id), grants[id]);
      } else {
        grant := null;
      }
    }

    /** Stores the grant under its id; a new one gets `newId`. */
    method Save(grant: GrantObject, newId: string) returns (id: string)
      modifies this`grants, this`issued
      ensures id == (if grant.id.Some? then grant.id.value else newId)
      ensures grants == old(grants)[id := grant.value] && issued == old(issued) + {id}
    {
      id := if grant.id.Some? then grant.id.value else newId;
      grants := grants[id := grant.value];
      issued := issued + {id};
    }

    /** Records the result of a parked request and says where the browser resumes it. */
    method InteractionResult(uid: string, result: Result, merge: bool) returns (redirectTo: string)
      requires uid in interactions
      modifies this`interactions
      ensures Abstract() == Resolve(old(Abstract()), uid, result, merge)
      ensures redirectTo == old(interactions)[uid].returnTo
    {
      redirectTo := interactions[uid].returnTo;
      interactions := interactions[uid := interactions[uid].(resolution := Some(Resolution(result, merge)))];
    }
  }

  class OIDCInteractionBridge {
    const provider: OidcProvider
    const auditing: bool
    var trail: seq<AuditEntry>

    constructor (provider: OidcProvider, auditing: bool)
      ensures this.provider == provider && this.auditing == auditing && trail == []
    {
      this.provider, this.auditing, trail := provider, auditing, [];
    }

    /** What the trail becomes when an entry is due and the audit service is `up` or not. */
    ghost function Kept(before: seq<AuditEntry>, entry: Option<AuditEntry>, up: bool): seq<AuditEntry> {
      if auditing && up && entry.Some? then before + [entry.value] else before
    }

    /** The audit service's own write. */
    method RecordEvent(entry: AuditEntry, up: bool) returns (promise: Promise)
      requires auditing
      modifies this`trail
      ensures promise == Recorded(Some(entry), auditing, up) == if up then Fulfilled else Rejected
      ensures trail == Kept(old(trail), Some(entry), up)
    {
      if up {
        trail := trail + [entry];
      }
      promise := if up then Fulfilled else Rejected;
    }

    /** Fire and forget: without a service or anybody to attribute it to nothing is sent, and a rejection is handled. */
    method Audit(kind: Kind, i: Interaction, uid: string, why: Option<string>, granted: seq<string>, id: Option<int>,
        subject: Option<string>, up: bool)
      returns (promise: Promise)
      modifies this`trail
      ensures trail == Kept(old(trail), Entry(i, uid, kind, id, subject, why, granted), up)
      ensures !auditing || !up ==> trail == old(trail)
      ensures auditing && up && id.Some? ==> trail == old(trail) + [AuditEntry(kind, ById(id.value), uid, why, granted)]
      ensures auditing && up && id.None? && granted == [] ==>
        var entry := Attributed(kind, i, uid, subject, why);
        trail == if entry.Some? then old(trail) + [entry.value] else old(trail)
      ensures promise == Fulfilled
    {
      if !auditing {
        return Fulfilled;
      }
      var account := if subject.Some? then subject else i.account;
      if id.None? && !Truthy(account) {
        return Fulfilled;
      }
      var who := if id.None? then BySub(account.value) else ById(id.value);
      var sent := RecordEvent(AuditEntry(kind, who, uid, why, granted), up);
      promise := Caught(sent);
    }

    /** The relying party of a refused account gets a protocol error instead of a dead browser tab. */
    method RefuseAccount(uid: string, why: string, subject: Option<string>, up: bool) returns (answer: Answer)
      requires uid in provider.interactions
      modifies this`trail, provider`interactions
      ensures provider.Abstract() == Refuse(old(provider.Abstract()), uid, why, subject).provider
      ensures answer == Refuse(old(provider.Abstract()), uid, why, subject).answer
      ensures trail == Kept(old(trail), Refuse(old(provider.Abstract()), uid, why, subject).entry, up)
    {
      var audited := Audit(AccessDenied, provider.interactions[uid], uid, Some(why), [], None, subject, up);
      var to := provider.InteractionResult(uid, Denied("Account unavailable (" + why + ")"), true);
      answer := AnswerAfter(Redirect(to), audited);
    }

    method CompleteLogin(uid: string, gate: Gate, up: bool) returns (answer: Answer)
      modifies this`trail, provider`interactions
      ensures provider.Abstract() == Login(old(provider.Abstract()), uid, gate).provider
      ensures answer == Login(old(provider.Abstract()), uid, gate).answer
      ensures trail == Kept(old(trail), Login(old(provider.Abstract()), uid, gate).entry, up)
      ensures uid in old(provider.interactions) && gate.Authenticated? ==>
        var i := old(provider.interactions)[uid];
        && answer == Redirect(i.returnTo)
        && provider.interactions == old(provider.interactions)[uid :=
          i.(resolution := Some(Resolution(LoggedIn(gate.sub), false)))]
    {
      if uid !in provider.interactions {
        return InteractionNotFound;
      }
      if gate.Refused? {
        answer := RefuseAccount(uid, gate.why, gate.subject, up);
        return;
      }
      if !gate.Authenticated? {
        return LoginNeeded(uid, gate.why);
      }
      var audited := Audit(LoginCompleted, provider.interactions[uid], uid, None, [], Some(gate.id), None, up);
      var to := provider.InteractionResult(uid, LoggedIn(gate.sub), false);
      answer := AnswerAfter(Redirect(to), audited);
    }

    method CompleteConsent(uid: string, decision: Decision, gate: Gate, newId: string,
        up: bool) returns (answer: Answer)
      modifies this`trail, provider
      ensures provider.Abstract() == Consent(old(provider.Abstract()), uid, decision, gate, newId).provider
      ensures answer == Consent(old(provider.Abstract()), uid, decision, gate, newId).answer
      ensures trail == Kept(old(trail), Consent(old(provider.Abstract()), uid, decision, gate, newId).entry, up)
      ensures uid in old(provider.interactions) ==>
        var p, i := old(provider.Abstract()), old(provider.interactions)[uid];
        if decision.approve && gate.Authenticated? && Truthy(i.account) && GrantBefore(p, i).Some?
        then answer == Redirect(i.returnTo) && GrantSaved(p, provider.Abstract(), uid, decision, newId)
        else provider.grants == p.grants && provider.issued == p.issued
    {
      hide Words, AddResources, GrantSaved;
      if uid in provider.interactions {
        ConsentExactly(provider.Abstract(), uid, decision, gate, newId);
      }
      if uid !in provider.interactions {
        return InteractionNotFound;
      }
      var details := provider.interactions[uid];
      if !decision.approve {
        var refused := Audit(ConsentDenied, details, uid, None, [], None, None, up);
        var to := provider.InteractionResult(uid, Denied("The user denied the request"), true);
        return AnswerAfter(Redirect(to), refused);
      }
      if gate.Refused? {
        answer := RefuseAccount(uid, gate.why, gate.subject, up);
        return;
      }
      if !gate.Authenticated? {
        return LoginNeeded(uid, gate.why);
      }
      if !Truthy(details.account) {
        return LoginNeeded(uid, "no_session");
      }
      var grant: GrantObject?;
      if Truthy(details.grantId) {
        grant := provider.FindGrant(details.grantId.value);
      } else {
        grant := new GrantObject(None, Grant(details.account.value, details.clientId, {}, {}, map[]));
      }
      if grant == null {
        return GrantGone(uid);
      }
      var granting := Granting(details, decision);
      Add(grant, granting, details);
      var grantId := provider.Save(grant, newId);
      var audited := Audit(ConsentGranted, details, uid, None, granting, Some(gate.id), None, up);
      var redirect := provider.InteractionResult(uid, Consented(grantId), Truthy(details.grantId));
      answer := AnswerAfter(Redirect(redirect), audited);
    }

    /** Everything the approval adds, in place. */
    method Add(grant: GrantObject, granting: seq<string>, details: Interaction)
      modifies grant`value
      ensures grant.value == AddResources(AddClaims(AddScopes(old(grant.value), granting), details.missingClaims),
        Resources(details))
    {
      hide Words;
      if |granting| > 0 {
        grant.AddOIDCScope(Join(granting, ' '));
      }
      if details.missingClaims.Some? && |details.missingClaims.value| > 0 {
        grant.AddOIDCClaims(details.missingClaims.value);
      }
      ghost var before := grant.value;
      var missing := Resources(details);
      assert missing[..0] == [];
      for k := 0 to |missing|
        invariant grant.value == AddResources(before, missing[..k])
      {
        grant.AddResourceScope(missing[k].indicator, Join(missing[k].scopes, ' '));
        assert missing[..k + 1][..k] == missing[..k];
      }
      assert missing[..|missing|] == missing;
    }

    method AbortInteraction(uid: string) returns (answer: Answer)
      modifies provider`interactions
      ensures provider.Abstract() == Abort(old(provider.Abstract()), uid).provider
      ensures answer == Abort(old(provider.Abstract()), uid).answer
    {
      if uid !in provider.interactions {
        return InteractionNotFound;
      }
      var to := provider.InteractionResult(uid, Denied("End-user aborted the interaction"), true);
      answer := Redirect(to);
    }
  }
}
