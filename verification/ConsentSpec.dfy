/** What the interaction bridge does to the provider's interactions and grants, one call at a time. */
module ConsentSpec {
  import opened Options
  import opened Text

  datatype ResourceScopes = ResourceScopes(indicator: string, scopes: seq<string>)

  datatype Result = Denied(description: string) | LoggedIn(account: string) | Consented(grantId: string)

  datatype Resolution = Resolution(result: Result, merge: bool)

  /** A parked authorization request; `account` is that of the provider's own session. */
  datatype Interaction = Interaction(
    returnTo: string,
    clientId: string,
    grantId: Option<string>,
    account: Option<string>,
    missingScope: Option<seq<string>>,
    missingClaims: Option<seq<string>>,
    missingResources: Option<seq<ResourceScopes>>,
    resolution: Option<Resolution>)

  datatype Grant = Grant(account: string, client: string, scopes: set<string>, claims: set<string>,
    resources: map<string, set<string>>)

  datatype Provider = Provider(interactions: map<string, Interaction>, grants: map<string, Grant>, issued: set<string>)

  datatype Gate =
    | Authenticated(sub: string, id: int)
    | LoginRequired(why: string)
    | Refused(why: string, subject: Option<string>)

  datatype Decision = Decision(approve: bool, scopes: Option<seq<string>>)

  datatype Answer = Redirect(to: string) | InteractionNotFound | SessionNotFound | GrantGone(uid: string)
    | LoginNeeded(uid: string, why: string) | AuditRejected

  datatype Kind = AccessDenied | LoginCompleted | ConsentDenied | ConsentGranted

  datatype Subject = ById(id: int) | BySub(sub: string)

  datatype AuditEntry = AuditEntry(kind: Kind, subject: Subject, uid: string, why: Option<string>, granted: seq<string>)

  /** The provider afterwards, the caller's answer, and what goes to the audit service. */
  datatype Reply = Reply(provider: Provider, answer: Answer, entry: Option<AuditEntry>)

  /** The scopes a space-separated list names. */
  function Words(s: string): set<string> {
    set w | w in Split(s, ' ') && w != ""
  }

  function AddScopes(g: Grant, scopes: seq<string>): Grant {
    if |scopes| > 0 then g.(scopes := g.scopes + Words(Join(scopes, ' '))) else g
  }

  function AddClaims(g: Grant, claims: Option<seq<string>>): Grant {
    if claims.Some? && |claims.value| > 0 then g.(claims := g.claims + set c | c in claims.value) else g
  }

  function ResourceAt(g: Grant, indicator: string): set<string> {
    if indicator in g.resources then g.resources[indicator] else {}
  }

  function AddResource(g: Grant, r: ResourceScopes): Grant {
    g.(resources := g.resources[r.indicator := ResourceAt(g, r.indicator) + Words(Join(r.scopes, ' '))])
  }

  function AddResources(g: Grant, rs: seq<ResourceScopes>): Grant {
    if rs == [] then g else AddResource(AddResources(g, rs[..|rs| - 1]), rs[|rs| - 1])
  }

  /** The user's own choice of scopes, or what the provider is missing. */
  function Granting(i: Interaction, d: Decision): seq<string> {
    if d.scopes.Some? then d.scopes.value else if i.missingScope.Some? then i.missingScope.value else []
  }

  function Resources(i: Interaction): seq<ResourceScopes> {
    if i.missingResources.Some? then i.missingResources.value else []
  }

  function Approved(g: Grant, i: Interaction, d: Decision): Grant {
    AddResources(AddClaims(AddScopes(g, Granting(i, d)), i.missingClaims), Resources(i))
  }

  function Resolve(p: Provider, uid: string, result: Result, merge: bool): Provider
    requires uid in p.interactions
  {
    p.(interactions := p.interactions[uid := p.interactions[uid].(resolution := Some(Resolution(result, merge)))])
  }

  /**
    An audit entry needs somebody to attribute it to: the internal user id, the refused subject, or the session's
    account.
   */
  function Entry(i: Interaction, uid: string, kind: Kind, id: Option<int>, subject: Option<string>, why: Option<string>,
      granted: seq<string>): Option<AuditEntry> {
    var account := if subject.Some? then subject else i.account;
    if id.Some? then Some(AuditEntry(kind, ById(id.value), uid, why, granted))
    else if Truthy(account) then Some(AuditEntry(kind, BySub(account.value), uid, why, granted))
    else None
  }

  /** The promise of an audit write: it may be rejected, and a rejection nobody handles takes the call down with it. */
  datatype Promise = Fulfilled | Rejected

  /** Sending an entry, if there is a service to send it to and anything to send. */
  function Recorded(entry: Option<AuditEntry>, auditing: bool, up: bool): Promise {
    if auditing && entry.Some? && !up then Rejected else Fulfilled
  }

  /** A handler that does nothing turns either outcome into a fulfilled promise. */
  function Caught(promise: Promise): Promise {
    match promise
    case Fulfilled => Fulfilled
    case Rejected => Fulfilled
  }

  function AnswerAfter(answer: Answer, promise: Promise): Answer {
    if promise.Rejected? then AuditRejected else answer
  }

  /** The gate refuses the account: the relying party is told, with a redirect like any other answer. */
  function Refuse(p: Provider, uid: string, why: string, subject: Option<string>): Reply
    requires uid in p.interactions
  {
    var i := p.interactions[uid];
    Reply(Resolve(p, uid, Denied("Account unavailable (" + why + ")"), true), Redirect(i.returnTo),
      Entry(i, uid, AccessDenied, None, subject, Some(why), []))
  }

  function Login(p: Provider, uid: string, gate: Gate): Reply {
    if uid !in p.interactions then Reply(p, InteractionNotFound, None)
    else
      match gate
      case Refused(why, subject) => Refuse(p, uid, why, subject)
      case LoginRequired(why) => Reply(p, LoginNeeded(uid, why), None)
      case Authenticated(sub, id) =>
        Reply(Resolve(p, uid, LoggedIn(sub), false), Redirect(p.interactions[uid].returnTo),
          Entry(p.interactions[uid], uid, LoginCompleted, Some(id), None, None, []))
  }

  /** A consent under way: the grant object in hand, not yet saved. */
  datatype Draft = Draft(uid: string, grantId: Option<string>, grant: Grant, returnTo: string,
    entry: Option<AuditEntry>)

  datatype Begun = Answered(reply: Reply) | Underway(draft: Draft)

  /** A consent up to the moment the grant is saved: the checks in their order, and the grant as it will be. */
  function Begin(p: Provider, uid: string, d: Decision, gate: Gate): Begun {
    if uid !in p.interactions then Answered(Reply(p, InteractionNotFound, None))
    else
      var i := p.interactions[uid];
      if !d.approve then
        Answered(Reply(Resolve(p, uid, Denied("The user denied the request"), true), Redirect(i.returnTo),
          Entry(i, uid, ConsentDenied, None, None, None, [])))
      else
        match gate
        case Refused(why, subject) => Answered(Refuse(p, uid, why, subject))
        case LoginRequired(why) => Answered(Reply(p, LoginNeeded(uid, why), None))
        case Authenticated(sub, id) =>
          if !Truthy(i.account) then Answered(Reply(p, LoginNeeded(uid, "no_session"), None))
          else if Truthy(i.grantId) && i.grantId.value !in p.grants then Answered(Reply(p, GrantGone(uid), None))
          else
            var g := if Truthy(i.grantId) then p.grants[i.grantId.value]
              else Grant(i.account.value, i.clientId, {}, {}, map[]);
            Underway(Draft(uid, if Truthy(i.grantId) then i.grantId else None, Approved(g, i, d), i.returnTo,
              Entry(i, uid, ConsentGranted, Some(id), None, None, Granting(i, d))))
  }

  /**
    The save, under the grant's own id or a new one, and the answer; if the interaction has gone meanwhile the provider
    itself throws.
   */
  function Finish(p: Provider, draft: Draft, newId: string): Reply {
    var id := if draft.grantId.Some? then draft.grantId.value else newId;
    var saved := p.(grants := p.grants[id := draft.grant], issued := p.issued + {id});
    if draft.uid in p.interactions
    then Reply(Resolve(saved, draft.uid, Consented(id), draft.grantId.Some?), Redirect(draft.returnTo), draft.entry)
    else Reply(saved, SessionNotFound, draft.entry)
  }

  /** The whole consent as one step. */
  function Consent(p: Provider, uid: string, d: Decision, gate: Gate, newId: string): Reply {
    match Begin(p, uid, d, gate)
    case Answered(reply) => reply
    case Underway(draft) => Finish(p, draft, newId)
  }

  function Abort(p: Provider, uid: string): Reply {
    if uid !in p.interactions then Reply(p, InteractionNotFound, None)
    else Reply(Resolve(p, uid, Denied("End-user aborted the interaction"), true),
      Redirect(p.interactions[uid].returnTo), None)
  }

  /** Ending an account's sessions removes every grant of the account. */
  function Terminated(p: Provider, account: string): Provider {
    p.(grants := map id | id in p.grants && p.grants[id].account != account :: p.grants[id])
  }

  /** The words of a whole list. */
  function AllWords(scopes: seq<string>): set<string> {
    if scopes == [] then {} else Words(scopes[0]) + AllWords(scopes[1..])
  }

  lemma {:induction false} JoinedWords(scopes: seq<string>)
    ensures Words(Join(scopes, ' ')) == AllWords(scopes)
  {
    if scopes == [] {
      assert Words("") == {};
    } else if |scopes| == 1 {
      assert AllWords(scopes[1..]) == {};
    } else {
      JoinedWords(scopes[1..]);
      SplitConcat(scopes[0], Join(scopes[1..], ' '), ' ');
    }
  }

  predicate Plain(scope: string) {
    scope != "" && ' ' !in scope
  }

  lemma {:induction false} SplitPlain(s: string)
    ensures forall w :: w in Split(s, ' ') ==> ' ' !in w
  {
    if s == "" {
    } else {
      SplitPlain(s[1..]);
    }
  }

  lemma {:induction false} AllWordsPlain(scopes: seq<string>)
    ensures forall w :: w in AllWords(scopes) ==> Plain(w)
    ensures forall s :: s in scopes && Plain(s) ==> s in AllWords(scopes)
    ensures (forall s :: s in scopes ==> Plain(s)) ==> AllWords(scopes) == set s | s in scopes
  {
    if scopes == [] {
    } else {
      SplitPlain(scopes[0]);
      AllWordsPlain(scopes[1..]);
      if Plain(scopes[0]) {
        SplitFree(scopes[0], ' ');
        assert Words(scopes[0]) == {scopes[0]};
      }
      assert forall s :: s in scopes ==> s == scopes[0] || s in scopes[1..];
    }
  }

  /** The grant gains exactly the listed scopes if and only if each is a single word. */
  lemma ScopesAsChosen(g: Grant, scopes: seq<string>)
    ensures AddScopes(g, scopes).scopes == g.scopes + AllWords(scopes)
    ensures AllWords(scopes) == (set s | s in scopes) <==> forall s :: s in scopes ==> Plain(s)
  {
    JoinedWords(scopes);
    AllWordsPlain(scopes);
  }

  function ResourceWords(rs: seq<ResourceScopes>, indicator: string): set<string> {
    if rs == [] then {}
    else
      ResourceWords(rs[..|rs| - 1], indicator)
      + if rs[|rs| - 1].indicator == indicator then AllWords(rs[|rs| - 1].scopes) else {}
  }

  lemma {:induction false} ResourcesAdded(g: Grant, rs: seq<ResourceScopes>, indicator: string)
    ensures ResourceAt(AddResources(g, rs), indicator) == ResourceAt(g, indicator) + ResourceWords(rs, indicator)
    ensures AddResources(g, rs).(resources := g.resources) == g
  {
    hide Words, AllWords;
    if rs != [] {
      ResourcesAdded(g, rs[..|rs| - 1], indicator);
      JoinedWords(rs[|rs| - 1].scopes);
    }
  }

  /**
    What approval adds to a grant: the words granted, the missing claims, and per resource its missing scopes; nothing
    else.
   */
  lemma ApprovedExactly(g: Grant, i: Interaction, d: Decision, indicator: string)
    ensures Approved(g, i, d).account == g.account && Approved(g, i, d).client == g.client
    ensures Approved(g, i, d).scopes == g.scopes + AllWords(Granting(i, d))
    ensures Approved(g, i, d).claims
      == g.claims + if i.missingClaims.Some? then set c | c in i.missingClaims.value else {}
    ensures ResourceAt(Approved(g, i, d), indicator) == ResourceAt(g, indicator)
      + ResourceWords(Resources(i), indicator)
  {
    hide Words, AllWords, ResourceWords;
    ScopesAsChosen(g, Granting(i, d));
    ResourcesAdded(AddClaims(AddScopes(g, Granting(i, d)), i.missingClaims), Resources(i), indicator);
  }

  /** The grant a consent starts from: the one the request names, or a new one of the session's account. */
  function GrantBefore(p: Provider, i: Interaction): Option<Grant> {
    if !Truthy(i.grantId) then Some(Grant(OrNobody(i.account), i.clientId, {}, {}, map[]))
    else if i.grantId.value in p.grants then Some(p.grants[i.grantId.value])
    else None
  }

  function OrNobody(account: Option<string>): string {
    if account.Some? then account.value else ""
  }

  /** One grant was stored, with what was approved besides what it held before; no other was touched. */
  ghost predicate GrantSaved(p: Provider, p2: Provider, uid: string, d: Decision, newId: string)
    requires uid in p.interactions
  {
    var i := p.interactions[uid];
    var id := if Truthy(i.grantId) then i.grantId.value else newId;
    && GrantBefore(p, i).Some? && id in p2.grants && p2.grants == p.grants[id := p2.grants[id]]
    && p2.issued == p.issued + {id}
    && p2.interactions == p.interactions[uid := i.(resolution := Some(Resolution(Consented(id), Truthy(i.grantId))))]
    && var g, g2 := GrantBefore(p, i).value, p2.grants[id];
      && g2.account == g.account && g2.client == g.client
      && g2.scopes == g.scopes +
        (match d.scopes
         case Some(list) => AllWords(list)
         case None => if i.missingScope.Some? then AllWords(i.missingScope.value) else {})
      && g2.claims == g.claims + (if i.missingClaims.Some? then set c | c in i.missingClaims.value else {})
      && forall indicator ::
        ResourceAt(g2, indicator) == ResourceAt(g, indicator) +
          if i.missingResources.Some? then ResourceWords(i.missingResources.value, indicator) else {}
  }

  /**
    An approved consent of a user the gate lets in, with a session and the named grant still there, stores exactly what
    was approved: the words the decision lists or, when it lists none, those of the missing scopes; the missing claims;
    and each resource's missing scopes. The browser goes on, and the entry names the scopes in full.
   */
  lemma ConsentSaves(p: Provider, uid: string, d: Decision, gate: Gate, newId: string)
    requires uid in p.interactions && d.approve && gate.Authenticated? && Truthy(p.interactions[uid].account)
    requires GrantBefore(p, p.interactions[uid]).Some?
    ensures var reply, i := Consent(p, uid, d, gate, newId), p.interactions[uid];
      && GrantSaved(p, reply.provider, uid, d, newId)
      && reply.answer == Redirect(i.returnTo)
      && reply.entry == Some(AuditEntry(ConsentGranted, ById(gate.id), uid, None,
        if d.scopes.Some? then d.scopes.value else if i.missingScope.Some? then i.missingScope.value else []))
  {
    hide Words, AllWords, ResourceWords, Approved, AddResources, ResourceAt;
    var i := p.interactions[uid];
    var g := GrantBefore(p, i).value;
    forall indicator
      ensures ResourceAt(Approved(g, i, d), indicator) == ResourceAt(g, indicator) +
        if i.missingResources.Some? then ResourceWords(i.missingResources.value, indicator) else {}
    {
      ApprovedExactly(g, i, d, indicator);
      NoResources(indicator);
    }
    ApprovedExactly(g, i, d, "");
    NoWords();
  }

  lemma NoWords()
    ensures AllWords([]) == {}
  {
  }

  lemma NoResources(indicator: string)
    ensures ResourceWords([], indicator) == {}
  {
  }

  /** Whom an entry without a user id is attributed to: the refused subject, else the session's account, if any. */
  function Attributed(kind: Kind, i: Interaction, uid: string, who: Option<string>, why: Option<string>):
    Option<AuditEntry>
  {
    var account := if who.Some? then who else i.account;
    if account.None? || account.value == "" then None else Some(AuditEntry(kind, BySub(account.value), uid, why, []))
  }

  /** The relying party is told no, with what may be reported to its user. */
  ghost predicate ToldNo(p: Provider, reply: Reply, uid: string, description: string)
    requires uid in p.interactions
  {
    var i := p.interactions[uid];
    && reply.answer == Redirect(i.returnTo)
    && reply.provider == p.(interactions :=
      p.interactions[uid := i.(resolution := Some(Resolution(Denied(description), true)))])
  }

  /**
    What comes of every consent, in the order of its checks: the user's own refusal, whatever the gate says; the gate's;
    a login still to be made; a provider session without an account; a grant that is gone; and else the grant is saved.
   */
  lemma ConsentExactly(p: Provider, uid: string, d: Decision, gate: Gate, newId: string)
    ensures var reply := Consent(p, uid, d, gate, newId);
      if uid !in p.interactions then reply == Reply(p, InteractionNotFound, None)
      else if !d.approve then
        && ToldNo(p, reply, uid, "The user denied the request")
        && reply.entry == Attributed(ConsentDenied, p.interactions[uid], uid, None, None)
      else if gate.Refused? then
        && ToldNo(p, reply, uid, "Account unavailable (" + gate.why + ")")
        && reply.entry == Attributed(AccessDenied, p.interactions[uid], uid, gate.subject, Some(gate.why))
      else if gate.LoginRequired? then reply == Reply(p, LoginNeeded(uid, gate.why), None)
      else if !Truthy(p.interactions[uid].account) then reply == Reply(p, LoginNeeded(uid, "no_session"), None)
      else if GrantBefore(p, p.interactions[uid]).None? then reply == Reply(p, GrantGone(uid), None)
      else GrantSaved(p, reply.provider, uid, d, newId)
  {
    if uid in p.interactions && d.approve && gate.Authenticated? && Truthy(p.interactions[uid].account) &&
      GrantBefore(p, p.interactions[uid]).Some? {
      ConsentSaves(p, uid, d, gate, newId);
    }
    hide Approved, GrantSaved;
  }

  /** And of every login: only a user the gate lets in is logged in, as the gate's own subject. */
  lemma LoginExactly(p: Provider, uid: string, gate: Gate)
    ensures var reply := Login(p, uid, gate);
      if uid !in p.interactions then reply == Reply(p, InteractionNotFound, None)
      else
        match gate
        case Refused(why, subject) =>
          && ToldNo(p, reply, uid, "Account unavailable (" + why + ")")
          && reply.entry == Attributed(AccessDenied, p.interactions[uid], uid, subject, Some(why))
        case LoginRequired(why) => reply == Reply(p, LoginNeeded(uid, why), None)
        case Authenticated(sub, id) =>
          && reply.answer == Redirect(p.interactions[uid].returnTo)
          && reply.provider == p.(interactions := p.interactions[uid :=
            p.interactions[uid].(resolution := Some(Resolution(LoggedIn(sub), false)))])
          && reply.entry == Some(AuditEntry(LoginCompleted, ById(id), uid, None, []))
  {
  }

  lemma AbortExactly(p: Provider, uid: string)
    ensures if uid !in p.interactions then Abort(p, uid) == Reply(p, InteractionNotFound, None)
      else ToldNo(p, Abort(p, uid), uid, "End-user aborted the interaction") && Abort(p, uid).entry.None?
  {
  }

  function Missing(i: Interaction): seq<string> {
    if i.missingScope.Some? then i.missingScope.value else []
  }

  /**
    An approval adds only scopes the request was missing exactly when every word chosen is missing or already granted.
   */
  lemma NarrowedExactly(g: Grant, i: Interaction, d: Decision)
    ensures Approved(g, i, d).scopes - g.scopes <= AllWords(Missing(i))
      <==> AllWords(Granting(i, d)) <= g.scopes + AllWords(Missing(i))
    ensures d.scopes.None? ==> Approved(g, i, d).scopes - g.scopes <= AllWords(Missing(i))
  {
    hide Words, AllWords, Approved;
    ApprovedExactly(g, i, d, "");
  }
}
