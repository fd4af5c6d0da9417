/** Write settings, authorization revisions and the permits stamped with both, under every
    interleaving. A settings change updates the policy first and revokes later; a revoke
    advances the revision first and cancels the registered requests later. */
module Permits {
  import opened Options

  datatype Mode = ReadOnly | Confirm | Enabled

  datatype Settings = Settings(mode: Mode, sceneRoot: Option<string>)

  datatype RecordKind = Create | Duplicate | Reparent | SetProperty

  datatype Operation =
    | Delete(object: string)
    | ComponentRemove(component: string)
    | Undo(kinds: seq<RecordKind>)
    | Redo(kinds: seq<RecordKind>)
    | Other(name: string)

  datatype Policy = Policy(settings: Settings, revision: nat)

  /** The revision and number a request carries, and its deadline. */
  datatype Lease = Lease(revision: nat, id: nat, deadline: nat)

  datatype Permit = Permit(
    authRevision: nat, policyRevision: nat, generation: nat, request: nat, confirmed: bool, operation: Operation)

  datatype Refusal = Revoked | WritesOff | NeedsConfirmation

  datatype Result<T> = Ok(value: T) | Refused(reason: Refusal)

  /** `changing` counts settings changes that have still to revoke, `cleaning` holds the
      revisions of revokes that have still to cancel, `loading` the revision a new lease
      has read while it holds the registry's lock. */
  datatype Auth = Auth(
    revision: nat,
    policy: Policy,
    registry: seq<Lease>,
    issued: set<Lease>,
    cancelled: set<nat>,
    stopped: set<nat>,
    nextId: nat,
    now: nat,
    changing: nat,
    cleaning: set<nat>,
    loading: Option<nat>)

  datatype Step =
    | ChangeSettings(settings: Settings)
    | Advance(forSettings: bool)
    | Clean(revision: nat)
    | LoadRevision
    | Register(deadline: nat)
    | StopRequest(id: nat)
    | Tick

  const MAX_SCOPE_ROOT_ID_BYTES := 256

  function Start(): Auth {
    Auth(1, Policy(Settings(ReadOnly, None), 1), [], {}, {}, {}, 1, 0, 0, {}, None)
  }

  predicate ValidSettings(s: Settings) {
    s.sceneRoot.Some? ==>
      var id := s.sceneRoot.value;
      id != "" && |id| <= MAX_SCOPE_ROOT_ID_BYTES && 0 as char !in id
  }

  function Retained(registry: seq<Lease>, revision: nat): seq<Lease> {
    if registry == [] then []
    else
      var rest := Retained(registry[..|registry| - 1], revision);
      var l := registry[|registry| - 1];
      if l.revision == revision then rest + [l] else rest
  }

  function Ids(registry: seq<Lease>, revision: nat): set<nat> {
    set l | l in registry && l.revision != revision :: l.id
  }

  function Change(a: Auth, s: Settings): Auth {
    if !ValidSettings(s) || a.policy.settings == s then a
    else a.(policy := Policy(s, a.policy.revision + 1), changing := a.changing + 1)
  }

  function CleanUp(a: Auth, r: nat): Auth {
    if r in a.cleaning && a.loading.None? then
      a.(registry := Retained(a.registry, r), cancelled := a.cancelled + Ids(a.registry, r), cleaning := a.cleaning - {r})
    else a
  }

  function RegisterLease(a: Auth, deadline: nat): Auth {
    if a.loading.None? then a
    else
      var l := Lease(a.loading.value, a.nextId, deadline);
      var b := a.(loading := None, issued := a.issued + {l}, nextId := a.nextId + 1);
      if l.revision == a.revision then b.(registry := a.registry + [l]) else b.(cancelled := a.cancelled + {l.id})
  }

  function Apply(a: Auth, e: Step): Auth {
    match e
    case ChangeSettings(s) => Change(a, s)
    case Advance(forSettings) =>
      if forSettings && a.changing == 0 then a
      else
        a.(
          revision := a.revision + 1, cleaning := a.cleaning + {a.revision + 1},
          changing := if forSettings then a.changing - 1 else a.changing)
    case Clean(r) => CleanUp(a, r)
    case LoadRevision => if a.loading.None? then a.(loading := Some(a.revision)) else a
    case Register(deadline) => RegisterLease(a, deadline)
    case StopRequest(id) => a.(stopped := a.stopped + {id})
    case Tick => a.(now := a.now + 1)
  }

  function Run(a: Auth, steps: seq<Step>): Auth
    decreases |steps|
  {
    if steps == [] then a else Run(Apply(a, steps[0]), steps[1..])
  }

  predicate IsCurrent(a: Auth, l: Lease) {
    l.id !in a.cancelled && a.revision == l.revision && l.id !in a.stopped && a.now < l.deadline
  }

  predicate RequiresConfirmation(op: Operation) {
    match op
    case Delete(_) => true
    case ComponentRemove(_) => true
    case Undo(kinds) => Create in kinds || Duplicate in kinds
    case Redo(_) => false
    case Other(_) => false
  }

  /** The lease is checked at one instant, the policy read at a later one. */
  function CheckRequest(leaseOk: bool, policy: Policy, snapshot: Policy, op: Operation, confirmed: bool): Option<Refusal> {
    if !leaseOk then Some(Revoked)
    else if policy != snapshot then Some(Revoked)
    else if snapshot.settings.mode.ReadOnly? then Some(WritesOff)
    else if !confirmed && (snapshot.settings.mode.Confirm? || RequiresConfirmation(op)) then Some(NeedsConfirmation)
    else None
  }

  function Issue(
      leaseOk: bool, policy: Policy, lease: Lease, snapshot: Policy, generation: nat, op: Operation, confirmed: bool)
      : Result<Permit> {
    var refusal := CheckRequest(leaseOk, policy, snapshot, op, confirmed);
    if refusal.Some? then Refused(refusal.value)
    else Ok(Permit(lease.revision, snapshot.revision, generation, lease.id, confirmed, op))
  }

  function EnsureMode(mode: Mode, op: Operation, confirmed: bool): Option<Refusal> {
    match mode
    case ReadOnly => Some(WritesOff)
    case Confirm => if confirmed then None else Some(NeedsConfirmation)
    case Enabled => if RequiresConfirmation(op) && !confirmed then Some(NeedsConfirmation) else None
  }

  /** The policy is read at one instant, the lease checked at a later one. */
  function Validate(p: Permit, policy: Policy, leaseOk: bool, lease: Lease, generation: nat, op: Operation): Option<Refusal> {
    if !leaseOk || p.authRevision != lease.revision || p.policyRevision != policy.revision ||
       p.generation != generation || p.request != lease.id || p.operation != op
    then Some(Revoked)
    else EnsureMode(policy.settings.mode, op, p.confirmed)
  }

  // ---- revisions name settings ----

  predicate After(a: Auth, b: Auth) {
    && a.policy.revision <= b.policy.revision
    && (a.policy.revision == b.policy.revision ==> a.policy == b.policy)
    && a.revision <= b.revision
    && a.revision + a.changing - a.policy.revision <= b.revision + b.changing - b.policy.revision
  }

  /** Revisions only grow, and a policy revision stands for one setting: going back to an
      old setting is a new revision. */
  lemma {:induction false} RevisionsNameSettings(a: Auth, steps: seq<Step>)
    ensures After(a, Run(a, steps))
    decreases |steps|
  {
    if steps != [] {
      assert After(a, Apply(a, steps[0]));
      RevisionsNameSettings(Apply(a, steps[0]), steps[1..]);
    }
  }

  // ---- what an accepted permit was issued under ----

  /** The snapshot is taken, then the permit issued, then validated, each in two reads,
      with any other steps before, between and after the reads. */
  lemma AcceptedPermitHolds(
      before: seq<Step>, s1: seq<Step>, s2: seq<Step>, s3: seq<Step>, s4: seq<Step>,
      lease: Lease, issuedFor: nat, issuedOp: Operation, confirmed: bool, generation: nat, op: Operation)
    ensures
      var snap := Run(Start(), before);
      var checked := Run(snap, s1);
      var read := Run(checked, s2);
      var issued := Issue(IsCurrent(checked, lease), read.policy, lease, snap.policy, issuedFor, issuedOp, confirmed);
      var now := Run(read, s3);
      var end := Run(now, s4);
      issued.Ok? && Validate(issued.value, now.policy, IsCurrent(end, lease), lease, generation, op).None? ==>
        && now.policy == read.policy == snap.policy
        && checked.revision == read.revision == now.revision == end.revision == lease.revision
        && issuedFor == generation && issuedOp == op
        && !now.policy.settings.mode.ReadOnly?
        && (!confirmed ==> now.policy.settings.mode.Enabled? && !RequiresConfirmation(op))
        && (end.changing == 0 ==> end.policy == snap.policy)
  {
    hide Apply, Run, RequiresConfirmation;
    var snap := Run(Start(), before);
    var checked := Run(snap, s1);
    var read := Run(checked, s2);
    var now := Run(read, s3);
    RevisionsNameSettings(checked, s2);
    RevisionsNameSettings(read, s3);
    RevisionsNameSettings(now, s4);
  }

  /** Nothing less is accepted and nothing more is asked: an issued permit is accepted
      exactly while its policy and its lease are current and it is used for what it was
      issued for. */
  lemma IssuedPermitIsAcceptedIff(
      checked: Auth, s2: seq<Step>, s3: seq<Step>, s4: seq<Step>, lease: Lease, snapshot: Policy,
      issuedFor: nat, issuedOp: Operation, confirmed: bool, generation: nat, op: Operation)
    ensures
      var read := Run(checked, s2);
      var issued := Issue(IsCurrent(checked, lease), read.policy, lease, snapshot, issuedFor, issuedOp, confirmed);
      var now := Run(read, s3);
      var end := Run(now, s4);
      issued.Ok? ==>
        (Validate(issued.value, now.policy, IsCurrent(end, lease), lease, generation, op).None? <==>
         now.policy == snapshot && IsCurrent(end, lease) && generation == issuedFor && op == issuedOp)
  {
    hide Apply, Run, RequiresConfirmation;
    RevisionsNameSettings(Run(checked, s2), s3);
  }

  // ---- revocation ----

  ghost predicate Inv(a: Auth) {
    && (forall r :: r in a.cleaning ==> r <= a.revision)
    && (a.loading.Some? ==> a.loading.value <= a.revision)
    && (a.loading.Some? && a.loading.value < a.revision ==> a.loading.value + 1 in a.cleaning)
    && (forall l :: l in a.issued && l.id !in a.cancelled ==> l in a.registry)
    && (forall l :: l in a.issued && l.id !in a.cancelled && l.revision != a.revision ==> l.revision + 1 in a.cleaning)
  }

  lemma {:induction false} RetainedMembers(registry: seq<Lease>, revision: nat, l: Lease)
    ensures l in Retained(registry, revision) <==> l in registry && l.revision == revision
    decreases |registry|
  {
    if registry != [] {
      RetainedMembers(registry[..|registry| - 1], revision, l);
      assert l in registry <==> l in registry[..|registry| - 1] || l == registry[|registry| - 1];
    }
  }

  lemma CleanKeepsInv(a: Auth, r: nat)
    requires Inv(a)
    ensures Inv(CleanUp(a, r))
  {
    forall l ensures l in Retained(a.registry, r) <==> l in a.registry && l.revision == r { RetainedMembers(a.registry, r, l); }
  }

  lemma StepKeepsInv(a: Auth, e: Step)
    requires Inv(a)
    ensures Inv(Apply(a, e))
  {
    hide CleanUp;
    if e.Clean? { CleanKeepsInv(a, e.revision); }
  }

  lemma {:induction false} RunKeepsInv(a: Auth, steps: seq<Step>)
    requires Inv(a)
    ensures Inv(Run(a, steps))
    decreases |steps|
  {
    hide Inv, Apply;
    if steps != [] {
      StepKeepsInv(a, steps[0]);
      RunKeepsInv(Apply(a, steps[0]), steps[1..]);
    }
  }

  /** Once no revoke is half-way, every request of an earlier revision has been cancelled,
      also one that read its revision while the revoke ran. */
  lemma SettledRevocationCancelsAll(steps: seq<Step>, l: Lease)
    requires l in Run(Start(), steps).issued && Run(Start(), steps).cleaning == {}
    ensures l.revision != Run(Start(), steps).revision ==> l.id in Run(Start(), steps).cancelled
  {
    hide Apply, Run;
    RunKeepsInv(Start(), steps);
  }

  /** A revoke's cancelling spares only its own revision: a registered request is cancelled
      by it exactly when it carries another one. */
  lemma CleaningSparesItsRevision(a: Auth, r: nat, l: Lease)
    requires r in a.cleaning && a.loading.None? && l in a.registry
    requires forall m :: m in a.registry && m.id == l.id ==> m == l
    requires l.id !in a.cancelled
    ensures l.id in Apply(a, Clean(r)).cancelled <==> l.revision != r
  {
    assert l.revision != r ==> l.id in Ids(a.registry, r);
  }

  /** So a slow revoke can cancel a request of a newer, current revision. */
  lemma SlowRevokeCancelsCurrentRequest()
    ensures
      var a := Run(Start(), [Advance(false), Advance(false), Clean(3), LoadRevision, Register(5)]);
      var l := Lease(3, 1, 5);
      l in a.issued && IsCurrent(a, l) && !IsCurrent(Apply(a, Clean(2)), l) && Apply(a, Clean(2)).revision == l.revision
  {
    var a1 := Apply(Apply(Start(), Advance(false)), Advance(false));
    var a2 := Apply(a1, Clean(3));
    assert a2.registry == [] && a2.cancelled == {};
    var a3 := Apply(Apply(a2, LoadRevision), Register(5));
    var l := Lease(3, 1, 5);
    assert a3.registry == [l];
    assert l in a3.registry && l.id in Ids(a3.registry, 2);
    var steps := [Advance(false), Advance(false), Clean(3), LoadRevision, Register(5)];
    RunOfFive(Start(), steps);
  }

  lemma RunOfFive(a: Auth, s: seq<Step>)
    requires |s| == 5
    ensures Run(a, s) == Apply(Apply(Apply(Apply(Apply(a, s[0]), s[1]), s[2]), s[3]), s[4])
  {
    hide Apply;
    var a1 := Apply(a, s[0]);
    var a2 := Apply(a1, s[1]);
    var a3 := Apply(a2, s[2]);
    assert s[0..] == s && s[5..] == [];
    RunFrom(a, s, 0);
    RunFrom(a1, s, 1);
    RunFrom(a2, s, 2);
    RunFrom(a3, s, 3);
    RunFrom(Apply(a3, s[3]), s, 4);
  }

  lemma RunFrom(a: Auth, s: seq<Step>, k: nat)
    requires k < |s|
    ensures Run(a, s[k..]) == Run(Apply(a, s[k]), s[k + 1..])
  {
    hide Apply;
    assert s[k..][1..] == s[k + 1..];
  }
}
