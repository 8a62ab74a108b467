/** Session keys: registration, validation, charging and revocation over a Redis store with a
    write-through cache, as functions on values. Every Redis call may fail; a failed write may
    still have taken effect. Amounts are reals, times are nanoseconds. */
module Sessions {
  import opened Wrappers

  const SECOND: int := 1_000_000_000
  const HOUR: int := 3600 * SECOND

  /** A session. registration is bookkeeping: the index of the registration it stems from. */
  datatype SessionData = SessionData(
    mainWallet: string,
    sessionKey: string,
    spendLimit: real,
    spentAmount: real,
    expiresAt: int,
    createdAt: int,
    lastUsedAt: int,
    isActive: bool,
    registration: nat)

  /** A Redis value with the time at which it disappears. */
  datatype Record = Record(session: SessionData, deadline: int)

  /** What a registration was issued for. */
  datatype Issue = Issue(sessionKey: string, spendLimit: real)

  datatype State = State(
    cache: map<string, SessionData>,
    redis: map<string, Record>,
    nonces: map<string, nat>,
    issued: seq<Issue>)

  /** A write is acknowledged, or fails without effect, or fails after having taken effect. */
  datatype Write = Acknowledged | Refused | Unacknowledged

  datatype Error =
    | Unreachable | InvalidSignature | NonceFailed | StoreFailed
    | NotFound | Revoked | Expired | LimitExceeded | NotOwner

  datatype Result = Ok(session: SessionData) | Err(error: Error)

  /** signedNonces is the set of nonces for which the request's signature verifies. */
  datatype Request = Request(mainWallet: string, sessionKey: string, spendLimit: real, duration: int, signedNonces: set<nat>)

  function Nonce(nonces: map<string, nat>, wallet: string): nat {
    if wallet in nonces then nonces[wallet] else 0
  }

  /** The time to live ends at the session's expiry, or an hour from now when that has passed. */
  function Deadline(s: SessionData, now: int): int {
    if s.expiresAt - now <= 0 then now + HOUR else s.expiresAt
  }

  function Stored(redis: map<string, Record>, s: SessionData, now: int, write: Write): map<string, Record> {
    if write.Refused? then redis else redis[s.sessionKey := Record(s, Deadline(s, now))]
  }

  function Load(st: State, key: string, now: int, reachable: bool): Result {
    if !reachable then Err(Unreachable)
    else if key in st.redis && now < st.redis[key].deadline then Ok(st.redis[key].session)
    else Err(NotFound)
  }

  function NewSession(registration: nat, r: Request, now: int): SessionData {
    SessionData(r.mainWallet, r.sessionKey, r.spendLimit, 0.0, now + r.duration * SECOND, now, now, true, registration)
  }

  function Register(st: State, r: Request, now: int, reachable: bool, incr: Write, store: Write): (State, Result) {
    var nonce := Nonce(st.nonces, r.mainWallet);
    if !reachable then (st, Err(Unreachable))
    else if nonce !in r.signedNonces then (st, Err(InvalidSignature))
    else
      var counted := if incr.Refused? then st else st.(nonces := st.nonces[r.mainWallet := nonce + 1]);
      if !incr.Acknowledged? then (counted, Err(NonceFailed))
      else
        var s := NewSession(|st.issued|, r, now);
        var t := counted.(issued := st.issued + [Issue(r.sessionKey, r.spendLimit)],
                          redis := Stored(st.redis, s, now, store));
        if !store.Acknowledged? then (t, Err(StoreFailed))
        else (t.(cache := st.cache[r.sessionKey := s]), Ok(s))
  }

  /** The cache answers while its entry is active and unexpired; otherwise Redis decides. */
  function Validate(st: State, key: string, now: int, reachable: bool): (State, Result) {
    if key in st.cache && st.cache[key].isActive && now < st.cache[key].expiresAt then
      (st, Ok(st.cache[key]))
    else
      match Load(st, key, now, reachable)
      case Err(e) => (st, Err(e))
      case Ok(s) =>
        if !s.isActive then (st, Err(Revoked))
        else if now > s.expiresAt then (st, Err(Expired))
        else (st.(cache := st.cache[key := s]), Ok(s))
  }

  /** The cached session is charged in place before the write, and stays charged when the write fails. */
  function Charge(st: State, key: string, amount: real, now: int, reachable: bool, write: Write): (State, Result) {
    var (v, result) := Validate(st, key, now, reachable);
    if result.Err? then (v, result)
    else if result.session.spentAmount + amount > result.session.spendLimit then (v, Err(LimitExceeded))
    else
      var s := result.session.(spentAmount := result.session.spentAmount + amount, lastUsedAt := now);
      var t := v.(cache := v.cache[key := s], redis := Stored(v.redis, s, now, write));
      if write.Acknowledged? then (t, Ok(s)) else (t, Err(StoreFailed))
  }

  function Revoke(st: State, wallet: string, key: string, now: int, reachable: bool, write: Write): (State, Result) {
    match Load(st, key, now, reachable)
    case Err(e) => (st, Err(e))
    case Ok(s) =>
      if s.mainWallet != wallet then (st, Err(NotOwner))
      else
        var revoked := s.(isActive := false);
        var t := st.(redis := Stored(st.redis, revoked, now, write));
        if write.Acknowledged? then (t.(cache := st.cache - {key}), Ok(revoked)) else (t, Err(StoreFailed))
  }

  datatype Call =
    | RegisterCall(request: Request, incr: Write, store: Write)
    | ValidateCall(key: string)
    | ChargeCall(key: string, amount: real, write: Write)
    | RevokeCall(wallet: string, key: string, write: Write)
    | Crash

  /** A call with the clock value it reads and whether its Redis reads succeed. */
  datatype Op = Op(call: Call, now: int, reachable: bool)

  /** One call. A crash empties the cache and returns nothing of interest. */
  function Perform(st: State, op: Op): (State, Result) {
    match op.call
    case RegisterCall(request, incr, store) => Register(st, request, op.now, op.reachable, incr, store)
    case ValidateCall(key) => Validate(st, key, op.now, op.reachable)
    case ChargeCall(key, amount, write) => Charge(st, key, amount, op.now, op.reachable, write)
    case RevokeCall(wallet, key, write) => Revoke(st, wallet, key, op.now, op.reachable, write)
    case Crash => (st.(cache := map[]), Err(Unreachable))
  }

  const EMPTY: State := State(map[], map[], map[], [])

  function Results(st: State, ops: seq<Op>): seq<Result>
    decreases |ops|
  {
    if ops == [] then [] else
      var (t, r) := Perform(st, ops[0]);
      [r] + Results(t, ops[1..])
  }

  // ---------------------------------------------------------------- spend limits under faults

  /** The state together with the total of the charges accepted for each registration. */
  datatype Audit = Audit(state: State, accepted: seq<real>)

  /** A new registration starts with nothing accepted. */
  function Opened(a: Audit, st: State): seq<real> {
    if |a.accepted| < |st.issued| then a.accepted + [0.0] else a.accepted
  }

  function Audited(a: Audit, op: Op): Audit {
    var (t, r) := Perform(a.state, op);
    var accepted := Opened(a, t);
    if op.call.ChargeCall? && r.Ok? && r.session.registration < |accepted|
    then Audit(t, accepted[r.session.registration := accepted[r.session.registration] + op.call.amount])
    else Audit(t, accepted)
  }

  function AuditRun(a: Audit, ops: seq<Op>): Audit
    decreases |ops|
  {
    if ops == [] then a else AuditRun(Audited(a, ops[0]), ops[1..])
  }

  /** A session, cached or stored under a key, carries at least what was accepted for its registration. */
  predicate Backed(a: Audit, key: string, s: SessionData) {
    && s.sessionKey == key
    && s.registration < |a.state.issued| && |a.state.issued| == |a.accepted|
    && a.state.issued[s.registration] == Issue(key, s.spendLimit)
    && a.accepted[s.registration] <= s.spentAmount
  }

  /** The bound on what may be accepted for a registration. */
  function Allowance(i: Issue): real {
    if i.spendLimit < 0.0 then 0.0 else i.spendLimit
  }

  ghost predicate Solvent(a: Audit) {
    && |a.state.issued| == |a.accepted|
    && (forall r :: 0 <= r < |a.accepted| ==> a.accepted[r] <= Allowance(a.state.issued[r]))
    && (forall k :: k in a.state.cache ==> Backed(a, k, a.state.cache[k]))
    && (forall k :: k in a.state.redis ==> Backed(a, k, a.state.redis[k].session))
  }

  /** The session a charge reaches: validated, and within its limit. */
  function Charged(st: State, op: Op): Option<SessionData>
    requires op.call.ChargeCall?
  {
    match Validate(st, op.call.key, op.now, op.reachable).1
    case Err(_) => None
    case Ok(s) => if s.spentAmount + op.call.amount > s.spendLimit then None else Some(s)
  }

  /** What a session has spent beyond what was accepted: amounts of lost charges, which stay spent. */
  function Slack(a: Audit, s: SessionData): real {
    if s.registration < |a.accepted| then s.spentAmount - a.accepted[s.registration] else 0.0
  }

  /** A charge that is lost takes nothing back beyond the slack. Negative amounts do no harm while the write is
      acknowledged, or the charge does not get that far. */
  predicate KeepsSlack(a: Audit, op: Op) {
    op.call.ChargeCall? && !op.call.write.Acknowledged? && Charged(a.state, op).Some? ==>
      0.0 <= Slack(a, Charged(a.state, op).value) + op.call.amount
  }

  predicate KeepsSlackThroughout(a: Audit, ops: seq<Op>)
    decreases |ops|
  {
    ops == [] || (KeepsSlack(a, ops[0]) && KeepsSlackThroughout(Audited(a, ops[0]), ops[1..]))
  }

  lemma ValidateSolvent(a: Audit, key: string, now: int, reachable: bool)
    requires Solvent(a)
    ensures var (v, r) := Validate(a.state, key, now, reachable);
            && Solvent(Audit(v, a.accepted)) && v.issued == a.state.issued
            && (r.Ok? ==> Backed(a, key, r.session))
  {
  }

  /** The charged session goes back to the cache and, if the write takes effect, to Redis. */
  lemma ChargedSolvent(a: Audit, key: string, s: SessionData, amount: real, now: int, write: Write)
    requires Solvent(a) && Backed(a, key, s)
    requires s.spentAmount + amount <= s.spendLimit
    ensures var charged := s.(spentAmount := s.spentAmount + amount, lastUsedAt := now);
            var t := a.state.(cache := a.state.cache[key := charged], redis := Stored(a.state.redis, charged, now, write));
            && (Solvent(Audit(t, a.accepted)) <==> 0.0 <= Slack(a, s) + amount)
            && (write.Acknowledged? ==>
                  Solvent(Audit(t, a.accepted[s.registration := a.accepted[s.registration] + amount])))
  {
    var charged := s.(spentAmount := s.spentAmount + amount, lastUsedAt := now);
    var t := a.state.(cache := a.state.cache[key := charged], redis := Stored(a.state.redis, charged, now, write));
    if Solvent(Audit(t, a.accepted)) {
      assert Backed(Audit(t, a.accepted), key, t.cache[key]);
    }
  }

  lemma BackedIndex(a: Audit, key: string, s: SessionData)
    requires Backed(a, key, s)
    ensures s.registration < |a.accepted|
  {
  }

  lemma BackedElsewhere(a: Audit, v: State, key: string, s: SessionData)
    requires Backed(a, key, s) && v.issued == a.state.issued
    ensures Backed(Audit(v, a.accepted), key, s)
  {
  }

  lemma SolventLengths(a: Audit)
    requires Solvent(a)
    ensures |a.accepted| == |a.state.issued|
  {
  }

  /** One charge keeps the audit solvent exactly when it keeps the slack. */
  lemma ChargeSolvent(a: Audit, key: string, amount: real, now: int, reachable: bool, write: Write)
    requires Solvent(a)
    ensures var op := Op(ChargeCall(key, amount, write), now, reachable);
            Solvent(Audited(a, op)) <==> KeepsSlack(a, op)
  {
    hide Solvent, Stored, Backed;
    ValidateSolvent(a, key, now, reachable);
    SolventLengths(a);
    hide Validate;
    var (v, r) := Validate(a.state, key, now, reachable);
    var op := Op(ChargeCall(key, amount, write), now, reachable);
    if r.Err? || r.session.spentAmount + amount > r.session.spendLimit {
      assert Audited(a, op) == Audit(v, a.accepted);
    } else {
      BackedElsewhere(a, v, key, r.session);
      BackedIndex(Audit(v, a.accepted), key, r.session);
      ChargedSolvent(Audit(v, a.accepted), key, r.session, amount, now, write);
    }
  }

  lemma RegisterSolvent(a: Audit, r: Request, now: int, reachable: bool, incr: Write, store: Write)
    requires Solvent(a)
    ensures Solvent(Audited(a, Op(RegisterCall(r, incr, store), now, reachable)))
  {
  }

  lemma RevokeSolvent(a: Audit, wallet: string, key: string, now: int, reachable: bool, write: Write)
    requires Solvent(a)
    ensures Solvent(Audited(a, Op(RevokeCall(wallet, key, write), now, reachable)))
  {
  }

  lemma CrashSolvent(a: Audit, op: Op)
    requires Solvent(a) && op.call.Crash?
    ensures Solvent(Audited(a, op))
  {
  }

  /** One call keeps the audit solvent exactly when it keeps the slack. */
  lemma StepSolvent(a: Audit, op: Op)
    requires Solvent(a)
    ensures Solvent(Audited(a, op)) <==> KeepsSlack(a, op)
  {
    hide Solvent, Charged, Slack;
    match op.call
    case RegisterCall(r, incr, store) => RegisterSolvent(a, r, op.now, op.reachable, incr, store);
    case ValidateCall(key) =>
      ValidateSolvent(a, key, op.now, op.reachable);
      SolventLengths(a);
    case ChargeCall(key, amount, write) => ChargeSolvent(a, key, amount, op.now, op.reachable, write);
    case RevokeCall(wallet, key, write) => RevokeSolvent(a, wallet, key, op.now, op.reachable, write);
    case Crash => CrashSolvent(a, op);
  }

  /** Solvent after every call. */
  ghost predicate SolventThroughout(a: Audit, ops: seq<Op>)
    decreases |ops|
  {
    Solvent(a) && (ops == [] || SolventThroughout(Audited(a, ops[0]), ops[1..]))
  }

  /** Every call of a history leaves at least as much spent as accepted, and accepted no more than the limit,
      exactly when every lost charge keeps the slack. */
  lemma {:induction false} SolventExactly(a: Audit, ops: seq<Op>)
    requires Solvent(a)
    ensures SolventThroughout(a, ops) <==> KeepsSlackThroughout(a, ops)
    decreases |ops|
  {
    if ops != [] {
      StepSolvent(a, ops[0]);
      if Solvent(Audited(a, ops[0])) {
        SolventExactly(Audited(a, ops[0]), ops[1..]);
      } else {
        hide Solvent, KeepsSlack;
        assert !SolventThroughout(Audited(a, ops[0]), ops[1..]);
      }
    }
  }

  /** Charges that are not negative, or acknowledged, always keep the slack. */
  lemma {:induction false} OrdinaryChargesKeepSlack(a: Audit, ops: seq<Op>)
    requires Solvent(a)
    requires forall op :: op in ops && op.call.ChargeCall? && !op.call.write.Acknowledged? ==> 0.0 <= op.call.amount
    ensures KeepsSlackThroughout(a, ops)
    decreases |ops|
  {
    if ops != [] {
      assert ops[0] in ops;
      if ops[0].call.ChargeCall? {
        ValidateSolvent(a, ops[0].call.key, ops[0].now, ops[0].reachable);
      }
      StepSolvent(a, ops[0]);
      OrdinaryChargesKeepSlack(Audited(a, ops[0]), ops[1..]);
    }
  }

  /** Over any sequence of registrations, charges, revocations, failed or ambiguous writes and crashes in which lost
      charges keep the slack, the charges accepted for one registration never total more than its spend limit, and
      what Redis holds is never less than what was accepted. */
  lemma {:induction false} SpendLimitHolds(a: Audit, ops: seq<Op>)
    requires Solvent(a) && KeepsSlackThroughout(a, ops)
    ensures var end := AuditRun(a, ops);
            && |end.accepted| == |end.state.issued|
            && (forall r :: 0 <= r < |end.accepted| ==> end.accepted[r] <= Allowance(end.state.issued[r]))
            && (forall k :: k in end.state.redis ==>
                  && end.state.redis[k].session.registration < |end.accepted|
                  && end.accepted[end.state.redis[k].session.registration] <= end.state.redis[k].session.spentAmount)
    decreases |ops|
  {
    if ops == [] {
      forall k | k in a.state.redis
        ensures a.state.redis[k].session.registration < |a.accepted|
        ensures a.accepted[a.state.redis[k].session.registration] <= a.state.redis[k].session.spentAmount
      {
        assert Backed(a, k, a.state.redis[k].session);
      }
    } else {
      StepSolvent(a, ops[0]);
      hide Solvent, KeepsSlack;
      SpendLimitHolds(Audited(a, ops[0]), ops[1..]);
    }
  }

  /** Lost slack is not harmless: while a session that can be used has spent less than was accepted for it, and only
      then, a charge up to its limit makes what is accepted exceed the limit. */
  lemma OneMoreCharge(a: Audit, key: string, now: int, reachable: bool)
    requires Validate(a.state, key, now, reachable).1.Ok?
    requires Validate(a.state, key, now, reachable).1.session.registration < |a.accepted| == |a.state.issued|
    ensures var s := Validate(a.state, key, now, reachable).1.session;
            var end := Audited(a, Op(ChargeCall(key, s.spendLimit - s.spentAmount, Acknowledged), now, reachable));
            && s.registration < |end.accepted|
            && (end.accepted[s.registration] > s.spendLimit <==> Slack(a, s) < 0.0)
  {
    hide Stored;
  }

  /** Where histories start: nothing cached, stored or issued. */
  lemma StartIsSound()
    ensures Solvent(Audit(EMPTY, [])) && Coherent(EMPTY) && KeysAgree(EMPTY)
  {
  }

  /** Register a key with a limit, lose a charge of the given amount in a refused write, then charge what
      the cache says is left. */
  function RefundRun(limit: real, amount: real): seq<Op> {
    [Op(RegisterCall(Request("wallet", "key", limit, 60, {0}), Acknowledged, Acknowledged), 0, true),
     Op(ChargeCall("key", amount, Refused), 0, true),
     Op(ChargeCall("key", limit - amount, Acknowledged), 0, true)]
  }

  /** The code does not check the sign of an amount, and the bound needs it: the limit survives this run
      exactly for the amounts that are not negative. */
  lemma NegativeAmountsBreakTheLimit(limit: real, amount: real)
    requires 0.0 <= limit
    ensures var end := AuditRun(Audit(EMPTY, []), RefundRun(limit, amount));
            |end.accepted| == 1 && (end.accepted[0] <= limit <==> 0.0 <= amount)
  {
    var ops := RefundRun(limit, amount);
    var a0 := Audit(EMPTY, []);
    var a1 := Audited(a0, ops[0]);
    var s := SessionData("wallet", "key", limit, 0.0, 60 * SECOND, 0, 0, true, 0);
    assert a1.state.cache == map["key" := s] && a1.accepted == [0.0];
    var a2 := Audited(a1, ops[1]);
    assert a2.accepted == [0.0];
    var a3 := Audited(a2, ops[2]);
    assert ops[1..][1..][1..] == [];
    assert AuditRun(a2, ops[1..][1..]) == a3;
    assert AuditRun(a1, ops[1..]) == a3;
  }

  // ---------------------------------------------------------------- nonces

  /** The nonce a call uses up when it is an accepted registration of the wallet. */
  function AcceptedNonce(st: State, op: Op, wallet: string): seq<nat> {
    if op.call.RegisterCall? && op.call.request.mainWallet == wallet && Perform(st, op).1.Ok?
    then [Nonce(st.nonces, wallet)] else []
  }

  /** The nonces at which registrations of a wallet were accepted, in order. */
  function AcceptedNonces(st: State, ops: seq<Op>, wallet: string): seq<nat>
    decreases |ops|
  {
    if ops == [] then []
    else AcceptedNonce(st, ops[0], wallet) + AcceptedNonces(Perform(st, ops[0]).0, ops[1..], wallet)
  }

  /** An accepted registration verified its signature at the current nonce, and moves the nonce on;
      no call moves it back. */
  lemma NonceStep(st: State, op: Op, wallet: string)
    ensures var t := Perform(st, op).0;
            if AcceptedNonce(st, op, wallet) == [] then Nonce(st.nonces, wallet) <= Nonce(t.nonces, wallet)
            else AcceptedNonce(st, op, wallet) == [Nonce(st.nonces, wallet)]
                 && Nonce(t.nonces, wallet) == Nonce(st.nonces, wallet) + 1
                 && op.call.RegisterCall? && Nonce(st.nonces, wallet) in op.call.request.signedNonces
  {
  }

  ghost predicate IncreasingFrom(ns: seq<nat>, least: nat) {
    && (forall i :: 0 <= i < |ns| ==> least <= ns[i])
    && (forall i, j :: 0 <= i < j < |ns| ==> ns[i] < ns[j])
  }

  lemma Prepend(n: nat, rest: seq<nat>)
    requires IncreasingFrom(rest, n + 1)
    ensures IncreasingFrom([n] + rest, n)
  {
  }

  /** The nonces of the accepted registrations of a wallet strictly increase over any run, failed increments
      and failed stores included: no nonce backs two sessions. */
  lemma {:induction false} NoncesStrictlyIncrease(st: State, ops: seq<Op>, wallet: string)
    ensures IncreasingFrom(AcceptedNonces(st, ops, wallet), Nonce(st.nonces, wallet))
    decreases |ops|
  {
    if ops != [] {
      hide Perform, Nonce, AcceptedNonce;
      var t := Perform(st, ops[0]).0;
      NonceStep(st, ops[0], wallet);
      NoncesStrictlyIncrease(t, ops[1..], wallet);
      var rest := AcceptedNonces(t, ops[1..], wallet);
      if AcceptedNonce(st, ops[0], wallet) == [] {
        assert [] + rest == rest;
      } else {
        Prepend(Nonce(st.nonces, wallet), rest);
      }
    }
  }

  // ---------------------------------------------------------------- the cache is invisible

  /** The same call on an implementation that always reads Redis: nothing is ever cached. */
  function PerformUncached(st: State, op: Op): (State, Result) {
    Perform(st.(cache := map[]), op)
  }

  function UncachedResults(st: State, ops: seq<Op>): seq<Result>
    decreases |ops|
  {
    if ops == [] then [] else
      var (t, r) := PerformUncached(st, ops[0]);
      [r] + UncachedResults(t, ops[1..])
  }

  /** Every write of the call is acknowledged. */
  predicate WritesAcknowledged(op: Op) {
    match op.call
    case RegisterCall(_, incr, store) => incr.Acknowledged? && store.Acknowledged?
    case ChargeCall(_, _, write) => write.Acknowledged?
    case RevokeCall(_, _, write) => write.Acknowledged?
    case _ => true
  }

  /** The cache entry a validation at this time would use without asking Redis. */
  predicate Usable(st: State, key: string, now: int) {
    key in st.cache && st.cache[key].isActive && now < st.cache[key].expiresAt
  }

  /** The cache hides that Redis cannot be reached: a validation or charge of a key with a usable entry. */
  predicate Masked(st: State, op: Op) {
    && !op.reachable
    && match op.call
       case ValidateCall(key) => Usable(st, key, op.now)
       case ChargeCall(key, _, _) => Usable(st, key, op.now)
       case _ => false
  }

  predicate Unmasked(st: State, ops: seq<Op>)
    decreases |ops|
  {
    ops == [] || (!Masked(st, ops[0]) && Unmasked(Perform(st, ops[0]).0, ops[1..]))
  }

  /** An active cache entry is what Redis holds, for as long as it could be used. */
  predicate Fresh(st: State, key: string) {
    key in st.cache && st.cache[key].isActive ==>
      && key in st.redis && st.redis[key].session == st.cache[key]
      && st.cache[key].expiresAt <= st.redis[key].deadline
  }

  ghost predicate Coherent(st: State) {
    && (forall k :: k in st.cache ==> st.cache[k].sessionKey == k && Fresh(st, k))
    && (forall k :: k in st.redis ==>
          st.redis[k].session.sessionKey == k && st.redis[k].session.expiresAt <= st.redis[k].deadline)
  }

  /** Equal except for the cache. */
  predicate SameStore(s: State, t: State) {
    s.redis == t.redis && s.nonces == t.nonces && s.issued == t.issued
  }

  lemma ValidateAgrees(st: State, key: string, now: int, reachable: bool)
    requires Coherent(st) && (reachable || !Usable(st, key, now))
    ensures Validate(st, key, now, reachable).1 == Validate(st.(cache := map[]), key, now, reachable).1
    ensures SameStore(Validate(st, key, now, reachable).0, st)
    ensures SameStore(Validate(st.(cache := map[]), key, now, reachable).0, st)
    ensures Coherent(Validate(st, key, now, reachable).0)
  {
  }

  /** A session written through on a healthy store is fresh. */
  lemma WrittenThrough(st: State, s: SessionData, now: int)
    requires Coherent(st)
    ensures Coherent(st.(cache := st.cache[s.sessionKey := s], redis := Stored(st.redis, s, now, Acknowledged)))
  {
  }

  lemma ValidatedKey(st: State, key: string, now: int, reachable: bool)
    requires Coherent(st) && Validate(st, key, now, reachable).1.Ok?
    ensures Validate(st, key, now, reachable).1.session.sessionKey == key
  {
  }

  lemma ChargeAgrees(st: State, key: string, amount: real, now: int, reachable: bool)
    requires Coherent(st) && (reachable || !Usable(st, key, now))
    ensures var (t, r), (u, q) := Charge(st, key, amount, now, reachable, Acknowledged),
                                  Charge(st.(cache := map[]), key, amount, now, reachable, Acknowledged);
            r == q && SameStore(t, u) && Coherent(t)
  {
    hide Validate, Coherent, Stored;
    ValidateAgrees(st, key, now, reachable);
    var (v, r) := Validate(st, key, now, reachable);
    if r.Ok? {
      ValidatedKey(st, key, now, reachable);
      WrittenThrough(v, r.session.(spentAmount := r.session.spentAmount + amount, lastUsedAt := now), now);
    }
  }

  lemma RevokeAgrees(st: State, wallet: string, key: string, now: int, reachable: bool)
    requires Coherent(st)
    ensures var (t, r), (u, q) := Revoke(st, wallet, key, now, reachable, Acknowledged),
                                  Revoke(st.(cache := map[]), wallet, key, now, reachable, Acknowledged);
            r == q && SameStore(t, u) && Coherent(t)
  {
  }

  lemma RegisterAgrees(st: State, request: Request, now: int, reachable: bool)
    requires Coherent(st)
    ensures var (t, r), (u, q) := Register(st, request, now, reachable, Acknowledged, Acknowledged),
                                  Register(st.(cache := map[]), request, now, reachable, Acknowledged, Acknowledged);
            r == q && SameStore(t, u) && Coherent(t)
  {
  }

  /** A masked call answers from the cache, and an uncached one with an error that Redis cannot be reached. */
  lemma MaskedDiffers(st: State, op: Op)
    requires Masked(st, op) && WritesAcknowledged(op)
    ensures Perform(st, op).1 != PerformUncached(st, op).1
  {
  }

  lemma CoherentCrashed(st: State)
    requires Coherent(st)
    ensures Coherent(st.(cache := map[]))
  {
  }

  /** One call answers alike with and without the cache exactly when Redis can be reached, or the call finds no
      usable entry; then the stores stay alike as well. */
  lemma StepAgrees(st: State, op: Op)
    requires Coherent(st) && WritesAcknowledged(op)
    ensures Perform(st, op).1 == PerformUncached(st, op).1 <==> !Masked(st, op)
    ensures !Masked(st, op) ==> SameStore(Perform(st, op).0, PerformUncached(st, op).0) && Coherent(Perform(st, op).0)
  {
    hide Coherent, Register, Validate, Charge, Revoke, Usable;
    if Masked(st, op) {
      MaskedDiffers(st, op);
    } else {
      match op.call
      case RegisterCall(request, _, _) => RegisterAgrees(st, request, op.now, op.reachable);
      case ValidateCall(key) => ValidateAgrees(st, key, op.now, op.reachable);
      case ChargeCall(key, amount, _) => ChargeAgrees(st, key, amount, op.now, op.reachable);
      case RevokeCall(wallet, key, _) => RevokeAgrees(st, wallet, key, op.now, op.reachable);
      case Crash => CoherentCrashed(st);
    }
  }

  /** Cache transparency: without failed writes, for every history, every crash and every sequence of clock
      values, all calls answer as if every call had read Redis, exactly when no call finds Redis out of reach
      and a usable entry in the cache; although charges mutate the cached sessions in place. */
  lemma {:induction false} CacheTransparent(st: State, other: State, ops: seq<Op>)
    requires Coherent(st) && SameStore(st, other)
    requires forall op :: op in ops ==> WritesAcknowledged(op)
    ensures Results(st, ops) == UncachedResults(other, ops) <==> Unmasked(st, ops)
    decreases |ops|
  {
    if ops != [] {
      hide Coherent, Masked, Perform;
      assert ops[0] in ops;
      StepAgrees(st, ops[0]);
      assert st.(cache := map[]) == other.(cache := map[]);
      var results, uncached := Results(st, ops), UncachedResults(other, ops);
      assert results[0] == Perform(st, ops[0]).1 && uncached[0] == PerformUncached(other, ops[0]).1;
      if !Masked(st, ops[0]) {
        CacheTransparent(Perform(st, ops[0]).0, PerformUncached(other, ops[0]).0, ops[1..]);
        assert results[1..] == Results(Perform(st, ops[0]).0, ops[1..]);
        assert uncached[1..] == UncachedResults(PerformUncached(other, ops[0]).0, ops[1..]);
        assert results == [results[0]] + results[1..] && uncached == [uncached[0]] + uncached[1..];
      }
    }
  }

  // ---------------------------------------------------------------- revocation

  ghost predicate KeysAgree(st: State) {
    && (forall k :: k in st.cache ==> st.cache[k].sessionKey == k)
    && (forall k :: k in st.redis ==> st.redis[k].session.sessionKey == k)
  }

  /** The key is not cached, and not active in Redis. */
  predicate Dead(st: State, key: string) {
    key !in st.cache && (key in st.redis ==> !st.redis[key].session.isActive)
  }

  predicate Registers(op: Op, key: string) {
    op.call.RegisterCall? && op.call.request.sessionKey == key
  }

  lemma ChargeStaysDead(st: State, key: string, other: string, amount: real, now: int, reachable: bool, write: Write)
    requires KeysAgree(st) && Dead(st, key)
    ensures var (t, r) := Charge(st, other, amount, now, reachable, write);
            KeysAgree(t) && Dead(t, key) && (other == key ==> r.Err?)
  {
  }

  lemma ValidateStaysDead(st: State, key: string, other: string, now: int, reachable: bool)
    requires KeysAgree(st) && Dead(st, key)
    ensures var (t, r) := Validate(st, other, now, reachable);
            KeysAgree(t) && Dead(t, key) && (other == key ==> r.Err?)
  {
  }

  lemma RegisterStaysDead(st: State, key: string, request: Request, now: int, reachable: bool, incr: Write, store: Write)
    requires KeysAgree(st) && Dead(st, key) && request.sessionKey != key
    ensures var t := Register(st, request, now, reachable, incr, store).0; KeysAgree(t) && Dead(t, key)
  {
  }

  lemma RevokeStaysDead(st: State, key: string, wallet: string, other: string, now: int, reachable: bool, write: Write)
    requires KeysAgree(st) && Dead(st, key)
    ensures var t := Revoke(st, wallet, other, now, reachable, write).0; KeysAgree(t) && Dead(t, key)
  {
  }

  lemma CrashStaysDead(st: State, key: string)
    requires KeysAgree(st) && Dead(st, key)
    ensures KeysAgree(st.(cache := map[])) && Dead(st.(cache := map[]), key)
  {
  }

  lemma RevokedStaysDead(st: State, op: Op, key: string)
    requires KeysAgree(st) && Dead(st, key) && !Registers(op, key)
    ensures KeysAgree(Perform(st, op).0) && Dead(Perform(st, op).0, key)
    ensures op.call == ValidateCall(key) || (op.call.ChargeCall? && op.call.key == key) ==> Perform(st, op).1.Err?
  {
    hide KeysAgree, Dead, Register, Validate, Charge, Revoke;
    match op.call
    case RegisterCall(request, incr, store) => RegisterStaysDead(st, key, request, op.now, op.reachable, incr, store);
    case ValidateCall(other) => ValidateStaysDead(st, key, other, op.now, op.reachable);
    case ChargeCall(other, amount, write) => ChargeStaysDead(st, key, other, amount, op.now, op.reachable, write);
    case RevokeCall(wallet, other, write) => RevokeStaysDead(st, key, wallet, other, op.now, op.reachable, write);
    case Crash => CrashStaysDead(st, key);
  }

  lemma {:induction false} ResultsLength(st: State, ops: seq<Op>)
    ensures |Results(st, ops)| == |ops|
    decreases |ops|
  {
    if ops != [] {
      ResultsLength(Perform(st, ops[0]).0, ops[1..]);
    }
  }

  lemma {:induction false} DeadResults(st: State, key: string, ops: seq<Op>, i: nat)
    requires KeysAgree(st) && Dead(st, key)
    requires forall op :: op in ops ==> !Registers(op, key)
    requires i < |ops| && (ops[i].call == ValidateCall(key) || (ops[i].call.ChargeCall? && ops[i].call.key == key))
    ensures |Results(st, ops)| == |ops| && Results(st, ops)[i].Err?
    decreases |ops|
  {
    assert ops[0] in ops;
    RevokedStaysDead(st, ops[0], key);
    ResultsLength(Perform(st, ops[0]).0, ops[1..]);
    if i > 0 {
      DeadResults(Perform(st, ops[0]).0, key, ops[1..], i - 1);
    }
  }

  /** After a successful revocation no validation and no charge of the key succeeds until it is registered
      again, whatever fails in between. */
  lemma {:induction false} RevocationIsFinal(st: State, wallet: string, key: string, at: Op, ops: seq<Op>, i: nat)
    requires KeysAgree(st)
    requires at.call == RevokeCall(wallet, key, Acknowledged) && Perform(st, at).1.Ok?
    requires forall op :: op in ops ==> !Registers(op, key)
    requires i < |ops| && (ops[i].call == ValidateCall(key) || (ops[i].call.ChargeCall? && ops[i].call.key == key))
    ensures |Results(Perform(st, at).0, ops)| == |ops| && Results(Perform(st, at).0, ops)[i].Err?
  {
    DeadResults(Perform(st, at).0, key, ops, i);
  }

  // ---------------------------------------------------------------- what each call does

  /** A write that takes effect stores the session until its expiry, or for an hour when that has passed. */
  lemma StoredUntil(redis: map<string, Record>, s: SessionData, now: int, write: Write)
    ensures var after := Stored(redis, s, now, write);
            if write.Refused? then after == redis
            else after == redis[s.sessionKey := Record(s, if now < s.expiresAt then s.expiresAt else now + 3600 * 1_000_000_000)]
  {
  }

  /** A registration succeeds exactly when Redis can be reached, the request is signed for the wallet's nonce, and the
      increment and the store are acknowledged. Then the nonce has moved on, and a fresh, active, unspent session with
      the requested limit and duration is stored and cached under its key. */
  lemma RegisterExactly(st: State, q: Request, now: int, reachable: bool, incr: Write, store: Write)
    ensures var (t, r) := Register(st, q, now, reachable, incr, store);
            var nonce := if q.mainWallet in st.nonces then st.nonces[q.mainWallet] else 0;
            && (r.Ok? <==> reachable && nonce in q.signedNonces && incr.Acknowledged? && store.Acknowledged?)
            && (!reachable || nonce !in q.signedNonces ==> t == st)
            && (r.Ok? ==>
                  && r.session == SessionData(q.mainWallet, q.sessionKey, q.spendLimit, 0.0, now + q.duration * 1_000_000_000,
                                              now, now, true, |st.issued|)
                  && t.nonces == st.nonces[q.mainWallet := nonce + 1]
                  && t.cache == st.cache[q.sessionKey := r.session]
                  && q.sessionKey in t.redis && t.redis[q.sessionKey].session == r.session)
            && (!r.Ok? ==> t.cache == st.cache)
  {
  }

  /** A key is valid exactly while its cache entry is active and unexpired, or Redis can be reached and holds it
      active and unexpired. The answer is that session, and validating changes nothing but the cache. */
  lemma ValidateExactly(st: State, key: string, now: int, reachable: bool)
    ensures var (t, r) := Validate(st, key, now, reachable);
            && (r.Ok? <==>
                  || (key in st.cache && st.cache[key].isActive && now < st.cache[key].expiresAt)
                  || (&& reachable && key in st.redis && now < st.redis[key].deadline
                      && st.redis[key].session.isActive && now <= st.redis[key].session.expiresAt))
            && (r.Ok? ==>
                  && r.session == (if key in st.cache && st.cache[key].isActive && now < st.cache[key].expiresAt
                                   then st.cache[key] else st.redis[key].session)
                  && t == st.(cache := st.cache[key := r.session]))
            && (r.Err? ==> t == st)
  {
    if key in st.cache {
      assert st.cache[key := st.cache[key]] == st.cache;
    }
  }

  /** A charge succeeds exactly when the key is valid, the amount fits the limit, and the write is acknowledged. It adds
      the amount to what is spent, in the cache and in Redis; turned away, it charges nothing. */
  lemma ChargeExactly(st: State, key: string, amount: real, now: int, reachable: bool, write: Write)
    ensures var (v, valid) := Validate(st, key, now, reachable);
            var (t, r) := Charge(st, key, amount, now, reachable, write);
            && (r.Ok? <==> valid.Ok? && valid.session.spentAmount + amount <= valid.session.spendLimit && write.Acknowledged?)
            && (valid.Err? ==> t == st && r == valid)
            && (valid.Ok? && valid.session.spentAmount + amount > valid.session.spendLimit ==> t == v && r == Err(LimitExceeded))
            && (valid.Ok? && valid.session.spentAmount + amount <= valid.session.spendLimit ==>
                  var s := valid.session.(spentAmount := valid.session.spentAmount + amount, lastUsedAt := now);
                  && key in t.cache && t.cache[key] == s
                  && (!write.Refused? ==> s.sessionKey in t.redis && t.redis[s.sessionKey].session == s)
                  && (r.Ok? ==> r.session == s))
  {
    ValidateExactly(st, key, now, reachable);
  }

  /** Only the wallet that owns a session can revoke it: a revocation succeeds exactly when Redis can be reached and
      holds an unexpired session of that wallet, and the write is acknowledged. Then the stored session is inactive
      and the cached one is gone. Any other wallet's call changes nothing. */
  lemma RevokeExactly(st: State, wallet: string, key: string, now: int, reachable: bool, write: Write)
    ensures var (t, r) := Revoke(st, wallet, key, now, reachable, write);
            && (r.Ok? <==> reachable && key in st.redis && now < st.redis[key].deadline
                           && st.redis[key].session.mainWallet == wallet && write.Acknowledged?)
            && (r.Ok? ==> key !in t.cache && t.redis == Stored(st.redis, st.redis[key].session.(isActive := false), now, write))
            && (key in st.redis && st.redis[key].session.mainWallet != wallet ==> t == st)
            && (r.Err? ==> t.cache == st.cache)
  {
  }

  /** The key is stored, active, for this wallet, and not cached for another one. */
  predicate Owned(st: State, key: string, wallet: string) {
    && key in st.redis && st.redis[key].session.isActive && st.redis[key].session.mainWallet == wallet
    && (key in st.cache ==> st.cache[key].mainWallet == wallet)
  }

  /** A call that could take an active key from its owner: the owner's own revocation, or a new registration. */
  predicate ByOwner(op: Op, key: string, wallet: string) {
    Registers(op, key) || (op.call.RevokeCall? && op.call.key == key && op.call.wallet == wallet)
  }

  lemma OwnedChargeKept(st: State, key: string, wallet: string, other: string, amount: real, now: int, reachable: bool, write: Write)
    requires KeysAgree(st) && Owned(st, key, wallet)
    ensures var t := Charge(st, other, amount, now, reachable, write).0; KeysAgree(t) && Owned(t, key, wallet)
  {
  }

  lemma OwnedRevokeKept(st: State, key: string, wallet: string, caller: string, other: string, now: int, reachable: bool, write: Write)
    requires KeysAgree(st) && Owned(st, key, wallet) && (other == key ==> caller != wallet)
    ensures var t := Revoke(st, caller, other, now, reachable, write).0; KeysAgree(t) && Owned(t, key, wallet)
  {
  }

  lemma OwnedRegisterKept(st: State, key: string, wallet: string, q: Request, now: int, reachable: bool, incr: Write, store: Write)
    requires KeysAgree(st) && Owned(st, key, wallet) && q.sessionKey != key
    ensures var t := Register(st, q, now, reachable, incr, store).0; KeysAgree(t) && Owned(t, key, wallet)
  {
  }

  lemma OwnedValidateKept(st: State, key: string, wallet: string, other: string, now: int, reachable: bool)
    requires KeysAgree(st) && Owned(st, key, wallet)
    ensures var t := Validate(st, other, now, reachable).0; KeysAgree(t) && Owned(t, key, wallet)
  {
  }

  lemma OwnedCrashKept(st: State, key: string, wallet: string)
    requires KeysAgree(st) && Owned(st, key, wallet)
    ensures KeysAgree(st.(cache := map[])) && Owned(st.(cache := map[]), key, wallet)
  {
  }

  lemma OwnedKept(st: State, op: Op, key: string, wallet: string)
    requires KeysAgree(st) && Owned(st, key, wallet) && !ByOwner(op, key, wallet)
    ensures KeysAgree(Perform(st, op).0) && Owned(Perform(st, op).0, key, wallet)
  {
    hide KeysAgree, Owned, Register, Validate, Charge, Revoke;
    match op.call
    case RegisterCall(q, incr, store) => OwnedRegisterKept(st, key, wallet, q, op.now, op.reachable, incr, store);
    case ValidateCall(other) => OwnedValidateKept(st, key, wallet, other, op.now, op.reachable);
    case ChargeCall(other, amount, write) => OwnedChargeKept(st, key, wallet, other, amount, op.now, op.reachable, write);
    case RevokeCall(caller, other, write) => OwnedRevokeKept(st, key, wallet, caller, other, op.now, op.reachable, write);
    case Crash => OwnedCrashKept(st, key, wallet);
  }

  /** Over any history, whatever fails and whoever calls, a key stays active for its owner until the owner revokes it or
      it is registered anew: other wallets' revocations never deactivate it. */
  lemma {:induction false} OthersCannotRevoke(st: State, key: string, wallet: string, ops: seq<Op>)
    requires KeysAgree(st) && Owned(st, key, wallet)
    requires forall op :: op in ops ==> !ByOwner(op, key, wallet)
    ensures Owned(After(st, ops), key, wallet)
    decreases |ops|
  {
    if ops != [] {
      assert ops[0] in ops;
      OwnedKept(st, ops[0], key, wallet);
      hide Perform, KeysAgree, Owned;
      OthersCannotRevoke(Perform(st, ops[0]).0, key, wallet, ops[1..]);
    }
  }

  function After(st: State, ops: seq<Op>): State
    decreases |ops|
  {
    if ops == [] then st else After(Perform(st, ops[0]).0, ops[1..])
  }
}
