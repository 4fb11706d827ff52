/**
 * QR login (apps/api/src/auth/qr/qr-login.service.ts): a desktop opens a session, a phone approves it, the
 * desktop collects the token once. Sessions live in a store whose keys expire; time is in whole seconds.
 */
module QrLogin {
  import opened Common

  const TTL_SECONDS := 300

  datatype Auth = Auth(token: string, user: string)

  datatype Session = Pending(secret: string) | Approved(secret: string, auth: Auth)

  datatype Entry = Entry(session: Session, deadline: int)

  /** The key store and its clock; issued records the ids handed out so far. */
  datatype State = State(keys: map<string, Entry>, now: int, issued: set<string>)

  function Get(s: State, qrId: string): Option<Session> {
    if qrId in s.keys && s.now < s.keys[qrId].deadline then Some(s.keys[qrId].session) else None
  }

  /** Remaining seconds of a live key. */
  function Ttl(s: State, qrId: string): int {
    if Get(s, qrId).Some? then s.keys[qrId].deadline - s.now else -2
  }

  datatype Operation =
    | Start(qrId: string, secret: string)
    | Status(qrId: string, secret: string)
    | Info(qrId: string)
    | Approve(qrId: string, auth: Auth)
    | Tick(seconds: nat)

  datatype Output =
    | Started(expiresIn: int) | Expired | Unauthorized | StillPending | Delivered(auth: Auth)
    | Shown(approved: bool, expiresIn: int) | Accepted | Already | Elapsed

  function SetKey(s: State, qrId: string, session: Session, seconds: int): State {
    s.(keys := s.keys[qrId := Entry(session, s.now + seconds)])
  }

  function Do(s: State, op: Operation): (State, Output) {
    match op
    case Start(qrId, secret) =>
      (SetKey(s, qrId, Pending(secret), TTL_SECONDS).(issued := s.issued + {qrId}), Started(TTL_SECONDS))
    case Status(qrId, secret) =>
      (match Get(s, qrId)
       case None => (s, Expired)
       case Some(session) =>
         if session.secret != secret then (s, Unauthorized)
         else if session.Approved? then (s.(keys := s.keys - {qrId}), Delivered(session.auth))
         else (s, StillPending))
    case Info(qrId) =>
      (match Get(s, qrId)
       case None => (s, Expired)
       case Some(session) => (s, Shown(session.Approved?, if Ttl(s, qrId) > 0 then Ttl(s, qrId) else 0)))
    case Approve(qrId, auth) =>
      (match Get(s, qrId)
       case None => (s, Expired)
       case Some(session) =>
         if session.Approved? then (s, Already)
         else (SetKey(s, qrId, Approved(session.secret, auth), if Ttl(s, qrId) > 0 then Ttl(s, qrId) else TTL_SECONDS), Accepted))
    case Tick(seconds) => (s.(now := s.now + seconds), Elapsed)
  }

  // ---- The life of one session ----

  /** What a session id is at a moment. */
  datatype Life = Unborn | Open(secret: string, deadline: int) | Granted(secret: string, deadline: int, auth: Auth) | Over

  function LifeOf(s: State, qrId: string): Life {
    if qrId !in s.issued then Unborn
    else
      match Get(s, qrId)
      case None => Over
      case Some(Pending(secret)) => Open(secret, s.keys[qrId].deadline)
      case Some(Approved(secret, auth)) => Granted(secret, s.keys[qrId].deadline, auth)
  }

  /** Only issued ids have keys, and a random id is never issued twice. */
  ghost predicate Sound(s: State) {
    forall q :: q in s.keys ==> q in s.issued
  }

  predicate Fresh(s: State, op: Operation) {
    op.Start? ==> op.qrId !in s.issued
  }

  /** The life a session has after an operation, by its life before. */
  function NextLife(life: Life, now: int, op: Operation, qrId: string): Life {
    match op
    case Start(q, secret) => if q == qrId then Open(secret, now + TTL_SECONDS) else life
    case Approve(q, auth) => if q == qrId && life.Open? then Granted(life.secret, life.deadline, auth) else life
    case Status(q, secret) => if q == qrId && life.Granted? && life.secret == secret then Over else life
    case Info(_) => life
    case Tick(seconds) => if (life.Open? || life.Granted?) && life.deadline <= now + seconds then Over else life
  }

  /** What a status poll answers, by the session's life. */
  function PollOf(life: Life, secret: string): Output {
    match life
    case Open(own, _) => if own != secret then Unauthorized else StillPending
    case Granted(own, _, auth) => if own != secret then Unauthorized else Delivered(auth)
    case _ => Expired
  }

  /** Every operation moves every session along its life, and the outputs are those the life dictates. */
  lemma {:induction false} LifeSteps(s: State, op: Operation, qrId: string)
    requires Sound(s) && Fresh(s, op)
    ensures Sound(Do(s, op).0)
    ensures LifeOf(Do(s, op).0, qrId) == NextLife(LifeOf(s, qrId), s.now, op, qrId)
    ensures op.Status? ==> Do(s, op).1 == PollOf(LifeOf(s, op.qrId), op.secret)
    ensures op.Approve? ==> Do(s, op).1 == (match LifeOf(s, op.qrId) case Open(_, _) => Accepted case Granted(_, _, _) => Already case _ => Expired)
  {
  }

  // ---- Whole runs ----

  /** states lists a whole run: each operation, with fresh ids, leads from one state to the next. */
  ghost predicate Run(states: seq<State>, ops: seq<Operation>) {
    && |states| == |ops| + 1
    && states[0].keys == map[] && states[0].issued == {}
    && forall i :: 0 <= i < |ops| ==> Fresh(states[i], ops[i]) && states[i + 1] == Do(states[i], ops[i]).0
  }

  function OutputAt(states: seq<State>, ops: seq<Operation>, i: nat): Output
    requires i < |ops| && |states| == |ops| + 1
  {
    Do(states[i], ops[i]).1
  }

  predicate Delivers(states: seq<State>, ops: seq<Operation>, i: nat, qrId: string)
    requires |states| == |ops| + 1
  {
    i < |ops| && ops[i].Status? && ops[i].qrId == qrId && OutputAt(states, ops, i).Delivered?
  }

  lemma {:induction false} RunSound(states: seq<State>, ops: seq<Operation>, i: nat)
    requires Run(states, ops) && i < |states|
    ensures Sound(states[i])
  {
    if i > 0 {
      RunSound(states, ops, i - 1);
      LifeSteps(states[i - 1], ops[i - 1], "");
    }
  }

  /** A session that is over stays over: no restart is possible with fresh ids. */
  lemma {:induction false} OverForGood(states: seq<State>, ops: seq<Operation>, qrId: string, i: nat, j: nat)
    requires Run(states, ops) && i <= j < |states| && LifeOf(states[i], qrId) == Over
    ensures LifeOf(states[j], qrId) == Over
  {
    if i < j {
      OverForGood(states, ops, qrId, i, j - 1);
      RunSound(states, ops, j - 1);
      LifeSteps(states[j - 1], ops[j - 1], qrId);
    }
  }

  /** Once a token is delivered, every later poll, approval and page view of the session says expired. */
  lemma {:induction false} ExpiredAfterDelivery(states: seq<State>, ops: seq<Operation>, qrId: string, i: nat, j: nat)
    requires Run(states, ops) && Delivers(states, ops, i, qrId) && i < j < |ops|
    requires (ops[j].Status? || ops[j].Approve? || ops[j].Info?) && ops[j].qrId == qrId
    ensures OutputAt(states, ops, j) == Expired
  {
    RunSound(states, ops, i);
    LifeSteps(states[i], ops[i], qrId);
    OverForGood(states, ops, qrId, i + 1, j);
    RunSound(states, ops, j);
    LifeSteps(states[j], ops[j], qrId);
  }

  /** A token is delivered at most once per session. */
  lemma {:induction false} DeliveredAtMostOnce(states: seq<State>, ops: seq<Operation>, qrId: string, i: nat, j: nat)
    requires Run(states, ops) && Delivers(states, ops, i, qrId) && Delivers(states, ops, j, qrId)
    ensures i == j
  {
    if i < j {
      ExpiredAfterDelivery(states, ops, qrId, i, j);
    } else if j < i {
      ExpiredAfterDelivery(states, ops, qrId, j, i);
    }
  }

  /** i started the session with the given secret. */
  predicate StartedAt(ops: seq<Operation>, qrId: string, i: nat, secret: string) {
    i < |ops| && ops[i] == Start(qrId, secret)
  }

  /** k is the first accepted approval of the session. */
  ghost predicate FirstApproval(states: seq<State>, ops: seq<Operation>, qrId: string, k: nat, auth: Auth)
    requires |states| == |ops| + 1
  {
    && k < |ops| && ops[k] == Approve(qrId, auth) && OutputAt(states, ops, k) == Accepted
    && forall i: nat :: i < |ops| && ops[i].Approve? && ops[i].qrId == qrId && OutputAt(states, ops, i) == Accepted ==> i == k
  }

  /** How a live session came to be: started with its secret 300 seconds before its deadline. */
  lemma {:induction false} LivesFromStart(states: seq<State>, ops: seq<Operation>, qrId: string, n: nat) returns (i: nat)
    requires Run(states, ops) && n < |states| && LifeOf(states[n], qrId) != Unborn && LifeOf(states[n], qrId) != Over
    ensures i < n && StartedAt(ops, qrId, i, LifeOf(states[n], qrId).secret)
    ensures LifeOf(states[n], qrId).deadline == states[i].now + TTL_SECONDS
  {
    RunSound(states, ops, n - 1);
    LifeSteps(states[n - 1], ops[n - 1], qrId);
    if ops[n - 1].Start? && ops[n - 1].qrId == qrId {
      i := n - 1;
    } else {
      i := LivesFromStart(states, ops, qrId, n - 1);
    }
  }

  /** A granted session was approved once, while open, with the token it now holds. */
  lemma {:induction false} GrantedByApproval(states: seq<State>, ops: seq<Operation>, qrId: string, n: nat) returns (k: nat)
    requires Run(states, ops) && n < |states| && LifeOf(states[n], qrId).Granted?
    ensures k < n && ops[k] == Approve(qrId, LifeOf(states[n], qrId).auth) && OutputAt(states, ops, k) == Accepted
  {
    RunSound(states, ops, n - 1);
    LifeSteps(states[n - 1], ops[n - 1], qrId);
    if LifeOf(states[n - 1], qrId).Granted? {
      k := GrantedByApproval(states, ops, qrId, n - 1);
    } else {
      k := n - 1;
    }
  }

  /** Past its approval a session is granted or over, so no second approval is accepted. */
  lemma {:induction false} ApprovedOnce(states: seq<State>, ops: seq<Operation>, qrId: string, k: nat, n: nat)
    requires Run(states, ops) && k < n < |states|
    requires k < |ops| && ops[k].Approve? && ops[k].qrId == qrId && OutputAt(states, ops, k) == Accepted
    ensures LifeOf(states[n], qrId).Granted? || LifeOf(states[n], qrId) == Over
  {
    RunSound(states, ops, n - 1);
    LifeSteps(states[n - 1], ops[n - 1], qrId);
    if k < n - 1 { ApprovedOnce(states, ops, qrId, k, n - 1); }
  }

  /**
   * A delivered token was handed to the holder of the secret the session was started with, after an approval,
   * and it is the token of the session's one accepted approval.
   */
  lemma {:induction false} DeliveryIsEarned(states: seq<State>, ops: seq<Operation>, qrId: string, j: nat)
    requires Run(states, ops) && Delivers(states, ops, j, qrId)
    ensures exists i: nat, k: nat :: i < k < j && StartedAt(ops, qrId, i, ops[j].secret)
                           && FirstApproval(states, ops, qrId, k, OutputAt(states, ops, j).auth)
  {
    RunSound(states, ops, j);
    LifeSteps(states[j], ops[j], qrId);
    var i := LivesFromStart(states, ops, qrId, j);
    var k := GrantedByApproval(states, ops, qrId, j);
    RunSound(states, ops, k);
    LifeSteps(states[k], ops[k], qrId);
    var i' := LivesFromStart(states, ops, qrId, k);
    StartedOnce(states, ops, qrId, i, i');
    forall n: nat | n < |ops| && ops[n].Approve? && ops[n].qrId == qrId && OutputAt(states, ops, n) == Accepted
      ensures n == k
    {
      RunSound(states, ops, n);
      LifeSteps(states[n], ops[n], qrId);
      if k < n {
        ApprovedOnce(states, ops, qrId, k, n);
      } else if n < k {
        ApprovedOnce(states, ops, qrId, n, k);
      }
    }
    assert FirstApproval(states, ops, qrId, k, OutputAt(states, ops, j).auth);
  }

  lemma {:induction false} IssuedStays(states: seq<State>, ops: seq<Operation>, qrId: string, i: nat, j: nat)
    requires Run(states, ops) && i <= j < |states| && qrId in states[i].issued
    ensures qrId in states[j].issued
  {
    if i < j { IssuedStays(states, ops, qrId, i, j - 1); }
  }

  lemma {:induction false} StartedOnce(states: seq<State>, ops: seq<Operation>, qrId: string, i: nat, j: nat)
    requires Run(states, ops) && i < |ops| && j < |ops|
    requires ops[i].Start? && ops[i].qrId == qrId && ops[j].Start? && ops[j].qrId == qrId
    ensures i == j
  {
    if i < j {
      IssuedStays(states, ops, qrId, i + 1, j);
    } else if j < i {
      IssuedStays(states, ops, qrId, j + 1, i);
    }
  }

  /** Approval never moves the deadline: while a session lives it is that of its start, and from then on it is over. */
  lemma {:induction false} DeadlineIsFixed(states: seq<State>, ops: seq<Operation>, qrId: string, i: nat, n: nat)
    requires Run(states, ops) && i < n < |states| && ops[i].Start? && ops[i].qrId == qrId
    ensures LifeOf(states[n], qrId) != Unborn
    ensures LifeOf(states[n], qrId) != Over ==> LifeOf(states[n], qrId).deadline == states[i].now + TTL_SECONDS
    ensures states[i].now + TTL_SECONDS <= states[n].now ==> LifeOf(states[n], qrId) == Over
  {
    IssuedStays(states, ops, qrId, i + 1, n);
    if LifeOf(states[n], qrId) != Over {
      var i' := LivesFromStart(states, ops, qrId, n);
      StartedOnce(states, ops, qrId, i, i');
    }
  }

  // ---- What every answer is, by the operations before it ----

  /** Approval k is the first one asked for after the session's start at i. */
  predicate FirstAsked(ops: seq<Operation>, qrId: string, i: int, k: int) {
    && 0 <= i < k < |ops| && ops[k].Approve? && ops[k].qrId == qrId
    && forall m :: i < m < k ==> !(ops[m].Approve? && ops[m].qrId == qrId)
  }

  /** The session's time is up or its token is gone by the time n operations were made. */
  ghost predicate Gone(states: seq<State>, ops: seq<Operation>, qrId: string, i: nat, n: nat)
    requires i < n < |states| == |ops| + 1
  {
    states[i].now + TTL_SECONDS <= states[n].now || exists d: nat :: i < d < n && Delivers(states, ops, d, qrId)
  }

  lemma {:induction false} LifeByHistory(states: seq<State>, ops: seq<Operation>, qrId: string, i: nat, n: nat)
    requires Run(states, ops) && i < n < |states| && ops[i].Start? && ops[i].qrId == qrId
    ensures Gone(states, ops, qrId, i, n) ==> LifeOf(states[n], qrId) == Over
    ensures !Gone(states, ops, qrId, i, n) ==> LivesAsAsked(states, ops, qrId, i, n)
  {
    var m := n - 1;
    RunSound(states, ops, m);
    LifeSteps(states[m], ops[m], qrId);
    assert states[n] == Do(states[m], ops[m]).0;
    if i < m {
      LifeByHistory(states, ops, qrId, i, m);
      IssuedStays(states, ops, qrId, i + 1, m);
      if Gone(states, ops, qrId, i, m) {
        NowGrows(states[m], ops[m]);
      } else {
        StepByHistory(states, ops, qrId, i, m);
      }
    }
  }

  lemma {:induction false} NowGrows(s: State, op: Operation)
    ensures s.now <= Do(s, op).0.now
  {
  }

  /** Asked for and granted, or not asked for and open. */
  ghost predicate LivesAsAsked(states: seq<State>, ops: seq<Operation>, qrId: string, i: nat, n: nat)
    requires i < n < |states| == |ops| + 1 && ops[i].Start?
  {
    && (forall k :: FirstAsked(ops, qrId, i, k) && k < n ==>
          LifeOf(states[n], qrId) == Granted(ops[i].secret, states[i].now + TTL_SECONDS, ops[k].auth))
    && ((forall k :: i < k < n ==> !(ops[k].Approve? && ops[k].qrId == qrId)) ==>
          LifeOf(states[n], qrId) == Open(ops[i].secret, states[i].now + TTL_SECONDS))
  }

  lemma {:induction false} FirstOrNone(ops: seq<Operation>, qrId: string, i: nat, n: nat) returns (k: nat)
    requires i < n <= |ops|
    ensures k == n || (k < n && FirstAsked(ops, qrId, i, k))
    ensures k == n ==> forall m :: i < m < n ==> !(ops[m].Approve? && ops[m].qrId == qrId)
  {
    k := i + 1;
    while k < n && !(ops[k].Approve? && ops[k].qrId == qrId)
      invariant i < k <= n
      invariant forall m :: i < m < k ==> !(ops[m].Approve? && ops[m].qrId == qrId)
    {
      k := k + 1;
    }
  }

  lemma {:induction false} StepByHistory(states: seq<State>, ops: seq<Operation>, qrId: string, i: nat, m: nat)
    requires Run(states, ops) && i < m < |ops| && ops[i].Start? && ops[i].qrId == qrId
    requires !Gone(states, ops, qrId, i, m) && LivesAsAsked(states, ops, qrId, i, m)
    ensures Gone(states, ops, qrId, i, m + 1) ==> LifeOf(states[m + 1], qrId) == Over
    ensures !Gone(states, ops, qrId, i, m + 1) ==> LivesAsAsked(states, ops, qrId, i, m + 1)
  {
    RunSound(states, ops, m);
    LifeSteps(states[m], ops[m], qrId);
    assert states[m + 1] == Do(states[m], ops[m]).0;
    IssuedStays(states, ops, qrId, i + 1, m);
    assert !(ops[m].Start? && ops[m].qrId == qrId);
    var k := FirstOrNone(ops, qrId, i, m);
    assert k == m ==> LifeOf(states[m], qrId) == Open(ops[i].secret, states[i].now + TTL_SECONDS);
    assert k < m ==> LifeOf(states[m], qrId) == Granted(ops[i].secret, states[i].now + TTL_SECONDS, ops[k].auth);
    if Delivers(states, ops, m, qrId) {
      assert Gone(states, ops, qrId, i, m + 1);
    } else {
      assert forall d: nat :: i < d < m + 1 && Delivers(states, ops, d, qrId) ==> i < d < m;
    }
    forall j | FirstAsked(ops, qrId, i, j) && j < m + 1
      ensures j == k
    {
    }
  }

  /**
   * What a poll, a page view and an approval answer, by nothing but what was asked before and the clock. Before the
   * deadline of its start and until its token is delivered a session that was not approved is pending; from the first
   * approval on it holds that approval's token, and only the start's secret gets at it. Otherwise it is expired.
   */
  lemma {:induction false} AnswersExact(states: seq<State>, ops: seq<Operation>, qrId: string, i: nat, n: nat)
    requires Run(states, ops) && i < n < |ops| && ops[i].Start? && ops[i].qrId == qrId
    requires (ops[n].Status? || ops[n].Info? || ops[n].Approve?) && ops[n].qrId == qrId
    ensures Gone(states, ops, qrId, i, n) ==> OutputAt(states, ops, n) == Expired
    ensures !Gone(states, ops, qrId, i, n) ==>
              var left := states[i].now + TTL_SECONDS - states[n].now;
              && (ops[n].Status? && ops[n].secret != ops[i].secret ==> OutputAt(states, ops, n) == Unauthorized)
              && (forall k :: FirstAsked(ops, qrId, i, k) && k < n ==>
                    && (ops[n].Status? && ops[n].secret == ops[i].secret ==> OutputAt(states, ops, n) == Delivered(ops[k].auth))
                    && (ops[n].Info? ==> OutputAt(states, ops, n) == Shown(true, left))
                    && (ops[n].Approve? ==> OutputAt(states, ops, n) == Already))
              && ((forall k :: i < k < n ==> !(ops[k].Approve? && ops[k].qrId == qrId)) ==>
                    && (ops[n].Status? && ops[n].secret == ops[i].secret ==> OutputAt(states, ops, n) == StillPending)
                    && (ops[n].Info? ==> OutputAt(states, ops, n) == Shown(false, left))
                    && (ops[n].Approve? ==> OutputAt(states, ops, n) == Accepted))
  {
    RunSound(states, ops, n);
    LifeSteps(states[n], ops[n], qrId);
    LifeByHistory(states, ops, qrId, i, n);
    IssuedStays(states, ops, qrId, i + 1, n);
    ShowOfLife(states[n], qrId);
    var k := FirstOrNone(ops, qrId, i, n);
    assert forall j :: FirstAsked(ops, qrId, i, j) && j < n ==> j == k;
  }

  lemma {:induction false} ShowOfLife(s: State, qrId: string)
    requires Sound(s)
    ensures var life := LifeOf(s, qrId);
            Do(s, Info(qrId)).1 == match life
                                   case Open(_, deadline) => Shown(false, deadline - s.now)
                                   case Granted(_, deadline, _) => Shown(true, deadline - s.now)
                                   case _ => Expired
  {
  }

  // ---- The service over the store ----

  class KeyStore {
    var keys: map<string, Entry>
    var now: int
    ghost var issued: set<string>

    constructor ()
      ensures Value() == State(map[], 0, {})
    {
      keys, now, issued := map[], 0, {};
    }

    ghost function Value(): State
      reads this
    {
      State(keys, now, issued)
    }

    method Read(key: string) returns (session: Option<Session>, ttl: int)
      ensures session == Get(Value(), key) && ttl == Ttl(Value(), key)
    {
      if key in keys && now < keys[key].deadline {
        return Some(keys[key].session), keys[key].deadline - now;
      }
      return None, -2;
    }

    method Write(key: string, session: Session, seconds: int)
      modifies this`keys
      ensures Value() == SetKey(old(Value()), key, session, seconds)
    {
      keys := keys[key := Entry(session, now + seconds)];
    }

    method Remove(key: string)
      modifies this`keys
      ensures keys == old(keys) - {key}
    {
      keys := keys - {key};
    }
  }

  class QrLoginService {
    const redis: KeyStore

    constructor (redis: KeyStore)
      ensures this.redis == redis
    {
      this.redis := redis;
    }

    /** qrId and secret are the two random strings the service draws. */
    method StartSession(qrId: string, secret: string) returns (out: Output)
      modifies redis
      ensures (redis.Value(), out) == Do(old(redis.Value()), Start(qrId, secret))
    {
      redis.Write(qrId, Pending(secret), TTL_SECONDS);
      redis.issued := redis.issued + {qrId};
      return Started(TTL_SECONDS);
    }

    method Poll(qrId: string, secret: string) returns (out: Output)
      modifies redis
      ensures (redis.Value(), out) == Do(old(redis.Value()), Status(qrId, secret))
    {
      var session, _ := redis.Read(qrId);
      if session.None? {
        return Expired;
      }
      if session.value.secret != secret {
        return Unauthorized;
      }
      if session.value.Approved? {
        redis.Remove(qrId);
        return Delivered(session.value.auth);
      }
      return StillPending;
    }

    method Show(qrId: string) returns (out: Output)
      modifies redis
      ensures (redis.Value(), out) == Do(old(redis.Value()), Info(qrId))
    {
      var session, ttl := redis.Read(qrId);
      if session.None? {
        return Expired;
      }
      return Shown(session.value.Approved?, if ttl > 0 then ttl else 0);
    }

    method ApproveSession(qrId: string, auth: Auth) returns (out: Output)
      modifies redis
      ensures (redis.Value(), out) == Do(old(redis.Value()), Approve(qrId, auth))
    {
      var session, ttl := redis.Read(qrId);
      if session.None? {
        return Expired;
      }
      if session.value.Approved? {
        return Already;
      }
      redis.Write(qrId, Approved(session.value.secret, auth), if ttl > 0 then ttl else TTL_SECONDS);
      return Accepted;
    }
  }
}
