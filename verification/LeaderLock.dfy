/**
 * The feed leader lock (`feed/lock.py`): one shared key with an expiry time, SET NX to acquire,
 * SET XX to renew, compare-and-delete to release. Times are integer milliseconds and a key is live
 * strictly before its expiry. Every instance has its own token, so an instance is its token here.
 */
module LeaderLock {
  import opened Common

  datatype Entry = Entry(owner: nat, expiresAt: int)

  predicate Live(key: Option<Entry>, now: int) { key.Some? && now < key.value.expiresAt }

  predicate OwnsLive(key: Option<Entry>, now: int, token: nat) {
    Live(key, now) && key.value.owner == token
  }

  // ----- The effect of one command on the key -----

  function AfterSetNx(key: Option<Entry>, now: int, token: nat, ttl: int): Option<Entry> {
    if Live(key, now) then key else Some(Entry(token, now + ttl))
  }

  function AfterSetXx(key: Option<Entry>, now: int, token: nat, ttl: int): Option<Entry> {
    if Live(key, now) then Some(Entry(token, now + ttl)) else key
  }

  function AfterRelease(key: Option<Entry>, now: int, token: nat): Option<Entry> {
    if OwnsLive(key, now, token) then None else key
  }

  class RedisKey {
    var entry: Option<Entry>

    constructor ()
      ensures entry == None
    {
      entry := None;
    }

    method SetNx(now: int, token: nat, ttl: int) returns (ok: bool)
      modifies this
      ensures entry == AfterSetNx(old(entry), now, token, ttl)
      ensures ok <==> !Live(old(entry), now)
    {
      ok := !(entry.Some? && now < entry.value.expiresAt);
      if ok {
        entry := Some(Entry(token, now + ttl));
      }
    }

    method SetXx(now: int, token: nat, ttl: int) returns (ok: bool)
      modifies this
      ensures entry == AfterSetXx(old(entry), now, token, ttl)
      ensures ok <==> Live(old(entry), now)
    {
      ok := entry.Some? && now < entry.value.expiresAt;
      if ok {
        entry := Some(Entry(token, now + ttl));
      }
    }

    method CompareAndDelete(now: int, token: nat)
      modifies this
      ensures entry == AfterRelease(old(entry), now, token)
    {
      if entry.Some? && now < entry.value.expiresAt && entry.value.owner == token {
        entry := None;
      }
    }
  }

  /** The renewal task an instance holds: none yet, running, ended by itself, or cancelled. */
  datatype RenewTask = NoTask | Running | Finished | Cancelled

  /** One feed instance. */
  class SingleInstanceLock {
    const token: nat
    const ttl: int
    var isLeader: bool
    var renewTask: RenewTask

    constructor (token: nat, ttl: int)
      ensures this.token == token && this.ttl == ttl && !isLeader && renewTask == NoTask
    {
      this.token, this.ttl, isLeader, renewTask := token, ttl, false, NoTask;
    }

    ghost function AsMember(): Member
      reads this
    {
      Member(true, isLeader, renewTask)
    }

    method Acquire(redis: RedisKey, now: int) returns (acquired: bool)
      modifies this, redis
      ensures redis.entry == AfterSetNx(old(redis.entry), now, token, ttl)
      ensures AsMember() == AfterAcquire(old(AsMember()), Live(old(redis.entry), now))
      ensures acquired == isLeader && (isLeader <==> !Live(old(redis.entry), now))
      ensures isLeader ==> renewTask == Running && redis.entry == Some(Entry(token, now + ttl))
    {
      var ok := redis.SetNx(now, token, ttl);
      isLeader := ok;
      if isLeader {
        renewTask := Running;
      }
      return isLeader;
    }

    /** One turn of a renewal loop, after its sleep; `fails` says that the command raised. */
    method RenewOnce(redis: RedisKey, now: int, fails: bool)
      requires renewTask == Running
      modifies this, redis
      ensures redis.entry == if fails then old(redis.entry) else AfterSetXx(old(redis.entry), now, token, ttl)
      ensures AsMember() == AfterRenew(old(AsMember()), fails || Live(old(redis.entry), now))
      ensures isLeader <==> old(isLeader) && (fails || Live(old(redis.entry), now))
      ensures renewTask == if isLeader then Running else Finished
    {
      if !fails {
        var ok := redis.SetXx(now, token, ttl);
        if !ok {
          isLeader := false;
        }
      }
      if !isLeader {
        renewTask := Finished;
      }
    }

    /**
     * Release cancels the renewal task and awaits it. Awaiting a cancelled task raises `CancelledError`, which
     * is no `Exception` and so is not suppressed: the call ends there, with the key and the flag as they were.
     * An error of the script itself is suppressed (`fails`).
     */
    method Release(redis: RedisKey, now: int, fails: bool) returns (raised: bool)
      modifies this, redis
      ensures raised <==> Interrupted(old(AsMember()))
      ensures redis.entry == if raised || fails then old(redis.entry) else AfterRelease(old(redis.entry), now, token)
      ensures AsMember() == AfterStop(old(AsMember()))
    {
      if renewTask == Running {
        renewTask := Cancelled;
      }
      if renewTask == Cancelled {
        return true;
      }
      if !fails {
        redis.CompareAndDelete(now, token);
      }
      isLeader := false;
      return false;
    }
  }

  // ----- The cluster as a state machine -----

  datatype Member = Member(alive: bool, leader: bool, task: RenewTask)

  function AfterAcquire(m: Member, taken: bool): Member {
    if taken then m.(leader := false) else m.(leader := true, task := Running)
  }

  function AfterRenew(m: Member, kept: bool): Member {
    var leader := m.leader && kept;
    Member(m.alive, leader, if leader then m.task else Finished)
  }

  /** A release with a task to await that was, or has just been, cancelled. */
  predicate Interrupted(m: Member) { m.task == Running || m.task == Cancelled }

  function AfterStop(m: Member): Member {
    if Interrupted(m) then m.(task := Cancelled) else m.(leader := false)
  }

  datatype Cluster = Cluster(now: int, key: Option<Entry>, members: seq<Member>)

  datatype Step =
    | Tick(d: nat)
    | Acquire(i: nat)
    | Renew(i: nat)
    | RenewError(i: nat)
    | Release(i: nat)
    | ReleaseError(i: nat)
    | Crash(i: nat)

  function Start(n: nat): Cluster { Cluster(0, None, seq(n, _ => Member(true, false, NoTask))) }

  /** A standby polls `acquire` until it leads; renewals come from its loop; a dead process does nothing. */
  predicate Enabled(c: Cluster, s: Step) {
    match s
    case Tick(_) => true
    case Acquire(i) => i < |c.members| && c.members[i].alive && !c.members[i].leader
    case Renew(i) => i < |c.members| && c.members[i].alive && c.members[i].task == Running
    case RenewError(i) => i < |c.members| && c.members[i].alive && c.members[i].task == Running
    case Release(i) => i < |c.members| && c.members[i].alive
    case ReleaseError(i) => i < |c.members| && c.members[i].alive
    case Crash(i) => i < |c.members| && c.members[i].alive
  }

  function Next(c: Cluster, s: Step, ttl: int): Cluster
    requires Enabled(c, s)
  {
    match s
    case Tick(d) => c.(now := c.now + d)
    case Acquire(i) =>
      c.(key := AfterSetNx(c.key, c.now, i, ttl),
         members := c.members[i := AfterAcquire(c.members[i], Live(c.key, c.now))])
    case Renew(i) =>
      c.(key := AfterSetXx(c.key, c.now, i, ttl),
         members := c.members[i := AfterRenew(c.members[i], Live(c.key, c.now))])
    case RenewError(i) => c.(members := c.members[i := AfterRenew(c.members[i], true)])
    case Release(i) =>
      c.(key := if Interrupted(c.members[i]) then c.key else AfterRelease(c.key, c.now, i),
         members := c.members[i := AfterStop(c.members[i])])
    case ReleaseError(i) => c.(members := c.members[i := AfterStop(c.members[i])])
    case Crash(i) => c.(members := c.members[i := Member(false, false, NoTask)])
  }

  predicate Runnable(c: Cluster, steps: seq<Step>, ttl: int)
    decreases |steps|
  {
    |steps| == 0 || (Enabled(c, steps[0]) && Runnable(Next(c, steps[0], ttl), steps[1..], ttl))
  }

  function Run(c: Cluster, steps: seq<Step>, ttl: int): Cluster
    requires Runnable(c, steps, ttl)
    decreases |steps|
  {
    if |steps| == 0 then c else Run(Next(c, steps[0], ttl), steps[1..], ttl)
  }

  lemma RunCons(c: Cluster, s: Step, rest: seq<Step>, ttl: int)
    ensures Runnable(c, [s] + rest, ttl) <==> Enabled(c, s) && Runnable(Next(c, s, ttl), rest, ttl)
    ensures Runnable(c, [s] + rest, ttl) ==> Run(c, [s] + rest, ttl) == Run(Next(c, s, ttl), rest, ttl)
  {
    assert ([s] + rest)[1..] == rest;
  }

  predicate Leads(c: Cluster, i: nat) { i < |c.members| && c.members[i].alive && c.members[i].leader }

  /** Every instance that believes it leads holds the live key. */
  ghost predicate LeadersOwnKey(c: Cluster) { forall i :: Leads(c, i) ==> OwnsLive(c.key, c.now, i) }

  ghost predicate AtMostOneLeader(c: Cluster) { forall i, j :: Leads(c, i) && Leads(c, j) ==> i == j }

  /** Bookkeeping that every step keeps: an instance leads exactly while its renewal task runs or after it was
      cancelled by a release, so only a leader has a renewal loop. */
  ghost predicate OneLoopPerLeader(c: Cluster) {
    forall i :: 0 <= i < |c.members| ==> (c.members[i].leader <==> Interrupted(c.members[i]))
  }

  /** A step is timely if it does not let the key expire under a live leader. */
  ghost predicate Timely(c: Cluster, s: Step) {
    s.Tick? && (exists i :: Leads(c, i)) ==> Live(c.key, c.now + s.d)
  }

  ghost predicate TimelyRun(c: Cluster, steps: seq<Step>, ttl: int)
    requires Runnable(c, steps, ttl)
    decreases |steps|
  {
    |steps| == 0 || (Timely(c, steps[0]) && TimelyRun(Next(c, steps[0], ttl), steps[1..], ttl))
  }

  /** Every state of the run is one in which the leaders own the key. */
  ghost predicate SafeRun(c: Cluster, steps: seq<Step>, ttl: int)
    requires Runnable(c, steps, ttl)
    decreases |steps|
  {
    LeadersOwnKey(c) && (|steps| == 0 || SafeRun(Next(c, steps[0], ttl), steps[1..], ttl))
  }

  lemma LoopsKept(c: Cluster, s: Step, ttl: int)
    requires Enabled(c, s) && OneLoopPerLeader(c)
    ensures OneLoopPerLeader(Next(c, s, ttl))
  {}

  /** From a safe state a step leads to a safe state exactly when it is timely. */
  lemma StepSafeIffTimely(c: Cluster, s: Step, ttl: int)
    requires ttl > 0 && Enabled(c, s) && OneLoopPerLeader(c) && LeadersOwnKey(c)
    ensures LeadersOwnKey(Next(c, s, ttl)) <==> Timely(c, s)
  {
    var c' := Next(c, s, ttl);
    if s.Tick? {
      if i :| Leads(c, i) {
        assert Leads(c', i);
      }
      forall i | Leads(c', i) && Timely(c, s) ensures OwnsLive(c'.key, c'.now, i) {
        assert Leads(c, i);
      }
    } else {
      assert s.Renew? || s.RenewError? ==> Leads(c, s.i);
      forall i | Leads(c', i) ensures OwnsLive(c'.key, c'.now, i) {
        if i != s.i {
          assert Leads(c, i);
        } else if !s.Acquire? {
          assert Leads(c, i);
        }
      }
    }
  }

  /**
   * Main result: in any run of the protocol, every leader owns the stored token in every state if and
   * only if time never passes the expiry of the key while some live instance leads.
   */
  lemma {:induction false} SafeIffTimely(c: Cluster, steps: seq<Step>, ttl: int)
    requires ttl > 0 && OneLoopPerLeader(c) && LeadersOwnKey(c) && Runnable(c, steps, ttl)
    ensures SafeRun(c, steps, ttl) <==> TimelyRun(c, steps, ttl)
    decreases |steps|
  {
    if |steps| > 0 {
      var c' := Next(c, steps[0], ttl);
      StepSafeIffTimely(c, steps[0], ttl);
      LoopsKept(c, steps[0], ttl);
      if Timely(c, steps[0]) {
        SafeIffTimely(c', steps[1..], ttl);
      } else {
        assert !LeadersOwnKey(c');
      }
    }
  }

  /** So every timely run from the start has at most one leader at its end. */
  lemma {:induction false} TimelyRunHasOneLeader(c: Cluster, steps: seq<Step>, ttl: int)
    requires ttl > 0 && OneLoopPerLeader(c) && LeadersOwnKey(c) && Runnable(c, steps, ttl) && TimelyRun(c, steps, ttl)
    ensures LeadersOwnKey(Run(c, steps, ttl)) && AtMostOneLeader(Run(c, steps, ttl))
    decreases |steps|
  {
    if |steps| > 0 {
      StepSafeIffTimely(c, steps[0], ttl);
      LoopsKept(c, steps[0], ttl);
      TimelyRunHasOneLeader(Next(c, steps[0], ttl), steps[1..], ttl);
    }
  }

  // ----- Renewal does not compare the owner -----

  /** Leader 0 stalls past its expiry, 1 takes over, and 0's late renewal overwrites 1's key: both lead. */
  function LateRenewal(ttl: nat): seq<Step> {
    [Acquire(0)] + ([Tick(ttl)] + ([Acquire(1)] + ([Renew(0)] + [])))
  }

  /** Both instances keep renewing, well within the expiry time. */
  function RenewalRounds(n: nat, d: nat): seq<Step> {
    if n == 0 then [] else [Tick(d)] + ([Renew(0)] + ([Renew(1)] + RenewalRounds(n - 1, d)))
  }

  predicate BothLead(c: Cluster) {
    |c.members| == 2 && c.members == [Member(true, true, Running), Member(true, true, Running)] && Live(c.key, c.now)
  }

  lemma {:induction false} RoundsKeepBothLeading(c: Cluster, n: nat, d: nat, ttl: int)
    requires BothLead(c) && ttl > 0 && d as int < ttl && c.now + d < c.key.value.expiresAt
    ensures Runnable(c, RenewalRounds(n, d), ttl) && BothLead(Run(c, RenewalRounds(n, d), ttl))
    decreases n
  {
    if n > 0 {
      var c1 := Next(c, Tick(d), ttl);
      var c2 := Next(c1, Renew(0), ttl);
      var c3 := Next(c2, Renew(1), ttl);
      var rest := RenewalRounds(n - 1, d);
      RoundsKeepBothLeading(c3, n - 1, d, ttl);
      RunCons(c2, Renew(1), rest, ttl);
      RunCons(c1, Renew(0), [Renew(1)] + rest, ttl);
      RunCons(c, Tick(d), [Renew(0)] + ([Renew(1)] + rest), ttl);
    }
  }

  lemma TwoLeaders(ttl: nat)
    requires ttl > 0
    ensures Runnable(Start(2), LateRenewal(ttl), ttl) && BothLead(Run(Start(2), LateRenewal(ttl), ttl))
    ensures Run(Start(2), LateRenewal(ttl), ttl).key == Some(Entry(0, ttl + ttl))
    ensures Run(Start(2), LateRenewal(ttl), ttl).now == ttl
  {
    var c1 := Next(Start(2), Acquire(0), ttl);
    var c2 := Next(c1, Tick(ttl), ttl);
    var c3 := Next(c2, Acquire(1), ttl);
    var c4 := Next(c3, Renew(0), ttl);
    RunCons(c3, Renew(0), [], ttl);
    RunCons(c2, Acquire(1), [Renew(0)] + [], ttl);
    RunCons(c1, Tick(ttl), [Acquire(1)] + ([Renew(0)] + []), ttl);
    RunCons(Start(2), Acquire(0), [Tick(ttl)] + ([Acquire(1)] + ([Renew(0)] + [])), ttl);
    assert c4.members == [Member(true, true, Running), Member(true, true, Running)];
  }

  /** Without the timing assumption two leaders arise, and punctual renewals then keep both for ever. */
  lemma SplitBrainPersists(ttl: nat, d: nat, n: nat)
    requires 0 < d < ttl
    ensures Runnable(Start(2), LateRenewal(ttl), ttl)
    ensures var c := Run(Start(2), LateRenewal(ttl), ttl);
      Runnable(c, RenewalRounds(n, d), ttl) && BothLead(Run(c, RenewalRounds(n, d), ttl))
  {
    TwoLeaders(ttl);
    RoundsKeepBothLeading(Run(Start(2), LateRenewal(ttl), ttl), n, d, ttl);
  }

  // ----- Release and take-over -----

  /** No release ever touches another instance's lock, whether or not it is interrupted. */
  lemma ReleaseRemovesOnlyOwnLock(c: Cluster, i: nat, ttl: int)
    requires Enabled(c, Release(i))
    ensures var c' := Next(c, Release(i), ttl);
      && (c'.key != c.key ==> OwnsLive(c.key, c.now, i))
      && (forall j :: j != i && OwnsLive(c.key, c.now, j) ==> OwnsLive(c'.key, c'.now, j))
  {}

  /** A release has its effect if it gives up leadership and whatever key the instance owns. */
  predicate Released(c: Cluster, i: nat) { !Leads(c, i) && !OwnsLive(c.key, c.now, i) }

  /** A release has its effect exactly when there is no renewal task to cancel, that is, exactly when the caller
      does not lead. A leader's release leaves both its key and its flag in place. */
  lemma ReleaseWorksIff(c: Cluster, i: nat, ttl: int)
    requires Enabled(c, Release(i)) && OneLoopPerLeader(c)
    ensures Released(Next(c, Release(i), ttl), i) <==> !Interrupted(c.members[i])
    ensures Released(Next(c, Release(i), ttl), i) <==> !Leads(c, i)
    ensures Leads(c, i) ==> Next(c, Release(i), ttl).key == c.key && Leads(Next(c, Release(i), ttl), i)
  {}

  /** A live instance owns the live key only while it leads. */
  ghost predicate OnlyLeadersOwn(c: Cluster) {
    forall i: nat :: i < |c.members| && c.members[i].alive && OwnsLive(c.key, c.now, i) ==> c.members[i].leader
  }

  lemma OnlyLeadersOwnKept(c: Cluster, s: Step, ttl: int)
    requires Enabled(c, s) && OneLoopPerLeader(c) && OnlyLeadersOwn(c)
    ensures OnlyLeadersOwn(Next(c, s, ttl))
  {}

  /** No step of a run is a release that changes the key. */
  ghost predicate ReleasesAreIdle(c: Cluster, steps: seq<Step>, ttl: int)
    requires Runnable(c, steps, ttl)
    decreases |steps|
  {
    |steps| == 0 ||
    ((steps[0].Release? ==> Next(c, steps[0], ttl).key == c.key)
      && ReleasesAreIdle(Next(c, steps[0], ttl), steps[1..], ttl))
  }

  /** So over whole runs from the start no release ever frees the key: it is only ever given up by expiring. */
  lemma {:induction false} ReleaseNeverFreesKey(c: Cluster, steps: seq<Step>, ttl: int)
    requires OneLoopPerLeader(c) && OnlyLeadersOwn(c) && Runnable(c, steps, ttl)
    ensures ReleasesAreIdle(c, steps, ttl)
    decreases |steps|
  {
    if |steps| > 0 {
      LoopsKept(c, steps[0], ttl);
      OnlyLeadersOwnKept(c, steps[0], ttl);
      ReleaseNeverFreesKey(Next(c, steps[0], ttl), steps[1..], ttl);
    }
  }

  lemma StartIsSound(n: nat)
    ensures OneLoopPerLeader(Start(n)) && OnlyLeadersOwn(Start(n)) && LeadersOwnKey(Start(n))
  {}

  /** Every run of any number of fresh instances: the leaders own the key throughout if and only if it is timely, a
      timely one ends with at most one leader, and no release ever frees the key. */
  lemma RunsFromStart(n: nat, steps: seq<Step>, ttl: int)
    requires ttl > 0 && Runnable(Start(n), steps, ttl)
    ensures SafeRun(Start(n), steps, ttl) <==> TimelyRun(Start(n), steps, ttl)
    ensures TimelyRun(Start(n), steps, ttl) ==> AtMostOneLeader(Run(Start(n), steps, ttl))
    ensures ReleasesAreIdle(Start(n), steps, ttl)
  {
    StartIsSound(n);
    hide Start;
    SafeIffTimely(Start(n), steps, ttl);
    if TimelyRun(Start(n), steps, ttl) {
      TimelyRunHasOneLeader(Start(n), steps, ttl);
    }
    ReleaseNeverFreesKey(Start(n), steps, ttl);
  }

  ghost predicate NoLeader(c: Cluster) { forall i :: !Leads(c, i) }

  /** Standbys may poll, but every attempt meets a live key and fails. */
  predicate OnlyFailedAttempts(c: Cluster, steps: seq<Step>, ttl: int)
    requires Runnable(c, steps, ttl)
    decreases |steps|
  {
    |steps| == 0 ||
    ((steps[0].Acquire? ==> Live(c.key, c.now)) && OnlyFailedAttempts(Next(c, steps[0], ttl), steps[1..], ttl))
  }

  /** With no leader left, failed attempts and everything else leave the key as it is. */
  lemma {:induction false} KeyDecays(c: Cluster, steps: seq<Step>, ttl: int)
    requires OneLoopPerLeader(c) && NoLeader(c) && Runnable(c, steps, ttl) && OnlyFailedAttempts(c, steps, ttl)
    ensures var e := Run(c, steps, ttl);
      OneLoopPerLeader(e) && NoLeader(e) && (e.key == c.key || e.key == None) && e.now >= c.now
    decreases |steps|
  {
    if |steps| > 0 {
      var s := steps[0];
      assert s.Renew? || s.RenewError? ==> Leads(c, s.i);
      var c' := Next(c, s, ttl);
      forall i ensures !Leads(c', i) {
        assert !Leads(c, i);
      }
      LoopsKept(c, s, ttl);
      KeyDecays(c', steps[1..], ttl);
    }
  }

  /** After the last leader is gone, and however often standbys polled in vain, the first to try once the key has
      expired becomes the leader. */
  lemma TakeoverAfterExpiry(c: Cluster, steps: seq<Step>, ttl: int, j: nat)
    requires ttl > 0 && OneLoopPerLeader(c) && NoLeader(c) && Runnable(c, steps, ttl)
    requires OnlyFailedAttempts(c, steps, ttl)
    requires j < |Run(c, steps, ttl).members| && Run(c, steps, ttl).members[j].alive
    requires c.key.Some? ==> Run(c, steps, ttl).now >= c.key.value.expiresAt
    ensures var e := Run(c, steps, ttl);
      Enabled(e, Acquire(j)) && Leads(Next(e, Acquire(j), ttl), j)
      && OwnsLive(Next(e, Acquire(j), ttl).key, e.now, j)
  {
    KeyDecays(c, steps, ttl);
    var e := Run(c, steps, ttl);
    assert !Leads(e, j);
  }

  // ----- Leaders without a key step down -----

  /** A renewal keeps a leader in place exactly while the key is live, and touches no other instance's flag; one that
      raised changes nobody. */
  lemma RenewalKeepsLeaderIff(c: Cluster, i: nat, ttl: int)
    requires Enabled(c, Renew(i))
    ensures Leads(Next(c, Renew(i), ttl), i) <==> Leads(c, i) && Live(c.key, c.now)
    ensures Leads(Next(c, RenewError(i), ttl), i) <==> Leads(c, i)
    ensures forall j :: j != i ==>
      && (Leads(Next(c, Renew(i), ttl), j) <==> Leads(c, j))
      && (Leads(Next(c, RenewError(i), ttl), j) <==> Leads(c, j))
  {}

  predicate NoAttempts(steps: seq<Step>) { forall k :: 0 <= k < |steps| ==> !steps[k].Acquire? }

  lemma AfterExpiryStep(c: Cluster, s: Step, ttl: int, i: nat)
    requires Enabled(c, s) && !s.Acquire? && !Live(c.key, c.now) && OneLoopPerLeader(c)
    ensures !Live(Next(c, s, ttl).key, Next(c, s, ttl).now)
    ensures Leads(Next(c, s, ttl), i) <==> Leads(c, i) && s != Renew(i) && s != Crash(i)
  {}

  /** Once the key has expired, and before anyone tries for it again, the instances that still lead are exactly those
      that led and have neither tried a renewal since nor crashed. */
  lemma {:induction false} ExpiredLeadersStepDown(c: Cluster, steps: seq<Step>, ttl: int, i: nat)
    requires OneLoopPerLeader(c) && Runnable(c, steps, ttl) && NoAttempts(steps) && !Live(c.key, c.now)
    ensures OneLoopPerLeader(Run(c, steps, ttl)) && !Live(Run(c, steps, ttl).key, Run(c, steps, ttl).now)
    ensures |Run(c, steps, ttl).members| == |c.members|
    ensures Leads(Run(c, steps, ttl), i) <==> Leads(c, i) && Renew(i) !in steps && Crash(i) !in steps
    decreases |steps|
  {
    hide Live, AfterSetXx, AfterRelease, AfterRenew, AfterStop, OneLoopPerLeader;
    if |steps| > 0 {
      var s := steps[0];
      AfterExpiryStep(c, s, ttl, i);
      LoopsKept(c, s, ttl);
      assert steps == [s] + steps[1..];
      ExpiredLeadersStepDown(Next(c, s, ttl), steps[1..], ttl, i);
    }
  }

  /** So when every leader has tried one renewal, or crashed, the lock is free and the next attempt takes it. */
  lemma FreeAfterRenewals(c: Cluster, steps: seq<Step>, ttl: int, j: nat)
    requires ttl > 0 && OneLoopPerLeader(c) && Runnable(c, steps, ttl) && NoAttempts(steps) && !Live(c.key, c.now)
    requires forall i: nat :: Leads(c, i) ==> Renew(i) in steps || Crash(i) in steps
    requires j < |Run(c, steps, ttl).members| && Run(c, steps, ttl).members[j].alive
    ensures var e := Run(c, steps, ttl);
      && NoLeader(e) && Enabled(e, Acquire(j)) && Leads(Next(e, Acquire(j), ttl), j)
      && AtMostOneLeader(Next(e, Acquire(j), ttl))
  {
    var e := Run(c, steps, ttl);
    forall i: nat ensures !Leads(e, i) {
      ExpiredLeadersStepDown(c, steps, ttl, i);
    }
    ExpiredLeadersStepDown(c, steps, ttl, j);
    assert !Leads(e, j);
    assert forall i :: i != j ==> !Leads(Next(e, Acquire(j), ttl), i) by {
      forall i | i != j ensures !Leads(Next(e, Acquire(j), ttl), i) {
        assert !Leads(e, i);
      }
    }
  }

  // ----- How many renewal errors the timing tolerates -----

  /** When each instance last attempted to set the key, and how many renewals have failed since the last success. */
  datatype Clock = Clock(lastTry: int, errors: nat)

  datatype Timed = Timed(c: Cluster, clocks: seq<Clock>)

  function NextTimed(t: Timed, s: Step, ttl: int): Timed
    requires |t.clocks| == |t.c.members| && Enabled(t.c, s)
  {
    Timed(Next(t.c, s, ttl),
          match s
          case Acquire(i) => t.clocks[i := Clock(t.c.now, 0)]
          case Renew(i) => t.clocks[i := Clock(t.c.now, 0)]
          case RenewError(i) => t.clocks[i := Clock(t.c.now, t.clocks[i].errors + 1)]
          case _ => t.clocks)
  }

  /** Every leader retries at most `period` after its last attempt and never fails more than `k` times in a row. */
  ghost predicate Punctual(t: Timed, s: Step, period: nat, k: nat)
    requires |t.clocks| == |t.c.members| && Enabled(t.c, s)
  {
    && (s.Tick? ==> forall i: nat :: Leads(t.c, i) ==> t.c.now + s.d <= t.clocks[i].lastTry + period)
    && (s.RenewError? ==> t.clocks[s.i].errors < k)
  }

  ghost predicate PunctualRun(t: Timed, steps: seq<Step>, ttl: int, period: nat, k: nat)
    requires |t.clocks| == |t.c.members| && Runnable(t.c, steps, ttl)
    decreases |steps|
  {
    |steps| == 0 ||
    (Punctual(t, steps[0], period, k) && PunctualRun(NextTimed(t, steps[0], ttl), steps[1..], ttl, period, k))
  }

  /** The key of a leader expires `ttl` after its last success, which is at most `errors` periods before its last
      attempt. */
  ghost predicate ClockInv(t: Timed, ttl: int, period: nat, k: nat) {
    && |t.clocks| == |t.c.members|
    && OneLoopPerLeader(t.c) && LeadersOwnKey(t.c)
    && (forall i: nat :: Leads(t.c, i) ==>
         && t.clocks[i].errors <= k
         && t.clocks[i].lastTry <= t.c.now <= t.clocks[i].lastTry + period
         && t.c.key.value.expiresAt >= t.clocks[i].lastTry - t.clocks[i].errors * period + ttl)
  }

  lemma ErrorsWithinBudget(errors: nat, k: nat, period: nat)
    requires errors <= k
    ensures (errors + 1) * period <= (k + 1) * period && (errors + 1) * period == errors * period + period
  {
    assert (k - errors) * period >= 0;
    assert (k + 1) * period == (errors + 1) * period + (k - errors) * period;
  }

  lemma PunctualStep(t: Timed, s: Step, ttl: int, period: nat, k: nat)
    requires ttl > 0 && (k + 1) * period < ttl && ClockInv(t, ttl, period, k)
    requires Enabled(t.c, s) && Punctual(t, s, period, k)
    ensures Timely(t.c, s) && ClockInv(NextTimed(t, s, ttl), ttl, period, k)
  {
    var t' := NextTimed(t, s, ttl);
    if i: nat :| Leads(t.c, i) {
      ErrorsWithinBudget(t.clocks[i].errors, k, period);
    }
    StepSafeIffTimely(t.c, s, ttl);
    LoopsKept(t.c, s, ttl);
    forall i: nat | Leads(t'.c, i)
      ensures t'.clocks[i].errors <= k && t'.clocks[i].lastTry <= t'.c.now <= t'.clocks[i].lastTry + period
      ensures t'.c.key.value.expiresAt >= t'.clocks[i].lastTry - t'.clocks[i].errors * period + ttl
    {
      assert s.Acquire? || Leads(t.c, i);
      if Leads(t.c, i) {
        assert OwnsLive(t.c.key, t.c.now, i);
        ErrorsWithinBudget(t.clocks[i].errors, t.clocks[i].errors, period);
      }
    }
  }

  lemma {:induction false} PunctualRunIsTimely(t: Timed, steps: seq<Step>, ttl: int, period: nat, k: nat)
    requires ttl > 0 && (k + 1) * period < ttl && ClockInv(t, ttl, period, k)
    requires Runnable(t.c, steps, ttl) && PunctualRun(t, steps, ttl, period, k)
    ensures TimelyRun(t.c, steps, ttl)
    decreases |steps|
  {
    if |steps| > 0 {
      PunctualStep(t, steps[0], ttl, period, k);
      PunctualRunIsTimely(NextTimed(t, steps[0], ttl), steps[1..], ttl, period, k);
    }
  }

  function StartTimed(n: nat): Timed { Timed(Start(n), seq(n, _ => Clock(0, 0))) }

  /** The leader's renewals fail `j` times in a row, one period apart; a period later the standby tries. */
  function FailingRenewals(j: nat, period: nat): seq<Step> {
    if j == 0 then [Tick(period)] + [Acquire(1)]
    else [Tick(period)] + ([RenewError(0)] + FailingRenewals(j - 1, period))
  }

  /** Instance 0 leads, instance 1 stands by, and `j` of the `k` tolerated errors are left. */
  ghost predicate LeaderAndStandby(t: Timed, k: nat, j: nat, expiresAt: int) {
    && t.c.members == [Member(true, true, Running), Member(true, false, NoTask)] && |t.clocks| == 2
    && t.c.key == Some(Entry(0, expiresAt))
    && t.clocks[0].lastTry == t.c.now && t.clocks[0].errors + j == k
  }

  /** The last period outlasts the key: the standby takes over while instance 0 still believes it leads. */
  lemma LastPeriodSplits(t: Timed, ttl: int, period: nat, k: nat, expiresAt: int)
    requires LeaderAndStandby(t, k, 0, expiresAt) && t.c.now + period >= expiresAt
    ensures Runnable(t.c, FailingRenewals(0, period), ttl)
    ensures PunctualRun(t, FailingRenewals(0, period), ttl, period, k)
    ensures !AtMostOneLeader(Run(t.c, FailingRenewals(0, period), ttl))
  {
    var t1 := NextTimed(t, Tick(period), ttl);
    var t2 := NextTimed(t1, Acquire(1), ttl);
    RunCons(t1.c, Acquire(1), [], ttl);
    RunCons(t.c, Tick(period), [Acquire(1)], ttl);
    assert [Acquire(1)] + [] == [Acquire(1)];
    assert FailingRenewals(0, period)[1..] == [Acquire(1)] && [Acquire(1)][1..] == [];
    assert Punctual(t, Tick(period), period, k) && Punctual(t1, Acquire(1), period, k);
    assert Leads(t2.c, 0) && Leads(t2.c, 1);
  }

  lemma {:induction false} FailingRenewalsSplit(t: Timed, j: nat, ttl: int, period: nat, k: nat, expiresAt: int)
    requires LeaderAndStandby(t, k, j, expiresAt) && t.c.now + (j + 1) * period >= expiresAt
    ensures Runnable(t.c, FailingRenewals(j, period), ttl)
    ensures PunctualRun(t, FailingRenewals(j, period), ttl, period, k)
    ensures !AtMostOneLeader(Run(t.c, FailingRenewals(j, period), ttl))
    decreases j
  {
    if j == 0 {
      LastPeriodSplits(t, ttl, period, k, expiresAt);
    } else {
      var steps, rest := FailingRenewals(j, period), FailingRenewals(j - 1, period);
      var t1 := NextTimed(t, Tick(period), ttl);
      var t2 := NextTimed(t1, RenewError(0), ttl);
      assert (j + 1) * period == period + j * period;
      FailingRenewalsSplit(t2, j - 1, ttl, period, k, expiresAt);
      RunCons(t1.c, RenewError(0), rest, ttl);
      RunCons(t.c, Tick(period), [RenewError(0)] + rest, ttl);
      assert steps[1..] == [RenewError(0)] + rest && steps[1..][1..] == rest;
      assert PunctualRun(t1, steps[1..], ttl, period, k) by {
        assert Punctual(t1, RenewError(0), period, k);
      }
      assert Punctual(t, Tick(period), period, k);
    }
  }

  /** No punctual run of any number of instances ends with two leaders. */
  ghost predicate Tolerates(ttl: int, period: nat, k: nat) {
    forall n: nat, steps: seq<Step> |
      Runnable(Start(n), steps, ttl) && PunctualRun(StartTimed(n), steps, ttl, period, k) ::
      AtMostOneLeader(Run(Start(n), steps, ttl))
  }

  /** No punctual run ends with a leader that does not own the key. */
  ghost predicate KeepsOwnership(ttl: int, period: nat, k: nat) {
    forall n: nat, steps: seq<Step> |
      Runnable(Start(n), steps, ttl) && PunctualRun(StartTimed(n), steps, ttl, period, k) ::
      LeadersOwnKey(Run(Start(n), steps, ttl))
  }

  lemma TolerableRunsAreSafe(ttl: int, period: nat, k: nat, n: nat, steps: seq<Step>)
    requires ttl > 0 && (k + 1) * period < ttl
    requires Runnable(Start(n), steps, ttl) && PunctualRun(StartTimed(n), steps, ttl, period, k)
    ensures LeadersOwnKey(Run(Start(n), steps, ttl)) && AtMostOneLeader(Run(Start(n), steps, ttl))
  {
    assert ClockInv(StartTimed(n), ttl, period, k);
    PunctualRunIsTimely(StartTimed(n), steps, ttl, period, k);
    TimelyRunHasOneLeader(Start(n), steps, ttl);
  }

  /** A punctual run with two leaders, when k + 1 periods reach the expiry time. */
  lemma SplitRun(ttl: int, period: nat, k: nat) returns (steps: seq<Step>)
    requires ttl > 0 && (k + 1) * period >= ttl
    ensures Runnable(Start(2), steps, ttl) && PunctualRun(StartTimed(2), steps, ttl, period, k)
    ensures !AtMostOneLeader(Run(Start(2), steps, ttl))
  {
    var t1 := NextTimed(StartTimed(2), Acquire(0), ttl);
    var rest := FailingRenewals(k, period);
    assert t1.c.members == [Member(true, true, Running), Member(true, false, NoTask)];
    FailingRenewalsSplit(t1, k, ttl, period, k, ttl);
    steps := [Acquire(0)] + rest;
    RunCons(Start(2), Acquire(0), rest, ttl);
    assert steps[1..] == rest;
  }

  /**
   * The timing tolerates `k` consecutive renewal errors, that is, no punctual run has two leaders and every
   * leader keeps the key, if and only if k + 1 renewal periods are shorter than the expiry time.
   */
  lemma ToleranceIsExact(ttl: int, period: nat, k: nat)
    requires ttl > 0
    ensures Tolerates(ttl, period, k) <==> (k + 1) * period < ttl
    ensures KeepsOwnership(ttl, period, k) <==> (k + 1) * period < ttl
  {
    if (k + 1) * period < ttl {
      forall n: nat, steps: seq<Step> |
        Runnable(Start(n), steps, ttl) && PunctualRun(StartTimed(n), steps, ttl, period, k)
        ensures LeadersOwnKey(Run(Start(n), steps, ttl)) && AtMostOneLeader(Run(Start(n), steps, ttl))
      {
        TolerableRunsAreSafe(ttl, period, k, n, steps);
      }
    } else {
      var steps := SplitRun(ttl, period, k);
      assert !LeadersOwnKey(Run(Start(2), steps, ttl));
    }
  }

  /** With the default 15 s expiry and 5 s renewal interval, one error is tolerated exactly while a turn of the loop
      takes less than 2.5 s on top of its sleep, and two errors in a row never are. */
  lemma DefaultTolerance(latency: nat)
    ensures Tolerates(15000, 5000 + latency, 1) <==> latency < 2500
    ensures !Tolerates(15000, 5000 + latency, 2)
  {
    hide Tolerates, KeepsOwnership;
    ToleranceIsExact(15000, 5000 + latency, 1);
    ToleranceIsExact(15000, 5000 + latency, 2);
  }
}
