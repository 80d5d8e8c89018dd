/**
 * The background particle system: an effect that, given a container,
 * schedules 50 staggered particle creations and a repeating one; each
 * particle is appended to the container and to an array, and removed from
 * both by its own timeout if it is still attached; the cleanup stops the
 * interval and detaches every listed particle.
 *
 * Timers are explicit: a list of pending timeouts (due time and task), the
 * interval's on/off flag and next due time, and a clock `now` that the
 * environment advances by firing the earliest pending timer.
 */
module ParticleSystem {

  const ParticleCount: nat := 50
  const StaggerMs: nat := 200
  const IntervalMs: nat := 600
  const LifespanMs: nat := 30000

  /** A particle `<div>`, known by its identity; each creation makes a fresh one. */
  type Particle = nat

  /** A pending `setTimeout` callback: `createParticle`, or the removal of one particle. */
  datatype Task = Spawn | Remove(p: Particle)

  datatype Timer = Timer(due: nat, task: Task)

  /** Where the effect's life stands: not yet run, run without a container, running, cleaned up. */
  datatype Phase = Before | NoContainer | Running | Cleaned

  /** No element occurs twice. */
  predicate NoDup(s: seq<Particle>) {
    forall i, j :: 0 <= i < j < |s| ==> s[i] != s[j]
  }

  function Elements(s: seq<Particle>): set<Particle> {
    set x | x in s
  }

  /** `s` without the elements of `drop`, the others in their order. */
  function Keep(s: seq<Particle>, drop: set<Particle>): seq<Particle> {
    if s == [] then []
    else (if s[0] in drop then [] else [s[0]]) + Keep(s[1..], drop)
  }

  /** `splice(i, 1)`: the entry at `i` removed, the others in their order. */
  function Splice<T>(s: seq<T>, i: nat): seq<T>
    requires i < |s|
  {
    s[..i] + s[i + 1..]
  }

  /** What `Keep` keeps is exactly what occurs in `s` and is not dropped. */
  lemma {:induction false} KeepMembers(s: seq<Particle>, drop: set<Particle>)
    ensures forall x :: x in Keep(s, drop) <==> x in s && x !in drop
  {
    if s != [] {
      KeepMembers(s[1..], drop);
      assert s == [s[0]] + s[1..];
    }
  }

  lemma KeepSingle(x: Particle, drop: set<Particle>)
    ensures Keep([x], drop) == if x in drop then [] else [x]
  {
    assert [x][1..] == [];
  }

  lemma {:induction false} KeepAppend(s: seq<Particle>, t: seq<Particle>, drop: set<Particle>)
    ensures Keep(s + t, drop) == Keep(s, drop) + Keep(t, drop)
  {
    if s != [] {
      assert (s + t)[1..] == s[1..] + t;
      KeepAppend(s[1..], t, drop);
    } else {
      assert s + t == t;
    }
  }

  /** Dropping `a` and then `b` is dropping both at once. */
  lemma {:induction false} KeepKeep(s: seq<Particle>, a: set<Particle>, b: set<Particle>)
    ensures Keep(Keep(s, a), b) == Keep(s, a + b)
  {
    if s != [] {
      KeepKeep(s[1..], a, b);
      var head := if s[0] in a then [] else [s[0]];
      KeepAppend(head, Keep(s[1..], a), b);
      if s[0] !in a {
        KeepSingle(s[0], b);
      }
    }
  }

  /** Dropping what does not occur changes nothing. */
  lemma {:induction false} KeepNone(s: seq<Particle>, drop: set<Particle>)
    requires forall k :: 0 <= k < |s| ==> s[k] !in drop
    ensures Keep(s, drop) == s
  {
    if s != [] {
      assert forall k :: 0 <= k < |s[1..]| ==> s[1..][k] == s[k + 1];
      KeepNone(s[1..], drop);
    }
  }

  /** Dropping every element leaves nothing. */
  lemma {:induction false} KeepAll(s: seq<Particle>, drop: set<Particle>)
    requires forall k :: 0 <= k < |s| ==> s[k] in drop
    ensures Keep(s, drop) == []
  {
    if s != [] {
      assert forall k :: 0 <= k < |s[1..]| ==> s[1..][k] == s[k + 1];
      KeepAll(s[1..], drop);
    }
  }

  lemma {:induction false} KeepNoDup(s: seq<Particle>, drop: set<Particle>)
    requires NoDup(s)
    ensures NoDup(Keep(s, drop))
  {
    if s != [] {
      var tail := s[1..];
      NoDupTail(s);
      KeepNoDup(tail, drop);
      KeepMembers(tail, drop);
      if s[0] !in drop {
        NoDupCons(s[0], Keep(tail, drop));
      }
    }
  }

  lemma NoDupTail(s: seq<Particle>)
    requires NoDup(s) && s != []
    ensures NoDup(s[1..]) && s[0] !in s[1..]
  {
    var tail := s[1..];
    forall i, j | 0 <= i < j < |tail| ensures tail[i] != tail[j] {
      assert tail[i] == s[i + 1] && tail[j] == s[j + 1];
    }
    forall k | 0 <= k < |tail| ensures tail[k] != s[0] {
      assert tail[k] == s[k + 1];
    }
  }

  lemma NoDupCons(x: Particle, t: seq<Particle>)
    requires NoDup(t) && x !in t
    ensures NoDup([x] + t)
  {
    var r := [x] + t;
    forall i, j | 0 <= i < j < |r| ensures r[i] != r[j] {
      assert r[j] == t[j - 1];
      if i > 0 {
        assert r[i] == t[i - 1];
      }
    }
  }

  /** Dropping a particle that occurs once leaves one entry fewer. */
  lemma KeepOneLess(s: seq<Particle>, p: Particle)
    requires NoDup(s) && p in s
    ensures |Keep(s, {p})| == |s| - 1
  {
    var i :| 0 <= i < |s| && s[i] == p;
    SpliceIsKeep(s, i);
  }

  /**
   * When the particle at `i` occurs nowhere else (as in a list without
   * duplicates), splicing out the entry at `i` removes that particle and
   * nothing else: one entry fewer, the rest in order.
   */
  lemma SpliceIsKeep(s: seq<Particle>, i: nat)
    requires i < |s| && forall k :: 0 <= k < |s| && k != i ==> s[k] != s[i]
    ensures Splice(s, i) == Keep(s, {s[i]})
    ensures |Splice(s, i)| == |s| - 1
  {
    var x, pre, post := s[i], s[..i], s[i + 1..];
    assert forall k :: 0 <= k < |pre| ==> pre[k] == s[k];
    assert forall k :: 0 <= k < |post| ==> post[k] == s[k + i + 1];
    KeepNone(pre, {x});
    KeepNone(post, {x});
    KeepSplit(pre, x, post, {x});
    assert s == pre + [x] + post;
  }

  lemma KeepSplit(pre: seq<Particle>, x: Particle, post: seq<Particle>, drop: set<Particle>)
    requires Keep(pre, drop) == pre && Keep(post, drop) == post && x in drop
    ensures Keep(pre + [x] + post, drop) == pre + post
  {
    KeepAppend(pre + [x], post, drop);
    KeepAppend(pre, [x], drop);
    KeepSingle(x, drop);
    assert pre + [] == pre;
  }

  /** `indexOf`: the first index of `x`, or -1 when it does not occur. */
  method IndexOf(s: seq<Particle>, x: Particle) returns (index: int)
    ensures -1 <= index < |s|
    ensures index == -1 <==> x !in s
    ensures 0 <= index ==> s[index] == x && x !in s[..index]
  {
    index := 0;
    while index < |s|
      invariant 0 <= index <= |s|
      invariant x !in s[..index]
    {
      if s[index] == x {
        return;
      }
      assert s[..index + 1] == s[..index] + [s[index]];
      index := index + 1;
    }
    assert s[..index] == s;
    index := -1;
  }

  /** The particles created before the counter reached `n`, in creation order: the k-th creation is particle k. */
  function Created(n: nat): seq<Particle>
  {
    seq(n, (i: nat) => i)
  }

  /** Each creation makes a new element, so no particle is created twice. */
  lemma CreatedNoDup(n: nat)
    ensures NoDup(Created(n))
  {
  }

  /**
   * The bookkeeping invariant over values: the array is the created
   * particles minus the expired ones, in creation order, and the container
   * holds the array's particles minus the ones the cleanup detached (before
   * cleanup: exactly the array).
   */
  ghost predicate Books(expired: set<Particle>, stale: set<Particle>,
                        particles: seq<Particle>, children: seq<Particle>, nextId: nat, cleaned: bool)
  {
    && (forall x :: x in expired ==> x < nextId)
    && (forall x :: x in stale ==> x < nextId)
    && particles == Keep(Created(nextId), expired)
    && children == Keep(particles, stale)
    && (!cleaned ==> stale == {})
  }

  /** Every attached particle has its removal pending, due 30000 ms after its creation. */
  ghost predicate Scheduled(children: seq<Particle>, bornAt: map<Particle, nat>, timeouts: seq<Timer>) {
    forall x :: x in children ==> x in bornAt && Timer(bornAt[x] + LifespanMs, Remove(x)) in timeouts
  }

  /** No pending timer is overdue. */
  ghost predicate Timed(now: nat, timeouts: seq<Timer>, intervalOn: bool, intervalDue: nat) {
    && (forall j :: 0 <= j < |timeouts| ==> now <= timeouts[j].due)
    && (intervalOn ==> now <= intervalDue)
  }

  /** Before cleanup the array and the container's children are the same list, without duplicates. */
  lemma BooksBeforeCleanup(expired: set<Particle>, particles: seq<Particle>, children: seq<Particle>, nextId: nat)
    requires Books(expired, {}, particles, children, nextId, false)
    ensures children == particles && NoDup(particles)
  {
    KeepNone(particles, {});
    CreatedNoDup(nextId);
    KeepNoDup(Created(nextId), expired);
  }

  /**
   * Whatever the state, neither the array nor the container holds a
   * particle twice.
   */
  lemma BooksNoDup(expired: set<Particle>, stale: set<Particle>,
                   particles: seq<Particle>, children: seq<Particle>, nextId: nat, cleaned: bool)
    requires Books(expired, stale, particles, children, nextId, cleaned)
    ensures NoDup(particles) && NoDup(children)
  {
    CreatedNoDup(nextId);
    KeepNoDup(Created(nextId), expired);
    KeepNoDup(particles, stale);
  }

  /** A creation appends the fresh particle to the array and the container and keeps the books. */
  lemma BooksCreate(expired: set<Particle>, stale: set<Particle>,
                    particles: seq<Particle>, children: seq<Particle>, nextId: nat, cleaned: bool)
    requires Books(expired, stale, particles, children, nextId, cleaned)
    ensures nextId !in children
    ensures Books(expired, stale, particles + [nextId], children + [nextId], nextId + 1, cleaned)
  {
    KeepMembers(particles, stale);
    KeepMembers(Created(nextId), expired);
    assert Created(nextId + 1) == Created(nextId) + [nextId];
    KeepAppend(Created(nextId), [nextId], expired);
    KeepSingle(nextId, expired);
    KeepAppend(particles, [nextId], stale);
    KeepSingle(nextId, stale);
  }

  /**
   * A removal of an attached particle drops it from the array and the
   * container and keeps the books; the particle is in the array exactly once.
   */
  lemma BooksExpire(expired: set<Particle>, stale: set<Particle>,
                    particles: seq<Particle>, children: seq<Particle>, nextId: nat, cleaned: bool, p: Particle)
    requires Books(expired, stale, particles, children, nextId, cleaned)
    requires p in children
    ensures p in particles && NoDup(particles) && NoDup(children)
    ensures p !in Keep(children, {p})
    ensures Books(expired + {p}, stale, Keep(particles, {p}), Keep(children, {p}), nextId, cleaned)
  {
    KeepMembers(particles, stale);
    KeepMembers(Created(nextId), expired);
    KeepMembers(children, {p});
    CreatedNoDup(nextId);
    KeepNoDup(Created(nextId), expired);
    KeepNoDup(particles, stale);
    KeepKeep(Created(nextId), expired, {p});
    KeepKeep(particles, {p}, stale);
    KeepKeep(particles, stale, {p});
    assert {p} + stale == stale + {p};
  }

  /** The cleanup detaches the whole array, so the container ends up empty. */
  lemma BooksCleanup(expired: set<Particle>, particles: seq<Particle>, children: seq<Particle>, nextId: nat)
    requires Books(expired, {}, particles, children, nextId, false)
    ensures Keep(children, Elements(particles)) == []
    ensures Books(expired, Elements(particles), particles, [], nextId, true)
  {
    BooksBeforeCleanup(expired, particles, children, nextId);
    KeepAll(particles, Elements(particles));
    KeepMembers(Created(nextId), expired);
  }

  /**
   * `particles.forEach(p => { if (p.parentNode) p.parentNode.removeChild(p) })`:
   * the container's children without every listed particle.
   */
  method DetachAll(listed: seq<Particle>, children: seq<Particle>) returns (attached: seq<Particle>)
    ensures attached == Keep(children, Elements(listed))
  {
    attached := children;
    KeepNone(children, {});
    assert Elements(listed[..0]) == {};
    for i := 0 to |listed|
      invariant attached == Keep(children, Elements(listed[..i]))
    {
      var p := listed[i];
      if p in attached {
        attached := Keep(attached, {p});
      } else {
        KeepMembers(attached, {p});
        KeepNone(attached, {p});
      }
      KeepKeep(children, Elements(listed[..i]), {p});
      assert Elements(listed[..i + 1]) == Elements(listed[..i]) + {p} by {
        assert listed[..i + 1] == listed[..i] + [p];
      }
    }
    assert listed[..|listed|] == listed;
  }

  /** A fresh particle's removal, scheduled at its creation, joins the pending ones. */
  lemma ScheduledCreate(children: seq<Particle>, bornAt: map<Particle, nat>, timeouts: seq<Timer>, p: Particle, now: nat)
    requires Scheduled(children, bornAt, timeouts) && p !in children
    ensures Scheduled(children + [p], bornAt[p := now], timeouts + [Timer(now + LifespanMs, Remove(p))])
  {
  }

  /** A timer scheduled for later keeps every pending one not overdue. */
  lemma TimedAdd(now: nat, timeouts: seq<Timer>, intervalOn: bool, intervalDue: nat, t: Timer)
    requires Timed(now, timeouts, intervalOn, intervalDue) && now <= t.due
    ensures Timed(now, timeouts + [t], intervalOn, intervalDue)
  {
  }

  /** A detached particle needs no pending removal. */
  lemma ScheduledDrop(children: seq<Particle>, bornAt: map<Particle, nat>, timeouts: seq<Timer>, p: Particle)
    requires Scheduled(children, bornAt, timeouts)
    ensures Scheduled(Keep(children, {p}), bornAt, timeouts)
  {
    KeepMembers(children, {p});
  }

  /** Fewer attached particles need no more pending removals. */
  lemma ScheduledShrink(children: seq<Particle>, fewer: seq<Particle>, bornAt: map<Particle, nat>, timeouts: seq<Timer>)
    requires Scheduled(children, bornAt, timeouts) && forall x :: x in fewer ==> x in children
    ensures Scheduled(fewer, bornAt, timeouts)
  {
  }

  class ParticleSystem {
    var phase: Phase
    var now: nat
    /** The identity the next created particle gets. */
    var nextId: nat
    /** The effect's `particles` array. */
    var particles: seq<Particle>
    /** The container's children, in order. */
    var children: seq<Particle>
    var timeouts: seq<Timer>
    var intervalOn: bool
    var intervalDue: nat
    /** The particles their own timeout has removed. */
    ghost var expired: set<Particle>
    /** The particles the cleanup detached. */
    ghost var stale: set<Particle>
    /** When each particle was created. */
    ghost var bornAt: map<Particle, nat>

    /**
     * The books are kept, every attached particle's removal is pending, no
     * timer is overdue, without a running effect there is nothing at all,
     * and after cleanup the interval is off.
     */
    ghost predicate Valid()
      reads this
    {
      && Books(expired, stale, particles, children, nextId, phase == Cleaned)
      && Scheduled(children, bornAt, timeouts)
      && Timed(now, timeouts, intervalOn, intervalDue)
      && ((phase.Before? || phase.NoContainer?) ==> timeouts == [] && !intervalOn && nextId == 0)
      && (phase == Cleaned ==> !intervalOn)
    }

    constructor()
      ensures phase == Before && now == 0 && particles == [] && children == [] && timeouts == [] && !intervalOn
      ensures Valid()
    {
      phase := Before;
      now := 0;
      nextId := 0;
      particles := [];
      children := [];
      timeouts := [];
      intervalOn := false;
      intervalDue := 0;
      expired := {};
      stale := {};
      bornAt := map[];
    }

    /**
     * The effect. Without a container it does nothing. With one, it
     * schedules creations at `i * 200` ms for `i` in 0..49 and starts the
     * 600 ms interval.
     */
    method Effect(hasContainer: bool)
      requires Valid() && phase == Before
      modifies this
      ensures !hasContainer ==> phase == NoContainer && timeouts == [] && !intervalOn
      ensures hasContainer ==>
        && phase == Running
        && |timeouts| == ParticleCount
        && (forall i :: 0 <= i < ParticleCount ==> timeouts[i] == Timer(now + i * StaggerMs, Spawn))
        && intervalOn && intervalDue == now + IntervalMs
      ensures now == old(now) && particles == old(particles) == [] && children == old(children) == []
      ensures Valid()
    {
      if !hasContainer {
        phase := NoContainer;
        return;
      }
      var pending: seq<Timer> := [];
      for i := 0 to ParticleCount
        invariant |pending| == i
        invariant forall j :: 0 <= j < i ==> pending[j] == Timer(now + j * StaggerMs, Spawn)
      {
        pending := pending + [Timer(now + i * StaggerMs, Spawn)];
      }
      timeouts := pending;
      intervalOn := true;
      intervalDue := now + IntervalMs;
      phase := Running;
    }

    /**
     * `createParticle`: a fresh particle is appended to the container and to
     * the array, and its removal is scheduled 30000 ms from now. (After the
     * cleanup the container is still the captured element, so a late
     * creation attaches there too.)
     */
    method Create()
      requires Valid() && (phase.Running? || phase.Cleaned?)
      modifies this
      ensures particles == old(particles) + [old(nextId)]
      ensures children == old(children) + [old(nextId)]
      ensures timeouts == old(timeouts) + [Timer(now + LifespanMs, Remove(old(nextId)))]
      ensures nextId == old(nextId) + 1
      ensures now == old(now) && phase == old(phase)
      ensures intervalOn == old(intervalOn) && intervalDue == old(intervalDue)
      ensures Valid()
    {
      BooksCreate(expired, stale, particles, children, nextId, phase == Cleaned);
      ScheduledCreate(children, bornAt, timeouts, nextId, now);
      TimedAdd(now, timeouts, intervalOn, intervalDue, Timer(now + LifespanMs, Remove(nextId)));
      var p := nextId;
      nextId := nextId + 1;
      children := children + [p];
      particles := particles + [p];
      timeouts := timeouts + [Timer(now + LifespanMs, Remove(p))];
      bornAt := bornAt[p := now];
    }

    /**
     * The removal timeout: a particle still attached is detached and its one
     * entry spliced out of the array; a particle already detached changes
     * nothing.
     */
    method Expire(p: Particle)
      requires Valid() && (phase.Running? || phase.Cleaned?)
      modifies this
      ensures old(p in children) ==> children == Keep(old(children), {p}) && particles == Keep(old(particles), {p})
      ensures old(p in children) ==> |particles| == |old(particles)| - 1 && |children| == |old(children)| - 1
      ensures !old(p in children) ==> children == old(children) && particles == old(particles)
      ensures p !in children
      ensures timeouts == old(timeouts) && now == old(now) && phase == old(phase)
      ensures intervalOn == old(intervalOn) && intervalDue == old(intervalDue) && nextId == old(nextId)
      ensures Valid()
    {
      if p in children {
        BooksExpire(expired, stale, particles, children, nextId, phase == Cleaned, p);
        ScheduledDrop(children, bornAt, timeouts, p);
        KeepOneLess(children, p);
        children := Keep(children, {p});
        var index := IndexOf(particles, p);
        SpliceIsKeep(particles, index);
        particles := Splice(particles, index);
        expired := expired + {p};
      }
    }

    /** The earliest pending timer is timeout `k`. */
    ghost predicate TimeoutFirst(k: nat)
      reads this
    {
      && k < |timeouts|
      && (forall j :: 0 <= j < |timeouts| ==> timeouts[k].due <= timeouts[j].due)
      && (intervalOn ==> timeouts[k].due <= intervalDue)
    }

    /** The earliest pending timer is the interval. */
    ghost predicate IntervalFirst()
      reads this
    {
      intervalOn && forall j :: 0 <= j < |timeouts| ==> intervalDue <= timeouts[j].due
    }

    /** The clock reaches timeout `k`, which leaves the pending list and runs its task. */
    method FireTimeout(k: nat)
      requires Valid() && TimeoutFirst(k)
      modifies this
      ensures now == old(timeouts[k].due)
      ensures old(timeouts[k].task).Spawn? ==>
        && particles == old(particles) + [old(nextId)] && children == old(children) + [old(nextId)]
        && timeouts == Splice(old(timeouts), k) + [Timer(now + LifespanMs, Remove(old(nextId)))]
      ensures old(timeouts[k].task).Remove? ==>
        var p := old(timeouts[k].task).p;
        && timeouts == Splice(old(timeouts), k)
        && (old(p in children) ==> children == Keep(old(children), {p}) && particles == Keep(old(particles), {p}))
        && (!old(p in children) ==> children == old(children) && particles == old(particles))
      ensures phase == old(phase) && intervalOn == old(intervalOn) && intervalDue == old(intervalDue)
      ensures Valid()
    {
      var t := timeouts[k];
      now := t.due;
      match t.task {
        case Spawn =>
          Create();
          SpliceKeepsSchedule(children, bornAt, timeouts, k);
        case Remove(p) =>
          Expire(p);
          SpliceKeepsSchedule(children, bornAt, timeouts, k);
      }
      SpliceKeepsTimed(now, timeouts, intervalOn, intervalDue, k);
      timeouts := Splice(timeouts, k);
    }

    /** The clock reaches the interval, which creates a particle and comes due again 600 ms later. */
    method FireInterval()
      requires Valid() && IntervalFirst()
      modifies this
      ensures now == old(intervalDue) && intervalOn && intervalDue == now + IntervalMs
      ensures particles == old(particles) + [old(nextId)] && children == old(children) + [old(nextId)]
      ensures timeouts == old(timeouts) + [Timer(now + LifespanMs, Remove(old(nextId)))]
      ensures phase == old(phase)
      ensures Valid()
    {
      now := intervalDue;
      Create();
      intervalDue := now + IntervalMs;
    }

    /**
     * The effect's cleanup: the interval stops and every listed particle
     * still attached is detached, which empties the container. The array is
     * not emptied and no pending timeout is cancelled.
     */
    method Cleanup()
      requires Valid() && phase == Running
      modifies this
      ensures !intervalOn && phase == Cleaned
      ensures children == []
      ensures particles == old(particles) && timeouts == old(timeouts) && now == old(now)
      ensures nextId == old(nextId) && intervalDue == old(intervalDue)
      ensures Valid()
    {
      BooksCleanup(expired, particles, children, nextId);
      ScheduledShrink(children, [], bornAt, timeouts);
      intervalOn := false;
      children := DetachAll(particles, children);
      stale := Elements(particles);
      phase := Cleaned;
    }
  }

  /**
   * Taking out the fired timer keeps every attached particle's removal
   * pending, as long as it was not that particle's removal.
   */
  lemma SpliceKeepsSchedule(children: seq<Particle>, bornAt: map<Particle, nat>, timeouts: seq<Timer>, k: nat)
    requires k < |timeouts| && Scheduled(children, bornAt, timeouts)
    requires timeouts[k].task.Remove? ==> timeouts[k].task.p !in children
    ensures Scheduled(children, bornAt, Splice(timeouts, k))
  {
    var rest := Splice(timeouts, k);
    forall x | x in children
      ensures Timer(bornAt[x] + LifespanMs, Remove(x)) in rest
    {
      var j :| 0 <= j < |timeouts| && timeouts[j] == Timer(bornAt[x] + LifespanMs, Remove(x));
      if j < k {
        assert rest[j] == timeouts[j];
      } else {
        assert rest[j - 1] == timeouts[j];
      }
    }
  }

  /** Taking out a timer keeps every other one not overdue. */
  lemma SpliceKeepsTimed(now: nat, timeouts: seq<Timer>, intervalOn: bool, intervalDue: nat, k: nat)
    requires k < |timeouts| && Timed(now, timeouts, intervalOn, intervalDue)
    ensures Timed(now, Splice(timeouts, k), intervalOn, intervalDue)
  {
    var rest := Splice(timeouts, k);
    forall j | 0 <= j < |rest| ensures now <= rest[j].due {
      if j < k {
        assert rest[j] == timeouts[j];
      } else {
        assert rest[j] == timeouts[j + 1];
      }
    }
  }
}
