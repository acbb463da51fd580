/**
 * The image supervisor (deploy/installations/host.py, with `update_image` of deploy/nodes/host.py). It journals
 * its intent on disk before each external effect. A state below is what survives a crash: both files, the
 * deployment lease the manager holds, and what has been observed of the images so far. Every write and every
 * external effect appends one state to a journal, so a statement about all states of the journal holds wherever
 * the supervisor stops.
 */
module Updater {
  import opened Common

  /** `installation.json`. */
  datatype Config = Config(
    image: nat, previous: Option<nat>, pending: Option<nat>, failed: Option<nat>,
    leaseOwner: Option<nat>, leaseAcquired: bool
  )

  /**
   * `compose` is the image deployed by `compose.json`, once it exists. `verified` is the image whose health probe
   * passed since `compose.json` was last written, and `unhealthy` are the images ever observed unhealthy.
   * `owners` are the lease owners this supervisor has made up.
   */
  datatype State = State(
    config: Config, compose: Option<nat>, lease: Option<nat>, owners: set<nat>,
    verified: Option<nat>, unhealthy: set<nat>
  )

  // ----- What holds wherever the supervisor stops -----

  ghost predicate Inv(s: State) {
    // No pending image: what is deployed is the committed image.
    && (s.config.pending.None? ==> s.compose == Some(s.config.image) || s.compose.None?)
    // While one is pending, nothing else is deployed.
    && (s.config.pending.Some? ==>
          && s.config.pending.value != s.config.image && s.config.leaseOwner.Some?
          && (s.compose.None? || s.compose == Some(s.config.image) || s.compose == s.config.pending))
    // A lease of ours is recorded.
    && (s.config.leaseOwner.Some? ==> s.config.leaseOwner.value in s.owners)
    && (s.lease.Some? && s.lease.value in s.owners ==> s.config.leaseOwner == s.lease)
    && (s.verified.Some? ==> s.compose == s.verified)
    && (s.config.failed.Some? ==> s.config.failed.value in s.unhealthy)
  }

  /** What one step may do to the committed image, the failed image and the lease. */
  ghost predicate Allowed(s: State, t: State) {
    // A commit takes the pending image, deployed and found healthy.
    && (t.config.image != s.config.image ==>
          && s.config.pending == Some(t.config.image) && s.compose == Some(t.config.image)
          && s.verified == Some(t.config.image) && t.config.previous == Some(s.config.image))
    // Only an image observed unhealthy is marked failed.
    && (t.config.failed.Some? && t.config.failed != s.config.failed ==>
          s.config.pending == t.config.failed && t.config.failed.value in s.unhealthy)
    && s.unhealthy <= t.unhealthy && s.owners <= t.owners
    && (forall owner :: owner in t.owners && owner !in s.owners ==> s.lease != Some(owner))
    // A lease is acquired only for an owner already on disk.
    && (t.lease.Some? && t.lease.value in t.owners && t.lease != s.lease ==>
          s.config.leaseOwner == t.lease && t.config.leaseOwner == t.lease)
    // The file is written only while a pending image says so, or back to the committed one.
    && (t.compose != s.compose ==>
          t.compose.Some? && (t.compose.value == s.config.image || s.config.pending == t.compose))
  }

  ghost predicate Journal(past: seq<State>) {
    && (forall i :: 0 <= i < |past| ==> Inv(past[i]))
    && (forall i :: 0 <= i < |past| - 1 ==> Allowed(past[i], past[i + 1]))
  }

  lemma JournalSnoc(past: seq<State>, s: State)
    requires past != [] && Journal(past) && Inv(s) && Allowed(past[|past| - 1], s)
    ensures Journal(past + [s])
  {
    var all := past + [s];
    forall i | 0 <= i < |all| - 1 ensures Allowed(all[i], all[i + 1]) {
      assert all[i] == past[i] && (i < |past| - 1 ==> all[i + 1] == past[i + 1]);
    }
  }

  // ----- What Docker, the manager and the beacon answer -----

  /** What other owners do to the lease in the meantime. */
  datatype Drift = Stays | Expires | Taken(other: nat)

  function Drifted(s: State, d: Drift): Option<nat> {
    match d
    case Stays => s.lease
    case Expires => None
    case Taken(other) => if s.lease.None? && other !in s.owners then Some(other) else s.lease
  }

  /** A lease request: whether it reaches the manager, and whether its reply comes back. */
  datatype Call = Call(drift: Drift, reached: bool, answered: bool)

  predicate Granted(s: State, c: Call, owner: Option<nat>) {
    c.reached && c.answered && (Drifted(s, c.drift).None? || Drifted(s, c.drift) == owner)
  }

  /**
   * How a launch goes: whether the old containers stop, whether the new ones start, whether containers that do
   * not are found broken, whether the probe gives a verdict, and the verdict.
   */
  datatype Launching = Launching(stopped: bool, up: bool, broken: bool, probed: bool, healthy: bool)

  predicate Succeeds(s: State, l: Launching) {
    s.compose.Some? && l.stopped && l.up && l.probed && l.healthy
  }

  /** The candidate itself was seen to be unhealthy, rather than some command to fail. */
  predicate SeenUnhealthy(s: State, l: Launching) {
    s.compose.Some? && l.stopped && if l.up then l.probed && !l.healthy else l.broken
  }

  /** One run's worth of answers. */
  datatype Outside = Outside(
    listed: bool, active: bool, acquire: Call, recovery: Launching,
    approved: nat, pulled: bool, owner: nat, candidate: Launching, rollback: Launching, release: Call
  )

  /** The run finds a release to try, and gets the lease for it. */
  predicate Tries(s: State, o: Outside) {
    && s.config.pending.None? && s.config.leaseOwner.None?
    && o.approved != s.config.image && Some(o.approved) != s.config.failed
    && o.pulled && o.owner !in s.owners && s.lease != Some(o.owner)
    && Granted(s.(owners := s.owners + {o.owner}), o.acquire, Some(o.owner))
  }

  /** The run finds an interrupted update and may restore the committed image. */
  predicate Recovers(s: State, o: Outside) {
    && s.config.pending.Some? && o.listed
    && ((s.config.leaseAcquired && !o.active) || Granted(s, o.acquire, s.config.leaseOwner))
    && Succeeds(s, o.recovery)
  }

  // ----- The supervisor -----

  class Supervisor {
    var now: State
    var past: seq<State>
    // In memory only.
    var config: Config
    var healthFailed: bool

    ghost predicate Valid()
      reads this
    {
      past != [] && past[|past| - 1] == now && Journal(past)
    }

    /** Nothing of the journal is rewritten. */
    twostate predicate Extended()
      reads this
    {
      old(past) <= past
    }

    /** A machine on which the installer wrote its configuration and nothing else yet. */
    constructor (image: nat)
      ensures Valid() && past == [now] && now.config == Config(image, None, None, None, None, false) && now.compose.None?
      ensures now.lease.None?
    {
      now := State(Config(image, None, None, None, None, false), None, None, {}, None, {});
      past := [State(Config(image, None, None, None, None, false), None, None, {}, None, {})];
      config := Config(image, None, None, None, None, false);
      healthFailed := false;
    }

    method Record(next: State)
      requires Valid() && Inv(next) && Allowed(now, next)
      modifies this`now, this`past
      ensures Valid() && now == next && past == old(past) + [next]
    {
      JournalSnoc(past, next);
      now := next;
      past := past + [next];
    }

    /** Installing again: `compose.json` gets the committed image, whatever is pending. */
    method Install()
      requires Valid()
      modifies this`now, this`past
      ensures Valid() && Extended() && now == old(now).(compose := Some(now.config.image), verified := None)
    {
      Record(now.(compose := Some(now.config.image), verified := None));
    }

    /** The lease may expire, or be taken by someone else. */
    method Others(d: Drift)
      requires Valid()
      modifies this`now, this`past
      ensures Valid() && Extended() && now == old(now).(lease := Drifted(old(now), d))
    {
      if Drifted(now, d) != now.lease { Record(now.(lease := Drifted(now, d))); }
    }

    /** Acquiring the lease. It can be granted although the reply is lost. */
    method Acquire(c: Call) returns (ok: bool)
      requires Valid() && config == now.config && config.leaseOwner.Some?
      modifies this`now, this`past
      ensures Valid() && Extended() && now == old(now).(lease := now.lease)
      ensures ok == Granted(old(now), c, config.leaseOwner) && (ok ==> now.lease == config.leaseOwner)
      ensures Drifted(old(now), c.drift).Some? && Drifted(old(now), c.drift) != config.leaseOwner ==>
                !ok && now.lease == Drifted(old(now), c.drift)
    {
      Others(c.drift);
      ok := false;
      if c.reached && (now.lease.None? || now.lease == config.leaseOwner) {
        Record(now.(lease := config.leaseOwner));
        ok := c.answered;
      }
    }

    /** Releasing it; the release, too, can happen although the reply is lost. */
    method Release(c: Call) returns (ok: bool)
      requires Valid() && config == now.config && config.leaseOwner.Some?
      modifies this`now, this`past
      ensures Valid() && Extended() && now == old(now).(lease := now.lease)
      ensures ok == (c.reached && c.answered) && (ok ==> now.lease != config.leaseOwner)
    {
      Others(c.drift);
      ok := false;
      if c.reached {
        if now.lease == config.leaseOwner { Record(now.(lease := None)); }
        ok := c.answered;
      }
    }

    /** Releases the lease and forgets its owner. */
    method ReleaseAndForget(c: Call)
      requires Valid() && config == now.config && config.leaseOwner.Some? && config.pending.None?
      modifies this
      ensures Valid() && Extended() && now.compose == old(now.compose)
      ensures now.config == if c.reached && c.answered then old(config).(leaseOwner := None) else old(config)
    {
      var ok := Release(c);
      if ok {
        config := config.(leaseOwner := None);
        Record(now.(config := config));
      }
    }

    /** Deploys an image and probes it. Only the pending image can be found to have failed. */
    method Launch(image: nat, l: Launching) returns (ok: bool)
      requires Valid() && config == now.config && config.pending.Some?
      requires image == config.image || Some(image) == config.pending
      modifies this`now, this`past, this`healthFailed
      ensures Valid() && Extended() && now.config == old(now.config)
      ensures ok == Succeeds(old(now), l) && (ok ==> now.compose == now.verified == Some(image))
      ensures old(now.compose).Some? <==> now.compose.Some?
      ensures Some(image) != config.pending ==> healthFailed == old(healthFailed)
      ensures Some(image) == config.pending && !old(healthFailed) ==> healthFailed == SeenUnhealthy(old(now), l)
      ensures SeenUnhealthy(old(now), l) ==> image in now.unhealthy
      ensures now.unhealthy
              == if old(now.compose).Some? && l.stopped && ((l.up && l.probed && !l.healthy) || (!l.up && l.broken))
                 then old(now.unhealthy) + {image} else old(now.unhealthy)
      ensures ok <==> old(now.compose).Some? && l.stopped && l.up && l.probed && l.healthy
    {
      if now.compose.None? || !l.stopped { return false; }
      Record(now.(compose := Some(image), verified := None));
      if !l.up {
        if l.broken { Record(now.(unhealthy := now.unhealthy + {image})); }
        if Some(image) == config.pending { healthFailed := l.broken; }
        return false;
      }
      if l.probed && l.healthy {
        Record(now.(verified := Some(image)));
        return true;
      }
      if l.probed {
        Record(now.(unhealthy := now.unhealthy + {image}));
        if Some(image) == config.pending { healthFailed := true; }
      }
      return false;
    }

    /** Commits the pending image, marks it failed, or leaves it eligible, in one write. */
    method Finish(updated: Option<bool>)
      requires Valid() && config == now.config && config.pending.Some?
      requires now.compose == now.verified == Some(if updated == Some(true) then config.pending.value else config.image)
      requires updated == Some(false) ==> config.pending.value in now.unhealthy
      modifies this`now, this`past, this`config
      ensures Valid() && Extended() && config == now.config && config.pending.None? && config.leaseOwner == old(config).leaseOwner
      ensures now.compose == old(now.compose) && now.lease == old(now.lease)
      ensures config.previous == if updated == Some(true) then Some(old(config).image) else old(config).previous
      ensures config.image == if updated == Some(true) then old(config).pending.value else old(config).image
      ensures config.failed == match updated
                case Some(true) => None
                case Some(false) => old(config).pending
                case None => old(config).failed
    {
      var pending := config.pending.value;
      config := config.(pending := None, leaseAcquired := false);
      if updated == Some(true) {
        config := config.(previous := Some(config.image), image := pending, failed := None);
      } else if updated == Some(false) {
        config := config.(failed := Some(pending));
      }
      Record(now.(config := config));
    }

    /** Records the owner before requesting the lease: its response can be lost. */
    method Prepare(image: nat, owner: nat, c: Call) returns (ok: bool)
      requires Valid() && config == now.config && config.pending.None? && config.leaseOwner.None? && image != config.image
      requires owner !in now.owners && now.lease != Some(owner)
      modifies this`now, this`past, this`config
      ensures Valid() && Extended() && now.compose == old(now.compose)
      ensures ok == Granted(old(now).(owners := old(now).owners + {owner}), c, Some(owner))
      ensures ok ==> config == now.config == old(config).(pending := Some(image), leaseOwner := Some(owner), leaseAcquired := true)
      ensures ok ==> now.lease == Some(owner)
    {
      config := config.(pending := Some(image), leaseOwner := Some(owner));
      Record(now.(config := config, owners := now.owners + {owner}));
      ok := Acquire(c);
      if ok {
        config := config.(leaseAcquired := true);
        Record(now.(config := config));
      }
    }

    /** `update_image`: launches the candidate, and the previous image again if that fails. */
    method UpdateImage(o: Outside) returns (updated: bool, ok: bool)
      requires Valid() && config == now.config && config.pending.None? && config.leaseOwner.None?
      requires o.approved != config.image && !healthFailed && o.owner !in now.owners && now.lease != Some(o.owner)
      modifies this
      ensures Valid() && Extended()
      ensures ok ==> config == now.config == old(config).(pending := Some(o.approved), leaseOwner := Some(o.owner),
                                                         leaseAcquired := true)
      ensures ok ==> now.compose == now.verified == Some(if updated then o.approved else config.image)
      ensures !o.pulled ==> past == old(past) && !ok
      ensures ok && healthFailed ==> o.approved in now.unhealthy
      ensures ok ==> (healthFailed <==> SeenUnhealthy(old(now), o.candidate))
      ensures o.pulled && Granted(old(now).(owners := old(now).owners + {o.owner}), o.acquire, Some(o.owner)) ==>
                && updated == Succeeds(old(now), o.candidate)
                && ok == (updated || Succeeds(old(now), o.rollback))
    {
      var previous := config.image;
      if !o.pulled { return false, false; }
      ok := Prepare(o.approved, o.owner, o.acquire);
      if !ok { return false, false; }
      updated := Launch(o.approved, o.candidate);
      if !updated { ok := Launch(previous, o.rollback); }
    }

    /**
     * One run of the supervisor, from whatever the last one left. A release that starts healthy is committed; one
     * that does not is replaced by the image before it and marked failed exactly if it was seen unhealthy; an
     * interrupted update is undone.
     */
    method Update(o: Outside)
      requires Valid()
      modifies this
      ensures Valid() && Extended()
      ensures Tries(old(now), o) && Succeeds(old(now), o.candidate) ==>
                && now.config.image == o.approved && now.config.previous == Some(old(now).config.image)
                && now.config.pending.None? && now.config.failed.None? && now.compose == Some(o.approved)
      ensures Tries(old(now), o) && !Succeeds(old(now), o.candidate) && Succeeds(old(now), o.rollback) ==>
                && now.config.image == old(now).config.image && now.config.pending.None?
                && now.compose == Some(now.config.image)
                && now.config.failed == if SeenUnhealthy(old(now), o.candidate) then Some(o.approved)
                                        else old(now).config.failed
      ensures Recovers(old(now), o) ==>
                && now.config.image == old(now).config.image && now.config.pending.None?
                && now.config.failed == old(now).config.failed && now.compose == Some(now.config.image)
      // Nothing happens without a release to try: neither committed nor known to fail, and one that can be pulled.
      ensures old(now).config.pending.None? && old(now).config.leaseOwner.None?
              && (o.approved == old(now).config.image || Some(o.approved) == old(now).config.failed || !o.pulled) ==>
                past == old(past)
      // No deployment is touched while a lease is only to be given back, or is not granted.
      ensures old(now).config.pending.None? && old(now).config.leaseOwner.Some? ==>
                && now.compose == old(now).compose
                && now.config.(leaseOwner := None) == old(now).config.(leaseOwner := None)
                && (now.config.leaseOwner.None? <==> o.release.reached && o.release.answered)
      ensures old(now).config.pending.Some? && !o.listed ==> past == old(past)
      ensures old(now).config.pending.Some? && (!old(now).config.leaseAcquired || o.active)
              && !(o.acquire.reached && o.acquire.answered) ==>
                now.compose == old(now).compose && now.config == old(now).config
    {
      config := now.config;
      healthFailed := false;
      if config.pending.Some? {
        if !o.listed { return; }
        if !config.leaseAcquired || o.active {
          var leased := Acquire(o.acquire);
          if !leased { return; }
        }
        var restored := Launch(config.image, o.recovery);
        if !restored { return; }
        Finish(None);
      }
      if config.leaseOwner.Some? {
        ReleaseAndForget(o.release);
        return;
      }
      if o.approved == config.image || Some(o.approved) == config.failed { return; }
      if o.owner in now.owners || now.lease == Some(o.owner) { return; }
      var updated, ok := UpdateImage(o);
      if !ok { return; }
      Finish(if updated then Some(true) else if healthFailed then Some(false) else None);
      ReleaseAndForget(o.release);
    }

    /**
     * Any number of installs and update runs, each stopped after some number of its effects: memory is lost and
     * the next one starts from the last durable state. Wherever it stops, with no pending image on disk the
     * committed image is deployed, and a lease of ours is on disk.
     */
    method Supervise(runs: seq<Run>)
      requires Valid()
      modifies this
      ensures Valid() && Extended()
      ensures forall i :: 0 <= i < |past| ==> Settled(past[i]) && LeaseRecorded(past[i])
    {
      var i := 0;
      while i < |runs|
        invariant i <= |runs| && Valid() && Extended()
      {
        ghost var before := past;
        var kept := |past| + runs[i].effects;
        if runs[i].install { Install(); } else { Update(runs[i].outside); }
        if kept < |past| {
          JournalPrefix(past, kept);
          past := past[..kept];
          now := past[kept - 1];
        }
        assert before <= past;
        i := i + 1;
      }
    }
  }

  /** With no pending image, what is deployed is the committed image, or nothing is installed yet. */
  predicate Settled(s: State) {
    s.config.pending.None? ==> s.compose.None? || s.compose == Some(s.config.image)
  }

  /** A lease the manager has granted to one of our owners has that owner on disk. */
  predicate LeaseRecorded(s: State) {
    s.lease.Some? && s.lease.value in s.owners ==> s.config.leaseOwner == s.lease
  }

  /** A run of the installer or the updater, and after how many effects it stops at the latest. */
  datatype Run = Run(install: bool, outside: Outside, effects: nat)

  lemma JournalPrefix(past: seq<State>, n: nat)
    requires Journal(past) && n <= |past|
    ensures Journal(past[..n])
  {
  }

  // ----- Over every journal -----

  /** At that moment the image was pending, deployed, and had passed its health probe. */
  ghost predicate Proven(s: State, image: nat) {
    s.config.pending == Some(image) && s.compose == Some(image) && s.verified == Some(image)
  }

  /** Every committed image but the first was proven at an earlier moment. */
  lemma {:induction false} CommitsAreProven(past: seq<State>, i: nat)
    requires Journal(past) && i < |past|
    ensures past[i].config.image == past[0].config.image || exists k :: 0 <= k < i && Proven(past[k], past[i].config.image)
  {
    if i > 0 {
      CommitsAreProven(past, i - 1);
      assert Allowed(past[i - 1], past[i]);
      if past[i].config.image != past[i - 1].config.image {
        assert Proven(past[i - 1], past[i].config.image);
      }
    }
  }

  /** An image can be marked failed, wherever the supervisor stops, only if it was observed unhealthy before. */
  lemma {:induction false} FailuresWereObserved(past: seq<State>, i: nat)
    requires Journal(past) && i < |past| && past[i].config.failed.Some?
    ensures past[i].config.failed == past[0].config.failed
            || exists k :: 0 <= k < i && Observed(past[k], past[i])
  {
    if i > 0 {
      assert Allowed(past[i - 1], past[i]);
      if past[i].config.failed == past[i - 1].config.failed {
        FailuresWereObserved(past, i - 1);
        if past[i].config.failed != past[0].config.failed {
          var k :| 0 <= k < i - 1 && Observed(past[k], past[i - 1]);
          assert Observed(past[k], past[i]);
        }
      } else {
        assert Observed(past[i - 1], past[i]);
      }
    }
  }

  /** A lease of ours was on disk before the manager granted it. */
  lemma {:induction false} GrantsWereRecorded(past: seq<State>, i: nat)
    requires Journal(past) && i < |past| && past[i].lease.Some? && past[i].lease.value in past[i].owners
    ensures past[i].lease == past[0].lease
            || exists k :: 0 <= k < i && Announced(past[k], past[i])
  {
    if i > 0 {
      assert Allowed(past[i - 1], past[i]);
      if past[i - 1].lease == past[i].lease {
        OwnersWereOurs(past, i);
        GrantsWereRecorded(past, i - 1);
        if past[i].lease != past[0].lease {
          var k :| 0 <= k < i - 1 && Announced(past[k], past[i - 1]);
          assert Announced(past[k], past[i]);
        }
      } else {
        assert Announced(past[i - 1], past[i]);
      }
    }
  }

  /** Nobody else's lease becomes ours. */
  lemma OwnersWereOurs(past: seq<State>, i: nat)
    requires Journal(past) && 0 < i < |past| && past[i - 1].lease == past[i].lease
    requires past[i].lease.Some? && past[i].lease.value in past[i].owners
    ensures past[i - 1].lease.value in past[i - 1].owners
  {
    assert Allowed(past[i - 1], past[i]);
  }

  // ----- A machine's whole life -----

  /**
   * From the first install on, over any number of installs and updates stopped anywhere, without further assumption:
   * with no pending image the committed image is deployed; each commit was proven and each failure observed before;
   * each lease of ours is on disk, and was before it was granted.
   */
  method Lifetime(image: nat, runs: seq<Run>) returns (past: seq<State>)
    ensures past != [] && past[0].config.image == image
    ensures forall i :: 0 <= i < |past| ==> Settled(past[i]) && LeaseRecorded(past[i])
    ensures forall i :: 0 <= i < |past| ==>
              past[i].config.image == image || exists k :: 0 <= k < i && Proven(past[k], past[i].config.image)
    ensures forall i :: 0 <= i < |past| && past[i].config.failed.Some? ==> exists k :: 0 <= k < i && Observed(past[k], past[i])
    ensures forall i :: 0 <= i < |past| && past[i].lease.Some? && past[i].lease.value in past[i].owners ==>
              exists k :: 0 <= k < i && Announced(past[k], past[i])
  {
    var supervisor := new Supervisor(image);
    ghost var first := supervisor.past;
    supervisor.Supervise(runs);
    past := supervisor.past;
    assert past[0] == first[0];
    forall i | 0 <= i < |past|
      ensures past[i].config.image == image || exists k :: 0 <= k < i && Proven(past[k], past[i].config.image)
    {
      CommitsAreProven(past, i);
    }
    forall i | 0 <= i < |past| && past[i].config.failed.Some? ensures exists k :: 0 <= k < i && Observed(past[k], past[i]) {
      FailuresWereObserved(past, i);
    }
    forall i | 0 <= i < |past| && past[i].lease.Some? && past[i].lease.value in past[i].owners
      ensures exists k :: 0 <= k < i && Announced(past[k], past[i])
    {
      GrantsWereRecorded(past, i);
    }
  }

  /** The image later marked failed was pending and had been observed unhealthy. */
  predicate Observed(before: State, after: State) {
    after.config.failed.Some? && before.config.pending == after.config.failed && after.config.failed.value in before.unhealthy
  }

  /** The later lease was not held yet, and its owner was on disk. */
  predicate Announced(before: State, after: State) {
    before.lease != after.lease && before.config.leaseOwner == after.lease
  }
}
