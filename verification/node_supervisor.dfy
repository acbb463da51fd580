/**
 * The node supervisor (deploy/nodes/host.py): it keeps one controller container running the committed image, drains
 * the node before an update, and acknowledges every update to its master. As in `Updater`, each write and each
 * external effect appends one state to a journal, so what holds of all its states holds wherever it stops.
 */
module NodeSupervisor {
  import opened Common

  /** `config.json`. */
  datatype Config = Config(
    image: nat, previous: Option<nat>, failed: Option<nat>, updateFailed: bool,
    pendingCompletion: bool, pendingSupervisor: bool
  )

  /** An acknowledgement the master has received: the image it names, and whether it reports a failed update. */
  datatype Report = Report(image: nat, failed: bool)

  /**
   * `container` is the image of the running container and `verified` whether it passed its health check since it was
   * started; `maintenance` is whether the master holds the node drained. `since` is how many reports the master had
   * received when the acknowledgement now due became due.
   */
  datatype State = State(
    config: Config, container: Option<nat>, verified: bool, maintenance: bool, reports: seq<Report>, since: nat
  )

  /** The committed image runs and is healthy. */
  predicate Serving(s: State) {
    s.container == Some(s.config.image) && s.verified
  }

  // ----- What holds wherever the supervisor stops -----

  ghost predicate Inv(s: State) {
    (s.verified ==> s.container.Some?) && s.since <= |s.reports|
  }

  ghost predicate Allowed(s: State, t: State) {
    // A commit takes an image that runs and has passed its health check.
    && (t.config.image != s.config.image ==> Serving(t) && s.container == t.container && t.config.pendingCompletion)
    // Reports only grow, and each names the image committed when it is received.
    && (t.reports == s.reports || t.reports == s.reports + [Report(s.config.image, s.config.updateFailed)])
    // Maintenance ends only with a report, and an acknowledgement is dropped only once it has been received.
    && (s.maintenance && !t.maintenance ==> t.reports != s.reports)
    && (t.config.pendingCompletion ==> t.since == |t.reports| || (s.config.pendingCompletion && t.since == s.since))
    && (s.config.pendingCompletion && !t.config.pendingCompletion ==>
          |s.reports| > s.since && Acknowledges(t, s.reports[|s.reports| - 1]) && t.reports == s.reports)
  }

  /** The report is about the state's committed image. */
  predicate Acknowledges(s: State, report: Report) {
    report == Report(s.config.image, s.config.updateFailed)
  }

  ghost predicate Journal(past: seq<State>) {
    && (forall i :: 0 <= i < |past| ==> Inv(past[i]))
    && (forall i :: 0 <= i < |past| - 1 ==> Allowed(past[i], past[i + 1]))
  }

  lemma {:induction false} JournalSnoc(past: seq<State>, s: State)
    requires past != [] && Journal(past) && Inv(s) && Allowed(past[|past| - 1], s)
    ensures Journal(past + [s])
  {
    var all := past + [s];
    forall i | 0 <= i < |all| - 1 ensures Allowed(all[i], all[i + 1]) {
      assert all[i] == past[i] && (i < |past| - 1 ==> all[i + 1] == past[i + 1]);
    }
  }

  // ----- What Docker and the master answer -----

  /**
   * How a launch goes: whether its options are valid, whether the container starts, and whether it becomes healthy
   * or at least stays.
   */
  datatype Launching = Launching(valid: bool, started: bool, healthy: bool, stays: bool)

  predicate Succeeds(l: Launching) { l.valid && l.started && l.healthy }

  /** A request to the master: whether it is received and whether its reply comes back. */
  datatype Call = Call(received: bool, answered: bool)

  /** When the supervisor was told to stop, if it was: before the drain of an update, or during it. */
  datatype Stop = NoStop | BeforeDrain | WhileDraining

  datatype Outside = Outside(
    report: Call, supervisor: bool, answered: bool, approved: nat, pulled: bool, drained: bool, stop: Stop,
    candidate: Launching, rollback: Launching
  )

  /** The update gets as far as draining the node. */
  predicate Drains(o: Outside) { o.pulled && !o.stop.BeforeDrain? }

  /** The update gets as far as replacing the container. */
  predicate Replaces(o: Outside) { o.pulled && o.stop.NoStop? }

  /** What was due has been acknowledged: its reply arrived, and the supervisor was refreshed. */
  predicate Acknowledged(config: Config, o: Outside) {
    (config.pendingCompletion ==> o.report.received && o.report.answered) && (config.pendingSupervisor ==> o.supervisor)
  }

  class Node {
    var now: State
    var past: seq<State>
    var config: Config

    ghost predicate Valid()
      reads this
    {
      past != [] && past[|past| - 1] == now && Journal(past)
    }

    /** A freshly enrolled node. */
    constructor (image: nat)
      ensures Valid() && past == [now] && now == State(Config(image, None, None, false, false, false), None, false, false, [], 0)
    {
      now := State(Config(image, None, None, false, false, false), None, false, false, [], 0);
      past := [State(Config(image, None, None, false, false, false), None, false, false, [], 0)];
      config := Config(image, None, None, false, false, false);
    }

    method Record(next: State)
      requires Valid() && Inv(next) && Allowed(now, next)
      modifies this`now, this`past
      ensures Valid() && now == next && past == old(past) + [next]
    {
      JournalSnoc(past, next);
      now := next;
      past := past + [next];
    }

    /** Removes whatever runs and starts an image. A failed launch leaves it behind unhealthy, or nothing. */
    method Launch(image: nat, l: Launching) returns (ok: bool)
      requires Valid()
      modifies this`now, this`past
      ensures Valid() && old(past) <= past && ok == Succeeds(l) && (ok <==> l.valid && l.started && l.healthy)
      ensures now == if !l.valid then old(now)
                     else if ok then old(now).(container := Some(image), verified := true)
                     else old(now).(container := if l.started && l.stays then Some(image) else None, verified := false)
    {
      if !l.valid { return false; }
      Record(now.(container := None, verified := false));
      if !l.started { return false; }
      Record(now.(container := Some(image)));
      if l.healthy {
        Record(now.(verified := true));
        return true;
      }
      if !l.stays { Record(now.(container := None)); }
      return false;
    }

    /** Asks the master to drain the node; a failure is left to its leases. */
    method Drain(received: bool)
      requires Valid()
      modifies this`now, this`past
      ensures Valid() && old(past) <= past && now == old(now).(maintenance := old(now).maintenance || received)
    {
      if received { Record(now.(maintenance := true)); }
    }

    /** Sends what has not been acknowledged yet; a lost reply leaves it to be sent again. */
    method Reconcile(report: Call, refreshed: bool) returns (ok: bool)
      requires Valid() && config == now.config
      modifies this
      ensures Valid() && old(past) <= past && config == now.config
      ensures now.container == old(now).container && now.verified == old(now).verified && config.image == old(config).image
      ensures config.failed == old(config).failed
      ensures old(config).pendingCompletion && report.received ==>
                !now.maintenance && now.reports == old(now).reports + [Report(config.image, config.updateFailed)]
      ensures ok <==> (!old(config).pendingCompletion || (report.received && report.answered))
                      && (!old(config).pendingSupervisor || refreshed)
      ensures ok ==> !config.pendingCompletion
      ensures !report.received ==> now.reports == old(now).reports
      ensures !old(config).pendingCompletion ==>
                !config.pendingCompletion && now.maintenance == old(now).maintenance && now.reports == old(now).reports
    {
      if config.pendingCompletion {
        if report.received {
          Record(now.(maintenance := false, reports := now.reports + [Report(config.image, config.updateFailed)]));
        }
        if !report.received || !report.answered { return false; }
        config := config.(pendingCompletion := false);
        Record(now.(config := config));
      }
      if config.pendingSupervisor {
        if !refreshed { return false; }
        config := config.(pendingSupervisor := false);
        Record(now.(config := config));
      }
      ok := true;
    }

    /**
     * One update, unless the supervisor is told to stop before it replaces anything. A healthy candidate is
     * committed; otherwise the previous image runs again and the candidate is marked failed; either way an
     * acknowledgement is due. If the previous image does not come back either, the node is stranded: it no longer
     * serves, and nothing is due.
     */
    method Update(o: Outside) returns (ok: bool)
      requires Valid() && config == now.config && !config.pendingCompletion && o.approved != config.image
      modifies this
      ensures Valid() && old(past) <= past && config == now.config
      ensures Serving(now) <==>
                if Replaces(o) && (o.candidate.valid || o.rollback.valid) then Succeeds(o.candidate) || Succeeds(o.rollback)
                else Serving(old(now))
      ensures Replaces(o) && Succeeds(o.candidate) ==>
                && config.image == o.approved && config.previous == Some(old(config).image) && config.failed.None?
                && config.pendingCompletion && !config.updateFailed
      ensures Replaces(o) && !Succeeds(o.candidate) && Succeeds(o.rollback) ==>
                && config.image == old(config).image && config.failed == Some(o.approved)
                && config.pendingCompletion && config.updateFailed
      ensures !Replaces(o) || (!Succeeds(o.candidate) && !Succeeds(o.rollback)) ==>
                config == old(config) && now.maintenance == (old(now).maintenance || (Drains(o) && o.drained))
    {
      var previous := config.image;
      if !o.pulled { return false; }
      if o.stop.BeforeDrain? { return true; }
      Drain(o.drained);
      if o.stop.WhileDraining? { return true; }
      var healthy := Launch(o.approved, o.candidate);
      if healthy {
        config := config.(image := o.approved, previous := Some(previous), failed := None, updateFailed := false,
                          pendingCompletion := true, pendingSupervisor := true);
        Record(now.(config := config, since := |now.reports|));
        return true;
      }
      ok := Launch(previous, o.rollback);
      if ok {
        config := config.(failed := Some(o.approved), updateFailed := true, pendingCompletion := true);
        Record(now.(config := config, since := |now.reports|));
      }
    }

    /** One round of the loop: acknowledge, then update if the master approves another image. */
    method Round(o: Outside)
      requires Valid() && config == now.config
      modifies this
      ensures Valid() && old(past) <= past && config == now.config
      ensures config.image == old(config).image || (config.image == o.approved && Serving(now))
      // A healthy new release is taken as soon as nothing is left to acknowledge.
      ensures Acknowledged(old(config), o) && o.answered && o.approved != old(config).image
              && Some(o.approved) != old(config).failed && o.pulled && o.stop == NoStop
              && o.candidate.valid && o.candidate.started && o.candidate.healthy ==>
                config.image == o.approved && config.previous == Some(old(config).image) && Serving(now)
      // Nothing is replaced unless there is one.
      ensures !Acknowledged(old(config), o) || !o.answered || o.approved == old(config).image
              || Some(o.approved) == old(config).failed ==>
                && now.container == old(now).container && now.verified == old(now).verified
                && config.image == old(config).image && config.failed == old(config).failed
    {
      var ok := Reconcile(o.report, o.supervisor);
      if !ok || !o.answered { return; }
      if o.approved != config.image && Some(o.approved) != config.failed {
        ok := Update(o);
      }
    }

    /** A round in which nothing but the committed image is approved repairs nothing. */
    method IdleRound(o: Outside)
      requires Valid() && config == now.config && o.approved == config.image
      modifies this
      ensures Valid() && old(past) <= past && Serving(now) == Serving(old(now)) && now.container == old(now).container
      ensures config == now.config && config.image == old(config).image
      ensures !old(config).pendingCompletion ==> !config.pendingCompletion && now.maintenance == old(now).maintenance
    {
      var ok := Reconcile(o.report, o.supervisor);
    }

    /** Starting the supervisor: the committed image is launched unless its container runs. */
    method Start(running: bool, drained: bool, l: Launching) returns (ok: bool)
      requires Valid() && (running ==> now.container.Some?)
      modifies this
      ensures Valid() && old(past) <= past && config == now.config && config.image == old(now).config.image
      ensures ok <==> (running && old(now).container == Some(config.image)) || Succeeds(l)
      ensures ok ==> now.container == Some(config.image) && config.pendingCompletion
      ensures !(running && old(now).container == Some(config.image)) && Succeeds(l) ==> Serving(now)
    {
      config := now.config;
      if !running || now.container != Some(config.image) {
        Drain(drained);
        ok := Launch(config.image, l);
        if !ok { return; }
      }
      config := config.(pendingCompletion := true);
      Record(now.(config := config, since := |now.reports|));
      ok := true;
    }

    /** Leaving: the node is drained and its container stopped. */
    method Leave(drained: bool, stopped: bool)
      requires Valid()
      modifies this`now, this`past
      ensures Valid() && old(past) <= past && now.config == old(now).config
    {
      Drain(drained);
      if stopped { Record(now.(container := None, verified := false)); }
    }

    /** One life of the supervisor: it starts, goes round, and leaves. */
    method Live(life: Life)
      requires Valid()
      modifies this
      ensures Valid() && old(past) <= past
    {
      var ok := Start(life.running && now.container.Some?, life.drained, life.launching);
      if !ok { return; }
      for i := 0 to |life.rounds|
        invariant Valid() && old(past) <= past && config == now.config
      {
        Round(life.rounds[i]);
      }
      Leave(life.drained, life.stopped);
    }

    /** Any number of lives, each stopped after some number of its effects: memory is lost. */
    method Supervise(lives: seq<Life>)
      requires Valid()
      modifies this
      ensures Valid() && old(past) <= past
    {
      for i := 0 to |lives|
        invariant Valid() && old(past) <= past
      {
        ghost var before := past;
        var kept := |past| + lives[i].effects;
        Live(lives[i]);
        if kept < |past| {
          JournalPrefix(past, kept);
          past := past[..kept];
          now := past[kept - 1];
        }
        assert before <= past;
      }
    }
  }

  /** What one life meets, and after how many effects it stops at the latest. */
  datatype Life = Life(
    running: bool, drained: bool, launching: Launching, rounds: seq<Outside>, stopped: bool, effects: nat
  )

  lemma JournalPrefix(past: seq<State>, n: nat)
    requires Journal(past) && n <= |past|
    ensures Journal(past[..n])
  {
  }

  // ----- Over every journal -----

  /** Every committed image but the first ran and had passed its health check when it was committed. */
  lemma {:induction false} CommitsServed(past: seq<State>, i: nat)
    requires Journal(past) && i < |past|
    ensures past[i].config.image == past[0].config.image
            || exists k :: 0 < k <= i && past[k].config.image == past[i].config.image && Serving(past[k])
  {
    if i > 0 {
      CommitsServed(past, i - 1);
      assert Allowed(past[i - 1], past[i]);
      if past[i].config.image != past[i - 1].config.image {
        assert Serving(past[i]);
      }
    }
  }

  /** Between any two moments, maintenance ends only if the master has received a report. */
  lemma {:induction false} MaintenanceEndsWithAReport(past: seq<State>, i: nat, j: nat)
    requires Journal(past) && i <= j < |past| && past[i].maintenance && !past[j].maintenance
    ensures |past[j].reports| > |past[i].reports|
    decreases j
  {
    assert Allowed(past[j - 1], past[j]);
    ReportsGrow(past, i, j - 1);
    if !past[j - 1].maintenance { MaintenanceEndsWithAReport(past, i, j - 1); }
  }

  lemma {:induction false} ReportsGrow(past: seq<State>, i: nat, j: nat)
    requires Journal(past) && i <= j < |past|
    ensures |past[i].reports| <= |past[j].reports|
    decreases j
  {
    if i < j {
      ReportsGrow(past, i, j - 1);
      assert Allowed(past[j - 1], past[j]);
    }
  }

  /** What is due now has become due after any earlier moment at which nothing was. */
  lemma {:induction false} DueSince(past: seq<State>, h: nat, k: nat)
    requires Journal(past) && h <= k < |past| && !past[h].config.pendingCompletion && past[k].config.pendingCompletion
    ensures past[k].since >= |past[h].reports|
    decreases k
  {
    assert Allowed(past[k - 1], past[k]);
    ReportsGrow(past, h, k);
    if past[k - 1].config.pendingCompletion { DueSince(past, h, k - 1); }
  }

  /** Nothing is due at h, something is at i, and nothing is again at j. */
  predicate DueBetween(past: seq<State>, h: nat, i: nat, j: nat)
    requires h < i < j < |past|
  {
    past[i].config.pendingCompletion && !past[h].config.pendingCompletion && !past[j].config.pendingCompletion
  }

  /** At d the acknowledgement is dropped, the master having received one for the image committed then since h. */
  predicate Received(past: seq<State>, h: nat, d: nat)
    requires h < d < |past|
  {
    && past[d - 1].config.pendingCompletion && !past[d].config.pendingCompletion
    && |past[d].reports| > |past[h].reports| && Acknowledges(past[d], past[d].reports[|past[d].reports| - 1])
  }

  /**
   * Between a moment when nothing is due and a later one when nothing is due again, if something was due in between
   * the master has received a new report about the image committed then.
   */
  lemma {:induction false} AcknowledgementsAreReceived(past: seq<State>, h: nat, i: nat, j: nat)
    requires Journal(past) && h < i < j < |past| && DueBetween(past, h, i, j)
    ensures exists d :: h < d <= j && Received(past, h, d)
    decreases j
  {
    if past[j - 1].config.pendingCompletion {
      assert Allowed(past[j - 1], past[j]);
      DueSince(past, h, j - 1);
      assert Received(past, h, j);
    } else {
      AcknowledgementsAreReceived(past, h, i, j - 1);
    }
  }

  // ----- A node's whole life -----

  /**
   * From enrolment on, over any number of lives stopped anywhere, without further assumption: each commit served,
   * maintenance ends only with a report, and what was due and no longer is has been received.
   */
  method Lifetime(image: nat, lives: seq<Life>) returns (past: seq<State>)
    ensures past != [] && past[0].config.image == image
    ensures forall i :: 0 <= i < |past| ==>
              past[i].config.image == image
              || exists k :: 0 < k <= i && past[k].config.image == past[i].config.image && Serving(past[k])
    ensures forall i, j :: 0 <= i < j < |past| && past[i].maintenance && !past[j].maintenance ==>
              |past[j].reports| > |past[i].reports|
    ensures forall h, i, j :: 0 <= h < i < j < |past| && DueBetween(past, h, i, j) ==> exists d :: h < d <= j && Received(past, h, d)
  {
    var node := new Node(image);
    ghost var first := node.past;
    node.Supervise(lives);
    past := node.past;
    assert past[0] == first[0];
    forall i | 0 <= i < |past|
      ensures past[i].config.image == image
              || exists k :: 0 < k <= i && past[k].config.image == past[i].config.image && Serving(past[k])
    {
      CommitsServed(past, i);
    }
    forall i, j | 0 <= i < j < |past| && past[i].maintenance && !past[j].maintenance
      ensures |past[j].reports| > |past[i].reports|
    {
      MaintenanceEndsWithAReport(past, i, j);
    }
    forall h, i, j | 0 <= h < i < j < |past| && DueBetween(past, h, i, j)
      ensures exists d :: h < d <= j && Received(past, h, d)
    {
      AcknowledgementsAreReceived(past, h, i, j);
    }
  }

  /**
   * A stranded node: its first update replaces the container and neither image starts. It stays drained and does not
   * serve, nothing is due, and rounds that approve its committed image leave it so.
   */
  method Stranded(rounds: nat) returns (past: seq<State>)
    ensures past != [] && Journal(past)
    ensures var last := past[|past| - 1];
            last.config.image == 0 && !Serving(last) && last.maintenance && !last.config.pendingCompletion
  {
    var fine, broken := Launching(true, true, true, true), Launching(true, false, false, false);
    var received := Call(true, true);
    var node := new Node(0);
    var ok := node.Start(false, true, fine);
    ok := node.Reconcile(received, true);
    ok := node.Update(Outside(received, true, true, 1, true, true, NoStop, broken, broken));
    for i := 0 to rounds
      invariant node.Valid() && node.config == node.now.config && node.config.image == 0
      invariant !Serving(node.now) && node.now.maintenance && !node.config.pendingCompletion
    {
      node.IdleRound(Outside(received, true, true, 0, true, true, NoStop, fine, fine));
    }
    past := node.past;
  }
}
