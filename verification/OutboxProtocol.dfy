/** Many workers on one outbox table: claims with a lease, completions that do not
    look at who holds the claim, crashes and a clock. */
module OutboxProtocol {
  import opened Wrappers
  import opened OutboxTable

  /** A worker between its claim and its completion. `name` is what it wrote to
      `claimed_by`; by default the processes of one host share it. */
  datatype Held = Held(row: nat, claim: nat, name: string, claimedAt: int, deadline: int)

  /** `held` has the worker processes that are processing a row; `claims` and `releases`
      record, row by row, the attempt numbers claimed and those released for retry. */
  datatype State = State(
    now: int,
    rows: seq<Row>,
    held: map<string, Held>,
    claims: seq<seq<nat>>,
    releases: seq<seq<nat>>)

  datatype Event =
    | Enqueue(row: Row)
    | Claim(worker: string, name: string, id: nat)
    | Succeed(worker: string, writes: seq<Row>)
    | Fail(worker: string, read: nat, retryAfter: Option<int>, error: string)
    | Crash(worker: string)
    | Tick(now: int)

  predicate NewRow(row: Row) { row.status.Pending? && row.attempts == 0 && row.expiresAt.None? && row.claimedBy.None? }

  predicate NewRows(rows: seq<Row>) { forall i :: 0 <= i < |rows| ==> NewRow(rows[i]) }

  /** The attempt count read after the rollback may be the one of the claim or any
      later one of the row. */
  predicate Enabled(s: State, e: Event) {
    match e
    case Enqueue(row) => NewRow(row)
    case Claim(worker, _, i) => worker !in s.held && i < |s.rows| && Claimable(s.rows[i], s.now)
    case Succeed(worker, writes) => worker in s.held && s.held[worker].row < |s.rows| && NewRows(writes)
    case Fail(worker, read, _, _) =>
      worker in s.held && s.held[worker].row < |s.rows|
      && 1 <= s.held[worker].claim <= read <= s.rows[s.held[worker].row].attempts
    case Crash(worker) => worker in s.held
    case Tick(now) => s.now <= now
  }

  function Empties(n: nat): (r: seq<seq<nat>>)
    ensures |r| == n && forall i :: 0 <= i < n ==> r[i] == []
  {
    seq(n, i => [])
  }

  function Extend(s: State, writes: seq<Row>): State {
    s.(rows := s.rows + writes, claims := s.claims + Empties(|writes|), releases := s.releases + Empties(|writes|))
  }

  predicate Shaped(s: State) { |s.claims| == |s.releases| == |s.rows| }

  function Apply(config: Config, s: State, e: Event): State
    requires Shaped(s) && Enabled(s, e)
  {
    match e
    case Enqueue(row) => Extend(s, [row])
    case Claim(worker, name, i) =>
      var row := ClaimRow(s.rows[i], name, s.now, config.leaseSeconds);
      s.(rows := s.rows[i := row], claims := s.claims[i := s.claims[i] + [row.attempts]],
         held := s.held[worker := Held(i, row.attempts, name, s.now, s.now + config.leaseSeconds)])
    case Succeed(worker, writes) =>
      var i := s.held[worker].row;
      Extend(s.(rows := s.rows[i := SucceedRow(s.rows[i])], held := s.held - {worker}), writes)
    case Fail(worker, read, retryAfter, error) =>
      var h := s.held[worker];
      s.(rows := s.rows[h.row := FailRow(s.rows[h.row], read, h.claimedAt, config, retryAfter, error)],
         held := s.held - {worker},
         releases := if read >= config.maxAttempts then s.releases
                     else s.releases[h.row := s.releases[h.row] + [h.claim]])
    case Crash(worker) => s.(held := s.held - {worker})
    case Tick(now) => s.(now := now)
  }

  /** The state after the events, when each was possible in its turn. */
  function Run(config: Config, s: State, events: seq<Event>): Option<State>
    decreases |events|
  {
    if events == [] then Some(s)
    else if Shaped(s) && Enabled(s, events[0]) then Run(config, Apply(config, s, events[0]), events[1..])
    else None
  }

  function Start(now: int): State { State(now, [], map[], [], []) }

  // ------------------------------- every run: claim numbers and retry bound

  function Upto(n: nat): seq<nat> { seq(n, k => k + 1) }

  predicate HeldOk(s: State, w: string)
    requires Shaped(s) && w in s.held
  {
    var h := s.held[w];
    h.row < |s.rows| && 1 <= h.claim <= s.rows[h.row].attempts && h.claim !in s.releases[h.row]
  }

  /** Claim numbers of a row are 1, 2, 3 and so on; each is released at most once,
      only while retries remain, and never while a worker still holds it. */
  ghost predicate HistoryOk(config: Config, s: State) {
    && Shaped(s)
    && (forall i :: 0 <= i < |s.rows| ==> RowOk(config, s, i))
    && (forall w :: w in s.held ==> HeldOk(s, w))
    && (forall w, v :: w in s.held && v in s.held && w != v ==> Apart(s.held[w], s.held[v]))
  }

  predicate Apart(g: Held, h: Held) { g.row != h.row || g.claim != h.claim }

  ghost predicate RowOk(config: Config, s: State, i: nat)
    requires Shaped(s) && i < |s.rows|
  {
    s.claims[i] == Upto(s.rows[i].attempts) && ReleasesOk(config, s.releases[i], s.rows[i].attempts)
  }

  ghost predicate ReleasesOk(config: Config, released: seq<nat>, attempts: nat) {
    && (forall k :: 0 <= k < |released| ==> 1 <= released[k] < config.maxAttempts && released[k] <= attempts)
    && (forall k, l :: 0 <= k < l < |released| ==> released[k] != released[l])
  }

  lemma HistoryStep(config: Config, s: State, e: Event)
    requires HistoryOk(config, s) && Enabled(s, e)
    ensures HistoryOk(config, Apply(config, s, e))
  {
    var t := Apply(config, s, e);
    match e
    case Claim(w, name, i) => HistoryClaim(config, s, w, name, i);
    case Fail(w, read, retryAfter, error) => HistoryFail(config, s, w, read, retryAfter, error);
    case Enqueue(_) => HistoryKept(config, s, t);
    case Succeed(_, _) => HistoryKept(config, s, t);
    case Crash(_) => HistoryKept(config, s, t);
    case Tick(_) => HistoryKept(config, s, t);
  }

  lemma HistoryClaim(config: Config, s: State, w: string, name: string, i: nat)
    requires HistoryOk(config, s) && Enabled(s, Claim(w, name, i))
    ensures HistoryOk(config, Apply(config, s, Claim(w, name, i)))
  {
    var t := Apply(config, s, Claim(w, name, i));
    var n := s.rows[i].attempts;
    forall j | 0 <= j < |t.rows| ensures RowOk(config, t, j) {
      assert RowOk(config, s, j);
      assert Upto(n + 1) == Upto(n) + [n + 1];
    }
    forall v | v in t.held ensures HeldOk(t, v) && (v != w ==> Apart(t.held[v], t.held[w])) {
      if v == w {
        assert RowOk(config, s, i);
      } else {
        assert HeldOk(s, v);
      }
    }
  }

  lemma HistoryFail(config: Config, s: State, w: string, read: nat, retryAfter: Option<int>, error: string)
    requires HistoryOk(config, s) && Enabled(s, Fail(w, read, retryAfter, error))
    ensures HistoryOk(config, Apply(config, s, Fail(w, read, retryAfter, error)))
  {
    var t := Apply(config, s, Fail(w, read, retryAfter, error));
    assert HeldOk(s, w);
    forall j | 0 <= j < |t.rows| ensures RowOk(config, t, j) {
      assert RowOk(config, s, j);
    }
    forall v | v in t.held ensures HeldOk(t, v) {
      assert HeldOk(s, v) && Apart(s.held[v], s.held[w]);
    }
  }

  /** Events that add rows or end a claim without releasing it. */
  lemma HistoryKept(config: Config, s: State, t: State)
    requires HistoryOk(config, s) && Shaped(t) && t.held.Keys <= s.held.Keys
    requires forall w :: w in t.held ==> t.held[w] == s.held[w]
    requires |s.rows| <= |t.rows|
    requires forall i :: 0 <= i < |s.rows| ==>
      t.rows[i].attempts == s.rows[i].attempts && t.releases[i] == s.releases[i] && t.claims[i] == s.claims[i]
    requires forall i :: |s.rows| <= i < |t.rows| ==>
      t.rows[i].attempts == 0 && t.releases[i] == [] && t.claims[i] == []
    ensures HistoryOk(config, t)
  {
    forall j | 0 <= j < |t.rows| ensures RowOk(config, t, j) {
      assert j < |s.rows| ==> RowOk(config, s, j);
    }
    forall w | w in t.held ensures HeldOk(t, w) {
      assert HeldOk(s, w);
    }
    forall w, v | w in t.held && v in t.held && w != v ensures Apart(t.held[w], t.held[v]) {
      assert Apart(s.held[w], s.held[v]);
    }
  }

  lemma {:induction false} HistoryRun(config: Config, s: State, events: seq<Event>)
    requires HistoryOk(config, s) && Run(config, s, events).Some?
    ensures HistoryOk(config, Run(config, s, events).value)
    decreases |events|
  {
    if events != [] {
      HistoryStep(config, s, events[0]);
      HistoryRun(config, Apply(config, s, events[0]), events[1..]);
    }
  }

  lemma {:induction false} DistinctBelow(released: seq<nat>, bound: nat)
    requires forall k :: 0 <= k < |released| ==> 1 <= released[k] <= bound
    requires forall k, l :: 0 <= k < l < |released| ==> released[k] != released[l]
    ensures |released| <= bound
    decreases bound
  {
    if released != [] {
      assert 1 <= released[0] <= bound;
      if k :| 0 <= k < |released| && released[k] == bound {
        DistinctBelow(released[..k] + released[k + 1..], bound - 1);
      } else {
        DistinctBelow(released, bound - 1);
      }
    }
  }

  /** In every run, whatever crashes, expires or answers late: the claims of a row
      carry the numbers 1, 2, 3 and so on, and it is released for retry at most
      `maxAttempts - 1` times. */
  lemma ClaimsIncreaseReleasesBounded(config: Config, now: int, events: seq<Event>, i: nat)
    requires Run(config, Start(now), events).Some?
    requires i < |Run(config, Start(now), events).value.rows|
    ensures var s := Run(config, Start(now), events).value;
      Shaped(s) && s.claims[i] == Upto(s.rows[i].attempts)
      && (config.maxAttempts >= 1 ==> |s.releases[i]| <= config.maxAttempts - 1)
      && (config.maxAttempts < 1 ==> s.releases[i] == [])
  {
    HistoryRun(config, Start(now), events);
    var s := Run(config, Start(now), events).value;
    assert RowOk(config, s, i);
    DistinctBelow(s.releases[i], if config.maxAttempts >= 1 then config.maxAttempts - 1 else 0);
  }

  // ---------------------------- runs in which handlers end within their lease

  /** The clock does not pass the deadline of a worker that is still handling. */
  predicate Timely(s: State, e: Event) {
    e.Tick? ==> forall w :: w in s.held ==> e.now < s.held[w].deadline
  }

  predicate TimelyRun(config: Config, s: State, events: seq<Event>)
    decreases |events|
  {
    events != [] && Shaped(s) && Enabled(s, events[0]) ==>
      Timely(s, events[0]) && TimelyRun(config, Apply(config, s, events[0]), events[1..])
  }

  /** A live worker owns its row: the row is claimed in its name, with its number
      and its deadline, and the deadline has not passed. */
  predicate Owns(s: State, w: string)
    requires w in s.held
  {
    var h := s.held[w];
    h.row < |s.rows| && s.now < h.deadline
    && s.rows[h.row].status.Claimed? && s.rows[h.row].claimedBy == Some(h.name)
    && s.rows[h.row].expiresAt == Some(h.deadline) && s.rows[h.row].attempts == h.claim
  }

  ghost predicate LeaseOk(s: State) {
    && Shaped(s)
    && (forall w :: w in s.held ==> Owns(s, w))
    && (forall v, w :: v in s.held && w in s.held && v != w ==> s.held[v].row != s.held[w].row)
  }

  lemma LeaseStep(config: Config, s: State, e: Event)
    requires LeaseOk(s) && Enabled(s, e) && Timely(s, e) && config.leaseSeconds > 0
    ensures LeaseOk(Apply(config, s, e))
    ensures var t := Apply(config, s, e);
      |s.rows| <= |t.rows| && forall i :: 0 <= i < |s.rows| && Terminal(s.rows[i]) ==> t.rows[i] == s.rows[i]
  {
    var t := Apply(config, s, e);
    forall w | w in t.held ensures Owns(t, w) {
      assert w in s.held ==> Owns(s, w);
      if e.Claim? && w != e.worker {
        assert Owns(s, w);
      }
    }
    if e.Succeed? || e.Fail? {
      assert Owns(s, e.worker);
    }
  }

  /** If every handler ends, or its worker dies, before the lease does, then at most
      one live worker handles a row, and a row that has succeeded or was dead
      lettered stays as it is. */
  lemma {:induction false} LeaseProtects(config: Config, s: State, events: seq<Event>)
    requires LeaseOk(s) && config.leaseSeconds > 0
    requires TimelyRun(config, s, events) && Run(config, s, events).Some?
    ensures var t := Run(config, s, events).value;
      LeaseOk(t) && |s.rows| <= |t.rows|
      && (forall i :: 0 <= i < |s.rows| && Terminal(s.rows[i]) ==> t.rows[i] == s.rows[i])
    decreases |events|
  {
    if events != [] {
      LeaseStep(config, s, events[0]);
      LeaseProtects(config, Apply(config, s, events[0]), events[1..]);
    }
  }

  /** Two live processes never handle one row, even under one name. */
  lemma OneWorkerPerRow(config: Config, now: int, events: seq<Event>, v: string, w: string)
    requires config.leaseSeconds > 0
    requires TimelyRun(config, Start(now), events) && Run(config, Start(now), events).Some?
    requires var s := Run(config, Start(now), events).value;
      v in s.held && w in s.held && s.held[v].row == s.held[w].row
    ensures v == w
  {
    LeaseProtects(config, Start(now), events);
  }

  // ------------------------------- exactly when a finished row is final

  predicate Holds(s: State, w: string, i: nat) { w in s.held && s.held[w].row == i }

  lemma {:induction false} UnheldStays(config: Config, s: State, i: nat, events: seq<Event>)
    requires Shaped(s) && i < |s.rows| && Terminal(s.rows[i])
    requires forall w :: w in s.held ==> !Holds(s, w, i)
    requires Run(config, s, events).Some?
    ensures var t := Run(config, s, events).value;
      i < |t.rows| && t.rows[i] == s.rows[i]
    decreases |events|
  {
    if events != [] {
      var t := Apply(config, s, events[0]);
      forall w | w in t.held ensures !Holds(t, w, i) {
        assert w in s.held ==> !Holds(s, w, i);
      }
      if events[0].Succeed? || events[0].Fail? {
        assert !Holds(s, events[0].worker, i);
      }
      UnheldStays(config, t, i, events[1..]);
    }
  }

  /** The failure of a holder, reported with its own claim's number. */
  lemma HolderFails(config: Config, s: State, w: string, error: string)
    requires HistoryOk(config, s) && w in s.held
    ensures var h := s.held[w];
      var e := Fail(w, h.claim, None, error);
      Enabled(s, e) && Run(config, s, [e]) == Some(Apply(config, s, e))
      && Apply(config, s, e).rows[h.row] == FailRow(s.rows[h.row], h.claim, h.claimedAt, config, None, error)
  {
    assert HeldOk(s, w);
    var e := Fail(w, s.held[w].claim, None, error);
    assert [e][1..] == [];
  }

  /** Nothing can happen to a finished row, whatever comes, exactly when no process is
      still handling it. */
  lemma FinishedIsFinalIffUnheld(config: Config, s: State, i: nat)
    requires HistoryOk(config, s) && i < |s.rows| && Terminal(s.rows[i])
    ensures (forall events :: Run(config, s, events).Some? ==>
               i < |Run(config, s, events).value.rows| && Run(config, s, events).value.rows[i] == s.rows[i])
      <==> (forall w :: w in s.held ==> !Holds(s, w, i))
  {
    if w :| w in s.held && Holds(s, w, i) {
      var error := if s.rows[i].lastError == Some("late") then "later" else "late";
      HolderFails(config, s, w, error);
      assert Run(config, s, [Fail(w, s.held[w].claim, None, error)]).value.rows[i].lastError == Some(error);
    } else {
      forall events | Run(config, s, events).Some?
        ensures i < |Run(config, s, events).value.rows| && Run(config, s, events).value.rows[i] == s.rows[i]
      {
        UnheldStays(config, s, i, events);
      }
    }
  }

  /** Every process that handles row `i` has claimed it for the last time allowed. */
  predicate LastClaims(config: Config, s: State, i: nat) {
    forall w :: w in s.held && Holds(s, w, i) ==> s.held[w].claim >= config.maxAttempts
  }

  lemma {:induction false} LastClaimsStay(config: Config, s: State, i: nat, events: seq<Event>)
    requires Shaped(s) && i < |s.rows| && Terminal(s.rows[i]) && LastClaims(config, s, i)
    requires Run(config, s, events).Some?
    ensures var t := Run(config, s, events).value;
      i < |t.rows| && Terminal(t.rows[i])
    decreases |events|
  {
    if events != [] {
      var t := Apply(config, s, events[0]);
      forall w | w in t.held && Holds(t, w, i) ensures t.held[w].claim >= config.maxAttempts {
        assert w in s.held && Holds(s, w, i);
      }
      LastClaimsStay(config, t, i, events[1..]);
    }
  }

  /** A finished row can be handled again exactly when a process that still handles it
      has claimed it with an attempt number below the maximum. */
  lemma FinishedReopensIffRetriesLeft(config: Config, s: State, i: nat)
    requires HistoryOk(config, s) && i < |s.rows| && Terminal(s.rows[i])
    ensures (forall events :: Run(config, s, events).Some? ==>
               i < |Run(config, s, events).value.rows| && Terminal(Run(config, s, events).value.rows[i]))
      <==> LastClaims(config, s, i)
  {
    if LastClaims(config, s, i) {
      forall events | Run(config, s, events).Some?
        ensures i < |Run(config, s, events).value.rows| && Terminal(Run(config, s, events).value.rows[i])
      {
        LastClaimsStay(config, s, i, events);
      }
    } else {
      var w :| w in s.held && Holds(s, w, i) && s.held[w].claim < config.maxAttempts;
      HolderFails(config, s, w, "late");
      assert Run(config, s, [Fail(w, s.held[w].claim, None, "late")]).value.rows[i].status.Pending?;
    }
  }

  /** A row that was released, and whose time has not come. */
  predicate Waiting(row: Row, now: int) { row.status == Pending && now < row.nextAttemptAt }

  lemma {:induction false} UnheldWaits(config: Config, s: State, i: nat, events: seq<Event>)
    requires Shaped(s) && i < |s.rows| && Waiting(s.rows[i], s.now)
    requires forall w :: w in s.held ==> !Holds(s, w, i)
    requires Run(config, s, events).Some? && Run(config, s, events).value.now < s.rows[i].nextAttemptAt
    ensures var t := Run(config, s, events).value;
      i < |t.rows| && t.rows[i] == s.rows[i] && forall w :: w in t.held ==> !Holds(t, w, i)
    decreases |events|
  {
    if events != [] {
      var t := Apply(config, s, events[0]);
      ClockRises(config, t, events[1..]);
      forall w | w in t.held ensures !Holds(t, w, i) {
        assert w in s.held ==> !Holds(s, w, i);
      }
      if events[0].Succeed? || events[0].Fail? {
        assert !Holds(s, events[0].worker, i);
      }
      UnheldWaits(config, t, i, events[1..]);
    }
  }

  lemma {:induction false} ClockRises(config: Config, s: State, events: seq<Event>)
    requires Run(config, s, events).Some?
    ensures s.now <= Run(config, s, events).value.now
    decreases |events|
  {
    if events != [] {
      ClockRises(config, Apply(config, s, events[0]), events[1..]);
    }
  }

  /** Until its time comes nothing can happen to a waiting row, neither a claim nor
      anything else, whatever comes, exactly when no process is still handling it. */
  lemma WaitsIffUnheld(config: Config, s: State, i: nat)
    requires HistoryOk(config, s) && i < |s.rows| && Waiting(s.rows[i], s.now)
    ensures (forall events ::
               Run(config, s, events).Some? && Run(config, s, events).value.now < s.rows[i].nextAttemptAt ==>
               i < |Run(config, s, events).value.rows| && Run(config, s, events).value.rows[i] == s.rows[i])
      <==> (forall w :: w in s.held ==> !Holds(s, w, i))
  {
    if w :| w in s.held && Holds(s, w, i) {
      assert HeldOk(s, w);
      var e := Succeed(w, []);
      assert [e][1..] == [];
      assert Run(config, s, [e]) == Some(Apply(config, s, e));
      assert Run(config, s, [e]).value.rows[i].status.Succeeded? && Run(config, s, [e]).value.now == s.now;
    } else {
      forall events | Run(config, s, events).Some? && Run(config, s, events).value.now < s.rows[i].nextAttemptAt
        ensures i < |Run(config, s, events).value.rows| && Run(config, s, events).value.rows[i] == s.rows[i]
      {
        UnheldWaits(config, s, i, events);
      }
    }
  }

  /** Once its time has come it can be claimed. */
  lemma DueIsClaimed(config: Config, s: State, i: nat, worker: string, name: string)
    requires Shaped(s) && i < |s.rows| && s.rows[i].status == Pending && worker !in s.held
    ensures Enabled(s, Claim(worker, name, i)) <==> s.rows[i].nextAttemptAt <= s.now
  {
  }

  /** A failure with retries left, of the one process that handles its row: however the
      run goes on, no claim of the row comes before the handler's hint, or else
      `base * 2^(read - 1)` seconds, have passed since the failed claim. */
  lemma NoClaimBeforeRelease(
    config: Config, s: State, w: string, read: nat, retryAfter: Option<int>, error: string, more: seq<Event>,
    claimer: string, name: string)
    requires Shaped(s) && Enabled(s, Fail(w, read, retryAfter, error)) && read < config.maxAttempts
    requires forall v :: v in s.held && Holds(s, v, s.held[w].row) ==> v == w
    requires var t := Run(config, Apply(config, s, Fail(w, read, retryAfter, error)), more);
      t.Some? && Enabled(t.value, Claim(claimer, name, s.held[w].row))
    ensures Run(config, Apply(config, s, Fail(w, read, retryAfter, error)), more).value.now
      >= s.held[w].claimedAt
         + if retryAfter == None || retryAfter == Some(0) then config.baseRetrySeconds * Pow2(read - 1)
           else retryAfter.value
  {
    var t := Apply(config, s, Fail(w, read, retryAfter, error));
    var i := s.held[w].row;
    if Run(config, t, more).value.now < t.rows[i].nextAttemptAt {
      ClockRises(config, t, more);
      forall v | v in t.held ensures !Holds(t, v, i) {
        assert Holds(s, v, i) ==> v == w;
      }
      UnheldWaits(config, t, i, more);
    }
  }

  /** What a timely run has finished is final, however late things get afterwards. */
  lemma TimelyFinishIsFinal(config: Config, now: int, events: seq<Event>, i: nat, more: seq<Event>)
    requires config.leaseSeconds > 0
    requires TimelyRun(config, Start(now), events) && Run(config, Start(now), events).Some?
    requires var s := Run(config, Start(now), events).value;
      i < |s.rows| && Terminal(s.rows[i]) && Run(config, s, more).Some?
    ensures var s := Run(config, Start(now), events).value;
      var t := Run(config, s, more).value;
      i < |t.rows| && t.rows[i] == s.rows[i]
  {
    LeaseProtects(config, Start(now), events);
    var s := Run(config, Start(now), events).value;
    forall w | w in s.held ensures !Holds(s, w, i) {
      assert Owns(s, w);
    }
    UnheldStays(config, s, i, more);
  }

  // --------------------------------------- what a late handler can undo

  function LateEvents(a: string, b: string, name: string, row: Row, lease: int): seq<Event> {
    [Enqueue(row), Claim(a, name, 0), Tick(row.nextAttemptAt + lease), Claim(b, name, 0), Succeed(b, [])]
  }

  lemma RunStep(config: Config, s: State, events: seq<Event>, k: nat)
    requires k < |events| && Shaped(s) && Enabled(s, events[k])
    ensures Run(config, s, events[k..]) == Run(config, Apply(config, s, events[k]), events[k + 1..])
  {
    assert events[k..][1..] == events[k + 1..];
  }

  /** Such states are reached: process `a` is slower than its lease, `b` takes over and
      succeeds, and the late failure of `a` puts the row back to pending. */
  lemma LateFailureReopensSucceeded(c: Config, a: string, b: string, name: string, row: Row, read: nat, error: string)
    requires a != b && NewRow(row) && 1 <= read <= 2 && read < c.maxAttempts && c.leaseSeconds >= 0
    ensures var end := Run(c, Start(row.nextAttemptAt), LateEvents(a, b, name, row, c.leaseSeconds));
      end.Some? && Shaped(end.value) && |end.value.rows| == 1 && end.value.rows[0].status == Succeeded
      && Enabled(end.value, Fail(a, read, None, error))
      && Apply(c, end.value, Fail(a, read, None, error)).rows[0].status == Pending
  {
    var es := LateEvents(a, b, name, row, c.leaseSeconds);
    var s0 := Start(row.nextAttemptAt);
    assert es[0..] == es;
    var s1 := Apply(c, s0, es[0]);
    RunStep(c, s0, es, 0);
    var s2 := Apply(c, s1, es[1]);
    RunStep(c, s1, es, 1);
    RunStep(c, s2, es, 2);
    TakenOver(c, Apply(c, s2, es[2]), a, b, name, es);
  }

  /** From a lease of `a` that has run out. */
  lemma TakenOver(c: Config, s: State, a: string, b: string, name: string, es: seq<Event>)
    requires Shaped(s) && |s.rows| == 1 && a != b && c.leaseSeconds >= 0
    requires s.rows[0].status.Claimed? && s.rows[0].expiresAt == Some(s.now) && s.rows[0].attempts == 1
    requires a in s.held && s.held[a].row == 0 && s.held[a].claim == 1 && b !in s.held
    requires |es| == 5 && es[3] == Claim(b, name, 0) && es[4] == Succeed(b, [])
    ensures Run(c, s, es[3..]).Some?
    ensures var t := Run(c, s, es[3..]).value;
      Shaped(t) && |t.rows| == 1 && t.rows[0].status == Succeeded && t.rows[0].attempts == 2
      && a in t.held && t.held[a] == s.held[a]
  {
    var s4 := Apply(c, s, es[3]);
    RunStep(c, s, es, 3);
    RunStep(c, s4, es, 4);
    assert es[5..] == [];
  }

  // ------------------------------- one worker alone is the plain dispatch

  /** A claim and its completion with nothing in between do to the table what one
      dispatch of the dispatcher does. */
  lemma AloneIsDispatch(config: Config, s: State, w: string, name: string, i: nat, handler: Row -> Handling)
    requires Shaped(s) && Enabled(s, Claim(w, name, i))
    requires var h := handler(ClaimRow(s.rows[i], name, s.now, config.leaseSeconds)); h.Returned? ==> NewRows(h.writes)
    ensures var t := Apply(config, s, Claim(w, name, i));
      var e := match handler(t.rows[i])
        case Returned(writes) => Succeed(w, writes)
        case Raised(_, error, retryAfter) => Fail(w, t.rows[i].attempts, retryAfter, error);
      Shaped(t) && Enabled(t, e) && Apply(config, t, e).rows == DispatchRow(s.rows, i, name, s.now, config, handler)
      && Apply(config, t, e).held == s.held
  {
  }
}
