/** Model providers with fallbacks behind a circuit breaker. */
module ModelPool {
  import opened Options
  import opened PyText
  import opened Lists

  /** Profiles are keyed by their name. */
  datatype Profile = Profile(provider: string, model: string, fallbacks: seq<string>)

  const PURPOSE_ALIASES: map<string, string> :=
    map["teammate" := "coding", "reflection" := "summary",
        "task_conclusion" := "summary", "compact" := "summary"]

  datatype RouteError =
    | UnknownProvider(name: string)
    | UnknownFallback(name: string, fallback: string)

  datatype Route = Chain(names: seq<string>) | BadRoute(error: RouteError)

  // ----- routes -----

  /** Everything a route mentions: each name, then the fallbacks of that name. */
  function Mentions(profiles: map<string, Profile>, names: seq<string>): seq<string> {
    if names == [] then []
    else
      var name := names[|names| - 1];
      Mentions(profiles, names[..|names| - 1]) + [name]
        + if name in profiles then profiles[name].fallbacks else []
  }

  ghost predicate Known(profiles: map<string, Profile>, name: string) {
    name in profiles && AllIn(profiles, profiles[name].fallbacks)
  }

  ghost predicate AllIn(profiles: map<string, Profile>, names: seq<string>) {
    forall k | 0 <= k < |names| :: names[k] in profiles
  }

  /** The first thing in the route that is not configured. */
  ghost predicate FirstMissing(profiles: map<string, Profile>, names: seq<string>, e: RouteError) {
    exists i | 0 <= i < |names| ::
      && (forall j | 0 <= j < i :: Known(profiles, names[j]))
      && e.name == names[i]
      && match e
         case UnknownProvider(name) => name !in profiles
         case UnknownFallback(name, f) =>
           name in profiles && FirstUnknown(profiles, profiles[name].fallbacks, f)
  }

  ghost predicate FirstUnknown(profiles: map<string, Profile>, names: seq<string>, x: string) {
    exists k | 0 <= k < |names| ::
      names[k] == x && x !in profiles && forall j | 0 <= j < k :: names[j] in profiles
  }

  lemma MentionsSnoc(profiles: map<string, Profile>, names: seq<string>, i: nat)
    requires i < |names| && names[i] in profiles
    ensures Mentions(profiles, names[..i + 1]) ==
            Mentions(profiles, names[..i]) + [names[i]] + profiles[names[i]].fallbacks
  {
    assert names[..i + 1][..i] == names[..i];
  }

  /** The chain of a route: everything it mentions, each name once, in order of mention. */
  function ChainOf(profiles: map<string, Profile>, names: seq<string>): seq<string> {
    Dedup(Mentions(profiles, names))
  }

  lemma RouteIsNotEmpty(profiles: map<string, Profile>, names: seq<string>)
    requires names != []
    ensures ChainOf(profiles, names) != []
  {
    var all, name := Mentions(profiles, names), names[|names| - 1];
    DedupIsExact(all);
    InElements(all, name);
  }

  lemma ChainStartsWithRoute(profiles: map<string, Profile>, names: seq<string>)
    requires names != []
    ensures ChainOf(profiles, names) != [] && ChainOf(profiles, names)[0] == names[0]
  {
    MentionsStartWith(profiles, names);
    DedupStartsWith(Mentions(profiles, names));
  }

  lemma {:induction false} MentionsStartWith(profiles: map<string, Profile>, names: seq<string>)
    requires names != []
    ensures Mentions(profiles, names) != [] && Mentions(profiles, names)[0] == names[0]
  {
    if |names| > 1 { MentionsStartWith(profiles, names[..|names| - 1]); }
  }

  lemma {:induction false} DedupStartsWith(names: seq<string>)
    requires names != []
    ensures Dedup(names) != [] && Dedup(names)[0] == names[0]
  {
    if |names| > 1 { DedupStartsWith(names[..|names| - 1]); }
  }

  lemma EmptyChain(profiles: map<string, Profile>)
    ensures ChainOf(profiles, []) == []
  {
  }

  lemma MentionOneMore(all: seq<string>, more: seq<string>, j: nat)
    requires j < |more|
    ensures Dedup(all + more[..j + 1]) == AddNew(Dedup(all + more[..j]), more[j])
  {
    hide Dedup;
    hide AddNew;
    DedupSnoc(all + more[..j], more[j]);
    assert all + more[..j + 1] == all + more[..j] + [more[j]];
  }

  /** Appends the names of `more` that are new; stops at the first unknown one. */
  method AddFallbacks(profiles: map<string, Profile>, before: seq<string>, more: seq<string>,
                      ghost all: seq<string>)
    returns (chain: seq<string>, missing: Option<string>)
    requires before == Dedup(all)
    ensures missing.None? ==>
      chain == Dedup(all + more) && AllIn(profiles, more)
    ensures missing.Some? ==> FirstUnknown(profiles, more, missing.value)
  {
    hide Dedup;
    hide AddNew;
    chain := before;
    assert all + more[..0] == all;
    for j := 0 to |more|
      invariant chain == Dedup(all + more[..j])
      invariant forall i | 0 <= i < j :: more[i] in profiles
    {
      if more[j] !in profiles { return chain, Some(more[j]); }
      MentionOneMore(all, more, j);
      chain := AddNew(chain, more[j]);
    }
    assert more[..|more|] == more;
    missing := None;
  }

  /** `route_profile_names`. */
  method ExpandRoute(profiles: map<string, Profile>, names: seq<string>) returns (r: Route)
    ensures r.Chain? <==> forall i :: 0 <= i < |names| ==> Known(profiles, names[i])
    ensures r.Chain? ==> r.names == ChainOf(profiles, names)
    ensures r.BadRoute? ==> FirstMissing(profiles, names, r.error)
  {
    hide Dedup;
    hide Mentions;
    hide AddNew;
    EmptyChain(profiles);
    var chain: seq<string> := [];
    for i := 0 to |names|
      invariant forall j :: 0 <= j < i ==> Known(profiles, names[j])
      invariant chain == ChainOf(profiles, names[..i])
    {
      var name := names[i];
      if name !in profiles { return BadRoute(UnknownProvider(name)); }
      ghost var all := Mentions(profiles, names[..i]);
      DedupSnoc(all, name);
      chain := AddNew(chain, name);
      var missing;
      chain, missing := AddFallbacks(profiles, chain, profiles[name].fallbacks, all + [name]);
      if missing.Some? { return BadRoute(UnknownFallback(name, missing.value)); }
      MentionsSnoc(profiles, names, i);
    }
    assert names[..|names|] == names;
    r := Chain(chain);
  }

  lemma {:induction false} ChainIsConfigured(profiles: map<string, Profile>, names: seq<string>)
    requires forall i :: 0 <= i < |names| ==> Known(profiles, names[i])
    ensures Distinct(ChainOf(profiles, names))
    ensures forall x :: x in Elements(ChainOf(profiles, names)) ==> x in profiles
  {
    DedupIsExact(Mentions(profiles, names));
    MentionsConfigured(profiles, names);
  }

  lemma {:induction false} MentionsConfigured(profiles: map<string, Profile>, names: seq<string>)
    requires forall i :: 0 <= i < |names| ==> Known(profiles, names[i])
    ensures forall x :: x in Elements(Mentions(profiles, names)) ==> x in profiles
  {
    if names != [] {
      var init, name := names[..|names| - 1], names[|names| - 1];
      MentionsConfigured(profiles, init);
      forall x | x in Elements(profiles[name].fallbacks) ensures x in profiles {
        InElements(profiles[name].fallbacks, x);
      }
      Snoc(Mentions(profiles, init), name);
      ElementsConcat(Mentions(profiles, init) + [name], profiles[name].fallbacks);
    }
  }

  lemma {:induction false} ElementsConcat(a: seq<string>, b: seq<string>)
    ensures Elements(a + b) == Elements(a) + Elements(b)
  {
    if b == [] {
      assert a + b == a;
    } else {
      ElementsConcat(a, b[..|b| - 1]);
      assert a + b == (a + b[..|b| - 1]) + [b[|b| - 1]];
      Snoc(a + b[..|b| - 1], b[|b| - 1]);
    }
  }

  // ----- the circuit breaker -----

  datatype Health = Health(consecutiveFailures: nat, disabledUntil: real)

  datatype Event =
    | Succeeded(name: string, at: real)
    | Failed(name: string, at: real, forced: bool)

  datatype Breaker = Breaker(threshold: nat, cooldown: real)

  function AfterSuccess(): Health { Health(0, 0.0) }

  function AfterFailure(b: Breaker, h: Health, now: real, forced: bool): Health {
    var failures := h.consecutiveFailures + 1;
    Health(failures,
      if forced || failures >= b.threshold then now + b.cooldown else h.disabledUntil)
  }

  /** The health of a profile after everything that happened; `(0, 0)` when nothing did. */
  function HealthOf(b: Breaker, log: seq<Event>, name: string): Health {
    if log == [] then Health(0, 0.0)
    else
      var before, e := HealthOf(b, log[..|log| - 1], name), log[|log| - 1];
      if e.name != name then before
      else if e.Succeeded? then AfterSuccess()
      else AfterFailure(b, before, e.at, e.forced)
  }

  /** How often `name` failed since it last succeeded. */
  function Streak(log: seq<Event>, name: string): nat {
    if log == [] then 0
    else
      var before, e := log[..|log| - 1], log[|log| - 1];
      if e.name != name then Streak(before, name)
      else if e.Succeeded? then 0
      else 1 + Streak(before, name)
  }

  /** Where events of `name` stand from `from` on. */
  function EventsOf(log: seq<Event>, name: string, from: nat): set<nat> {
    set i: nat | from <= i < |log| && log[i].name == name
  }

  lemma EventsOfGrow(log: seq<Event>, name: string, from: nat)
    requires from < |log|
    ensures var n := |log| - 1;
      EventsOf(log, name, from) ==
      EventsOf(log[..n], name, from) + if log[n].name == name then {n} else {}
  {
  }

  /** A streak is counted from the last success, or from the beginning. */
  lemma {:induction false} StreakCounts(log: seq<Event>, name: string, from: nat)
    requires from <= |log|
    requires from > 0 ==> log[from - 1].Succeeded? && log[from - 1].name == name
    requires forall i | from <= i < |log| && log[i].name == name :: log[i].Failed?
    ensures Streak(log, name) == |EventsOf(log, name, from)|
    decreases |log|
  {
    var n := |log| - 1;
    if from <= n {
      StreakCounts(log[..n], name, from);
      EventsOfGrow(log, name, from);
      assert n !in EventsOf(log[..n], name, from);
    } else {
      assert EventsOf(log, name, from) == {};
    }
  }

  /** Event `i` is a failure that trips the breaker: forced, or one too many in a row. */
  ghost predicate Trips(b: Breaker, log: seq<Event>, name: string, i: int) {
    && 0 <= i < |log|
    && log[i].Failed? && log[i].name == name
    && (log[i].forced || Streak(log[..i + 1], name) >= b.threshold)
  }

  /** The last event to trip the breaker, with no success since. */
  ghost predicate LastTrip(b: Breaker, log: seq<Event>, name: string, i: int) {
    && Trips(b, log, name, i)
    && forall j | i < j < |log| && log[j].name == name :: log[j].Failed? && !Trips(b, log, name, j)
  }

  lemma {:induction false} FailuresAreStreak(b: Breaker, log: seq<Event>, name: string)
    ensures HealthOf(b, log, name).consecutiveFailures == Streak(log, name)
  {
    if log != [] { FailuresAreStreak(b, log[..|log| - 1], name); }
  }

  lemma TripsEarlier(b: Breaker, log: seq<Event>, name: string, i: int)
    requires 0 <= i < |log| - 1
    ensures Trips(b, log, name, i) <==> Trips(b, log[..|log| - 1], name, i)
  {
    assert log[..|log| - 1][..i + 1] == log[..i + 1];
  }

  lemma LastTripEarlier(b: Breaker, log: seq<Event>, name: string, i: int)
    requires 0 <= i < |log| - 1
    requires log[|log| - 1].name == name ==>
      log[|log| - 1].Failed? && !Trips(b, log, name, |log| - 1)
    ensures LastTrip(b, log, name, i) <==> LastTrip(b, log[..|log| - 1], name, i)
  {
    hide Trips;
    var before := log[..|log| - 1];
    TripsEarlier(b, log, name, i);
    forall j | 0 <= j < |log| - 1
      ensures Trips(b, log, name, j) <==> Trips(b, before, name, j)
    {
      TripsEarlier(b, log, name, j);
    }
    if LastTrip(b, log, name, i) {
      forall j | i < j < |before| && before[j].name == name
        ensures before[j].Failed? && !Trips(b, before, name, j)
      {
        assert log[j] == before[j];
      }
    }
    if LastTrip(b, before, name, i) {
      forall j | i < j < |log| && log[j].name == name
        ensures log[j].Failed? && !Trips(b, log, name, j)
      {
        if j < |log| - 1 { assert log[j] == before[j]; }
      }
    }
  }

  /** The breaker's deadline is that of the last trip, if there is one. */
  lemma {:induction false} DeadlineIsLastTrip(b: Breaker, log: seq<Event>, name: string)
    ensures forall i :: LastTrip(b, log, name, i) ==>
      HealthOf(b, log, name).disabledUntil == log[i].at + b.cooldown
    ensures HealthOf(b, log, name).disabledUntil != 0.0 ==> exists i :: LastTrip(b, log, name, i)
  {
    if log != [] {
      var n := |log| - 1;
      var before, e := log[..n], log[n];
      DeadlineIsLastTrip(b, before, name);
      FailuresAreStreak(b, before, name);
      assert log[..n + 1] == log;
      if e.name == name && (e.Succeeded? || Trips(b, log, name, n)) {
        DeadlineAtEvent(b, log, name);
      } else {
        forall i | LastTrip(b, log, name, i)
          ensures HealthOf(b, log, name).disabledUntil == log[i].at + b.cooldown
        {
          LastTripEarlier(b, log, name, i);
        }
        if HealthOf(b, log, name).disabledUntil != 0.0 {
          var i :| LastTrip(b, before, name, i);
          LastTripEarlier(b, log, name, i);
        }
      }
    }
  }

  lemma DeadlineAtEvent(b: Breaker, log: seq<Event>, name: string)
    requires log != [] && log[|log| - 1].name == name
    requires log[|log| - 1].Succeeded? || Trips(b, log, name, |log| - 1)
    ensures forall i :: LastTrip(b, log, name, i) ==>
      HealthOf(b, log, name).disabledUntil == log[i].at + b.cooldown
    ensures HealthOf(b, log, name).disabledUntil != 0.0 ==> exists i :: LastTrip(b, log, name, i)
  {
    var n := |log| - 1;
    FailuresAreStreak(b, log[..n], name);
    assert log[..n + 1] == log;
    if log[n].Failed? { assert LastTrip(b, log, name, n); }
  }

  /** A profile is unavailable exactly within one cooldown of the failure that tripped its
      breaker last, unless it succeeded since. */
  lemma UnavailableIff(b: Breaker, log: seq<Event>, name: string, now: real)
    requires now >= 0.0
    ensures now < HealthOf(b, log, name).disabledUntil <==>
      exists i :: LastTrip(b, log, name, i) && now < log[i].at + b.cooldown
  {
    DeadlineIsLastTrip(b, log, name);
  }

  // ----- one call -----

  /** What one provider does with a call: the pieces of text it streams, and how it ends. */
  datatype Outcome = Outcome(pieces: seq<string>, ok: bool)

  datatype Attempt = Attempt(profile: string, provider: string, model: string, ok: bool)

  datatype CallResult =
    | Answered(profile: string, model: string, retryCount: nat, attempts: seq<Attempt>)
    | Interrupted(profile: string)
    | AllFailed(attempts: seq<Attempt>)
    | NoRoute
    | Misrouted(error: RouteError)

  function Concat(pieces: seq<string>): string {
    if pieces == [] then "" else Concat(pieces[..|pieces| - 1]) + pieces[|pieces| - 1]
  }

  lemma {:induction false} ConcatConcat(a: seq<string>, b: seq<string>)
    ensures Concat(a + b) == Concat(a) + Concat(b)
  {
    if b == [] {
      assert a + b == a;
    } else {
      ConcatConcat(a, b[..|b| - 1]);
      assert (a + b)[..|a + b| - 1] == a + b[..|b| - 1];
    }
  }

  lemma OnePiece(piece: string)
    ensures Concat([]) == "" && Concat([piece]) == piece
  {
    assert [piece][..0] == [];
  }

  /** The call ends with this outcome: it succeeded, or the caller has already seen text. */
  predicate Settles(o: Outcome, stream: bool) {
    o.ok || (stream && Concat(o.pieces) != "")
  }

  function NextAvailable(chain: seq<string>, available: string -> bool): seq<string> {
    if chain == [] then []
    else
      var before := NextAvailable(chain[..|chain| - 1], available);
      if available(chain[|chain| - 1]) then before + [chain[|chain| - 1]] else before
  }

  /** The available profiles of a chain, or all of them when none is. */
  function ForCall(chain: seq<string>, available: string -> bool): seq<string> {
    var some := NextAvailable(chain, available);
    if some == [] then chain else some
  }

  lemma {:induction false} AvailableIsFilter(chain: seq<string>, available: string -> bool)
    requires Distinct(chain)
    ensures Distinct(NextAvailable(chain, available))
    ensures Elements(NextAvailable(chain, available)) == set x | x in Elements(chain) && available(x)
    ensures ByFirstIndex(chain, NextAvailable(chain, available))
  {
    hide ByFirstIndex;
    hide FirstIndex;
    hide Distinct;
    hide Elements;
    NoNames(chain);
    if chain != [] {
      var init, x := chain[..|chain| - 1], chain[|chain| - 1];
      var d := NextAvailable(init, available);
      LastName(chain);
      AvailableIsFilter(init, available);
      ByFirstIndexGrows(init, x, d);
      if available(x) { OneNameMore(init, d, x); }
    }
  }

  lemma OwnOrder(chain: seq<string>)
    requires Distinct(chain)
    ensures ByFirstIndex(chain, chain)
  {
    DedupIsExact(chain);
    DedupOfDistinct(chain);
  }

  lemma {:induction false} DedupOfDistinct(chain: seq<string>)
    requires Distinct(chain)
    ensures Dedup(chain) == chain
  {
    if chain != [] {
      LastName(chain);
      DedupOfDistinct(chain[..|chain| - 1]);
    }
  }

  lemma NoNames(all: seq<string>)
    ensures Distinct([]) && Elements([]) == {} && ByFirstIndex(all, [])
  {
  }

  lemma LastName(s: seq<string>)
    requires s != [] && Distinct(s)
    ensures
      var init, x := s[..|s| - 1], s[|s| - 1];
      s == init + [x] && Distinct(init) && x !in Elements(init) && Elements(s) == Elements(init) + {x}
  {
  }

  lemma OneNameMore(all: seq<string>, names: seq<string>, x: string)
    requires Distinct(names) && ByFirstIndex(all + [x], names)
    requires forall y :: y in Elements(names) ==> FirstIndex(all, y) < |all|
    requires x !in Elements(all) && Elements(names) <= Elements(all)
    ensures Distinct(names + [x]) && Elements(names + [x]) == Elements(names) + {x}
    ensures ByFirstIndex(all + [x], names + [x])
  {
    Snoc(names, x);
    Snoc(all, x);
    FirstIndexIsFirst(all, x);
  }

  /** What is tried has no duplicates and avoids disabled profiles while any other is left. */
  lemma ForCallIsSound(chain: seq<string>, available: string -> bool)
    requires Distinct(chain) && chain != []
    ensures Distinct(ForCall(chain, available)) && ForCall(chain, available) != []
    ensures Elements(ForCall(chain, available)) <= Elements(chain)
    ensures forall x, y ::
      x in Elements(chain) && available(x) && y in Elements(ForCall(chain, available)) ==> available(y)
    ensures forall x :: x in Elements(chain) && available(x) ==> x in Elements(ForCall(chain, available))
    ensures (forall x :: x in Elements(chain) ==> !available(x)) ==> ForCall(chain, available) == chain
    ensures ByFirstIndex(chain, ForCall(chain, available))
  {
    hide ByFirstIndex;
    AvailableIsFilter(chain, available);
    if ForCall(chain, available) == chain {
      OwnOrder(chain);
    } else {
      assert NextAvailable(chain, available)[0] in Elements(NextAvailable(chain, available)) by {
        InElements(NextAvailable(chain, available), NextAvailable(chain, available)[0]);
      }
    }
  }

  predicate IsAvailable(health: map<string, Health>, name: string, now: real) {
    name !in health || now >= health[name].disabledUntil
  }

  /** A failure of each of the first `k` profiles. */
  function Failures(chain: seq<string>, k: nat, clock: nat -> real): seq<Event>
    requires k <= |chain|
  {
    if k == 0 then [] else Failures(chain, k - 1, clock) + [Failed(chain[k - 1], clock(k - 1), false)]
  }

  /** What a call does: the chain it walks, the provider each name stands for, and what the
      caller asked for. */
  datatype Plan = Plan(
    chain: seq<string>,
    profiles: map<string, Profile>,
    primary: string,
    requested: string,
    stream: bool,
    outcome: (string, string) -> Outcome)
  {
    ghost predicate Valid() {
      forall k | 0 <= k < |chain| :: chain[k] in profiles
    }

    /** The route's first profile gets the model asked for, if any; others their own. */
    function Model(name: string): string
      requires name in profiles
    {
      if name == primary && requested != "" then Strip(requested) else profiles[name].model
    }

    function At(k: nat): Outcome
      requires Valid() && k < |chain|
    {
      outcome(chain[k], Model(chain[k]))
    }

    function AttemptAt(k: nat): Attempt
      requires Valid() && k < |chain|
    {
      Attempt(chain[k], profiles[chain[k]].provider, Model(chain[k]), At(k).ok)
    }

    /** None of the first `k` outcomes ends the call. */
    ghost predicate Open(k: nat)
      requires Valid() && k <= |chain|
    {
      forall j: nat | j < k :: !Settles(At(j), stream)
    }

    /** The text outcome `k` shows the caller. */
    function Shown(k: nat): string
      requires Valid() && k < |chain|
    {
      if stream then Concat(At(k).pieces) else ""
    }
  }

  /** The first profile whose outcome ends the call. */
  ghost predicate DecidedAt(p: Plan, k: nat)
    requires p.Valid()
  {
    k < |p.chain| && p.Open(k) && Settles(p.At(k), p.stream)
  }

  ghost predicate AttemptsOf(p: Plan, attempts: seq<Attempt>)
    requires p.Valid()
  {
    && |attempts| <= |p.chain|
    && forall j | 0 <= j < |attempts| :: attempts[j] == p.AttemptAt(j)
  }

  /** How a call may end after `tried` failures: with an answer, cut off after text was shown, or
      with the chain used up.  `events` is what the breaker was told, `delivered` what the caller
      was sent. */
  ghost predicate Ended(p: Plan, r: CallResult, delivered: seq<string>, tried: nat,
                        events: seq<Event>, clock: nat -> real)
    requires p.Valid()
  {
    && tried <= |p.chain|
    && (match r
        case Answered(profile, model, retryCount, attempts) =>
          && DecidedAt(p, tried) && p.At(tried).ok
          && profile == p.chain[tried] && model == p.Model(profile) && retryCount == tried
          && AttemptsOf(p, attempts) && |attempts| == tried + 1
          && events == Failures(p.chain, tried, clock) + [Succeeded(profile, clock(tried))]
        case Interrupted(profile) =>
          && DecidedAt(p, tried) && !p.At(tried).ok && profile == p.chain[tried]
          && events == Failures(p.chain, tried + 1, clock)
        case AllFailed(attempts) =>
          && tried == |p.chain| && p.Open(tried)
          && AttemptsOf(p, attempts) && |attempts| == tried
          && events == Failures(p.chain, tried, clock)
        case _ => false)
    && Concat(delivered) == (if tried < |p.chain| then p.Shown(tried) else "")
    && (!p.stream ==> delivered == [])
  }

  /** The first `k` profiles have failed in silence. */
  ghost predicate SoFar(p: Plan, attempts: seq<Attempt>, delivered: seq<string>, k: nat,
                        events: seq<Event>, clock: nat -> real)
    requires p.Valid() && k <= |p.chain|
  {
    && p.Open(k) && |attempts| == k && AttemptsOf(p, attempts)
    && events == Failures(p.chain, k, clock)
    && Concat(delivered) == "" && (!p.stream ==> delivered == [])
  }

  /** What the caller has been sent once the next profile is done. */
  function SentBy(p: Plan, delivered: seq<string>, k: nat): seq<string>
    requires p.Valid() && k < |p.chain|
  {
    if p.stream then delivered + p.At(k).pieces else delivered
  }

  lemma NothingTried(p: Plan, clock: nat -> real)
    requires p.Valid()
    ensures SoFar(p, [], [], 0, [], clock)
  {
  }

  lemma SentText(p: Plan, delivered: seq<string>, k: nat)
    requires p.Valid() && k < |p.chain|
    requires Concat(delivered) == "" && (!p.stream ==> delivered == [])
    ensures Concat(SentBy(p, delivered, k)) == p.Shown(k)
    ensures !p.stream ==> SentBy(p, delivered, k) == []
  {
    ConcatConcat(delivered, p.At(k).pieces);
  }

  lemma NextAnswers(p: Plan, attempts: seq<Attempt>, delivered: seq<string>, k: nat,
                    events: seq<Event>, clock: nat -> real)
    requires p.Valid() && k < |p.chain| && SoFar(p, attempts, delivered, k, events, clock) && p.At(k).ok
    ensures
      var name := p.chain[k];
      Ended(p, Answered(name, p.Model(name), k, attempts + [p.AttemptAt(k)]), SentBy(p, delivered, k), k,
            events + [Succeeded(name, clock(k))], clock)
  {
    hide Failures;
    hide Concat;
    hide SentBy;
    SentText(p, delivered, k);
  }

  lemma NextFails(p: Plan, attempts: seq<Attempt>, delivered: seq<string>, k: nat,
                  events: seq<Event>, clock: nat -> real)
    requires p.Valid() && k < |p.chain| && SoFar(p, attempts, delivered, k, events, clock) && !p.At(k).ok
    ensures
      var name := p.chain[k];
      var after := events + [Failed(name, clock(k), false)];
      if p.Shown(k) != "" then Ended(p, Interrupted(name), SentBy(p, delivered, k), k, after, clock)
      else SoFar(p, attempts + [p.AttemptAt(k)], SentBy(p, delivered, k), k + 1, after, clock)
  {
    hide Concat;
    hide SentBy;
    SentText(p, delivered, k);
  }

  lemma AllTried(p: Plan, attempts: seq<Attempt>, delivered: seq<string>, events: seq<Event>, clock: nat -> real)
    requires p.Valid() && SoFar(p, attempts, delivered, |p.chain|, events, clock)
    ensures Ended(p, AllFailed(attempts), delivered, |p.chain|, events, clock)
  {
    hide Failures;
    hide Concat;
  }

  /** A call tries no profile twice; those passed over failed without showing the caller anything. */
  lemma PassedOverAreSilent(p: Plan, r: CallResult, delivered: seq<string>, tried: nat,
                            events: seq<Event>, clock: nat -> real)
    requires p.Valid() && Distinct(p.chain) && Ended(p, r, delivered, tried, events, clock)
    ensures forall j: nat :: j < tried ==> p.Shown(j) == "" && !p.At(j).ok
    ensures forall i, j :: 0 <= i < j < |events| ==> events[i].name != events[j].name
    ensures r.Answered? ==> forall i :: 0 <= i < |r.attempts| ==> (r.attempts[i].ok <==> i == r.retryCount)
  {
    hide Ended;
    EventsFollowChain(p, r, delivered, tried, events, clock);
    forall i, j | 0 <= i < j < |events| ensures events[i].name != events[j].name {
      DistinctAt(p.chain, i, j);
    }
    EndedMeansOpen(p, r, delivered, tried, events, clock);
  }

  /** What the breaker is told: a failure of each profile that failed, in order and none forced, and
      the success of the one that answered. */
  lemma EventsTellOutcomes(p: Plan, r: CallResult, delivered: seq<string>, tried: nat,
                           events: seq<Event>, clock: nat -> real)
    requires p.Valid() && Ended(p, r, delivered, tried, events, clock)
    ensures |events| <= |p.chain|
    ensures forall i: nat :: i < |events| ==>
      events[i] == if p.At(i).ok then Succeeded(p.chain[i], clock(i)) else Failed(p.chain[i], clock(i), false)
    ensures r.Answered? || r.Interrupted? ==> |events| == tried + 1
    ensures !r.Answered? && !r.Interrupted? ==> |events| == tried
  {
    hide *;
    EndedEvents(p, r, delivered, tried, events, clock);
    EndedMeansOpen(p, r, delivered, tried, events, clock);
    EndReason(p, r, delivered, tried, events, clock);
    FailuresFollowChain(p.chain, tried, clock);
    if r.Interrupted? { FailuresFollowChain(p.chain, tried + 1, clock); }
  }

  /** A call is cut off only after its caller has seen text of a stream, and fails only when all
      profiles have failed in silence. */
  lemma EndReason(p: Plan, r: CallResult, delivered: seq<string>, tried: nat,
                  events: seq<Event>, clock: nat -> real)
    requires p.Valid() && Ended(p, r, delivered, tried, events, clock)
    ensures r.Answered? ==> tried < |p.chain| && p.At(tried).ok && r.profile == p.chain[tried]
    ensures r.Interrupted? ==>
      tried < |p.chain| && !p.At(tried).ok && p.stream && Concat(p.At(tried).pieces) != "" && r.profile == p.chain[tried]
    ensures r.AllFailed? ==>
      tried == |p.chain| && forall k: nat | k < |p.chain| ::
        !p.At(k).ok && (p.stream ==> Concat(p.At(k).pieces) == "")
    ensures Concat(delivered) == if tried < |p.chain| && p.stream then Concat(p.At(tried).pieces) else ""
    ensures !p.stream ==> delivered == []
  {
    hide Concat;
    hide Failures;
    hide AttemptsOf;
    if r.AllFailed? { OpenMeansFailed(p, tried); }
  }

  lemma EndedMeansOpen(p: Plan, r: CallResult, delivered: seq<string>, tried: nat,
                       events: seq<Event>, clock: nat -> real)
    requires p.Valid() && Ended(p, r, delivered, tried, events, clock)
    ensures forall j: nat :: j < tried ==> p.Shown(j) == "" && !p.At(j).ok
    ensures r.Answered? ==> forall i :: 0 <= i < |r.attempts| ==> (r.attempts[i].ok <==> i == r.retryCount)
  {
    OpenMeansFailed(p, tried);
  }

  lemma OpenMeansFailed(p: Plan, k: nat)
    requires p.Valid() && k <= |p.chain| && p.Open(k)
    ensures forall j: nat :: j < k ==> p.Shown(j) == "" && !p.At(j).ok
  {
  }

  lemma EventsFollowChain(p: Plan, r: CallResult, delivered: seq<string>, tried: nat,
                          events: seq<Event>, clock: nat -> real)
    requires p.Valid() && Ended(p, r, delivered, tried, events, clock)
    ensures |events| <= |p.chain| && forall i :: 0 <= i < |events| ==> events[i].name == p.chain[i]
  {
    hide Failures;
    hide Ended;
    EndedEvents(p, r, delivered, tried, events, clock);
    FailuresFollowChain(p.chain, Min(tried, |p.chain|), clock);
    if r.Interrupted? { FailuresFollowChain(p.chain, tried + 1, clock); }
  }

  /** The events of a call that has ended: failures, and perhaps a success. */
  lemma EndedEvents(p: Plan, r: CallResult, delivered: seq<string>, tried: nat,
                    events: seq<Event>, clock: nat -> real)
    requires p.Valid() && Ended(p, r, delivered, tried, events, clock)
    ensures tried <= |p.chain| && (r.Answered? || r.Interrupted? ==> tried < |p.chain|)
    ensures r.Answered? ==>
      events == Failures(p.chain, tried, clock) + [Succeeded(p.chain[tried], clock(tried))]
    ensures r.Interrupted? ==> events == Failures(p.chain, tried + 1, clock)
    ensures !r.Answered? && !r.Interrupted? ==> events == Failures(p.chain, tried, clock)
  {
    hide Failures;
    hide AttemptsOf;
    hide Settles;
    hide Concat;
  }

  lemma {:induction false} FailuresFollowChain(chain: seq<string>, k: nat, clock: nat -> real)
    requires k <= |chain|
    ensures |Failures(chain, k, clock)| == k
    ensures forall i: nat :: i < k ==> Failures(chain, k, clock)[i] == Failed(chain[i], clock(i), false)
  {
    if k > 0 { FailuresFollowChain(chain, k - 1, clock); }
  }

  class ModelPool {
    const profiles: map<string, Profile>
    const routes: map<string, seq<string>>
    const defaultProfile: string
    const breaker: Breaker
    var health: map<string, Health>
    /** Every outcome reported so far. */
    ghost var log: seq<Event>

    function HealthFor(name: string): Health
      reads this
    {
      if name in health then health[name] else Health(0, 0.0)
    }

    ghost predicate Valid()
      reads this
    {
      && defaultProfile in profiles && breaker.threshold >= 1 && breaker.cooldown >= 0.0
      && forall name :: HealthFor(name) == HealthOf(breaker, log, name)
    }

    constructor (profiles: map<string, Profile>, routes: map<string, seq<string>>,
                 defaultProfile: string, threshold: int, cooldown: real)
      requires defaultProfile in profiles
      ensures Valid() && log == []
      ensures this.profiles == profiles && this.routes == routes
      ensures breaker == Breaker(Max(1, threshold), if cooldown < 0.0 then 0.0 else cooldown)
    {
      this.profiles, this.routes, this.defaultProfile := profiles, routes, defaultProfile;
      breaker := Breaker(Max(1, threshold), if cooldown < 0.0 then 0.0 else cooldown);
      health, log := map[], [];
    }

    /** `_route_chain_for`: the purpose itself, its alias, `default`, or the default profile. */
    function RouteChainFor(purpose: string): seq<string> {
      if purpose in routes then routes[purpose]
      else if purpose in PURPOSE_ALIASES && PURPOSE_ALIASES[purpose] in routes
      then routes[PURPOSE_ALIASES[purpose]]
      else if "default" in routes then routes["default"]
      else [defaultProfile]
    }

    /** Which route a purpose gets: its own, else that of the purpose it is an alias of, else the default
        route, else the default profile alone. */
    lemma RouteOfPurpose(purpose: string)
      ensures purpose in routes ==> RouteChainFor(purpose) == routes[purpose]
      ensures purpose !in routes && purpose == "teammate" && "coding" in routes
        ==> RouteChainFor(purpose) == routes["coding"]
      ensures purpose !in routes && purpose in {"reflection", "task_conclusion", "compact"} && "summary" in routes
        ==> RouteChainFor(purpose) == routes["summary"]
      ensures purpose !in routes
        && !(purpose == "teammate" && "coding" in routes)
        && !(purpose in {"reflection", "task_conclusion", "compact"} && "summary" in routes)
        ==> RouteChainFor(purpose) == if "default" in routes then routes["default"] else [defaultProfile]
    {
    }

    ghost predicate Configured(purpose: string) {
      forall i :: 0 <= i < |RouteChainFor(purpose)| ==> Known(profiles, RouteChainFor(purpose)[i])
    }

    function RouteProfileNames(purpose: string): seq<string> {
      ChainOf(profiles, RouteChainFor(purpose))
    }

    /** In every reachable state, unavailability has a cause in what was reported. */
    lemma UnavailableHasCause(name: string, now: real)
      requires Valid() && now >= 0.0
      ensures !IsAvailable(health, name, now) <==>
        exists i :: LastTrip(breaker, log, name, i) && now < log[i].at + breaker.cooldown
    {
      UnavailableIff(breaker, log, name, now);
      assert HealthFor(name) == HealthOf(breaker, log, name);
    }

    method MarkSuccess(name: string, now: real)
      requires Valid()
      modifies this`health, this`log
      ensures Valid() && log == old(log) + [Succeeded(name, now)]
    {
      health := health[name := AfterSuccess()];
      log := log + [Succeeded(name, now)];
      assert log[..|log| - 1] == old(log);
    }

    method MarkFailure(name: string, now: real, forceDisable: bool)
      requires Valid()
      modifies this`health, this`log
      ensures Valid() && log == old(log) + [Failed(name, now, forceDisable)]
    {
      health := health[name := AfterFailure(breaker, HealthFor(name), now, forceDisable)];
      log := log + [Failed(name, now, forceDisable)];
      assert log[..|log| - 1] == old(log);
      assert forall other :: old(HealthFor(other)) == HealthOf(breaker, old(log), other);
    }

    /** A health check pings one profile; a failure disables it at once. */
    method HealthCheckProfile(name: string, ping: Outcome, now: real) returns (ok: Option<bool>)
      requires Valid()
      modifies this`health, this`log
      ensures Valid() && (ok.None? <==> name !in profiles)
      ensures ok.None? ==> log == old(log)
      ensures ok.Some? ==> ok.value == ping.ok
      ensures ok == Some(false) ==> log == old(log) + [Failed(name, now, true)]
      ensures ok == Some(true) ==> log == old(log) + [Succeeded(name, now)]
    {
      if name !in profiles { return None; }
      if ping.ok {
        MarkSuccess(name, now);
      } else {
        MarkFailure(name, now, true);
      }
      ok := Some(ping.ok);
    }

    /** The plan for a call: the available profiles of the route, or all when none is. */
    function PlanFor(purpose: string, requested: string, stream: bool,
                     outcome: (string, string) -> Outcome, start: real): Plan
      reads this
    {
      var names := RouteProfileNames(purpose);
      var known := health;
      Plan(ForCall(names, name => IsAvailable(known, name, start)), profiles,
           if names == [] then "" else names[0], requested, stream, outcome)
    }

    lemma PlanIsValid(purpose: string, requested: string, stream: bool,
                      outcome: (string, string) -> Outcome, start: real)
      requires Configured(purpose)
      ensures PlanFor(purpose, requested, stream, outcome, start).Valid()
      ensures Distinct(PlanFor(purpose, requested, stream, outcome, start).chain)
    {
      var names := RouteProfileNames(purpose);
      var known := health;
      var chain := ForCall(names, name => IsAvailable(known, name, start));
      ChainIsConfigured(profiles, RouteChainFor(purpose));
      AvailableIsFilter(names, name => IsAvailable(known, name, start));
      forall k | 0 <= k < |chain| ensures chain[k] in profiles {
        InElements(chain, chain[k]);
      }
    }

    /** Each profile is called through its own provider and with its own model, but the first one of the
        route with the model asked for, if one is. */
    lemma CalledWithModel(purpose: string, requested: string, stream: bool,
                          outcome: (string, string) -> Outcome, start: real, k: nat)
      requires Configured(purpose) && RouteChainFor(purpose) != []
      requires k < |PlanFor(purpose, requested, stream, outcome, start).chain|
      ensures var p := PlanFor(purpose, requested, stream, outcome, start);
        && p.Valid()
        && var a, name := p.AttemptAt(k), p.chain[k];
        && a.profile == name && name in profiles && a.provider == profiles[name].provider
        && a.model == (if name == RouteChainFor(purpose)[0] && requested != "" then Strip(requested)
                       else profiles[name].model)
        && a.ok == outcome(name, a.model).ok
    {
      hide ForCall;
      hide ChainOf;
      PlanIsValid(purpose, requested, stream, outcome, start);
      ChainStartsWithRoute(profiles, RouteChainFor(purpose));
    }

    /** `_call_with_fallbacks` once the plan is made: `tried` profiles are called in order.
        `start` is when availability is looked up, `clock(k)` when the `k`-th call ends. */
    method Attempts(p: Plan, clock: nat -> real)
      returns (result: CallResult, delivered: seq<string>, ghost tried: nat, ghost events: seq<Event>)
      requires Valid() && p.Valid() && p.chain != []
      modifies this`health, this`log
      ensures Valid() && log == old(log) + events
      ensures Ended(p, result, delivered, tried, events, clock)
      ensures !result.NoRoute? && !result.Misrouted?
    {
      hide HealthOf;
      hide Strip;
      hide SoFar;
      hide Ended;
      hide Concat;
      var attempts: seq<Attempt> := [];
      delivered, tried, events := [], 0, [];
      NothingTried(p, clock);
      for k := 0 to |p.chain|
        invariant Valid() && tried == k == |attempts| && log == old(log) + events
        invariant SoFar(p, attempts, delivered, k, events, clock)
      {
        var name := p.chain[k];
        var outcome := p.outcome(name, p.Model(name));
        if outcome.ok {
          NextAnswers(p, attempts, delivered, k, events, clock);
        } else {
          NextFails(p, attempts, delivered, k, events, clock);
        }
        if p.stream { delivered := delivered + outcome.pieces; }
        var emitted := p.stream && Concat(outcome.pieces) != "";
        if outcome.ok {
          attempts := attempts + [Attempt(name, p.profiles[name].provider, p.Model(name), true)];
          MarkSuccess(name, clock(k));
          events := events + [Succeeded(name, clock(k))];
          result := Answered(name, p.Model(name), Max(0, |attempts| - 1), attempts);
          return;
        }
        MarkFailure(name, clock(k), false);
        events := events + [Failed(name, clock(k), false)];
        if emitted { result := Interrupted(name); return; }
        attempts := attempts + [Attempt(name, p.profiles[name].provider, p.Model(name), false)];
        tried := tried + 1;
      }
      AllTried(p, attempts, delivered, events, clock);
      result := AllFailed(attempts);
    }

    /** One call for a purpose. */
    method Call(purpose: string, requested: string, stream: bool,
                outcome: (string, string) -> Outcome, start: real, clock: nat -> real)
      returns (result: CallResult, delivered: seq<string>, ghost p: Plan, ghost tried: nat,
               ghost events: seq<Event>)
      requires Valid()
      modifies this`health, this`log
      ensures Valid() && log == old(log) + events
      ensures p == old(PlanFor(purpose, requested, stream, outcome, start))
      ensures result.Misrouted? <==> !Configured(purpose)
      ensures result.NoRoute? <==> RouteChainFor(purpose) == []
      ensures result.Misrouted? || result.NoRoute? ==> events == [] && delivered == []
      ensures result.Misrouted? ==> FirstMissing(profiles, RouteChainFor(purpose), result.error)
      ensures Configured(purpose) ==> p.Valid() && Distinct(p.chain)
      ensures !result.Misrouted? && !result.NoRoute? ==>
        Ended(p, result, delivered, tried, events, clock)
    {
      hide Ended;
      hide HealthOf;
      hide ChainOf;
      EmptyChain(profiles);
      if RouteChainFor(purpose) != [] { RouteIsNotEmpty(profiles, RouteChainFor(purpose)); }
      p, tried, delivered, events := PlanFor(purpose, requested, stream, outcome, start), 0, [], [];
      var route := ExpandRoute(profiles, RouteChainFor(purpose));
      if route.BadRoute? { result := Misrouted(route.error); return; }
      PlanIsValid(purpose, requested, stream, outcome, start);
      var known := health;
      var chain := ForCall(route.names, name => IsAvailable(known, name, start));
      if chain == [] { result := NoRoute; return; }
      result, delivered, tried, events := Attempts(
        Plan(chain, profiles, route.names[0], requested, stream, outcome), clock);
    }
  }

  /** A pool needs a configured default profile, so also at least one profile. */
  method Create(profiles: map<string, Profile>, routes: map<string, seq<string>>,
                defaultProfile: string, threshold: int, cooldown: real) returns (r: Option<ModelPool>)
    ensures r.None? <==> defaultProfile !in profiles
    ensures r.Some? ==> fresh(r.value) && r.value.Valid() && r.value.log == []
  {
    if defaultProfile !in profiles { return None; }
    var pool := new ModelPool(profiles, routes, defaultProfile, threshold, cooldown);
    r := Some(pool);
  }
}
