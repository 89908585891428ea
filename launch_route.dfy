/** The launch endpoint (`app/api/launch/route.ts`): a process-wide quota of launches
    per window. `POST` checks the required fields, then renews the window if it has
    expired, then enforces the cap and counts the launch; `GET` renews the window the same
    way and reports the quota. Clocks are milliseconds passed in by the caller. */
module LaunchRoute {
  import opened Options
  import opened Decimal
  import opened JsonValue

  const MaxLaunches: int := 10
  /** One hour in milliseconds: the window length. */
  const WindowMs: int := 3600000

  /** The two module-level variables `launchCount` and `lastResetTime`. */
  datatype Quota = Quota(count: int, lastReset: int)

  predicate InBounds(q: Quota) {
    0 <= q.count <= MaxLaunches
  }

  /** The token record a successful `POST` echoes back. Absent optional fields stay
      `None` (`undefined`, dropped from the JSON response). */
  datatype LaunchedToken = LaunchedToken(
    mint: string,
    name: Json,
    ticker: Json,
    description: Option<Json>,
    website: Option<Json>,
    x: Option<Json>,
    telegram: Option<Json>,
    launchTime: string,
    initialPrice: real,
    currentPrice: real,
    volume24h: real)

  datatype PostResponse =
    | Launched(token: LaunchedToken, launchesRemaining: int)
    | MissingNameOrTicker
    | LimitReached
    | LaunchFailed
  {
    /** The HTTP status of the response. */
    function Status(): int {
      match this
      case Launched(_, _) => 200
      case MissingNameOrTicker => 400
      case LimitReached => 429
      case LaunchFailed => 500
    }
  }

  datatype QuotaReport = QuotaReport(
    launchCount: int,
    maxLaunches: int,
    launchesRemaining: int,
    timeUntilReset: int)

  datatype PostResult = PostResult(quota: Quota, response: PostResponse)
  datatype GetResult = GetResult(quota: Quota, report: QuotaReport)

  /** The window renewal both handlers run first: strictly more than one window after the
      last reset, the count restarts at zero and the window is anchored at `now`. */
  function Renew(q: Quota, now: int): (r: Quota)
    ensures now - r.lastReset <= WindowMs
    ensures r == q || r == Quota(0, now)
    ensures r != q ==> now - q.lastReset > WindowMs
    ensures now - q.lastReset > WindowMs ==> r.count == 0 && r.lastReset == now
  {
    if now - q.lastReset > WindowMs then Quota(0, now) else q
  }

  /** The `mint` string of a launched token: `TOKEN_` followed by the clock reading. */
  function MintLabel(clock: nat): (m: string)
    ensures |m| > 6 && m[..6] == "TOKEN_" && ParseDecimal(m[6..]) == Some(clock)
  {
    DecRoundTrip(clock);
    "TOKEN_" + Dec(clock)
  }

  /** Both required fields are truthy. */
  predicate HasNameAndTicker(v: Json) {
    Truthy(Field(v, "name")) && Truthy(Field(v, "ticker"))
  }

  /** A body that gets past parsing, destructuring and the required-field check. */
  predicate Admissible(body: Body) {
    body.Parsed? && Destructurable(body.value) && HasNameAndTicker(body.value)
  }

  /** `POST /api/launch`. `now` is the clock at the window check, `mintClock` the clock
      read for the mint label, `launchTime` the ISO timestamp. */
  function PostSpec(q: Quota, body: Body, now: int, mintClock: nat, launchTime: string): (r: PostResult)
    // failures before the window check leave the state untouched
    ensures !Admissible(body) ==> r.quota == q
    ensures r.response.LaunchFailed? <==> body.Unparseable? || !Destructurable(body.value)
    ensures r.response.MissingNameOrTicker? <==>
              body.Parsed? && Destructurable(body.value) && !HasNameAndTicker(body.value)
    // the cap is checked against the renewed window
    ensures r.response.LimitReached? <==> Admissible(body) && Renew(q, now).count >= MaxLaunches
    ensures r.response.LimitReached? ==> r.quota == q
    ensures r.response.Launched? <==> Admissible(body) && Renew(q, now).count < MaxLaunches
    ensures r.response.Launched? ==>
              && r.quota.count == Renew(q, now).count + 1
              && r.quota.lastReset == Renew(q, now).lastReset
              && r.response.launchesRemaining == MaxLaunches - r.quota.count
    ensures InBounds(q) ==> InBounds(r.quota)
    ensures InBounds(q) && r.response.Launched? ==> 0 <= r.response.launchesRemaining <= MaxLaunches - 1
    // the echoed token
    ensures r.response.Launched? ==>
              var t := r.response.token;
              && t.name == Field(body.value, "name").value
              && t.ticker == Field(body.value, "ticker").value
              && t.description == Field(body.value, "description")
              && t.website == Field(body.value, "website")
              && t.x == Field(body.value, "x")
              && t.telegram == Field(body.value, "telegram")
              && t.mint == MintLabel(mintClock)
              && t.launchTime == launchTime
              && t.initialPrice == 0.001 && t.currentPrice == 0.001 && t.volume24h == 0.0
  {
    if body.Unparseable? || !Destructurable(body.value) then PostResult(q, LaunchFailed)
    else
      var v := body.value;
      if !HasNameAndTicker(v) then PostResult(q, MissingNameOrTicker)
      else
        var w := Renew(q, now);
        if w.count >= MaxLaunches then PostResult(w, LimitReached)
        else
          var token := LaunchedToken(
            MintLabel(mintClock), Field(v, "name").value, Field(v, "ticker").value,
            Field(v, "description"), Field(v, "website"), Field(v, "x"), Field(v, "telegram"),
            launchTime, 0.001, 0.001, 0.0);
          var w' := Quota(w.count + 1, w.lastReset);
          PostResult(w', Launched(token, MaxLaunches - w'.count))
  }

  /** `GET /api/launch`. */
  function GetSpec(q: Quota, now: int): (r: GetResult)
    ensures r.quota == Renew(q, now)
    ensures r.report.launchCount == r.quota.count && r.report.maxLaunches == MaxLaunches
    ensures r.report.launchesRemaining == MaxLaunches - r.quota.count
    ensures InBounds(q) ==> InBounds(r.quota) && 0 <= r.report.launchesRemaining <= MaxLaunches
    // a clock that has not gone back past the last reset gives a time within one window
    ensures now >= q.lastReset ==> 0 <= r.report.timeUntilReset <= WindowMs
    ensures r.report.timeUntilReset == WindowMs - (now - r.quota.lastReset)
  {
    var w := Renew(q, now);
    var elapsed := now - w.lastReset;
    GetResult(w, QuotaReport(w.count, MaxLaunches, MaxLaunches - w.count,
                             if WindowMs - elapsed > 0 then WindowMs - elapsed else 0))
  }

  /** One request to the route, in arrival order. */
  datatype Call =
    | PostCall(body: Body, now: int, mintClock: nat, launchTime: string)
    | GetCall(now: int)

  function Apply(q: Quota, c: Call): Quota {
    match c
    case PostCall(body, now, mintClock, launchTime) => PostSpec(q, body, now, mintClock, launchTime).quota
    case GetCall(now) => GetSpec(q, now).quota
  }

  /** The module state after a series of requests handled one after another. */
  function Run(q: Quota, calls: seq<Call>): Quota
    decreases |calls|
  {
    if calls == [] then q else Run(Apply(q, calls[0]), calls[1..])
  }

  /** `launchCount` stays within [0, 10] across any series of requests. */
  lemma {:induction false} RunInBounds(q: Quota, calls: seq<Call>)
    requires InBounds(q)
    ensures InBounds(Run(q, calls))
    decreases |calls|
  {
    if calls != [] {
      RunInBounds(Apply(q, calls[0]), calls[1..]);
    }
  }

  /** A renewal at the same clock reading changes nothing more. */
  lemma RenewIdempotent(q: Quota, now: int)
    ensures Renew(Renew(q, now), now) == Renew(q, now)
  {
  }

  /** The window is renewed strictly after one hour: not at exactly 3600000 ms. */
  lemma RenewBoundary(count: int, t: int)
    ensures Renew(Quota(count, t), t + WindowMs) == Quota(count, t)
    ensures Renew(Quota(count, t), t + WindowMs + 1) == Quota(0, t + WindowMs + 1)
  {
  }

  /** A series of valid `POST`s, each with its clock readings. */
  datatype Launch = Launch(body: Body, now: int, mintClock: nat, launchTime: string)

  function Responses(q: Quota, ls: seq<Launch>): (rs: seq<PostResponse>)
    ensures |rs| == |ls|
    decreases |ls|
  {
    if ls == [] then []
    else
      var r := PostSpec(q, ls[0].body, ls[0].now, ls[0].mintClock, ls[0].launchTime);
      [r.response] + Responses(r.quota, ls[1..])
  }

  function QuotaAfter(q: Quota, ls: seq<Launch>): Quota
    decreases |ls|
  {
    if ls == [] then q
    else QuotaAfter(PostSpec(q, ls[0].body, ls[0].now, ls[0].mintClock, ls[0].launchTime).quota, ls[1..])
  }

  /** Within one window (no request more than an hour after the last reset), valid
      `POST`s are accepted while fewer than ten have been counted; every later one gets
      429 and the count stays at ten. */
  lemma {:induction false} FillWindow(q: Quota, ls: seq<Launch>)
    requires InBounds(q)
    requires forall i :: 0 <= i < |ls| ==> Admissible(ls[i].body) && ls[i].now - q.lastReset <= WindowMs
    ensures QuotaAfter(q, ls).lastReset == q.lastReset
    ensures QuotaAfter(q, ls).count == if q.count + |ls| < MaxLaunches then q.count + |ls| else MaxLaunches
    ensures forall i :: 0 <= i < |ls| ==>
              (Responses(q, ls)[i].Launched? <==> q.count + i < MaxLaunches) &&
              (Responses(q, ls)[i].LimitReached? <==> q.count + i >= MaxLaunches)
    decreases |ls|
  {
    if ls != [] {
      var r := PostSpec(q, ls[0].body, ls[0].now, ls[0].mintClock, ls[0].launchTime);
      assert Renew(q, ls[0].now) == q;
      assert r.quota.lastReset == q.lastReset;
      FillWindow(r.quota, ls[1..]);
      var rs := Responses(q, ls);
      assert rs == [r.response] + Responses(r.quota, ls[1..]);
      forall i | 0 <= i < |ls|
        ensures (rs[i].Launched? <==> q.count + i < MaxLaunches)
        ensures (rs[i].LimitReached? <==> q.count + i >= MaxLaunches)
      {
        if i > 0 {
          assert rs[i] == Responses(r.quota, ls[1..])[i - 1];
          assert ls[1..][i - 1] == ls[i];
        }
      }
    }
  }

  /** The route's module state. */
  class LaunchQuota {
    var launchCount: int
    var lastResetTime: int

    function State(): Quota
      reads this
    {
      Quota(launchCount, lastResetTime)
    }

    ghost predicate Valid()
      reads this
    {
      InBounds(State())
    }

    /** Module load: the count starts at zero and the window at the load time. */
    constructor (loadTime: int)
      ensures Valid() && State() == Quota(0, loadTime)
    {
      launchCount := 0;
      lastResetTime := loadTime;
    }

    method Post(body: Body, now: int, mintClock: nat, launchTime: string) returns (response: PostResponse)
      requires Valid()
      modifies this
      ensures Valid()
      ensures PostResult(State(), response) == PostSpec(old(State()), body, now, mintClock, launchTime)
    {
      if body.Unparseable? || !Destructurable(body.value) {
        return LaunchFailed;
      }
      var v := body.value;
      var name, ticker := Field(v, "name"), Field(v, "ticker");
      if !Truthy(name) || !Truthy(ticker) {
        return MissingNameOrTicker;
      }
      if now - lastResetTime > WindowMs {
        launchCount := 0;
        lastResetTime := now;
      }
      if launchCount >= MaxLaunches {
        return LimitReached;
      }
      var token := LaunchedToken(
        MintLabel(mintClock), name.value, ticker.value,
        Field(v, "description"), Field(v, "website"), Field(v, "x"), Field(v, "telegram"),
        launchTime, 0.001, 0.001, 0.0);
      launchCount := launchCount + 1;
      response := Launched(token, MaxLaunches - launchCount);
    }

    method Get(now: int) returns (report: QuotaReport)
      requires Valid()
      modifies this
      ensures Valid()
      ensures GetResult(State(), report) == GetSpec(old(State()), now)
    {
      if now - lastResetTime > WindowMs {
        launchCount := 0;
        lastResetTime := now;
      }
      var elapsed := now - lastResetTime;
      report := QuotaReport(launchCount, MaxLaunches, MaxLaunches - launchCount,
                            if WindowMs - elapsed > 0 then WindowMs - elapsed else 0);
    }
  }
}
