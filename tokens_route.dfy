/** The token listing endpoint (`app/api/tokens/route.ts`): an in-memory list of token
    records, seeded with three, listed by `GET` and grown at the front by `POST`. */
module TokensRoute {
  import opened Options
  import opened Decimal
  import opened JsonValue

  /** A stored token: a JavaScript object with arbitrary properties. */
  type Record = map<string, Json>

  /** The properties written after the spread, which override the body. */
  const Trailing: set<string> := {"launchTime", "initialPrice", "currentPrice", "volume24h"}

  function SeedRecord(id: string, name: string, ticker: string, address: string, launchTime: string,
                      initialPrice: real, currentPrice: real, volume24h: real): Record
  {
    map["id" := JStr(id), "name" := JStr(name), "ticker" := JStr(ticker), "address" := JStr(address),
        "launchTime" := JStr(launchTime), "initialPrice" := JNum(initialPrice),
        "currentPrice" := JNum(currentPrice), "volume24h" := JNum(volume24h)]
  }

  /** The list at module load. */
  function Seed(): (ts: seq<Record>)
    ensures |ts| == 3
    // three records with the same eight properties, their ids the numbers 1, 2, 3
    ensures forall i :: 0 <= i < |ts| ==>
              && ts[i].Keys == {"id", "name", "ticker", "address"} + Trailing
              && ts[i]["id"] == JStr(Dec(i + 1))
  {
    [ SeedRecord("1", "Slow Token", "SWT", "SWT...1234", "2024-01-15 14:30", 0.001, 0.0025, 1500.0),
      SeedRecord("2", "Retro Coin", "RETRO", "RET...5678", "2024-01-15 13:45", 0.0005, 0.0008, 800.0),
      SeedRecord("3", "Terminal Token", "TERM", "TER...9012", "2024-01-15 12:15", 0.002, 0.0015, 2200.0) ]
  }

  /** The record `POST` builds from a parsed body when `stored` records exist:
      `{ id: String(stored + 1), ...body, launchTime, initialPrice: 0.001,
      currentPrice: 0.001, volume24h: 0 }`. */
  function NewRecord(body: Json, stored: nat, launchTime: string): (r: Record)
    ensures r.Keys == {"id"} + Spread(body).Keys + Trailing
    // the computed id, unless the body brings its own
    ensures r["id"] == if "id" in Spread(body) then Spread(body)["id"] else JStr(Dec(stored + 1))
    // the trailing properties win over the body
    ensures r["launchTime"] == JStr(launchTime)
    ensures r["initialPrice"] == JNum(0.001) && r["currentPrice"] == JNum(0.001)
    ensures r["volume24h"] == JNum(0.0)
    // every other body property is copied as is
    ensures forall k :: k in Spread(body) && k !in Trailing ==> r[k] == Spread(body)[k]
  {
    map["id" := JStr(Dec(stored + 1))] + Spread(body)
      + map["launchTime" := JStr(launchTime), "initialPrice" := JNum(0.001),
            "currentPrice" := JNum(0.001), "volume24h" := JNum(0.0)]
  }

  datatype ListResponse = Listed(tokens: seq<Record>)
  datatype AddResponse = Added(token: Record) | AddFailed {
    function Status(): int {
      if Added? then 200 else 500
    }
  }

  datatype AddResult = AddResult(tokens: seq<Record>, response: AddResponse)

  /** `POST /api/tokens` on the list `ts`. */
  function AddSpec(ts: seq<Record>, body: Body, launchTime: string): (r: AddResult)
    ensures body.Unparseable? <==> r.response == AddFailed
    ensures body.Unparseable? ==> r.tokens == ts
    ensures body.Parsed? ==>
              && |r.tokens| == |ts| + 1
              && r.tokens[1..] == ts
              && r.response == Added(r.tokens[0])
              && r.tokens[0] == NewRecord(body.value, |ts|, launchTime)
  {
    if body.Unparseable? then AddResult(ts, AddFailed)
    else
      var t := NewRecord(body.value, |ts|, launchTime);
      AddResult([t] + ts, Added(t))
  }

  /** The id of a record read back as a number, when it is a decimal string. */
  function IdNumber(r: Record): Option<nat> {
    if "id" in r && r["id"].JStr? then ParseDecimal(r["id"].s) else None
  }

  /** Every id is the decimal text of a number in 1..|ts| ... */
  ghost predicate Numbered(ts: seq<Record>) {
    forall i :: 0 <= i < |ts| ==> IdNumber(ts[i]).Some? && 1 <= IdNumber(ts[i]).value <= |ts|
  }

  /** ... and no two records share an id. */
  ghost predicate DistinctIds(ts: seq<Record>) {
    forall i, j :: 0 <= i < j < |ts| ==> IdNumber(ts[i]) != IdNumber(ts[j])
  }

  /** The seeded records carry the ids "1", "2" and "3". */
  lemma SeedNumbered()
    ensures Numbered(Seed()) && DistinctIds(Seed())
  {
    var s := Seed();
    assert ParseDecimal("1") == Some(1) && ParseDecimal("2") == Some(2) && ParseDecimal("3") == Some(3) by {
      DecRoundTrip(1);
      DecRoundTrip(2);
      DecRoundTrip(3);
    }
    assert IdNumber(s[0]) == Some(1) && IdNumber(s[1]) == Some(2) && IdNumber(s[2]) == Some(3);
  }

  /** A `POST` whose body has no `id` of its own keeps the ids numbered and distinct. */
  lemma AddKeepsIdsDistinct(ts: seq<Record>, body: Body, launchTime: string)
    requires Numbered(ts) && DistinctIds(ts)
    requires body.Parsed? ==> "id" !in Spread(body.value)
    ensures Numbered(AddSpec(ts, body, launchTime).tokens)
    ensures DistinctIds(AddSpec(ts, body, launchTime).tokens)
  {
    if body.Parsed? {
      var us := AddSpec(ts, body, launchTime).tokens;
      DecRoundTrip(|ts| + 1);
      assert IdNumber(us[0]) == Some(|ts| + 1);
      forall i | 1 <= i < |us|
        ensures IdNumber(us[i]).Some? && 1 <= IdNumber(us[i]).value <= |ts|
      {
        assert us[i] == ts[i - 1];
      }
    }
  }

  /** The list after a series of `POST`s. */
  function AddAll(ts: seq<Record>, bodies: seq<Body>, launchTimes: seq<string>): seq<Record>
    requires |bodies| == |launchTimes|
    decreases |bodies|
  {
    if bodies == [] then ts
    else AddAll(AddSpec(ts, bodies[0], launchTimes[0]).tokens, bodies[1..], launchTimes[1..])
  }

  /** A series of `POST`s whose bodies bring no `id` keeps the ids numbered and distinct. */
  lemma {:induction false} AddAllKeepsIdsDistinct(ts: seq<Record>, bodies: seq<Body>, launchTimes: seq<string>)
    requires |bodies| == |launchTimes|
    requires Numbered(ts) && DistinctIds(ts)
    requires forall i :: 0 <= i < |bodies| && bodies[i].Parsed? ==> "id" !in Spread(bodies[i].value)
    ensures Numbered(AddAll(ts, bodies, launchTimes)) && DistinctIds(AddAll(ts, bodies, launchTimes))
    decreases |bodies|
  {
    if bodies != [] {
      AddKeepsIdsDistinct(ts, bodies[0], launchTimes[0]);
      var rest := bodies[1..];
      assert forall i :: 0 <= i < |rest| ==> rest[i] == bodies[i + 1];
      AddAllKeepsIdsDistinct(AddSpec(ts, bodies[0], launchTimes[0]).tokens, rest, launchTimes[1..]);
    }
  }

  /** Every record has an `id` property and no two share one. */
  ghost predicate UniqueIds(ts: seq<Record>) {
    && (forall i :: 0 <= i < |ts| ==> "id" in ts[i])
    && (forall i, j :: 0 <= i < j < |ts| ==> ts[i]["id"] != ts[j]["id"])
  }

  lemma NumberedIdsUnique(ts: seq<Record>)
    requires Numbered(ts) && DistinctIds(ts)
    ensures UniqueIds(ts)
  {
    forall i, j | 0 <= i < j < |ts|
      ensures ts[i]["id"] != ts[j]["id"]
    {
      assert IdNumber(ts[i]) != IdNumber(ts[j]);
    }
  }

  /** Starting from the seeded list, as long as no body brings its own `id`, the ids of
      the stored records stay pairwise distinct. */
  lemma SeededIdsStayUnique(bodies: seq<Body>, launchTimes: seq<string>)
    requires |bodies| == |launchTimes|
    requires forall i :: 0 <= i < |bodies| && bodies[i].Parsed? ==> "id" !in Spread(bodies[i].value)
    ensures UniqueIds(AddAll(Seed(), bodies, launchTimes))
  {
    SeedNumbered();
    AddAllKeepsIdsDistinct(Seed(), bodies, launchTimes);
    NumberedIdsUnique(AddAll(Seed(), bodies, launchTimes));
  }

  /** The route's module-level `tokens` array. */
  class TokenStore {
    var tokens: seq<Record>

    constructor ()
      ensures tokens == Seed()
    {
      tokens := Seed();
    }

    /** `GET /api/tokens`: the stored list, in its current order. */
    method Get() returns (response: ListResponse)
      ensures response.tokens == tokens
    {
      response := Listed(tokens);
    }

    /** `POST /api/tokens`: builds the record and `unshift`s it. */
    method Post(body: Body, launchTime: string) returns (response: AddResponse)
      modifies this
      ensures AddResult(tokens, response) == AddSpec(old(tokens), body, launchTime)
    {
      if body.Unparseable? {
        return AddFailed;
      }
      var token := NewRecord(body.value, |tokens|, launchTime);
      tokens := [token] + tokens;
      response := Added(token);
    }
  }
}
