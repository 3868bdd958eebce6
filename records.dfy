/** The prediction record, the payload the predictions endpoint returns, the
    normalisation between the two, and the built-in sample records. */
module Records {
  import opened Wrappers
  import opened Calendar

  /** One prediction as the list holds it. Text fields may be missing; the
      match time is assumed to parse as a date. */
  datatype Prediction = Prediction(
    id: int,
    matchDate: Timestamp,
    league: Option<string>,
    teamHome: Option<string>,
    teamAway: Option<string>,
    odds: Option<string>,
    tip: Option<string>)

  /** One element of the fetched `predictions` array: every field optional
      except the match time. */
  datatype RawPrediction = RawPrediction(
    id: Option<int>,
    matchDate: Timestamp,
    league: Option<string>,
    teamHome: Option<string>,
    teamAway: Option<string>,
    odds: Option<string>,
    tip: Option<string>)

  /** One element of the fetched `predictions` array: `Null` for `null` or
      `undefined`, whose `id` cannot be read, `Object` for anything else. */
  datatype Element = Null | Object(raw: RawPrediction)

  /** The outcome of fetching the endpoint: `Failed` for a network error, a
      non-OK HTTP status or a body that is not a JSON object; otherwise the
      body's `status` and `predictions` (missing when not an array). */
  datatype FetchOutcome =
    | Failed
    | Received(status: Option<string>, predictions: Option<seq<Element>>)

  /** The script takes the payload only when `status` is `"ok"` and
      `predictions` is an array. */
  predicate Accepted(o: FetchOutcome)
    ensures Accepted(o) ==> o != Failed && o.predictions != None
  {
    o.Received? && o.status == Some("ok") && o.predictions.Some?
  }

  /** The elements as payload records, or `None` when one of them is `Null`:
      normalising reads `p.id` of each element and so throws at the first
      `Null` one. */
  function Objects(es: seq<Element>): (r: Option<seq<RawPrediction>>)
    ensures r.Some? <==> forall i :: 0 <= i < |es| ==> es[i].Object?
    ensures r.Some? ==> |r.value| == |es| && forall i :: 0 <= i < |es| ==> es[i] == Object(r.value[i])
  {
    if es == [] then Some([])
    else
      match Objects(es[1..])
      case Some(rest) =>
        if es[0].Object? then Some([es[0].raw] + rest)
        else None
      case None => None
  }

  /** The record built from element `i` of the payload: the id defaults to
      `i + 100` when missing, every other field is copied. */
  function NormalizeOne(p: RawPrediction, i: int): Prediction {
    Prediction(p.id.GetOr(i + 100), p.matchDate, p.league, p.teamHome, p.teamAway, p.odds, p.tip)
  }

  /** `json.predictions.map((p, i) => ...)`: one record per payload element,
      in the same order. */
  function Normalize(raw: seq<RawPrediction>): (r: seq<Prediction>)
    ensures |r| == |raw|
    ensures forall i :: 0 <= i < |raw| ==>
      && r[i].id == (if raw[i].id.Some? then raw[i].id.value else i + 100)
      && r[i].matchDate == raw[i].matchDate
      && r[i].league == raw[i].league
      && r[i].teamHome == raw[i].teamHome
      && r[i].teamAway == raw[i].teamAway
      && r[i].odds == raw[i].odds
      && r[i].tip == raw[i].tip
  {
    seq(|raw|, i requires 0 <= i < |raw| => NormalizeOne(raw[i], i))
  }

  /** A record as the endpoint would send it, id included. */
  function ToRaw(p: Prediction): RawPrediction {
    RawPrediction(Some(p.id), p.matchDate, p.league, p.teamHome, p.teamAway, p.odds, p.tip)
  }

  /** Normalising records that already carry their ids gives them back
      unchanged: normalisation only fills in what is missing. */
  lemma NormalizeToRaw(ps: seq<Prediction>)
    ensures Normalize(seq(|ps|, i requires 0 <= i < |ps| => ToRaw(ps[i]))) == ps
  {
  }

  /** When the payload carries no ids, the defaulted ids are `100`, `101`, ...
      in order, and so no two records share one. */
  lemma DefaultIdsDistinct(raw: seq<RawPrediction>)
    requires forall i :: 0 <= i < |raw| ==> raw[i].id == None
    ensures forall i :: 0 <= i < |raw| ==> Normalize(raw)[i].id == i + 100
    ensures forall i, j :: 0 <= i < j < |raw| ==> Normalize(raw)[i].id != Normalize(raw)[j].id
  {
  }

  /** Defaulted ids are not kept apart from supplied ones: a payload whose
      first element has no id and whose second has id 100 yields two records
      with id 100. */
  lemma DefaultIdCanCollide(a: RawPrediction, b: RawPrediction)
    requires a.id == None && b.id == Some(100)
    ensures Normalize([a, b])[0].id == Normalize([a, b])[1].id == 100
  {
  }

  /** The five built-in sample records; their match times are computed from
      the wall clock and are given here as `d1` to `d5`. Ids run from 1 to 5
      and every text field is present. */
  function SampleData(d1: Timestamp, d2: Timestamp, d3: Timestamp, d4: Timestamp, d5: Timestamp): (r: seq<Prediction>)
    ensures |r| == 5
    ensures forall i :: 0 <= i < 5 ==> r[i].id == i + 1
    ensures [r[0].matchDate, r[1].matchDate, r[2].matchDate, r[3].matchDate, r[4].matchDate] == [d1, d2, d3, d4, d5]
    ensures forall i :: 0 <= i < 5 ==>
      r[i].league.Some? && r[i].teamHome.Some? && r[i].teamAway.Some? && r[i].odds.Some? && r[i].tip.Some?
  {
    [ Prediction(1, d1, Some("UEFA Champions League"), Some("Team A"), Some("Team B"), Some("1.85"), Some("1")),
      Prediction(2, d2, Some("Premier League"), Some("Team C"), Some("Team D"), Some("2.10"), Some("X")),
      Prediction(3, d3, Some("La Liga"), Some("Team E"), Some("Team F"), Some("1.60"), Some("2")),
      Prediction(4, d4, Some("Serie A"), Some("Team G"), Some("Team H"), Some("2.50"), Some("BTTS")),
      Prediction(5, d5, Some("Friendly"), Some("Team I"), Some("Team J"), Some("1.95"), Some("1")) ]
  }
}
