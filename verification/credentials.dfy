/** Values of the credential-maintenance flow and the pure specification of
    each of its steps: the status dispatch of the token probe, the
    refresh-token grant (section 6 of RFC 6749), the snapshot record, and the
    conditional UPDATE of the credentials table keyed by client_secret. */
module Credentials {

  datatype Option<T> = None | Some(value: T)

  /** A calendar date, as produced by the date of the run. */
  datatype Date = Date(year: int, month: int, day: int)

  /** The process-wide configuration, loaded once and never reassigned. */
  datatype Config = Config(clientId: string, clientSecret: string)

  /** The mutable token pair held by the process. */
  datatype Tokens = Tokens(access: string, refresh: string)

  /** An HTTP response as the flow sees it: a status code and, for the token
      endpoint, the fields of its JSON body. */
  datatype Reply = Reply(status: int, body: map<string, string>)

  /** One row of the credentials table; the key, client_secret, is the map key. */
  datatype Row = Row(clientId: string, refreshToken: string, accessToken: string, refreshDate: Date)

  /** The credentials table, keyed by client_secret. */
  type Table = map<string, Row>

  /** The record the flow builds before persisting (the data it uploads). */
  datatype Record = Record(clientId: string, clientSecret: string, refreshToken: string,
                           accessToken: string, refreshDate: Date)

  /** How the probe's status code is read. */
  datatype Verdict = Valid | Expired | Unexpected(status: int)

  /** Everything the outside world decides during one run of the flow. */
  datatype RunInput = RunInput(probeStatus: int, grantReply: Reply, today: Date, storeUp: bool)

  /** The whole mutable state: the in-memory token pair and the table. */
  datatype State = State(tokens: Tokens, table: Table)

  /** Status dispatch of the probe: 200 is valid, 401 is expired, anything
      else is only reported. */
  function Classify(status: int): (v: Verdict)
    ensures v == Valid <==> status == 200
    ensures v == Expired <==> status == 401
    ensures v.Unexpected? ==> v.status == status
  {
    if status == 200 then Valid
    else if status == 401 then Expired
    else Unexpected(status)
  }

  /** The form body posted to the token endpoint. */
  function GrantForm(refresh: string, cfg: Config): (form: map<string, string>)
    ensures form.Keys == {"grant_type", "refresh_token", "client_id", "client_secret"}
    ensures form["grant_type"] == "refresh_token"
    ensures form["refresh_token"] == refresh
    ensures form["client_id"] == cfg.clientId && form["client_secret"] == cfg.clientSecret
  {
    map["grant_type" := "refresh_token", "refresh_token" := refresh,
        "client_id" := cfg.clientId, "client_secret" := cfg.clientSecret]
  }

  /** A successful grant reply is parsed by indexing its access_token field;
      the source raises when that field is missing. */
  predicate ParsableGrant(reply: Reply)
  {
    reply.status == 200 ==> "access_token" in reply.body
  }

  /** The token pair after the token endpoint answered `reply`: a 200
      reply always brings a new access token and rotates the refresh token
      only when it carries one; any other reply changes nothing. */
  function Refreshed(t: Tokens, reply: Reply): (r: Tokens)
    requires ParsableGrant(reply)
    ensures reply.status == 200 ==> r.access == reply.body["access_token"]
    ensures reply.status == 200 && "refresh_token" in reply.body ==> r.refresh == reply.body["refresh_token"]
    ensures "refresh_token" !in reply.body ==> r.refresh == t.refresh
    ensures reply.status != 200 ==> r == t
  {
    if reply.status == 200 then
      Tokens(reply.body["access_token"],
             if "refresh_token" in reply.body then reply.body["refresh_token"] else t.refresh)
    else t
  }

  /** The token pair after the probe answered `probeStatus`: only an expired
      token leads to a refresh. */
  function AfterProbe(t: Tokens, probeStatus: int, reply: Reply): (r: Tokens)
    requires probeStatus == 401 ==> ParsableGrant(reply)
    ensures probeStatus != 401 ==> r == t
    ensures probeStatus == 401 ==> r == Refreshed(t, reply)
  {
    match Classify(probeStatus)
    case Expired => Refreshed(t, reply)
    case _ => t
  }

  /** The record built from the current configuration and tokens. */
  function Snapshot(cfg: Config, t: Tokens, today: Date): Record
  {
    Record(cfg.clientId, cfg.clientSecret, t.refresh, t.access, today)
  }

  /** The conditional UPDATE: the row whose client_secret equals the record's
      gets the record's access token and date; nothing else changes. */
  function StoreUpdate(table: Table, rec: Record): (t: Table)
    ensures t.Keys == table.Keys
    ensures forall k :: k in table && k != rec.clientSecret ==> t[k] == table[k]
    ensures rec.clientSecret !in table ==> t == table
    ensures rec.clientSecret in table ==>
      var before, after := table[rec.clientSecret], t[rec.clientSecret];
      && after.accessToken == rec.accessToken
      && after.refreshDate == rec.refreshDate
      && after.clientId == before.clientId
      && after.refreshToken == before.refreshToken
  {
    var s := rec.clientSecret;
    if s in table then table[s := table[s].(accessToken := rec.accessToken, refreshDate := rec.refreshDate)]
    else table
  }

  /** The persistence step: when the connection or the statement fails the
      transaction is never committed and the table is left as it was. */
  function Persisted(table: Table, rec: Record, storeUp: bool): Table
  {
    if storeUp then StoreUpdate(table, rec) else table
  }

  predicate RunPossible(inp: RunInput)
  {
    inp.probeStatus == 401 ==> ParsableGrant(inp.grantReply)
  }

  /** One run of the flow whose HTTP calls return a status: probe (and
      refresh on 401), snapshot, persist. The UPDATE is reached whatever the
      statuses were, so a committed run leaves the configured row with the
      access token the process holds and today's date. */
  function Run(cfg: Config, s: State, inp: RunInput): (r: State)
    requires RunPossible(inp)
    ensures r.tokens == AfterProbe(s.tokens, inp.probeStatus, inp.grantReply)
    ensures r.table.Keys == s.table.Keys
    ensures forall k :: k in s.table && k != cfg.clientSecret ==> r.table[k] == s.table[k]
    ensures inp.storeUp && cfg.clientSecret in s.table ==>
      && r.table[cfg.clientSecret].accessToken == r.tokens.access
      && r.table[cfg.clientSecret].refreshDate == inp.today
  {
    var t := AfterProbe(s.tokens, inp.probeStatus, inp.grantReply);
    State(t, Persisted(s.table, Snapshot(cfg, t, inp.today), inp.storeUp))
  }

  /** Scheduled runs: every run is a fresh process that loads the token pair
      from its environment, so only the table carries over from run to run. */
  function Schedule(cfg: Config, env: Tokens, table: Table, inputs: seq<RunInput>): (t: Table)
    requires forall i :: 0 <= i < |inputs| ==> RunPossible(inputs[i])
    ensures t.Keys == table.Keys
    decreases |inputs|
  {
    if inputs == [] then table
    else Schedule(cfg, env, Run(cfg, State(env, table), inputs[0]).table, inputs[1..])
  }
}
