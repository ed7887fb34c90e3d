/** The credential-maintenance flow as the process runs it: the token pair is
    process-wide state that the refresh step reassigns, and the credentials
    table is changed by one conditional UPDATE. Every outside answer (the
    probe's status, the token endpoint's reply, the date, whether the
    database accepted the statement) is a parameter. */
module TokenPipeline {
  import opened Credentials

  class Pipeline {
    const clientId: string
    const clientSecret: string
    var accessToken: string
    var refreshToken: string
    /** The credentials table, keyed by client_secret. */
    var table: Table

    function Cfg(): Config
    {
      Config(clientId, clientSecret)
    }

    function Held(): Tokens
      reads this
    {
      Tokens(accessToken, refreshToken)
    }

    function Current(): State
      reads this
    {
      State(Held(), table)
    }

    /** The configuration and the initial token pair come from the
        environment; the table is the database's content. */
    constructor (clientId: string, clientSecret: string, refreshToken: string,
                 accessToken: string, table: Table)
      ensures this.clientId == clientId && this.clientSecret == clientSecret
      ensures this.refreshToken == refreshToken && this.accessToken == accessToken
      ensures this.table == table
    {
      this.clientId := clientId;
      this.clientSecret := clientSecret;
      this.refreshToken := refreshToken;
      this.accessToken := accessToken;
      this.table := table;
    }

    /** The refresh-token grant. Posts the form it returns; on a 200 reply
        the access token is replaced and the refresh token is replaced only if
        the reply carries one; on any other reply neither changes. */
    method RenewToken(reply: Reply) returns (form: map<string, string>)
      requires ParsableGrant(reply)
      modifies this`accessToken, this`refreshToken
      ensures form == GrantForm(old(refreshToken), Cfg())
      ensures reply.status == 200 ==> accessToken == reply.body["access_token"]
      ensures reply.status == 200 && "refresh_token" in reply.body ==>
                refreshToken == reply.body["refresh_token"]
      ensures reply.status == 200 && "refresh_token" !in reply.body ==>
                refreshToken == old(refreshToken)
      ensures reply.status != 200 ==> accessToken == old(accessToken) && refreshToken == old(refreshToken)
      ensures Held() == Refreshed(old(Held()), reply)
    {
      form := map["grant_type" := "refresh_token", "refresh_token" := refreshToken,
                  "client_id" := clientId, "client_secret" := clientSecret];
      if reply.status == 200 {
        accessToken := reply.body["access_token"];
        if "refresh_token" in reply.body {
          refreshToken := reply.body["refresh_token"];
        }
      }
    }

    /** Reads the probe's status: 200 does nothing, 401 refreshes once and
        returns the form it posted, anything else is only reported. */
    method VerifyToken(probeStatus: int, reply: Reply) returns (sent: Option<map<string, string>>)
      requires probeStatus == 401 ==> ParsableGrant(reply)
      modifies this`accessToken, this`refreshToken
      ensures sent.Some? <==> probeStatus == 401
      ensures sent.Some? ==> sent.value == GrantForm(old(refreshToken), Cfg())
      ensures probeStatus != 401 ==> accessToken == old(accessToken) && refreshToken == old(refreshToken)
      ensures Held() == AfterProbe(old(Held()), probeStatus, reply)
    {
      if probeStatus == 200 {
        sent := None;
      } else if probeStatus == 401 {
        var form := RenewToken(reply);
        sent := Some(form);
      } else {
        sent := None;
      }
    }

    /** The record of the current configuration and tokens, dated `today`. */
    method CreateJsonData(today: Date) returns (rec: Record)
      ensures rec.clientId == clientId && rec.clientSecret == clientSecret
      ensures rec.refreshToken == refreshToken && rec.accessToken == accessToken
      ensures rec.refreshDate == today
      ensures rec == Snapshot(Cfg(), Held(), today)
    {
      rec := Record(clientId, clientSecret, refreshToken, accessToken, today);
    }

    /** The conditional UPDATE of access_token and access_token_refreshdate
        in the row whose client_secret is the record's; `storeUp` is false
        when connecting or executing failed, and then nothing is committed. */
    method UpdateDatabase(rec: Record, storeUp: bool)
      modifies this`table
      ensures table.Keys == old(table).Keys
      ensures forall k :: k in old(table) && (!storeUp || k != rec.clientSecret) ==> table[k] == old(table)[k]
      ensures storeUp && rec.clientSecret in table ==>
                && table[rec.clientSecret].accessToken == rec.accessToken
                && table[rec.clientSecret].refreshDate == rec.refreshDate
                && table[rec.clientSecret].clientId == old(table)[rec.clientSecret].clientId
                && table[rec.clientSecret].refreshToken == old(table)[rec.clientSecret].refreshToken
      ensures table == Persisted(old(table), rec, storeUp)
    {
      if storeUp {
        var s := rec.clientSecret;
        if s in table {
          table := table[s := table[s].(accessToken := rec.accessToken, refreshDate := rec.refreshDate)];
        }
      }
    }

    /** The flow: probe (refreshing on 401), build the record, persist it.
        When the HTTP calls return a status, the record is persisted whatever
        the probe or the token endpoint answered. Returns the refresh form posted, if any,
        and the record written. */
    method ValidationFlow(inp: RunInput) returns (sent: Option<map<string, string>>, rec: Record)
      requires RunPossible(inp)
      modifies this
      ensures sent.Some? <==> inp.probeStatus == 401
      ensures rec == Snapshot(Cfg(), Held(), inp.today)
      ensures inp.storeUp && clientSecret in table ==>
                table[clientSecret].accessToken == accessToken && table[clientSecret].refreshDate == inp.today
      ensures Current() == Run(Cfg(), old(Current()), inp)
    {
      sent := VerifyToken(inp.probeStatus, inp.grantReply);
      rec := CreateJsonData(inp.today);
      UpdateDatabase(rec, inp.storeUp);
    }
  }
}
