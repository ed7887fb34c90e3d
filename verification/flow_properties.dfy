/** Properties of the credential-maintenance flow, stated over the
    specification functions that the methods of TokenPipeline.Pipeline are
    proved against. */
module FlowProperties {
  import opened Credentials

  // ---------------------------------------------------------------------
  // The refresh-token grant

  /** Each token after a refresh is either the one held before or the one
      the token endpoint sent: the flow never invents or clears a token. */
  lemma RefreshedTokensComeFromServer(t: Tokens, reply: Reply)
    requires ParsableGrant(reply)
    ensures var r := Refreshed(t, reply);
      && (r.access == t.access || r.access == reply.body["access_token"])
      && (r.refresh == t.refresh || ("refresh_token" in reply.body && r.refresh == reply.body["refresh_token"]))
      && (r != t ==> reply.status == 200)
  {
  }

  // ---------------------------------------------------------------------
  // The probe's dispatch

  /** Only a 401 from the probe followed by a 200 from the token endpoint
      can change the token pair; and then the access token is the server's. */
  lemma NoSpuriousRefresh(t: Tokens, probeStatus: int, reply: Reply)
    requires probeStatus == 401 ==> ParsableGrant(reply)
    ensures AfterProbe(t, probeStatus, reply) != t ==> probeStatus == 401 && reply.status == 200
    ensures probeStatus == 401 && reply.status == 200 ==>
              AfterProbe(t, probeStatus, reply).access == reply.body["access_token"]
  {
  }

  // ---------------------------------------------------------------------
  // The conditional UPDATE

  /** Writing the same record twice is the same as writing it once, so a
      repeated run with the same token and date is harmless. */
  lemma StoreUpdateIdempotent(table: Table, rec: Record)
    ensures StoreUpdate(StoreUpdate(table, rec), rec) == StoreUpdate(table, rec)
  {
  }

  /** Two updates keyed by the same client_secret: the last writer wins. */
  lemma StoreUpdateLastWriterWins(table: Table, first: Record, second: Record)
    requires first.clientSecret == second.clientSecret
    ensures StoreUpdate(StoreUpdate(table, first), second) == StoreUpdate(table, second)
  {
  }

  /** Updates keyed by different client_secrets do not interfere. */
  lemma StoreUpdatesCommute(table: Table, r1: Record, r2: Record)
    requires r1.clientSecret != r2.clientSecret
    ensures StoreUpdate(StoreUpdate(table, r1), r2) == StoreUpdate(StoreUpdate(table, r2), r1)
  {
  }

  // ---------------------------------------------------------------------
  // One run of the flow

  /** A probe that is not 401, or a refresh that fails, still rewrites the
      row: with the unchanged access token and today's date. */
  lemma RunWithoutRefreshStampsDate(cfg: Config, s: State, inp: RunInput)
    requires RunPossible(inp)
    requires inp.probeStatus != 401 || inp.grantReply.status != 200
    requires inp.storeUp && cfg.clientSecret in s.table
    ensures var s' := Run(cfg, s, inp);
      && s'.tokens == s.tokens
      && s'.table[cfg.clientSecret] == s.table[cfg.clientSecret].(accessToken := s.tokens.access, refreshDate := inp.today)
  {
  }

  /** A run never writes the refresh_token or client_id column, so a rotated
      refresh token is held only in memory; uncommitted or unmatched, it
      leaves the table as it was. */
  lemma RunFrame(cfg: Config, s: State, inp: RunInput)
    requires RunPossible(inp)
    ensures var t := Run(cfg, s, inp).table;
      && (forall k :: k in s.table ==> t[k].refreshToken == s.table[k].refreshToken && t[k].clientId == s.table[k].clientId)
      && (!inp.storeUp || cfg.clientSecret !in s.table ==> t == s.table)
  {
  }

  /** Within one process: a second run whose probe answers 200 on the same
      day, after a run that was committed, leaves the whole state as the
      first run left it. Scheduled runs each start a new process from the
      environment's tokens, so this does not carry over to them when the
      first run refreshed (see ScheduleRestoresStaleToken). */
  lemma SecondValidRunChangesNothing(cfg: Config, s: State, first: RunInput, second: RunInput)
    requires RunPossible(first) && first.storeUp
    requires second.probeStatus == 200 && second.today == first.today
    ensures var s1 := Run(cfg, s, first);
      Run(cfg, s1, second) == s1
  {
  }

  // ---------------------------------------------------------------------
  // Scheduled runs

  /** However many scheduled runs happen, every other client_secret's row
      is untouched, and the refresh_token and client_id columns are never
      written. */
  lemma {:induction false} ScheduleFrame(cfg: Config, env: Tokens, table: Table, inputs: seq<RunInput>)
    requires forall i :: 0 <= i < |inputs| ==> RunPossible(inputs[i])
    ensures var t := Schedule(cfg, env, table, inputs);
      && (forall k :: k in table && k != cfg.clientSecret ==> t[k] == table[k])
      && (forall k :: k in table ==> t[k].refreshToken == table[k].refreshToken && t[k].clientId == table[k].clientId)
    decreases |inputs|
  {
    if inputs != [] {
      var next := Run(cfg, State(env, table), inputs[0]).table;
      RunFrame(cfg, State(env, table), inputs[0]);
      ScheduleFrame(cfg, env, next, inputs[1..]);
    }
  }

  /** The row of the configured client_secret ends with what the last
      committed run wrote, provided the runs after it were not committed. */
  lemma {:induction false} ScheduleLastCommitWins(cfg: Config, env: Tokens, table: Table, inputs: seq<RunInput>, j: nat)
    requires forall i :: 0 <= i < |inputs| ==> RunPossible(inputs[i])
    requires cfg.clientSecret in table
    requires j < |inputs| && inputs[j].storeUp
    requires forall i :: j < i < |inputs| ==> !inputs[i].storeUp
    ensures var t := Schedule(cfg, env, table, inputs);
      && t[cfg.clientSecret].accessToken == AfterProbe(env, inputs[j].probeStatus, inputs[j].grantReply).access
      && t[cfg.clientSecret].refreshDate == inputs[j].today
    decreases |inputs|
  {
    var next := Run(cfg, State(env, table), inputs[0]).table;
    RunFrame(cfg, State(env, table), inputs[0]);
    if j == 0 {
      StaysAfterUncommitted(cfg, env, next, inputs[1..]);
    } else {
      ScheduleLastCommitWins(cfg, env, next, inputs[1..], j - 1);
    }
  }

  /** Scheduled runs are idempotent while the token stays valid: after a
      committed run whose probe answered 200, a same-day run whose probe also
      answers 200 leaves the table as the first run left it. */
  lemma ScheduledValidRunsIdempotent(cfg: Config, env: Tokens, table: Table, a: RunInput, b: RunInput)
    requires a.probeStatus == 200 && a.storeUp
    requires b.probeStatus == 200 && b.today == a.today
    ensures Schedule(cfg, env, table, [a, b]) == Schedule(cfg, env, table, [a])
  {
    var s1 := Run(cfg, State(env, table), a);
    assert [a, b][1..] == [b] && [b][1..] == [] && [a][1..] == [];
    SecondValidRunChangesNothing(cfg, State(env, table), a, b);
    assert s1.tokens == env;
  }

  /** Two committed scheduled runs, the first refreshing and the second
      not: the first stores the server's fresh access token, and the second,
      starting again from the environment's tokens, writes the environment's
      stale access token back over it with its own date. */
  lemma ScheduleRestoresStaleToken(cfg: Config, env: Tokens, table: Table, a: RunInput, b: RunInput)
    requires cfg.clientSecret in table
    requires RunPossible(a) && RunPossible(b) && a.storeUp && b.storeUp
    requires a.probeStatus == 401 && a.grantReply.status == 200
    requires b.probeStatus != 401 || b.grantReply.status != 200
    ensures Schedule(cfg, env, table, [a])[cfg.clientSecret].accessToken == a.grantReply.body["access_token"]
    ensures var t := Schedule(cfg, env, table, [a, b]);
      && t[cfg.clientSecret].accessToken == env.access
      && t[cfg.clientSecret].refreshDate == b.today
  {
    ScheduleLastCommitWins(cfg, env, table, [a], 0);
    ScheduleLastCommitWins(cfg, env, table, [a, b], 1);
  }

  /** Runs whose UPDATE is never committed leave the table as it is. */
  lemma {:induction false} StaysAfterUncommitted(cfg: Config, env: Tokens, table: Table, inputs: seq<RunInput>)
    requires forall i :: 0 <= i < |inputs| ==> RunPossible(inputs[i]) && !inputs[i].storeUp
    ensures Schedule(cfg, env, table, inputs) == table
    decreases |inputs|
  {
    if inputs != [] {
      StaysAfterUncommitted(cfg, env, table, inputs[1..]);
    }
  }

  // ---------------------------------------------------------------------
  // Worked scenarios

  const Cfg0 := Config("id", "secret")
  const Day := Date(2024, 5, 17)
  const Row0 := Row("id", "RT1", "AT1", Date(2024, 5, 16))
  const Start := State(Tokens("AT1", "RT1"), map["secret" := Row0])

  /** The probe answers 200: no refresh, and the row is still rewritten
      with the same token and today's date. */
  lemma ScenarioValid()
    ensures var s' := Run(Cfg0, Start, RunInput(200, Reply(500, map[]), Day, true));
      && s'.tokens == Start.tokens
      && s'.table == map["secret" := Row("id", "RT1", "AT1", Day)]
  {
  }

  /** The probe answers 401 and the token endpoint rotates both tokens: the
      process holds AT2 and RT2, the row gets AT2, and the row's refresh
      token stays RT1. */
  lemma ScenarioRotation()
    ensures var s' := Run(Cfg0, Start, RunInput(401, Reply(200, map["access_token" := "AT2", "refresh_token" := "RT2"]), Day, true));
      && s'.tokens == Tokens("AT2", "RT2")
      && s'.table == map["secret" := Row("id", "RT1", "AT2", Day)]
  {
  }

  /** The probe answers 401 and the token endpoint answers 400: the tokens
      are kept and the row is still rewritten with the old token and today's
      date. */
  lemma ScenarioRefreshFails()
    ensures var s' := Run(Cfg0, Start, RunInput(401, Reply(400, map[]), Day, true));
      && s'.tokens == Start.tokens
      && s'.table == map["secret" := Row("id", "RT1", "AT1", Day)]
  {
  }

  /** A client_secret with no row: the UPDATE matches nothing and the table
      is unchanged, with no error. */
  lemma ScenarioNoMatchingRow()
    ensures var s' := Run(Config("id", "other"), Start, RunInput(401, Reply(200, map["access_token" := "AT2"]), Day, true));
      && s'.tokens == Tokens("AT2", "RT1")
      && s'.table == Start.table
  {
  }
}
