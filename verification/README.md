# RD Station token validation flow — Dafny model

This project models the credential-maintenance flow of `token_pipeline.py`.
The flow is a Prefect flow that keeps an RD Station API access token usable.
It probes the API with the current bearer token. On a 401 it runs the
refresh-token grant of section 6 of RFC 6749 against the token endpoint. It
then builds a record of the current credentials and today's date, and writes
the access token and the date into the `token.access_credentials` table row
whose `client_secret` matches.

The model has three modules:

- `Credentials` (`credentials.dfy`): the values (token pair, grant reply,
  table row, record, run input) and one pure function per step. These are the
  probe's status dispatch, the grant form, the token pair after a grant reply,
  the snapshot record, the conditional UPDATE, one run of the flow, and a
  sequence of scheduled runs.
- `TokenPipeline` (`token_pipeline.dfy`): the class `Pipeline`. Its fields are
  the process-wide token pair (reassigned by the refresh step, as the module
  globals are) and the credentials table. Its methods mirror the four tasks and
  the flow. Each method's `ensures` says exactly which fields change and ties
  the new state to the matching `Credentials` function.
- `FlowProperties` (`flow_properties.dfy`): lemmas about those functions.
  They cover where refreshed tokens come from, no refresh without a 401, and
  idempotence, last-writer-wins and commutation of the UPDATE. They also show
  that the refresh_token column is never written and what holds across any
  number of scheduled runs. Four worked scenarios close the file. That a
  refresh carries the old refresh token forward, and that every run whose HTTP
  calls return a status reaches the UPDATE, are stated by the contracts of
  `Credentials.Refreshed` and `Credentials.Run`.

Every outside answer is a parameter: the probe's status code, the token
endpoint's status and JSON fields, today's date, and whether the database
accepted and committed the statement (`storeUp`).

Some behaviours of the code are easy to miss:

- The flow persists on every run whose HTTP calls return a status. It does so
  after a 200 probe, after a failed refresh, and after an unexpected probe
  status. In each case the row gets the
  access token the process holds and today's date. Nothing in the code skips
  the write when the token was valid.
- A zero-row UPDATE (no row with that client_secret) is not reported as an
  error. The table is simply unchanged.
- A database error is caught and printed. The transaction is not committed and
  the table is unchanged.
- The UPDATE writes only `access_token` and `access_token_refreshdate`. A
  refresh token rotated by the token endpoint is kept only in the process's
  memory and never reaches the table. Each scheduled run is a new process that
  reads its tokens from the environment again. So a rotation is lost after the
  run that received it (`RunFrame`, `ScheduleFrame`, `ScenarioRotation`).
- For the same reason, a committed run that refreshed stores the server's new
  access token, but a later committed run that does not refresh (its probe
  answered 200 or an unexpected status, or its grant failed) writes the environment's stale access
  token back over it and stamps its own date (`ScheduleRestoresStaleToken`).

## Model

| member | source | states |
|---|---|---|
| `Credentials.Classify` | token_pipeline.py:34-40 | The probe's status is read as valid exactly when it is 200 and as expired exactly when it is 401; every other status is kept as an unexpected status |
| `Credentials.GrantForm` | token_pipeline.py:50-55 | The form posted to the token endpoint has exactly the fields grant_type, refresh_token, client_id and client_secret, with grant_type "refresh_token" and the current refresh token and client credentials |
| `Credentials.StoreUpdate` | token_pipeline.py:100-113 | The UPDATE keeps the set of rows; every row whose client_secret differs is unchanged; with no matching row the table is unchanged; the matching row gets the record's access token and date and keeps its client_id and refresh_token |
| `Credentials.Refreshed` | token_pipeline.py:59-65 | On a 200 grant reply the access token becomes the reply's, and the refresh token becomes the reply's when it carries one; without a refresh_token field the refresh token is kept; a non-200 reply changes neither token |
| `Credentials.AfterProbe` | token_pipeline.py:34-40 | A probe status other than 401 leaves the token pair unchanged; a 401 gives the pair the refresh grant produces |
| `Credentials.Run` | token_pipeline.py:130-142 | The tokens after a run are those the probe dispatch produces; the run keeps the set of rows and every other client_secret's row; whatever the statuses, a committed run leaves the configured row with the access token in memory and today's date |
| `Credentials.Schedule` | token_pipeline.py:11-20 | Scheduled runs, each a fresh process that loads its tokens from the environment, never add or remove a row of the table |
| `TokenPipeline.Pipeline.constructor` | token_pipeline.py:14-20 | The configuration and initial token pair are the values loaded at start-up, and the table is the database's content |
| `TokenPipeline.Pipeline.RenewToken` | token_pipeline.py:43-65 | Posts the refresh grant built from the refresh token held before the call; on 200 the access token becomes the reply's, the refresh token becomes the reply's if it has one and otherwise stays; on any other status neither token changes |
| `TokenPipeline.Pipeline.VerifyToken` | token_pipeline.py:27-40 | A refresh is posted if and only if the probe answered 401, using the refresh token held before; on any other status both tokens are unchanged; the resulting pair is the one the dispatch specifies |
| `TokenPipeline.Pipeline.CreateJsonData` | token_pipeline.py:68-79 | The record holds the current client_id, client_secret, refresh token and access token, dated with the given day |
| `TokenPipeline.Pipeline.UpdateDatabase` | token_pipeline.py:94-121 | Only the table changes; its rows stay the same set; when the statement is committed the matching row gets the record's access token and date and keeps its other columns; every other row, and every row when the statement fails, is unchanged |
| `TokenPipeline.Pipeline.ValidationFlow` | token_pipeline.py:130-142 | Runs probe, snapshot and UPDATE in that order; refreshes exactly when the probe answered 401; the record persisted describes the state after the probe; when committed, the configured row holds the access token in memory and today's date |
| `FlowProperties.RefreshedTokensComeFromServer` | token_pipeline.py:59-62 | After a grant each token is either the previous one or the one the server sent, and the pair only changes on a 200 reply |
| `FlowProperties.NoSpuriousRefresh` | token_pipeline.py:34-40 | The token pair changes only after a 401 probe followed by a 200 grant reply, and then the access token is the server's |
| `FlowProperties.StoreUpdateIdempotent` | token_pipeline.py:100-113 | Writing the same record twice leaves the table as writing it once |
| `FlowProperties.StoreUpdateLastWriterWins` | token_pipeline.py:100-113 | Of two UPDATEs on the same client_secret, the second alone determines the result |
| `FlowProperties.StoreUpdatesCommute` | token_pipeline.py:100-113 | UPDATEs on different client_secrets can be applied in either order |
| `FlowProperties.RunWithoutRefreshStampsDate` | token_pipeline.py:133-142 | A run without a successful refresh keeps the tokens and still rewrites the row with the unchanged access token and today's date |
| `FlowProperties.RunFrame` | token_pipeline.py:100-113 | A run never writes refresh_token or client_id, and changes nothing when uncommitted or when no row matches |
| `FlowProperties.SecondValidRunChangesNothing` | token_pipeline.py:130-142 | Within one process, after a committed run, a second run on the same day whose probe answers 200 leaves tokens and table unchanged; for scheduled runs, which restart from the environment's tokens, see ScheduleRestoresStaleToken |
| `FlowProperties.ScheduleFrame` | token_pipeline.py:100-113 | Across any number of scheduled runs other client_secrets' rows are untouched and the refresh_token and client_id columns are never written |
| `FlowProperties.ScheduleLastCommitWins` | token_pipeline.py:130-142 | After scheduled runs the configured row holds the access token and date of the last committed run |
| `FlowProperties.ScheduledValidRunsIdempotent` | token_pipeline.py:130-142 | After a committed scheduled run whose probe answered 200, a same-day scheduled run whose probe also answers 200 leaves the table unchanged |
| `FlowProperties.ScheduleRestoresStaleToken` | token_pipeline.py:19-20 | A committed run that refreshed stores the server's access token; a following committed run that does not refresh writes the environment's access token back over it, with its own date |
| `FlowProperties.StaysAfterUncommitted` | token_pipeline.py:120-121 | Runs whose statement is never committed leave the table as it was |
| `FlowProperties.ScenarioValid` | token_pipeline.py:34-35 | A 200 probe refreshes nothing and the row is rewritten with the same token and today's date |
| `FlowProperties.ScenarioRotation` | token_pipeline.py:59-62 | A rotating grant reply leaves AT2 and RT2 in memory while the row gets AT2 and keeps RT1 |
| `FlowProperties.ScenarioRefreshFails` | token_pipeline.py:64-65 | A 400 grant reply keeps both tokens and the row is still rewritten with the old token and today's date |
| `FlowProperties.ScenarioNoMatchingRow` | token_pipeline.py:100-104 | With no row for the configured client_secret the table is unchanged and no error is raised |

## Left out

- The HTTP calls (the GET probe and the POST to the token endpoint) are left out. Their outcomes are parameters: a status code, and for the token endpoint the string fields of the JSON body. The probe's answer is not tied to the bearer token sent.
- Runs whose HTTP calls raise instead of returning a status are not modelled. These are a transport error (connection failure, timeout) from the GET probe or the token POST, a 200 grant reply whose body is not JSON, and, under Prefect versions that forbid calling a task from inside a task, the refresh call made from the probe task. Such a run ends before the UPDATE: it keeps both tokens and writes nothing, the same end state as `Run` with a probe status other than 401 and `storeUp = false`.
- A 200 grant reply without an `access_token` field makes the source raise. The model requires that field (`ParsableGrant`) instead of modelling the exception. JSON values that are not strings are not modelled either.
- The psycopg2 connection, commit and close are left out, and so are transaction semantics beyond all-or-nothing. A failure to connect or to execute is the `storeUp = false` input, and the table is then unchanged. When the connection itself fails, the source's `finally` block reads `cursor` and `conn` before they were bound. That raises out of the task, but the table is unchanged either way, and the exception is not modelled.
- The schema of `token.access_credentials` is not part of the source: the UPDATE names only `access_token`, `access_token_refreshdate` and `client_secret`. The row's `client_id` and `refresh_token` columns are assumed from the record the flow builds, and `RunFrame` and `ScheduleFrame` speak of those assumed columns.
- The table is a map keyed by `client_secret`, so the model assumes at most one row per secret. An SQL table without a uniqueness constraint could hold several matching rows, and the UPDATE would change them all.
- Loading the environment (`load_dotenv`, `os.getenv`, which may yield no value) and the fixed database settings are left out. The configuration and the initial tokens are constructor parameters.
- `date.today()` is a parameter. The printed messages and the JSON dump of the record are not modelled.
- The Prefect `@task`/`@flow` decorators (retries, logging, task state) and the deployment configuration (cron schedule, work pool, time zone) are left out. `Schedule` only models that each run starts from the environment's tokens and carries the table.
