# Career Navigator backend: login guard and helpers, in Dafny

This project models the parts of the Career Navigator backend that carry
logic of their own. Each part is proved against its specification.

- **The failed-login ledger** (`FailedLogin` in core/models.py). The ledger is a
  table with one record per client key. A record holds the time of its last
  write and a count of consecutive failures.
  - `report_failure` creates a record, resets its count or increments it.
  - `is_blocked` answers True, False or None. A True answer also counts as an
    attempt: the count goes up by one and the timestamp is refreshed.
  - The key is the first entry of `X-Forwarded-For`, or else `REMOTE_ADDR`.
    An IPv6 key keeps only its 64-bit routing prefix (section 2.5.1 of RFC 4291).
    An IPv4 key is used as it is.
- **The login guard** (`log_failure._Wrap.validate_values` in
  careernavigator/util/api.py). A blocked address is refused before its
  credentials are looked at. An `AuthenticationFailed` from credential checking is
  reported once and re-raised. Any other exception passes through without a report.
  A successful login leaves the ledger alone.
- **Small helpers**:
  - the renderer's `reshape`, which turns URL objects into text;
  - the three role-permission checks;
  - the forum admin's 24-character description column;
  - the resume upload path.

Files and modules:

| file | module | models |
|---|---|---|
| wrappers.dfy | `Wrappers` | `Option` |
| client_address.dfy | `ClientAddress` | `get_client_ip`, IPv6 /64 key |
| failed_logins.dfy | `FailedLogins` | `FailedLogin` as class `Ledger` over `map<Address, Record>` |
| login_guard.dfy | `LoginGuard` | `validate_values` as method `Attempt`, its specification `AttemptSpec`, threshold lemmas |
| rendering.dfy | `Rendering` | `Renderer.reshape` |
| permissions.dfy | `Permissions` | the three `has_permission` checks |
| forum_admin.dfy | `ForumAdmin` | `CommentAdmin.get_short` |
| resume_upload.dfy | `ResumeUpload` | `upload_to_path` |

Time is an explicit parameter `now`, an integer number of seconds; one hour is
3600. A record is stale when `updatedAt < now - 3600`. The comparison is strict,
so a record exactly one hour old is still fresh.

The methods `Ledger.ReportFailure`, `Ledger.IsBlocked` and `Attempt` update the
ledger in place. Each one's `ensures` ties the new table to a pure function of
the old table (`AfterFailure`, `AfterCheck`, `AttemptSpec`). The lemmas are
proved about those functions.

The central result is `LoginGuard.LoginThreshold`. Every failed attempt adds
exactly one to the count, whether the credentials or the guard refused it
(`FailedAttemptIsOneFailure`, `WrongTriesCount`). So after n wrong passwords
from a clear state, with no gap over an hour, a correct login is granted
exactly when n <= 10. With n = 11 the next attempt is refused before the
credentials are checked.

A successful login never resets the count; only an hour without attempts
clears it (`AttemptSpec` ensures `outcome == Granted ==> ledger == t`). The
guard passes its own falsy verdict (False or None) as `failure`, so
`report_failure` always looks the record up by key; `Attempt` passes `None`.

The login test at careernavigator/tests.py:49-67 loops over `range(11)`, so it
only runs 0 to 10 wrong passwords before the correct one. Its 401 branch never
runs, so the test never checks a block. The n > 10 half of
`LoginThreshold` states that case.

## Model

| member | source | states |
|---|---|---|
| ClientAddress.FirstField | core/models.py:62 | the result is a prefix of the header that holds no comma and ends at the first comma or at the end |
| ClientAddress.FirstFieldUnique | core/models.py:62 | that characterisation fixes the first field uniquely |
| ClientAddress.ClientIp | core/models.py:59-65 | a present, non-empty X-Forwarded-For yields its first comma-separated field; otherwise the result is REMOTE_ADDR, which may be missing |
| ClientAddress.Normalize | core/models.py:86-87 | IPv4 unchanged; IPv6 keeps bytes 0-7 and has bytes 8-15 zero |
| ClientAddress.NormalizeIdempotent | core/models.py:132-133 | a normalized address is its own key |
| ClientAddress.SameKeyIffSameSubnet | core/models.py:132-133 | two addresses share a key iff they are the same IPv4 address or IPv6 addresses with equal first 64 bits |
| FailedLogins.VerdictOf | core/models.py:135-144 | blocked iff a fresh record has more than 10 attempts; False iff no record or a stale one; otherwise the None fall-through |
| FailedLogins.FailureKeepsInvariant | core/models.py:89-98 | report_failure keeps keys normalized and counts >= 1, changes only its own key, only increments or resets to 1, and stamps the record with now |
| FailedLogins.CheckKeepsInvariant | core/models.py:135-142 | is_blocked keeps the invariant and changes the table iff it answers True |
| FailedLogins.Ledger.constructor | core/models.py:68-71 | an empty ledger satisfies the invariant |
| FailedLogins.Ledger.ReportFailure | core/models.py:74-98 | new table is the failure update of the old one, for the passed record's key or for the looked-up normalized key; returns the new count, at least 1 (1 for a new or stale record, else old + 1) |
| FailedLogins.Ledger.IsBlocked | core/models.py:127-144 | returns the verdict of the old table; a blocked record gets count + 1 and timestamp now, and nothing else changes |
| LoginGuard.AttemptSpec | careernavigator/util/api.py:28-35 | the blocked check comes first; credentials are validated iff not blocked, and a blocked attempt makes that one call and fails; granted iff validated and accepted; another exception propagates iff validation raised one; report_failure runs at most once, right after validation, and iff validation raised AuthenticationFailed; without a report the ledger is what is_blocked left; a granted login leaves it unchanged |
| LoginGuard.Attempt | careernavigator/util/api.py:28-35 | the outcome, the call sequence and the new ledger are those of AttemptSpec on the old ledger; the invariant is kept |
| LoginGuard.FailedAttemptIsOneFailure | careernavigator/util/api.py:29-34 | a failed attempt, refused by the guard or by the credentials, changes the ledger exactly as one report_failure and adds one to the carried count |
| LoginGuard.WrongTriesCount | careernavigator/util/api.py:29-35 | each wrong try is either refused by credentials and reported (report_failure, core/models.py:89-96) or refused by the guard's bump (core/models.py:139-142); so n wrong tries no more than an hour apart leave the count at the carried count + n, stamped with the last try's time, and every one fails |
| LoginGuard.LoginThreshold | careernavigator/tests.py:49-67 | after n wrong tries from the clear state, a correct login within the hour is granted iff n <= 10, with credentials checked and the ledger untouched; otherwise it is refused with only the blocked check made |
| LoginGuard.BlockedStaysBlocked | core/models.py:139-142 | from a blocked state, tries at most an hour apart are all refused; no credentials are validated and no failure is reported; each try adds one to the count |
| LoginGuard.StaleRecordResets | core/models.py:135-138 | with a stale record the attempt's outcome is decided by credential validation alone, and an AuthenticationFailed restarts the count at 1 |
| LoginGuard.SubnetSharesRecord | core/models.py:132-136 | two IPv6 addresses of one /64 subnet have identical attempt effects |
| LoginGuard.AttemptKeepsInvariant | core/models.py:68-71 | every attempt keeps the ledger invariant, never drops a record, and only increments a count or resets it to 1 |
| Rendering.Reshape | careernavigator/util/api.py:78-88 | lists and tuples keep their kind and length, element by element; dicts keep their keys in order; a Url becomes its text; other values are unchanged; the result has no Url in any list or tuple element or dict value; a Url-free value is returned equal |
| Rendering.ReshapeIdempotent | careernavigator/util/api.py:78-88 | reshaping twice equals reshaping once |
| Permissions.SuperuserPermission | careernavigator/util/api.py:103 | passes iff the user is a superuser; whoever passes also passes the mentor and jobseeker checks |
| Permissions.MentorPermission | careernavigator/util/api.py:108 | a superuser passes; anyone else passes iff a mentor |
| Permissions.JobseekerPermission | careernavigator/util/api.py:113 | a superuser passes; anyone else passes iff a jobseeker |
| Permissions.SeededAccounts | careernavigator/tests.py:85-104 | the superuser, jobseeker, mentor and no-role accounts pass exactly the checks the tests expect |
| ForumAdmin.GetShort | forum/admin.py:30-33 | a description of at most 24 characters is unchanged; a longer one gives 27 characters ending in "..."; the result starts with the first min(24, len) characters |
| ForumAdmin.GetShortIdempotent | forum/admin.py:30-33 | shortening twice equals shortening once |
| ResumeUpload.UploadPath | core/models.py:33-34 | the path is "api/pdf/", then the username, then "/", then the file name |
| ResumeUpload.UploadPathInjective | core/models.py:33-34 | for usernames without "/", the path determines both the username and the file name |

## Left out

- The asynchronous twins `areport_failure` and `ais_blocked` (core/models.py:101-125, 147-163) are line-for-line copies of the synchronous ones. The model has one copy.
- Concurrency is left out. Two simultaneous attempts race on the record's read-modify-write; the model runs attempts one after another.
- Textual addresses are left out. `ipaddress.ip_address` parsing, `str(ip)` formatting and the `ValueError` on a malformed or missing address are library behaviour. `Attempt` takes the parsed address; `ClientIp` yields the text.
- Credential checking (ninja_jwt's `validate_values`) and token issuance are foreign calls. `Attempt` takes how validation ends as a `Validation`: it returns, it raises `AuthenticationFailed`, or it raises another exception.
- `validate_inputs` only stores the request for `validate_values`. `Attempt` takes the address directly.
- Database persistence (Django ORM `get`, `create`, `save`, `auto_now`) is a map lookup and update. Every write stamps the record with `now`.
- FailedLogins.Ledger.ReportFailure: the passed-record branch names the record by its key and reads its current value. An in-memory record object that is older than the stored row is not modelled. The guard never takes this branch.
- FailedLogins.Ledger.IsBlocked: `attempts` is an unbounded integer. The database column's 32-bit range is not modelled.
- FailedLogins.Ledger.ReportFailure: the same unbounded `attempts` applies to its increments (core/models.py:79, 94).
- LoginGuard.Attempt: `is_blocked` and `report_failure` each read the clock. The model gives both the same `now`. Sub-second precision is not modelled.
- Rendering.Reshape: Python's `isinstance` also accepts subclasses of list, tuple and dict; the model has exactly those three kinds. A Url's text is taken as stored, without URL normalisation. A Url used as a dict key stays a Url, as in the code. A Url inside any other container (a set, a frozenset, any other object) is returned as it is, as the code's final `else` does; the model's `Opaque` values hold no inner values, so it does not show such a Url.
- `UserWithPermission` delegates to Django's `has_perm`, which is not part of this model.
- `JSONRenderer.render` is not modelled: it is JSON encoding by the framework.
- The CRUD controllers (core/api.py, jobs/api.py, forum/api.py, questionnaire/api.py) are not modelled: they are request and ORM plumbing.
- PDF generation, markdown rendering and the profanity filter are not modelled: they are library calls.
- Migrations, field declarations, admin registrations, `custom_titled_filter` and settings are not modelled: they are configuration.
