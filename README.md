# Digger GitLab event routing, run loop and access-policy checks in Dafny

This project models the control path of Digger's GitLab integration. That path turns a
merge-request event into infrastructure-as-code commands, runs them, and decides whether a
user may run a command on a project.

- **Event routing** (`Gitlab.ConvertGitLabEventToCommands`). An opened, updated or closed
  merge request selects, for every impacted project, the workflow list of the matching stage:
  `OnCommitToDefault`, `OnPullRequestPushed` or `OnPullRequestClosed`. A comment is scanned by
  substring containment for the vocabulary `digger plan`, `digger apply`, `digger unlock` and
  `digger lock`. Every phrase it contains fires one single-command batch per project,
  phrase-major, then in project order. Any other event type is an error.
- **Run loop** (`Gitlab.RunCommandsPerProject`). Visits every command of every batch in order and
  records the executor call it makes (`Action`). Its result is the flag that decides the exit
  status. The flag is *assigned* from each lock request, so it ends up holding the answer to the
  last `digger lock` (or `true` when there was none). The answers of the external lock store
  are an oracle: `lockOutcome(n)` is the answer to the n-th lock request of the run.
- **Changed files** (`Gitlab.GetChangedFiles`). Copies the new path of each merge-request
  change, index for index, through a fixed-size array.
- **Policy lookup** (`Policy.DiggerHttpPolicyProvider.GetPolicy`). Tries the project-level
  policy first. On 404 it falls back to the organisation-level policy, and two 404s mean "no
  policy" (`""`). Any other status, or a failed request, is an error. The namespace goes into
  the request path with every `/` replaced by `-`. The HTTP client is a function from
  `Request` to `Fetch`; a body that cannot be read becomes `Body.Unreadable`.
- **Authorization** (`Policy.DiggerPolicyChecker.Check`, specified by `Authorize`). The checks
  run in a fixed order:
  1. A failed team lookup denies with its error.
  2. An empty policy allows.
  3. A policy the Rego engine cannot prepare denies with the engine's error.
  4. An empty result denies with `NoResultFound`.
  5. Otherwise the first result's expressions are scanned in order. The first non-boolean is an
     error, the first `false` denies, and all `true` allows.

  `NoOpPolicyChecker` allows everything. The CI team lookup and the Rego engine are given as
  functions.

The model follows the code in three places where it does not do what is evidently intended:

- The run loop overwrites the lock flag, whereas the exit status is meant to be non-zero
  whenever any lock request failed.
- `Check` drops the policy lookup's error, whereas an unexpected status from the policy service
  is meant to be an error, never a decision.
- The run loop does not call the authorizer before a command, whereas each command is meant to
  be authorized first.

The first two are listed under Findings. Each also has a corrected variant, with its intended
property proved.

Modules: `Wrappers` (Option, Result), `Strings` (Go's `strings.Contains` and one-character
`strings.ReplaceAll`), `Digger` (the project and batch types of the `digger` package; pkg/digger
is not part of this model), `Gitlab` (pkg/gitlab/gitlab.go) and `Policy` (pkg/policy/policy.go).

## Model

| member | source | states |
|---|---|---|
| `Strings.ReplaceAll` | pkg/policy/policy.go:56 | Same length; every `/` becomes `-` and every other character is unchanged, so the namespace path segment contains no `/` |
| `Gitlab.MatchedPositions` | pkg/gitlab/gitlab.go:175-178 | The positions of the vocabulary phrases the comment contains: ascending, in range, and containing position j exactly when `strings.Contains(comment, phrase j)` |
| `Gitlab.MatchedCommandsInOrder` | pkg/gitlab/gitlab.go:175-178 | The matched phrases are the phrases at the matched positions, so they are in vocabulary order (plan, apply, unlock, lock) |
| `Gitlab.MatchedCommandsAreContained` | pkg/gitlab/gitlab.go:177-178 | A phrase is matched if and only if it is in the vocabulary and the comment contains it |
| `Gitlab.NoneContained` | pkg/gitlab/gitlab.go:177-178 | If the comment contains none of the phrases, nothing is matched |
| `Gitlab.CommentRoutingLength` | pkg/gitlab/gitlab.go:177-197 | A comment yields (matched phrases) × (impacted projects) batches |
| `Gitlab.CommentRoutingAt` | pkg/gitlab/gitlab.go:177-197 | The batch for the m-th matched phrase and the i-th project is at index m × (number of projects) + i and copies that project with commands `[phrase]` |
| `Gitlab.CommentRoutingEntry` | pkg/gitlab/gitlab.go:179-194 | Every comment batch is the batch of some matched phrase for some impacted project |
| `Gitlab.CommentCommandsAreMatchedPhrases` | pkg/gitlab/gitlab.go:175-197 | Every comment batch has exactly one command. That command is a vocabulary phrase contained in the comment, and the batch copies name, dir, workspace and Terragrunt flag from an impacted project |
| `Gitlab.NoPhraseNoCommands` | pkg/gitlab/gitlab.go:174-198 | A comment that contains no vocabulary phrase yields no batches |
| `Gitlab.NoLockPhraseInPlanApply` | pkg/gitlab/gitlab.go:175-178 | The comment "digger plan digger apply" contains neither `digger unlock` nor `digger lock` |
| `Gitlab.PlanApplyCommentFiresBoth` | pkg/gitlab/gitlab.go:175-197 | The comment "digger plan digger apply" fires both phrases for one project: a plan batch, then an apply batch |
| `Gitlab.ConvertGitLabEventToCommands` | pkg/gitlab/gitlab.go:137-203 | Error iff the event type is none of the four constants; an error comes with no batches. Opened, updated and closed yield one batch per project, in order, with that stage's workflow list and the project's identity fields. A comment yields the phrase-major comment routing of the matched phrases, of length matched × projects |
| `Gitlab.RunMakesDispatchedCalls` | pkg/gitlab/gitlab.go:208-243 | The run loop makes one executor call per plan, apply, unlock or lock command, in visit order, and counts the lock requests |
| `Gitlab.OverwriteKeepsLastLock` | pkg/gitlab/gitlab.go:207-248 | Assigning the flag from each lock request leaves it holding the last lock's answer, or `true` with no lock |
| `Gitlab.ConjunctionChecksEveryLock` | pkg/gitlab/gitlab.go:241 | Conjoining the answers instead leaves the flag `true` exactly when every lock request succeeded |
| `Gitlab.VisitsAppend` | pkg/gitlab/gitlab.go:208-209 | Commands are visited batch by batch, then in list order: the visits of a concatenation are the concatenated visits |
| `Gitlab.UnknownCommandIgnored` | pkg/gitlab/gitlab.go:229-242 | A command outside the four literals makes no executor call and leaves the verdict unchanged |
| `Gitlab.LaterLockOverrides` | pkg/gitlab/gitlab.go:239-241 | After a lock request the verdict is that request's answer, whatever came before |
| `Gitlab.VerdictsAgreeOnOneLock` | pkg/gitlab/gitlab.go:246-248 | With at most one lock request, the last-lock verdict and the all-locks verdict agree |
| `Gitlab.OverwriteForgetsEarlierFailure` | pkg/gitlab/gitlab.go:239-248 | A `digger lock` comment for two projects routes one lock batch to each; with the first project's lock refused and the second's granted, the run passes although a lock was refused |
| `Gitlab.RunCommandsPerProject` | pkg/gitlab/gitlab.go:205-250 | The executor calls are the dispatch of every visited command in order. The returned flag (exit status 1 when false) is the answer to the last lock request, or `true` with none |
| `Gitlab.RunCommandsPerProjectAllLocks` | pkg/gitlab/gitlab.go:239-248 | The corrected loop makes the same executor calls; its flag is `true` iff every lock request succeeded |
| `Gitlab.GetChangedFiles` | pkg/gitlab/gitlab.go:102-107 | As many file names as changes; the i-th is the i-th change's new path |
| `Policy.ReadAll` | pkg/policy/policy.go:40-50 | Only a failed request is an error. A response keeps its status code whatever it is, and a body that cannot be read becomes `""` without error |
| `Policy.DiggerHttpPolicyProvider.OrganisationPolicyRequest` | pkg/policy/policy.go:33-38 | The organisation-level request: `<host>/orgs/<organisation>/access-policy` with the header `Bearer <token>` |
| `Policy.DiggerHttpPolicyProvider.ProjectPolicyRequest` | pkg/policy/policy.go:56-62 | The project-level request, with the header `Bearer <token>`: `<host>/repos/`, then the namespace character for character with every `/` turned into `-` (so that segment holds no `/`), then `/projects/<project>/access-policy` |
| `Policy.OrganisationAndProjectRequestsDiffer` | pkg/policy/policy.go:34-57 | The fallback asks for a different resource: the organisation URL never equals a project URL |
| `Policy.DiggerHttpPolicyProvider.GetPolicyForOrganisation` | pkg/policy/policy.go:32-51 | The organisation-level fetch fails iff its request fails, and then with the client's error; a response keeps its status; an unreadable body reads as `""` |
| `Policy.DiggerHttpPolicyProvider.GetPolicyForNamespace` | pkg/policy/policy.go:53-76 | The project-level fetch fails iff its request fails, and then with the client's error; a response keeps its status; an unreadable body reads as `""` |
| `Policy.DiggerHttpPolicyProvider.GetPolicy` | pkg/policy/policy.go:79-101 | An error always comes with `""`. No error iff the project level answered 200, or it answered 404 and the organisation level answered 200 or 404. Project 200 returns the project body and organisation 200 returns the organisation body; two 404s return `""` with no error. A failed request propagates its error. Any other status yields an unexpected-response error carrying that body and code |
| `Policy.ProjectPolicyShadowsOrganisation` | pkg/policy/policy.go:80-85 | When the project level answers 200, the lookup succeeds and does not depend on the organisation request at all |
| `Policy.ProjectRequestFailureIsReported` | pkg/policy/policy.go:59-67 | A project-level request that cannot be built or sent yields `""` with the client's own error |
| `Policy.OrganisationRequestFailureIsReported` | pkg/policy/policy.go:86-90 | After a project-level 404, an organisation-level request that cannot be built or sent yields `""` with the client's own error |
| `Policy.UnreadablePolicyIsEmpty` | pkg/policy/policy.go:70-85 | A 200 whose body cannot be read yields `""` with no error, the same as "no policy" |
| `Policy.ExpressionVerdict` | pkg/policy/policy.go:145-157 | Scanning the expressions in order: allowed iff every value is `true`; an error iff some non-boolean is preceded only by `true`, and that error is "decision is not a boolean" |
| `Policy.FirstFalseDenies` | pkg/policy/policy.go:147-155 | A `false` reached before any non-boolean denies without error |
| `Policy.FirstNonBooleanIsError` | pkg/policy/policy.go:147-151 | A non-boolean reached before any `false` denies with the "decision is not a boolean" error |
| `Policy.NoOpPolicyChecker.Check` | pkg/policy/policy.go:28-30 | Always allowed, never an error |
| `Policy.DiggerPolicyChecker.Authorize` | pkg/policy/policy.go:108-158 | Allowed implies no error. Allowed iff the team lookup succeeded and either the policy text is empty, or it prepares and the first result is non-empty with every expression `true`. A failed team lookup denies with its error, whatever the policy. After a successful team lookup: an empty policy allows without error; a policy that does not prepare denies with the engine's error; no result, or a first result without expressions, denies with "no result found"; otherwise the expression verdict of the first result decides |
| `Policy.DiggerPolicyChecker.Check` | pkg/policy/policy.go:108-158 | The early-returning scan over the first result's expressions reaches exactly the decision and error of `Authorize` |
| `Policy.LookupErrorAllows` | pkg/policy/policy.go:110-127 | If the policy lookup fails and the team lookup succeeds, the command is allowed with no error |
| `Policy.DiggerPolicyChecker.AuthorizeFailClosed` | pkg/policy/policy.go:110-115 | In the corrected decision a failed policy lookup denies with that lookup's error, and an allowed decision implies the lookup succeeded |
| `Policy.FailClosedAgreesOnSuccessfulLookup` | pkg/policy/policy.go:110-115 | When the policy lookup succeeds, the corrected decision equals the original one |

## Findings

| source | as written | input that shows it | evidently intended | confidence | as-written member | corrected member |
|---|---|---|---|---|---|---|
| pkg/gitlab/gitlab.go:241 | `lockAcquisitionSuccess` is assigned from every lock request, so a later success erases an earlier failure | a `digger lock` comment with two impacted projects `a` and `b` yields the batches `a: [digger lock]`, `b: [digger lock]`; `a` is held by another merge request and `b` is free, so the first request is refused and the second granted; the exit status is 0 | the run fails when any lock request was refused | medium, not executed | `Gitlab.OverwriteForgetsEarlierFailure` | `Gitlab.RunCommandsPerProjectAllLocks` |
| pkg/policy/policy.go:110-111 | the error of `GetPolicy` is overwritten by the team lookup's error before it is tested | the project-level policy request answers 500 and the team lookup succeeds; `Check` returns allowed with no error | a failed policy lookup denies with that error | high, not executed | `Policy.LookupErrorAllows` | `Policy.DiggerPolicyChecker.AuthorizeFailClosed` |

`RunCommandsPerProject` and `DiggerPolicyChecker.Check` themselves model the code as written.

## Left out

- Sending an HTTP request is left out; the request's URL and `Authorization` header are
  modelled as the `Request` value. A fetch is the client's answer to that `Request`. A construction or transport failure is `RequestFailed`, and a failed
  body read is `Body.Unreadable`. The read failure is swallowed into an empty body, as in the
  code.
- Rego preparation and evaluation are foreign library calls. They are modelled as the
  `RegoEngine` functions. The error returned by `Eval` is never checked in the code, so only the
  results are modelled.
- Error message formatting is not modelled. Errors are `Error` constructors that carry the body
  and status code, not `fmt` strings. The code's project-level message text says "org policy"
  although it concerns the project.
- `ParseGitLabContext`, `NewGitLabService`, `ProcessGitLabEvent` and `PublishComment` are left
  out. They are environment parsing, stdout printing, library wrappers, a delegation to the
  external configuration, and an empty stub.
- The go-gitlab call inside `GetChangedFiles` is left out, and so is its `log.Fatalf` on failure.
  The model starts from the returned change list.
- `DiggerExecutor.Plan/Apply/Unlock/Lock` and `utils.ProjectLockImpl` are external code. They
  become the `Action` trace and the `lockOutcome` oracle. The lock store's atomic check-and-set
  is outside these files.
- `utils.SendUsageRecord` is not modelled. The apply record passes the project name where the
  other three records pass the namespace.
- `os.Exit(1)` becomes the returned flag: the process exits with status 1 exactly when it is
  false.
- The event type, the comment text and the impacted projects are method parameters. In the code
  they come from the pipeline's environment and the configuration collaborator.
- The console output of `Check` is not modelled: the message printed when the team lookup fails
  and the debug line that prints the policy input and the policy text. Neither affects the
  decision.
- Concurrency across overlapping webhook runs is not modelled. The code has none in-process.
