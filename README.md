# caddygit, modelled in Dafny

caddygit is a Caddy plugin that keeps a local git checkout in sync with a
remote repository and runs commands after each update. This repository
holds several generations of that design side by side:

- the root package (`caddygit.go`, `repository.go`), an app whose repositories
  carry a `Tag` (empty for a branch, `{latest}` for the latest tag);
- `client/`, a client with its own repository, commands and poll service;
- `repository/`, `commander/` and `service/`, a library split into packages;
- `module/` and `services/`, the module generation. Its clients are
  configured from the `git` Caddyfile directive (`module/git/caddyfile.go`)
  and driven by poll or webhook services.

Every generation is modelled on its own terms. Behaviours that differ
between generations are kept apart, even where the names match.

What the model covers:

- `utils/reference_name.go` and `replacer.go`: the `type|name` encoding of
  references and the `git.ref.*` placeholders that produce it. These are
  pure functions with lemmas for validity, classification, extraction and
  the package's own test cases.
- The three repository generations: reference and credential derivation,
  the setup path (open or clone), the update dispatch, and the latest-tag
  search. Each repository is a class whose methods issue repository
  operations. Go-git's answers come from an environment of oracle results,
  and the class records the operations issued. The latest-tag search is a
  map-filling loop and a stopping walk, proved against a specification
  function.
- The command runners of `commander/` and `client/commands.go`: argument
  splitting, the filtering of empty commands, and the best-effort run loops
  with their callbacks. Cancellation is checked before each command in one
  generation and after each command in the other.
- The trigger services: the service-type literal table, the time service,
  the poll services and the webhook service. Each is modelled as what it
  sends on its channel for a sequence of stimuli (ticker firings, a
  cancellation, HTTP requests). The two hook handlers are decision functions.
- The module client: `Provision` (placeholder replacement in five fields,
  service and path defaults), `Validate` (an ordered decision table over
  the filesystem's answers) and `Start` (setup, a first command run, then a
  loop over the service's values). The `client/` variant of `Start` is
  modelled as well.
- The `git` Caddyfile directive: a dispenser class over tokens, the
  directive's arguments and subdirectives, Go's `ParseBool` and base-10
  `ParseInt`, and the global and handler entry points.
- The root app: `forEach` with its break sentinel, `Validate`, and `Start`'s
  per-repository preparation and task.

Git, processes, HTTP, JSON decoding, URL parsing, HMAC, the filesystem,
module loading and Caddy's replacer are parameters of the operations that
use them. Durations are integer nanoseconds.

## Model

| member | source | states |
|---|---|---|
| Utils.NewReferenceName | utils/reference_name.go:25-27 | The encoding is the type word, `\|`, then the name, so the name is recovered after the type prefix |
| Utils.IsType | utils/reference_name.go:45-48 | A string has a type exactly when it is that type's encoding of the text after the type's prefix |
| Utils.IsLatestCommit | utils/reference_name.go:51-53 | True exactly for a latest-commit encoding of the text after `latest_commit|` |
| Utils.IsLatestTag | utils/reference_name.go:56-58 | True exactly for a latest-tag encoding of the text after `latest_tag|` |
| Utils.IsTag | utils/reference_name.go:61-63 | True exactly for a tag encoding of the text after `tag|` |
| Utils.AtMostOneType | utils/reference_name.go:45-48 | No string has two different type prefixes |
| Utils.TypesExclusive | utils/reference_name.go:51-63 | At most one of `IsTag`, `IsLatestTag` and `IsLatestCommit` holds of any string |
| Utils.ConstructedType | utils/reference_name.go:25-48 | A constructed name is recognised as exactly its own type |
| Utils.NewLatestCommitReferenceName | utils/reference_name.go:30-32 | The result is a latest-commit encoding and neither of the other two |
| Utils.NewLatestTagReferenceName | utils/reference_name.go:35-37 | The result is a latest-tag encoding and neither of the other two |
| Utils.NewTagReferenceName | utils/reference_name.go:40-42 | The result is a tag encoding and neither of the other two |
| Utils.Name | utils/reference_name.go:66-69 | The name is separator-free and shorter than the encoding it comes from |
| Utils.SplitPieceShorter | utils/reference_name.go:66-69 | Every piece of a split string that holds the separator is shorter than the string |
| Utils.NameBetweenSeparators | utils/reference_name.go:66-69 | `Name` is the text between the first and the second separator, whatever follows |
| Utils.IsValid | utils/reference_name.go:72-85 | A valid string is recognised by one of `IsLatestCommit`, `IsLatestTag` and `IsTag` |
| Utils.ValidIffConstructed | utils/reference_name.go:72-85 | A string is valid exactly when one of the constructors built it from a separator-free name |
| Utils.ConstructedIsValid | utils/reference_name.go:25-85 | Each constructor applied to a separator-free name, the empty one included, gives a valid string whose `Name` is that name |
| Utils.InvalidExamples | utils/reference_name.go:72-85 | `""`, `abc`, `x\|y` and `tag\|a\|b` are invalid |
| Utils.GitReferenceName | utils/reference_name.go:88-94 | A tag encoding gives `refs/tags/<name>`; the other two give `refs/heads/<name>` |
| Utils.GitReferenceNameOfConstructed | utils/reference_name.go:88-94 | The tag constructor maps to go-git's tag name, and both latest constructors map to go-git's branch name |
| Replacer.GitReplacerFunc | replacer.go:26-32 | A key outside `git.ref.` is never resolved, and a resolved key always yields a well-typed encoding |
| Replacer.SuffixAfterRefPrefix | replacer.go:68-84 | A key with the `git.ref.` prefix and either suffix is long enough for both slices of the default forms |
| Replacer.GitRefReplacerFunc | replacer.go:34-87 | Every value it resolves is an encoding with one of the three type prefixes |
| Replacer.TagKeys | replacer.go:35-42 | `git.ref.tag.<t>` yields the tag encoding of `t`, dots included, and an empty `t` is refused |
| Replacer.BranchLatestTagKeys | replacer.go:44-56 | `git.ref.branch.<b>.latest_tag` yields the latest-tag encoding of `b`, and is refused when `b` is empty |
| Replacer.BranchLatestCommitKeys | replacer.go:44-65 | `git.ref.branch.<b>.latest_commit` yields the latest-commit encoding of `b`, and is refused when `b` is empty |
| Replacer.PlainBranchKeys | replacer.go:44-65 | `git.ref.branch.<b>` without a suffix yields the latest-commit encoding of `b`, an empty `b` included |
| Replacer.DefaultKeyExact | replacer.go:68-84 | The text between `git.ref` and the suffix is empty exactly when the key is `git.ref` plus the suffix |
| Replacer.DefaultKeys | replacer.go:68-86 | Under `git.ref.` but outside the tag and branch forms, only the two exact default keys resolve, to the empty-name encodings |
| Replacer.DefaultCommitExample | replacer_test.go:19-22 | `git.ref.latest_commit` resolves to the empty-name latest-commit encoding |
| Replacer.DefaultTagExample | replacer_test.go:23-26 | `git.ref.latest_tag` resolves to the empty-name latest-tag encoding |
| Replacer.PlainBranchExample | replacer_test.go:27-30 | `git.ref.branch.abc` resolves to the latest-commit encoding of `abc` |
| Replacer.BranchCommitExample | replacer_test.go:31-34 | `git.ref.branch.abc.latest_commit` resolves to the latest-commit encoding of `abc` |
| Replacer.BranchTagExample | replacer_test.go:35-38 | `git.ref.branch.abc.latest_tag` resolves to the latest-tag encoding of `abc` |
| Replacer.TagExample | replacer_test.go:39-42 | `git.ref.tag.v1.2.3` resolves to the tag encoding of `v1.2.3` |
| Replacer.RefusedExamples | replacer_test.go:56-66 | The keys the tests expect to be refused are refused |
| Replacer.EmptySuffixedBranchRefused | replacer.go:47-62 | A suffixed branch key whose branch name is empty is refused |
| Git.BranchNotTag | repository.go:115-131 | No reference name is both a branch and a tag |
| Git.NewBranchReferenceName | repository/repository.go:101-111 | A branch name gives a branch reference carrying the name after `refs/heads/` |
| Git.NewTagReferenceName | repository/repository.go:104-105 | A tag name gives a tag reference carrying the name after `refs/tags/` |
| Git.Tolerate | repository.go:211-240 | An error is dropped exactly when it is the expected value; any other error is kept unchanged |
| Git.AuthFor | repository/repository.go:115-127 | There is no credential exactly when username and password are both empty; otherwise basic auth with the password and the username, or `caddy` when it is empty |
| TagSearch.TagMap | repository/repository.go:267-280 | The map's keys are exactly the listed tags' hashes |
| TagSearch.TagMapLastWins | repository/repository.go:274-277 | A hash maps to the last tag listed for it |
| TagSearch.FirstTagged | repository/repository.go:295-308 | The walk finds nothing exactly when no commit is in the map, and otherwise names a mapped commit's tag |
| TagSearch.LatestTagChoice | repository/repository.go:267-312 | The search selects the tag of the first commit in log order that has one, the last-listed tag for that hash; it finds none exactly when no commit is tagged |
| TagSearch.LastWithHash | repository/repository.go:274-277 | Every listed hash has a last listing |
| TagSearch.LatestTag | repository/repository.go:267-308 | The map-filling loop and the stopping walk compute the first-tagged-commit choice |
| TagSearch.SearchOutcome | repository/repository.go:269-312 | Success exactly when tags, head and log are all read; a found tag is one of the listed tags; with everything read and no tagged commit, the result is `errNoTag` |
| TagSearch.Search | repository/repository.go:269-312 | The search method returns what the outcome function gives |
| RepositoryPkg.ReferenceFor | repository/repository.go:95-113 | An encoded tag names that tag; any other valid encoding names a branch, `master` when unnamed; latest-tag mode exactly for the latest-tag encoding; anything else names the branch `Branch`, or `master` when empty |
| RepositoryPkg.ReferenceForEncoded | repository/repository.go:95-113 | Each constructor of the encoding turns into its reference and mode |
| RepositoryPkg.ReferenceForPlainBranch | repository/repository.go:96-101 | A name without a separator is always a plain branch |
| RepositoryPkg.PlainBranchExample | repository/repository_test.go:44-64 | `develop` is the branch `refs/heads/develop` |
| RepositoryPkg.EncodedTagExample | repository/repository_test.go:88-99 | The encoding `tag|v1.2.3` gives the tag reference `refs/tags/v1.2.3` and not the latest-tag mode |
| RepositoryPkg.EncodedLatestCommitExample | repository/repository_test.go:117-128 | The encoding `latest_commit|upstream` gives the branch `refs/heads/upstream` and not the latest-tag mode |
| RepositoryPkg.EncodedLatestTagExample | repository/repository_test.go:130-138 | The encoding `latest_tag|upstream` gives the branch `refs/heads/upstream` in the latest-tag mode |
| RepositoryPkg.RemoteNameFor | repository/repository.go:90-93 | The remote is `origin` unless one is given, and then exactly the given one |
| RepositoryPkg.Repository.New | repository/repository.go:81-130 | Fields copied from the options, with the remote, reference, mode and credential derived as above |
| RepositoryPkg.Repository.FetchOpts | repository/repository.go:230-236 | The repository's remote, all tags, and the configured depth and credential |
| RepositoryPkg.Repository.PullOpts | repository/repository.go:217-223 | The repository's remote and reference, with the configured single-branch flag, depth and credential |
| RepositoryPkg.Repository.CloneOpts | repository/repository.go:172-180 | The URL, the repository's remote and reference and all tags, with the configured single-branch flag, depth and credential |
| RepositoryPkg.Repository.SetupOutcome | repository/repository.go:133-186 | An openable path deletes the remote (tolerating only a missing one), recreates it, fetches (any error, up to date included, aborts) and checks out; a missing repository is cloned; any other open error is returned |
| RepositoryPkg.Repository.Setup | repository/repository.go:133-186 | Returns and issues what the setup outcome says, and holds a handle exactly when the open or the clone succeeded |
| RepositoryPkg.Repository.Fetch | repository/repository.go:230-241 | Go-git's fetch answer, already-up-to-date included, is returned unchanged |
| RepositoryPkg.Repository.Pull | repository/repository.go:211-228 | Go-git's pull answer, already-up-to-date included, is returned unchanged |
| RepositoryPkg.Repository.Checkout | repository/repository.go:243-254 | Go-git's checkout answer is returned, and one checkout is issued |
| RepositoryPkg.Repository.LatestTagOutcome | repository/repository.go:256-313 | A fetch error or a checkout error ends the search; otherwise the tag search decides |
| RepositoryPkg.Repository.GetLatestTag | repository/repository.go:256-313 | Returns and issues what the latest-tag outcome says |
| RepositoryPkg.Repository.UpdateOutcome | repository/repository.go:189-209 | Latest-tag mode checks out a found tag, treats `errNoTag` as success and returns other errors (up to date included); a branch pulls; a fixed tag does nothing |
| RepositoryPkg.Repository.Update | repository/repository.go:189-209 | Returns and issues what the update outcome says |
| ClientRepository.FirstMatch | client/repository.go:181-198 | Nothing is found exactly when neither the branch nor the tag form is listed; a found name is one of the two and is listed |
| ClientRepository.ListOrderDecides | client/repository.go:181-194 | A name listed as both a branch and a tag resolves to whichever entry comes first in the list |
| ClientRepository.FindRef | client/repository.go:181-198 | The `setRef` loop stops at the first listed match |
| ClientRepository.Repository.NewRepository | client/repository.go:69-93 | Fields copied from the options, the credential derived, and latest-tag mode never set |
| ClientRepository.Repository.FetchOpts | client/repository.go:242-248 | The default remote, all tags, and the configured depth and credential |
| ClientRepository.Repository.PullOpts | client/repository.go:229-235 | The default remote and the given reference, with the configured single-branch flag, depth and credential |
| ClientRepository.Repository.CloneOpts | client/repository.go:140-148 | The URL, the default remote, the given reference and all tags, with the configured single-branch flag, depth and credential |
| ClientRepository.Repository.SetRefOutcome | client/repository.go:156-202 | A fetch error other than up to date, or a listing error, is returned; an empty branch selects `master`; otherwise the first listed match, or a not-found error |
| ClientRepository.Repository.SetRef | client/repository.go:156-202 | Returns, sets and issues what the `setRef` outcome says |
| ClientRepository.Repository.SetupOutcome | client/repository.go:96-154 | `setRef` runs first and its error ends setup; then an openable path recreates the remote (tolerating a missing one), fetches (tolerating up to date) and checks out; a missing repository is cloned; any other open error is returned |
| ClientRepository.Repository.ReuseOutcome | client/repository.go:107-135 | On an opened repository setup succeeds exactly when the remote deletion fails at most with remote-not-found, the remote is created, the fetch fails at most with already-up-to-date and the checkout succeeds; the first step issued is the remote deletion |
| ClientRepository.Repository.Reuse | client/repository.go:107-135 | Returns and issues what the reuse outcome says, leaving the reference and the repository flag as they were |
| ClientRepository.Repository.Setup | client/repository.go:96-154 | Returns, sets and issues what the setup outcome says |
| ClientRepository.Repository.Fetch | client/repository.go:242-253 | Go-git's fetch answer is returned unchanged |
| ClientRepository.Repository.Pull | client/repository.go:223-240 | Go-git's pull answer is returned unchanged |
| ClientRepository.Repository.Checkout | client/repository.go:255-266 | Go-git's checkout answer is returned |
| ClientRepository.Repository.LatestTagOutcome | client/repository.go:268-325 | A fetch or checkout error ends the search; otherwise the tag search decides |
| ClientRepository.Repository.GetLatestTag | client/repository.go:268-325 | Returns and issues what the latest-tag outcome says |
| ClientRepository.Repository.UpdateOutcome | client/repository.go:205-221 | In latest-tag mode every search error, `errNoTag` included, is returned; a branch pulls; a tag does nothing |
| ClientRepository.Repository.Update | client/repository.go:205-221 | Returns and issues what the update outcome says |
| RootRepository.Repository.New | repository.go:29-77 | A repository as JSON decoding leaves it: configured, with no handle, commanders or service |
| RootRepository.Repository.IsRefLatestTag | repository.go:79-81 | Latest-tag mode never has the empty tag of branch mode |
| RootRepository.Repository.IsRefBranch | repository.go:84-86 | Branch mode never holds the latest-tag keyword |
| RootRepository.Repository.IsRefTag | repository.go:88-92 | Also true in latest-tag mode |
| RootRepository.Repository.Auth | repository.go:95-111 | No credential exactly when username and password are empty; otherwise basic auth with the password and the username, `caddy` when none is given |
| RootRepository.Repository.ModesPartition | repository.go:79-92 | Exactly one of latest-tag, branch and fixed-tag mode holds, and `isRefTag` is the negation of `isRefBranch` |
| RootRepository.Repository.BranchReferenceName | repository.go:115-122 | The configured branch, or `master` when none, as a branch reference |
| RootRepository.Repository.ReferenceName | repository.go:125-131 | A branch reference in branch and latest-tag modes, else `refs/tags/<Tag>` |
| RootRepository.Repository.CloneOpts | repository.go:134-144 | Remote `origin`, all tags, and the configured URL, reference, depth, credential and single-branch flag |
| RootRepository.Repository.FetchOpts | repository.go:147-154 | Remote `origin`, all tags, and the configured depth and credential |
| RootRepository.Repository.PullOpts | repository.go:157-165 | Remote `origin`, and the configured reference, depth, credential and single-branch flag |
| RootRepository.Repository.Clone | repository.go:177-192 | Go-git's clone answer is returned, and the handle is taken only when the clone succeeds |
| RootRepository.Repository.Open | repository.go:195-208 | Go-git's open answer is returned, and the handle is taken only when the open succeeds |
| RootRepository.Repository.Pull | repository.go:211-226 | Already up to date is success; any other error is returned unchanged |
| RootRepository.Repository.Fetch | repository.go:230-240 | Already up to date is success; any other error is returned unchanged |
| RootRepository.Repository.Checkout | repository.go:243-254 | Go-git's checkout answer is returned |
| RootRepository.Repository.LatestTagOutcome | repository.go:258-313 | A fetch error (up to date excepted) or a checkout error ends the search; otherwise the tag search decides |
| RootRepository.Repository.GetLatestTag | repository.go:258-313 | Returns and issues what the latest-tag outcome says |
| RootRepository.Repository.SetWTreeOutcome | repository.go:317-337 | Latest-tag mode checks out a found tag, treats `errNoTag` as nothing to do and returns other errors; branch mode pulls; a fixed tag does nothing |
| RootRepository.Repository.SetWTree | repository.go:317-337 | Returns and issues what the `setWTree` outcome says |
| RootRepository.Repository.GetInterval | repository.go:340-355 | A fixed tag or a negative interval has no service; zero becomes an hour; otherwise the interval itself; any interval given is positive |
| RootRepository.Repository.RunnerFunc | repository.go:358-380 | The `then` commands run exactly when `setWTree` succeeds, and `thenLong` starts exactly when `then` also succeeds |
| Caddygit.ForEachOutcome | caddygit.go:195-208 | Visits elements in order up to the first non-nil result; the break sentinel ends the loop with nil; any other error is returned unchanged |
| Caddygit.ForEach | caddygit.go:195-208 | The index loop returns and visits what the outcome function says |
| Caddygit.FirstError | caddygit.go:195-208 | When some result is an error, there is a first one |
| Caddygit.ForEachWithoutBreak | caddygit.go:195-208 | With no sentinel, `forEach` succeeds exactly when every result is nil, and otherwise returns the first error |
| Caddygit.ValidateRepository | caddygit.go:88-108 | Passes exactly for an `http` or `https` URL whose interval is not strictly between zero and five seconds; parse and scheme errors are reported as such |
| Caddygit.Prepare | caddygit.go:115-129 | Sets the index and both commanders, and a service exactly when `getInterval` gives an interval |
| Caddygit.Launch | caddygit.go:132-165 | A clone error other than already-exists ends the task; already-exists falls back to open, whose error ends it; otherwise one `runnerFunc` run, then the service starts when there is one |
| Caddygit.Acquire | caddygit.go:135-152 | A clone error other than already-exists is the outcome after one clone; already-exists falls back to open, whose error is the outcome; otherwise the handle is held, with exactly the clone (and open) issued |
| Caddygit.App.New | caddygit.go:64-69 | The app holds the configured repositories |
| Caddygit.App.Validate | caddygit.go:87-109 | Succeeds exactly when every repository passes, and otherwise returns one repository's error |
| Caddygit.App.Start | caddygit.go:113-169 | Never fails, and prepares every repository with its index |
| Channels.Channel.Make | service/time_service.go:32 | A fresh channel of the given depth, empty and open |
| Channels.Channel.Send | service/time_service.go:49-57 | A send appends the value to an open channel |
| Channels.Channel.Close | service/time_service.go:59-61 | A close appends the close and marks the channel closed |
| Channels.FirstCancel | service/time_service.go:54-62 | The position of the first cancellation; every stimulus before it is a ticker firing |
| Channels.Stream | service/time_service.go:54-63 | Nothing is emitted without a stimulus |
| Channels.Finish | services/poll/service.go:80-83 | A cancellation sends the final value, if any, then closes |
| Channels.StreamShape | service/time_service.go:47-64 | One value per firing before the first cancellation, then the final value and the close |
| Channels.StreamCloses | service/time_service.go:47-64 | The stream is closed exactly when a cancellation comes, and nothing follows the close |
| Channels.Pump | service/time_service.go:54-63 | The ticker loop adds exactly the stream to the channel, and closes it exactly on cancellation |
| ServicePkg.ParseType | service/service.go:43-56 | The time literals give the time type, the webhook literals the webhook type, anything else the invalid-type error naming the text |
| ServicePkg.ParseTypeExact | service/service.go:43-56 | No text names both types, and other spellings and cases are refused |
| ServicePkg.TimeInterval | service/time_service.go:24-27 | The interval is always positive: a non-positive one becomes an hour |
| ServicePkg.TimeStream | service/time_service.go:47-64 | Starts with the starting time, and with no stimuli sends only that first value |
| ServicePkg.Opts.Zero | service/service.go:36-39 | The zero value is the time type |
| ServicePkg.Opts.UnmarshalType | service/service.go:43-56 | A recognised text sets the type; anything else is an error and leaves the type unchanged |
| ServicePkg.New | service/service.go:75-85 | The time type creates a time service, the webhook type gives neither a service nor an error, anything else `ErrInvalidService` |
| ServicePkg.TimeStreamShape | service/time_service.go:47-64 | One value when starting, then one per firing; on cancellation the close and nothing more |
| ServicePkg.TimeService.NewTimeService | service/time_service.go:23-34 | The interval defaulted to an hour, and a fresh channel of depth one |
| ServicePkg.TimeService.Start | service/time_service.go:38-45 | Fails with `ErrNoRunTimeService` exactly for a non-positive interval, sending nothing; otherwise the time stream is sent |
| ServicePkg.TimeService.Run | service/time_service.go:47-64 | The goroutine sends the start time, then the ticker stream |
| ServicePkg.TimeService.Tick | service/time_service.go:67-69 | Always the same channel |
| Poll.PollStreamShape | services/poll/service.go:61-89 | A non-positive interval gives one error and the close; otherwise nil first, nil per firing, and on cancellation the context error then the close |
| Poll.PollStreamCloses | services/poll/service.go:61-89 | The stream is closed exactly when the interval is non-positive or a cancellation comes, and nothing follows the close |
| Poll.PollStream | services/poll/service.go:61-89 | Starts with the interval error for a non-positive interval and with nil otherwise; with no stimuli it sends at most that value and the close |
| Poll.Service.constructor | services/poll/service.go:19-25 | A decoded service has its interval and no channel |
| Poll.Service.Provision | services/poll/service.go:35-42 | A non-positive interval becomes an hour, and a fresh depth-one channel is made |
| Poll.Service.Validate | services/poll/service.go:45-54 | Passes exactly for an interval of five seconds or more, and the error carries the interval |
| Poll.Service.ConfigureRepo | services/poll/service.go:57 | Returns nil |
| Poll.Service.Start | services/poll/service.go:61-89 | Returns the service's channel, on which the poll stream is sent |
| ClientServices.Start | client/services.go:49-79 | A fresh depth-one channel carrying the poll stream, closed exactly for a non-positive interval or a cancellation |
| Commander.NewCommand | commander/command.go:23-40 | No arguments give the zero command; otherwise the name followed by the arguments is the argument vector and `Async` is copied |
| Commander.Built | commander/commander.go:31-32 | One command per option; a built command has no name exactly when its option has no elements or an empty first one |
| Commander.Execute | commander/command.go:49-61 | A start error is returned; an asynchronous command returns nil without waiting; otherwise the wait result |
| Commander.Kept | commander/commander.go:26-39 | Never more commands than options, each with a name |
| Commander.KeptMembers | commander/commander.go:31-36 | The kept commands are exactly the built commands with a name |
| Commander.Runnable | commander/commander.go:49-51 | A command is executed when reached exactly when it has a name |
| Commander.Commander.New | commander/commander.go:26-39 | The kept commands, with both callbacks unset |
| Commander.Commander.Run | commander/commander.go:42-66 | Returns the context error exactly when the context is seen done before some command; the callback calls are those of the named commands before that point, in order |
| Commander.RunToCompletion | commander/commander.go:42-66 | Never cancelled, every named command runs in order and `OnStart` sees them all |
| Commander.AllExecuted | commander/commander.go:42-66 | When every command up to a point runs, the executed indices are exactly those before it |
| CommandRuns.Executed | commander/commander.go:42-66 | The executed indices are below the stopping point |
| CommandRuns.ExecutedMembers | commander/commander.go:49-51 | The executed indices are exactly the runnable ones before the stopping point, in increasing order |
| CommandRuns.FirstRunnable | client/commands.go:21-47 | The first runnable index at or after a position, with nothing runnable in between |
| CommandRuns.StepAt | client/commands.go:21-44 | One pass of the loop adds the command's calls, and stops exactly at the first executed command at or after the point the context is done |
| CommandRuns.RunUntil | client/commands.go:21-47 | The checked loop stops after the first executed command at or after that point if it comes before the limit, with the calls of the commands executed up to there |
| CommandRuns.TraceStep | commander/commander.go:47-62 | One more executed command adds exactly its own callback calls |
| CommandRuns.StartsAppend | commander/commander.go:53-61 | Started commands and failures of two call sequences add up |
| CommandRuns.CallsForCounts | commander/commander.go:53-61 | One command gives `OnStart` once when set, and `OnError` once when set and the command fails |
| CommandRuns.TraceStarts | commander/commander.go:47-62 | `OnStart` sees exactly the executed commands, in order, and nothing when it is nil |
| CommandRuns.TraceFailures | commander/commander.go:47-62 | `OnError` is called once per failing executed command, and never when it is nil |
| ClientCommands.Cmd | client/commands.go:56-73 | No arguments give no command; otherwise the program and arguments are the argument vector, in their own process group |
| ClientCommands.String | client/commands.go:76-78 | The command line is empty exactly when the argument vector is one empty string |
| ClientCommands.Execute | client/commands.go:82-113 | A start error is returned; asynchronous returns nil; synchronous returns the wait result, or on cancellation the kill error or else the context error |
| ClientCommands.Runnable | client/commands.go:23-25 | One flag per command |
| ClientCommands.Runs | client/commands.go:23-25 | A command runs only if it has arguments, and then exactly when its command line is not a single empty string |
| ClientCommands.RunnableAt | client/commands.go:23-25 | A command is executed when reached exactly when it has arguments and its command line is non-empty |
| ClientCommands.Stop | client/commands.go:37-44 | The stopping point is within the list |
| ClientCommands.FirstEmpty | client/commands.go:22-25 | The position of a command without arguments, or the end of the list |
| ClientCommands.ArgsBeforeFirstEmpty | client/commands.go:22-25 | Every command before the first command without arguments has arguments |
| ClientCommands.RunPanics | client/commands.go:22-25 | `Run` as written panics exactly when some command without arguments comes before the stopping point |
| ClientCommands.Commander.RunAsWritten | client/commands.go:21-47 | Panics exactly as `RunPanics` says, after the callback calls of the commands executed before the first command without arguments; otherwise returns as `Run` does |
| ClientCommands.ReachedAsWritten | client/commands.go:21-47 | The loop as written goes through no more commands than `Run` and stops at the first command without arguments at the latest |
| ClientCommands.AsWrittenStops | client/commands.go:21-47 | Stopping before the first command without arguments ends as `Run` does; otherwise the loop as written panics there, or runs to the end when there is none |
| ClientCommands.Commander.Run | client/commands.go:21-47 | With commands without arguments skipped: returns the context error exactly when the context is seen done after some executed command; the callback calls are those of the executed commands up to that point |
| ClientCommands.EmptyCommandPanics | client/commands.go:22-25 | On the single command without arguments, `Run` as written panics, where skipping it executes nothing and returns nil |
| ClientCommands.AsWrittenAgrees | client/commands.go:22-25 | When every command has arguments, `Run` as written does not panic |
| ClientCommands.FirstRunnableMonotone | client/commands.go:37-44 | A later start of the search for the stopping point ends no earlier |
| ClientCommands.FirstCommandAttempted | client/commands.go:37-44 | However early the context is done, the first command that runs when reached is executed |
| ClientCommands.NeverDone | client/commands.go:21-47 | A context never seen done lets every command with arguments and a non-empty line run, and `Run` returns nil |
| Webhook.ValidateRequest | services/webhook/webhook.go:32-38 | Nil exactly for `POST`; otherwise an error naming `POST` and the method received |
| Webhook.PushDecision | services/webhook/generic/webhook.go:56-69 | 200 and nil exactly for a push the repository follows: a branch equal to its reference, or a tag when it follows the latest tag or equal to its reference; otherwise 400 with the matching error |
| GenericWebhook.Handle | services/webhook/generic/webhook.go:38-70 | Non-POST gets 400 before the body is read, a failed read 408, an undecodable body 400, and then the push decision |
| GenericWebhook.Accepts | services/webhook/generic/webhook.go:38-70 | Accepted exactly for a POST whose body is read and decoded into a followed push, and nil comes exactly with 200 |
| GitHubWebhook.SignatureGateAsWritten | services/webhook/github/webhook.go:56-69 | The check panics exactly for a signature header of one to four characters with a secret configured |
| GitHubWebhook.ShortSignaturePanics | services/webhook/github/webhook.go:56-69 | A four-character header with a secret panics |
| GitHubWebhook.SignatureGate | services/webhook/github/webhook.go:56-69 | Never panics; passes exactly for no header, or a secret and a header whose text from index 5 is the body's digest; agrees with the source wherever the source does not panic |
| GitHubWebhook.EventDecision | services/webhook/github/webhook.go:71-121 | A missing event is 400; a push follows the push decision; an unknown event is 400 naming it; nil comes exactly with 200 |
| GitHubWebhook.HandleAsWritten | services/webhook/github/webhook.go:46-122 | The handler panics exactly for a POST whose body is read, with a secret and a short signature header |
| GitHubWebhook.Handle | services/webhook/github/webhook.go:46-122 | Non-POST gets 400 first, a failed read 408, and wherever the source does not panic the reply is the source's |
| GitHubWebhook.Accepts | services/webhook/github/webhook.go:46-122 | Accepted exactly for a POST whose body is read, unsigned or correctly signed under a secret, and whose event is a ping, a followed push, or a release with a tag while following the latest tag |
| GitHubWebhook.SignatureScope | services/webhook/github/webhook.go:56-69 | Without a header the secret plays no part, and the first five characters of the header are never compared |
| WebhookService.Relay | services/webhook/service.go:150-163 | A hook error writes the hook's status and returns an error carrying it; success defers to `next` |
| WebhookService.FirstStop | services/webhook/service.go:119-147 | The position of the first event that stops the server |
| WebhookService.ServerStream | services/webhook/service.go:98-147 | At most one emission more than the server's events |
| WebhookService.RoutedCountFront | services/webhook/service.go:99-111 | Counting routed requests goes event by event |
| WebhookService.ServerStreamLength | services/webhook/service.go:98-147 | One value per routed request before the server stops, then the shutdown's value and the close |
| WebhookService.ServerStreamCloses | services/webhook/service.go:119-147 | The channel is closed exactly when the server stops, and the close is the last thing sent |
| WebhookService.Service.constructor | services/webhook/service.go:23-45 | A decoded service with its settings, nothing provisioned |
| WebhookService.Service.Provision | services/webhook/service.go:61-80 | The hook defaults to generic. A loading error is reported with hook, address and channel untouched. A module that is not a hook clears the hook and leaves address and channel untouched. Otherwise the address is every interface at the port and a fresh depth-one channel is made |
| WebhookService.Service.Validate | services/webhook/service.go:83-89 | Passes exactly for an empty path or one starting with `/` |
| WebhookService.Service.ConfigureRepo | services/webhook/service.go:92-95 | Stores the repository information and returns nil |
| WebhookService.Service.ServeHTTP | services/webhook/service.go:150-163 | The hook is handed exactly the service's secret and repository information |
| WebhookService.Service.Start | services/webhook/service.go:98-116 | The handler is a mux on the path when one is set, and the server stream is sent on the service's channel |
| WebhookService.StartService | services/webhook/service.go:119-147 | The server run adds exactly the server stream to the channel, closing it exactly when the server stops |
| WebhookService.ServeEvent | services/webhook/service.go:99-146 | A routed request sends its `ServeHTTP` result; a cancellation sends nil or `Close`'s error, a listener failure its error, and either closes the channel |
| WebhookService.ServedThenStream | services/webhook/service.go:119-147 | Until the server stops, the stream is what the events so far sent followed by the stream of the rest |
| WebhookService.StreamStopsAt | services/webhook/service.go:130-146 | The first stopping event ends the stream with its last value and the close |
| WebhookService.StreamRunsOut | services/webhook/service.go:119-129 | Without a stopping event, the stream is the routed requests' results and no close |
| Session.WithField | module/client.go:47-62 | Setting one of the five replaced fields leaves every other field unchanged |
| Session.FirstFailure | module/client.go:47-62 | The first field whose replacement fails, with every field before it replaced |
| Session.FirstFailureFrame | module/client.go:47-62 | Where the failure search starts, only the fields from there on matter |
| Session.ReplaceFrom | module/client.go:47-62 | The fields before the starting one are untouched, and the settings that are not replaced are kept |
| Session.ReplaceFromError | module/client.go:47-62 | The error is the first failing field's, nil when none fails |
| Session.ReplaceFromReplaced | module/client.go:47-62 | Each field before the first failure holds the replacement of its old value |
| Session.ReplaceFromKept | module/client.go:47-62 | The failing field, the fields after it and the non-string fields keep their old values |
| Session.RepoNameFromURL | module/client.go:265-274 | A URL parse error is returned; otherwise a name is given |
| Session.RepoNameOfPath | module/client.go:265-274 | The name is the path's last segment with one trailing `.git` removed, and empty when the path ends in `/` |
| Session.PathVerdict | module/client.go:132-155 | A missing path passes; a file is not a git directory; a repository or an empty directory passes; a non-empty directory that is not a repository is not a git directory; other probe errors are reported |
| Session.DefaultPath | module/client.go:94-105 | An empty path becomes the repository name from the URL, or `.` when the URL does not parse |
| Session.WithDefaultInterval | module/client.go:75-80 | A poll service with a zero interval gets an hour; anything else is unchanged |
| Session.FirstDone | module/client.go:193-197 | The first value received once the context is done |
| Session.SessionLoop | module/client.go:193-227 | The loop returns nil or the context's error, takes at most two steps per value, and starts with an update when it takes any |
| Session.LoopStep | module/client.go:199-224 | One value received before the context is done keeps the loop's result and adds exactly the steps the loop takes for it |
| Session.SessionLoopError | module/client.go:193-227 | The loop returns the context error exactly when a value arrives after the context is done, nil when the channel closes first |
| Session.SessionLoopCounts | module/client.go:193-227 | Before the context is done, every non-error value updates once and every successful update runs the commands once; nothing else happens |
| Session.SessionLoopOrder | module/client.go:208-224 | Every command run comes right after an update |
| Session.StartOutcome | module/client.go:179-228 | A setup failure returns before any command runs; a failed first run ends `Start`; otherwise the loop decides |
| Session.ReplaceFields | module/client.go:47-62 | The replacement loop over the five fields stops at the first failure |
| Session.Register | module/client.go:82-92 | The commander holds the raw commands, with both logging callbacks set |
| Session.Client.constructor | module/client.go:29-38 | A decoded client, nothing provisioned |
| Session.Client.Provision | module/client.go:40-116 | A missing service becomes poll. Replacement, loading and path errors are reported in order, and each error path states the new options, service, commander and repository: a replacement error keeps the fields replaced before it, a loading error keeps the service, and a module that is not a service clears it. On success the service default, commander, path default and repository are set |
| Session.Client.CreateRepo | module/client.go:94-116 | An empty path becomes the URL's last segment (or "." when the URL does not parse); an absolute-path error clears the path and is reported; otherwise the path is made absolute and the repository is created from the options |
| Session.AbsError | module/client.go:107-111 | The message names `filepath.Abs` and ends with the reason |
| Session.Client.Validate | module/client.go:119-175 | Empty URL, then empty path, then the path verdict, then URL parsing, scheme and the five-second poll minimum, in that order |
| Session.Client.Start | module/client.go:179-228 | Returns and steps exactly as the session outcome says |
| ClientSession.WaitGroup.constructor | client/client.go:173-175 | A wait group with its counter |
| ClientSession.WaitGroup.Done | client/client.go:174 | One `Done` lowers the counter by one |
| ClientSession.ClientSteps | client/client.go:173-230 | A failed setup or a failed first run ends the session early |
| ClientSession.SameStepsAsModule | client/client.go:173-230 | The two generations' sessions take the same steps on the same outcomes |
| ClientSession.LoopStepsIgnoreError | client/client.go:197-228 | The loop's steps do not depend on the context's error |
| ClientSession.Start | client/client.go:173-230 | The session takes the client steps and signals the wait group exactly once on every path |
| Caddyfile.Next | module/git/caddyfile.go:92 | Moves to the following token exactly when there is one |
| Caddyfile.NextArg | module/git/caddyfile.go:126-128 | Moves exactly when the following token is on the same line and is not `{` |
| Caddyfile.RemainingArgs | module/git/caddyfile.go:152 | Takes every argument left on the line and stops after them; none exactly when there is no next argument |
| Caddyfile.NextBlock | module/git/caddyfile.go:109 | Never moves back, and entering the block moves forward into it |
| Caddyfile.Dispenser.constructor | module/git/caddyfile.go:67-70 | A dispenser before its first token |
| Caddyfile.Dispenser.Advance | module/git/caddyfile.go:92 | Moves as `Next` says |
| Caddyfile.Dispenser.NextArgument | module/git/caddyfile.go:126-128 | Moves as `NextArg` says |
| Caddyfile.Dispenser.Remaining | module/git/caddyfile.go:152 | Reads and moves as `RemainingArgs` says |
| Caddyfile.Dispenser.EnterOrStep | module/git/caddyfile.go:109 | Moves as `NextBlock` says |
| Caddyfile.ParseBool | module/git/caddyfile.go:130-133 | True and false exactly for Go's accepted spellings; anything else is an error naming the text |
| Caddyfile.ParseInt | module/git/caddyfile.go:139-142 | Results are within 64 bits; empty and bare signs are syntax errors; decimal digits in range parse to their value |
| Caddyfile.Unsigned | module/git/caddyfile.go:139-142 | The text after one optional leading sign |
| Caddyfile.LeadingDigits | module/git/caddyfile.go:139-142 | The length of the run of digits a text starts with, ended by a non-digit or the end |
| Caddyfile.DigitsPrefixValue | module/git/caddyfile.go:139-142 | A prefix of a digit string is worth at most the whole string |
| Caddyfile.ParseIntOverflow | module/git/caddyfile.go:139-142 | A run of leading digits worth more than 2^64 - 1 is a range error whatever follows it |
| Caddyfile.ParseIntSyntax | module/git/caddyfile.go:139-142 | Digits followed by another character, with no overflowing run before it, are a syntax error |
| Caddyfile.RunWithinLeadingDigits | module/git/caddyfile.go:139-142 | A run of digits at the start of a text that is not all digits lies within its leading digits and is worth no more |
| Caddyfile.DigitsThenStray | module/git/caddyfile.go:139-142 | A number's digits followed by a non-digit: out of range above 2^64 - 1, a syntax error otherwise |
| Caddyfile.StrayEndsDigits | module/git/caddyfile.go:139-142 | Digits followed by a non-digit: the leading digits are exactly those digits |
| Caddyfile.DigitsOfDecimal | module/git/caddyfile.go:139-142 | A number's decimal digits read back as the number |
| Caddyfile.ParseNonNegative | module/git/caddyfile.go:139-142 | Every non-negative 64-bit integer in decimal, with or without `+`, parses back to itself |
| Caddyfile.ParseNegative | module/git/caddyfile.go:139-142 | Every negative 64-bit integer in decimal parses back to itself |
| Caddyfile.ServiceJSON | module/git/caddyfile.go:176-180 | Nil exactly when neither service setting is given, else the settings |
| Caddyfile.StringParam | module/git/caddyfile.go:189-198 | A parameter already set is an error; a missing value is an argument error; otherwise the next argument |
| Caddyfile.BoolParam | module/git/caddyfile.go:126-134 | A missing argument is an argument error; otherwise `ParseBool` of it |
| Caddyfile.WithFieldOf | module/git/caddyfile.go:113-125 | Setting one subdirective's field leaves the other fields unchanged |
| Caddyfile.Subdirective | module/git/caddyfile.go:112-168 | A failing subdirective changes nothing, and the cursor never moves back |
| Caddyfile.BoolSubdirective | module/git/caddyfile.go:126-165 | A failing boolean subdirective changes nothing |
| Caddyfile.DepthSubdirective | module/git/caddyfile.go:135-143 | A failing `depth` changes nothing |
| Caddyfile.CommandAfter | module/git/caddyfile.go:148-156 | A failing `command_after` changes nothing |
| Caddyfile.Block | module/git/caddyfile.go:109-169 | The block loop never moves the cursor back |
| Caddyfile.Header | module/git/caddyfile.go:96-107 | The arguments never move the cursor back |
| Caddyfile.Directives | module/git/caddyfile.go:91-187 | The directive loop stays within the tokens |
| Caddyfile.HeaderArgs | module/git/caddyfile.go:96-107 | No argument leaves the options alone; the first sets the URL, the second the path; a third is an argument error |
| Caddyfile.StringSubdirectiveRules | module/git/caddyfile.go:113-125 | A string subdirective whose field is set fails with "already specified"; otherwise it takes the next argument or is an argument error |
| Caddyfile.RepoIsUrl | module/git/caddyfile.go:113-117 | `repo` and `url` set the same field and are reported as `repo or url` |
| Caddyfile.BoolSubdirectiveRules | module/git/caddyfile.go:126-165 | `single_branch` and `command_async` need one argument `ParseBool` accepts, and set their flag to it |
| Caddyfile.DepthSubdirectiveRules | module/git/caddyfile.go:135-143 | `depth` needs one argument `ParseInt` accepts, and sets the depth to it |
| Caddyfile.CommandAfterRules | module/git/caddyfile.go:148-156 | `command_after` may be given once per block, with at least one argument, which become the command |
| Caddyfile.UnknownSubdirectiveRule | module/git/caddyfile.go:166-167 | Any other name is an unrecognised subdirective, changing nothing |
| Caddyfile.DirectivesStore | module/git/caddyfile.go:176-183 | A successful parse stores exactly one command, and a stored service is non-empty |
| Caddyfile.NoCommandAfterPanics | module/git/caddyfile.go:91-183 | A directive without `command_after` stores the command without arguments, on which the `client` commander's `Run` as written panics |
| Caddyfile.UrlAfterPositional | module/git/caddyfile.go:113-117 | `url` after a positional URL is "already specified" |
| Caddyfile.FullDirective | module/git/caddyfile.go:91-187 | A full directive with arguments, a branch and a command parses to the expected configuration |
| Caddyfile.ExampleBlock | module/git/caddyfile.go:109-169 | The example's block parses to the expected draft |
| Caddyfile.ExampleCommand | module/git/caddyfile.go:148-156 | The example's `command_after` line sets the command |
| Caddyfile.ExampleArgs | module/git/caddyfile.go:152 | The arguments of the example's command line are read to its end |
| Caddyfile.ThirdArgument | module/git/caddyfile.go:103-105 | A third positional argument is an argument error |
| Caddyfile.CaddyfileSettings.constructor | module/git/caddyfile.go:15-17 | A zero configuration |
| Caddyfile.CaddyfileSettings.UnmarshalCaddyfile | module/git/caddyfile.go:91-187 | The loops leave the dispenser, the configuration and the error the directive parser gives |
| Caddyfile.Arguments | module/git/caddyfile.go:96-107 | Reads the arguments as the header parser says |
| Caddyfile.ParseBlock | module/git/caddyfile.go:109-169 | Reads the block as the block parser says |
| Caddyfile.ApplySubdirective | module/git/caddyfile.go:112-168 | Reads one subdirective as the subdirective parser says |
| Caddyfile.ValidateStringParameter | module/git/caddyfile.go:189-198 | Reads a string parameter as the string-parameter rule says |
| Caddyfile.ParseGlobal | module/git/caddyfile.go:30-56 | Earlier clients that do not decode are an internal error; a parse error is returned; otherwise the result is the earlier clients, in order, followed by the newly parsed client |
| Caddyfile.ParseHandler | module/git/caddyfile.go:59-65 | The handler block is parsed by the same directive parser, and its error is returned |

## Left out

- Go-git itself (open, clone, remotes, fetch, pull, checkout, tags, head and log). Its answers are an environment parameter, and the model records the operations issued. Reading errors that happen part-way through the tag or log iteration are taken as errors of the whole read.
- Process spawning, `exec` path lookup and the killing of process groups. A command's start, wait and kill outcomes are parameters. The context error is carried with each process outcome.
- Goroutines, `sync.WaitGroup` beyond its counter, tickers, the HTTP server lifecycle and its timeouts. Services are modelled by what they send on their channel for a given sequence of stimuli. `Stop`, `quit` and the root app's service loop are not modelled.
- HMAC-SHA1 and hex encoding (a function parameter), JSON decoding of bodies, of `ServiceRaw` and of the app value (codec parameters), `url.Parse` and `url.ParseRequestURI` (parameters giving the scheme or the path), `filepath.Abs`, `os.Stat` and directory listing (a probe value), Caddy's replacer and module loading (parameters).
- Request routing by `http.ServeMux` is a matching parameter.
- zap logging, `%q` escaping in error texts, and the formatting of durations.
- `newService` and `newCommander` of the root package are not defined in the repository, so the model keeps the interval and the command lists they are built from.
- The `caddygit.RepositoryOpts`, `NewRepository`, `Commander` and `RepositoryInfo` types the module generation uses are not defined in the repository. They are taken to be the `client/` generation's types. `AddCommand` is taken to append the raw commands.
- The root app's "cannot create service" branch is unreachable, because `getInterval` only fails with `errNoRunService`. The model's `Prepare` has no error path.
- The Caddyfile dispenser belongs to Caddy. Its `Next`, `NextArg`, `RemainingArgs` and `NextBlock(0)` are modelled from their documented behaviour, and nested braces inside a directive's block are not modelled.
- module/git/app.go, module/git/handler.go, cmd/hooktest/main.go and utils/files.go are not part of this model. Their filesystem probes repeat the `isDir` and `isDirEmpty` that `Session.PathVerdict` covers.
- service.go, module/git/doc.go and module/git/submodules.go hold declarations and imports only.
- Utils `String` is the identity on the encoding, so the model uses the string itself.
- Utils.Name: requires a separator in the string; without one Go indexes past the end of the split and panics, which the model does not represent.
- ClientCommands.String: requires a non-empty argument vector; `String` calls through `cmd()`, which is nil for no arguments, so Go panics there.
- ClientRepository.Repository.Pull, ClientRepository.Repository.Checkout, ClientRepository.Repository.GetLatestTag and ClientRepository.Repository.Update require a repository handle on the paths that touch git, because Go dereferences a nil handle there; so do the same methods of RepositoryPkg.Repository and the git methods of RootRepository.Repository.
- Utils.GitReferenceName: requires a separator in the string, for the same reason as `Name`.
- WebhookService.Service.ServeHTTP and WebhookService.Service.Start: require a provisioned service (a loaded hook, and for `Start` an open channel); the source would dereference nil otherwise.
- Caddygit.App.Start: requires the configured repositories to be distinct objects; the model does not treat two list entries that alias one repository.
- Caddyfile.Block, Caddyfile.Header and Caddyfile.Directives: their own contracts only bound the cursor; what they compute is stated by the rule lemmas, `DirectivesStore` and the example lemmas.
- Session.RepoNameFromURL: its own contract only separates errors from names; the name itself is stated by `Session.RepoNameOfPath`.
- Poll.Service.Start: requires a provisioned service with an open channel; on an unprovisioned service Go's goroutine would block forever sending on the nil channel, which the model does not represent (Caddy always provisions a module before starting it).
- GitHubWebhook.SignatureGateAsWritten, GitHubWebhook.HandleAsWritten, GitHubWebhook.SignatureGate, GitHubWebhook.Handle, GitHubWebhook.Accepts and GitHubWebhook.SignatureScope: the header's length and the index 5 are counted in characters, while Go counts bytes. The two agree for ASCII headers, which are the only ones GitHub sends. For a non-ASCII header such as `ééé` (3 characters, 6 bytes) Go does not panic and replies 400, where the as-written model predicts a panic, and the text compared with the digest differs.

## Findings

| source | as written | input that shows it | evidently intended | confidence | as-written member | corrected member |
|---|---|---|---|---|---|---|
| services/webhook/github/webhook.go:66 | The signature header is sliced from index 5 without a length check | A POST with a secret configured and the header `sha1` (four characters) makes `signature[5:]` panic | A header too short to hold `sha1=` is refused with 400 as an invalid signature | not executed | GitHubWebhook.HandleAsWritten | GitHubWebhook.Handle |
| client/commands.go:22 | `Run` calls `cmd.String()` on every command, and `String` dereferences the nil `exec.Cmd` that `cmd()` returns for a command without arguments | A `git` directive without `command_after` stores a command without arguments (module/git/caddyfile.go:183), so the first `Run` at module/client.go:188 panics | A command without arguments is skipped like an empty command line | not executed | ClientCommands.Commander.RunAsWritten | ClientCommands.Commander.Run |
