# Commit-Pal: the commit report and its tool wrappers, in Dafny

Commit-Pal is a desktop chat assistant for Git projects. Its one piece of real
logic is `GitService.getCommitLogs`. For a calendar date range, it walks the
whole history of a working copy. It keeps the commits whose time lies inside
the range and renders them as a fixed-layout text report. Each commit can
carry its diff against the first parent, a note for a root commit, or a note
for a diff that failed. `ToolService` wraps this report and three other Git
queries as the tools the assistant calls: `generateGitCommit`,
`generateCommitReport`, `checkStagedChanges` and `getRecentCommits`. Each tool
first checks that a project is selected and that its path exists.

The model has three modules:

- `Text` (text.dfy): the Java string operations the code relies on.
  These are `trim()`, `append(s, 0, n)`, `Collectors.joining("\n")` (with
  its inverse, `Split`) and `%d` formatting (with its inverse,
  `DecimalValue`).
- `GitService` (git_service.dfy): the commit report, written twice.
  - As specification functions: `Selected` picks the commits in the window,
    `Block` formats one commit, and `Report` assembles the whole text.
  - As the imperative loop of the source: `GetCommitLogs` keeps a counter and
    a growing log, and its loop invariants tie both to the functions.
  - It also holds the legacy overload without diffs and
    `getRecentCommitMessages`.
- `ToolService` (tool_service.dfy): a class whose mutable field is
  `currentProject`. Each tool's reply is a function, and each method is
  proved equal to its function. `GenerateGitCommit` appends section by
  section, as the source's `StringBuilder` does. `GenerateCommitReport`
  calls the `GetCommitLogs` method.

How the outside world is abstracted:

- JGit is a `Repository` value. It holds two commit walks, each with the
  exception it may throw instead: the whole walk of `git.log()` and the walk
  of `git.log().setMaxCount(5)`. JGit walks lazily, so the five-commit walk
  can succeed where the whole walk fails on a commit further back.
  `ValidRepository` ties the two: when the whole walk succeeds, the short
  walk is its first five commits. The value also holds the staged diff (or
  its exception) and a diff oracle. For each commit, the diff oracle gives the
  diff text or the message of the exception raised while diffing.
- A `LocalDate` is its epoch-day number, so `isAfter` is `>` and
  `plusDays(1)` is `+ 1`. Four parts of `java.time` are fields of a
  `Calendar` value: the system time zone (start of day in milliseconds, and
  the local date of an instant), `LocalDate.toString()`, and
  `LocalDate.parse`.
- `File.exists(path)` is a boolean parameter.

Two behaviours of the code are worth stating:

- Both bounds of the window are strict. The code tests
  `commitDate.after(since) && commitDate.before(until)`
  (src/main/java/com/junjie/githelper/service/GitService.java:98). A commit
  made exactly at local midnight of the start date is left out, and so is
  one made exactly at midnight after the end date. `WindowBoundsStrict`
  states this.
- `getCommitLogs` has no range check; only `generateCommitReport` checks the
  range. For a start date after the end date, `getCommitLogs` finds no
  commit and returns the "No commits found" sentinel, as long as the time
  zone's start of day never moves backwards with the date (`ValidCalendar`).
  `InvertedRangeFindsNothing` states this.

## Model

| member | source | states |
|---|---|---|
| `GitService.Selected` | src/main/java/com/junjie/githelper/service/GitService.java:94-98 | every selected commit comes from the walk and lies strictly inside the window, and there are no more of them than commits walked |
| `GitService.SelectedMembership` | src/main/java/com/junjie/githelper/service/GitService.java:94-98 | a commit is reported if and only if it is in the walk and `since < commitTime*1000 < until`; the whole walk is examined, with no early exit |
| `GitService.SelectedAppend` | src/main/java/com/junjie/githelper/service/GitService.java:94-99 | selection keeps walk order: selecting from `a + b` gives the selection from `a` followed by the selection from `b` |
| `GitService.WindowBoundsStrict` | src/main/java/com/junjie/githelper/service/GitService.java:82-98 | a commit made exactly at the start of the start date, or exactly at the start of the day after the end date, is not reported |
| `GitService.BlockLayout` | src/main/java/com/junjie/githelper/service/GitService.java:103-107 | each block begins with the 80 `=` characters, a newline and `Commit: ` followed by the first 8 characters of the id, and ends with a newline |
| `GitService.FormatBlock` | src/main/java/com/junjie/githelper/service/GitService.java:103-137 | the appends made for one commit in the window produce exactly that commit's block: Commit, Author, Date and Message lines, the annotation, then the closing newline |
| `GitService.BodyStep` | src/main/java/com/junjie/githelper/service/GitService.java:94-138 | examining one more commit appends its block if it is in the window and leaves the log unchanged otherwise |
| `GitService.Report` | src/main/java/com/junjie/githelper/service/GitService.java:141-146 | the report starts with "No commits" if and only if no commit of the walk lies in the window |
| `GitService.ReportShape` | src/main/java/com/junjie/githelper/service/GitService.java:141-146 | with no qualifying commit the report is exactly the sentinel with both rendered dates; otherwise it is `Found <n> commits (<start> to <end>)` and a blank line, then the blocks, where `n` reads back as the number of qualifying commits, which is also the number of blocks |
| `GitService.ReportKeepsWalkOrder` | src/main/java/com/junjie/githelper/service/GitService.java:94-107 | the blocks of an earlier stretch of the walk come before those of a later stretch, so blocks are never re-sorted |
| `GitService.NoDiffIgnoresOracle` | src/main/java/com/junjie/githelper/service/GitService.java:109-110 | without diffs no block carries an annotation (no code changes, no initial-commit note, no error note), and the report is the same whatever the diff oracle answers |
| `GitService.RootCommitNote` | src/main/java/com/junjie/githelper/service/GitService.java:128-131 | with diffs, a commit without parents gets the initial-commit note, whatever the diff oracle would say |
| `GitService.ParentCommitNote` | src/main/java/com/junjie/githelper/service/GitService.java:115-134 | with diffs, a commit with a parent gets `Code Changes:` and the diff only for a non-empty diff, nothing for an empty one, and the error note with the exception message for a failed one |
| `GitService.DiffFailureIsLocal` | src/main/java/com/junjie/githelper/service/GitService.java:111-134 | changing the diff outcome of one commit leaves the selection, the count and every other commit's block unchanged |
| `GitService.InvertedRangeFindsNothing` | src/main/java/com/junjie/githelper/service/GitService.java:141-143 | for a start date after the end date, and a time zone whose start of day never moves backwards, no commit is selected and the report is the "No commits found" sentinel |
| `GitService.GetCommitLogs` | src/main/java/com/junjie/githelper/service/GitService.java:78-148 | the loop that counts and appends block by block returns the exception JGit raised on opening or walking, or else exactly the specified report |
| `GitService.GetCommitLogsWithoutDiff` | src/main/java/com/junjie/githelper/service/GitService.java:153-155 | the legacy overload returns the report with `includeDiff` false |
| `GitService.RecentMessagesLines` | src/main/java/com/junjie/githelper/service/GitService.java:51-54 | with no commits the text is empty; otherwise splitting it at newlines gives the short messages of the five-commit walk, at most five, in walk order, and when the whole walk succeeds these are its first min(5, n) commits |
| `GitService.ThreeCommitScenario` | src/main/java/com/junjie/githelper/service/GitService.java:94-99 | for commits on 2025-01-01, 2025-01-03 and 2025-01-10 read in UTC, the range 2025-01-02 to 2025-01-05 selects only the second commit, and the report opens with `Found 1 commits (` |
| `Text.DecimalRoundTrip` | src/main/java/com/junjie/githelper/service/GitService.java:145 | the `%d` rendering of the count reads back as the count |
| `Text.SplitJoin` | src/main/java/com/junjie/githelper/service/GitService.java:52-54 | joining pieces that contain no separator, then splitting at the separator, gives back the pieces |
| `Text.TrimEmptyIffBlank` | src/main/java/com/junjie/githelper/service/ToolService.java:61 | `s.trim().isEmpty()` holds exactly when every character of `s` is at most U+0020 |
| `Text.Prefix` | src/main/java/com/junjie/githelper/service/ToolService.java:68-69 | `append(s, 0, min(n, len))` appends exactly the first min(n, len) characters of `s` |
| `ToolService.ToolService.constructor` | src/main/java/com/junjie/githelper/service/ToolService.java:18-22 | a new service has no project selected |
| `ToolService.ToolService.SetCurrentProject` | src/main/java/com/junjie/githelper/service/ToolService.java:24-26 | the given project becomes the current one |
| `ToolService.ToolService.GenerateGitCommit` | src/main/java/com/junjie/githelper/service/ToolService.java:34-98 | the section-by-section appends give the specified reply: the checks in order, the two git calls with their catch clauses, and the analysis text |
| `ToolService.ToolService.GenerateCommitReport` | src/main/java/com/junjie/githelper/service/ToolService.java:108-150 | validating, calling getCommitLogs and wrapping its text gives the specified reply |
| `ToolService.ToolService.CheckStagedChanges` | src/main/java/com/junjie/githelper/service/ToolService.java:157-185 | with no project or a missing path it gives those errors (`NoProjectComesFirst`, `MissingPathComesSecond`); otherwise, for a readable stage, the ⚠️ warning comes exactly when the staged diff is empty, and a non-empty diff is shown verbatim in a fenced block (proved about its reply in `StagedReplyCases`) |
| `ToolService.ToolService.GetRecentCommits` | src/main/java/com/junjie/githelper/service/ToolService.java:193-220 | with no project or a missing path it gives those errors (`NoProjectComesFirst`, `MissingPathComesSecond`); otherwise the no-history warning comes exactly when the joined short messages are blank, always for an empty walk, and the count argument never changes the reply (proved about its reply in `RecentCommitsBlankHistory` and `RecentCommitsIgnoresCount`) |
| `ToolService.NoProjectComesFirst` | src/main/java/com/junjie/githelper/service/ToolService.java:35-37 | with no project selected, all four tools return the same "select a project" error, whatever the path, dates or repository |
| `ToolService.MissingPathComesSecond` | src/main/java/com/junjie/githelper/service/ToolService.java:39-42 | a selected project whose path does not exist gets the path error from all four tools, before any git call |
| `ToolService.RangeErrorBeforeGit` | src/main/java/com/junjie/githelper/service/ToolService.java:123-125 | a start date after the end date gives the error quoting both strings as written, and the reply does not depend on the repository, so getCommitLogs is not called |
| `ToolService.UnparsableDate` | src/main/java/com/junjie/githelper/service/ToolService.java:120-121 | an unparsable start date, or else an unparsable end date, gives the 日期格式错误 reply with that parser's message |
| `ToolService.ReportWrapping` | src/main/java/com/junjie/githelper/service/ToolService.java:130-138 | for a valid range, the reply is the ⚠️ warning around the "No commits found" sentinel exactly when no commit qualifies; otherwise the report is embedded unchanged between the header quoting the literal dates and the hint |
| `ToolService.EmptyStageSkipsHistory` | src/main/java/com/junjie/githelper/service/ToolService.java:46-55 | with nothing staged the reply is the 暂存区没有任何变更 warning, and it stays so even if reading the history would fail, so the history is not fetched |
| `ToolService.ExcerptTruncation` | src/main/java/com/junjie/githelper/service/ToolService.java:68-72 | a diff of at most 800 characters is shown whole; a longer one is cut to its first 800 characters and followed by the truncation notice |
| `ToolService.InstructionsShownIffNotBlank` | src/main/java/com/junjie/githelper/service/ToolService.java:61-63 | the 用户要求 line appears exactly when the instructions are given and not blank, and it quotes them untrimmed |
| `ToolService.RecentShownIffNonEmpty` | src/main/java/com/junjie/githelper/service/ToolService.java:76-79 | the recent-commits section appears exactly when the history text is non-empty |
| `ToolService.StagedReplyCases` | src/main/java/com/junjie/githelper/service/ToolService.java:168-176 | checkStagedChanges gives the warning exactly when the staged diff is empty; otherwise it shows the diff verbatim inside a fenced block |
| `ToolService.RecentCommitsIgnoresCount` | src/main/java/com/junjie/githelper/service/ToolService.java:193 | the `count` argument of getRecentCommits makes no difference to the reply |
| `ToolService.RecentCommitsBlankHistory` | src/main/java/com/junjie/githelper/service/ToolService.java:204-209 | getRecentCommits reports an empty history exactly when the joined messages are blank, and always does so for a five-commit walk with no commits |
| `ToolService.RecentCommitsReadFiveCommitWalk` | src/main/java/com/junjie/githelper/service/ToolService.java:203-219 | getRecentCommits reads only the five-commit walk: two repositories with the same five-commit walk get the same reply whatever their whole walks do, so a history damaged further back still gets its list |

## Left out

- Opening the repository (`FileRepositoryBuilder`, the `.git` subdirectory), `git.log()`, `git.diff()`, `prepareTreeParser` and `getStagedChanges` are JGit. They appear only through what they return or throw: the fields of `Repository`.
- `commit` (GitService.java:58-68) is a pass-through to JGit's `commit()`, and no tool calls it. It is not modelled.
- The system time zone, `LocalDate.toString`, `LocalDate.parse` and the local date of a commit are oracle fields of `Calendar`. The model does not check that they agree with ISO-8601 or with each other.
- The date `plusDays(1)` overflows at `LocalDate.MAX` (a `DateTimeException`). This is not modelled: epoch days are unbounded.
- `Date.from` (GitService.java:82-83) throws IllegalArgumentException when a start of day does not fit a `long` of milliseconds. `LocalDate.parse` accepts such dates, for example `+300000000-01-01`. `generateCommitReport` then replies "❌ 获取提交记录失败：" with the exception's message. The model has unbounded milliseconds, so for such dates it computes a report instead.
- GetCommitLogs: requires commit ids of at least 8 characters. JGit names are always 40 hex digits, so the `substring(0, 8)` failure cannot occur.
- The `int` counter and Java's `long` millisecond values are unbounded integers. A history of more than 2^31 commits is out of reach.
- `Text.Prefix` counts characters as Unicode scalar values. Java's `length()` counts UTF-16 units, so a staged diff with characters outside the Basic Multilingual Plane is cut at a different point.
- Text.DecimalRoundTrip: `NatToDecimal` writes ASCII digits. `String.format` at GitService.java:145 uses the default locale, whose zero digit may be another character, so the count reads back only in locales with ASCII digits.
- `generateCommitReport` takes its dates as plain strings. Java also accepts `null` there: `LocalDate.parse(null)` throws a NullPointerException, and the generic catch (ToolService.java:147-148) turns it into the "❌ 获取提交记录失败：" reply. Null dates are not modelled.
- RecentCommitsBlankHistory: an empty walk `Ok([])` gives the no-history warning. On a repository with no commit at all, JGit's `git.log().call()` throws NoHeadException (a GitAPIException) instead. The model represents that repository by walks of `Err(GitApiError(...))`, which give the GitAPIException reply (ToolService.java:215-216), but does not tie the two together.
- A `null` exception message, which Java renders as `null`, is whatever text the oracle supplies.
- RecentMessagesLines: assumes the short messages contain no line feed. JGit's `getShortMessage` guarantees this.
- Closing resources on every exit path, the JavaFX controller, the background thread, the language-model prompt interface and the configuration record are not part of this model: they hold no logic of this core.
