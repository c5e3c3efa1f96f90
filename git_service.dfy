// GitService: the date-bounded commit report (getCommitLogs), its legacy
// overload without diffs, and the recent-commit message list.
//
// JGit is not modelled: a Repository value carries what the library would
// answer (the commit walk or the exception it throws, the staged diff, the
// per-commit diff against the first parent). A LocalDate is its epoch-day
// number, so `isAfter` is `>` and `plusDays(1)` is `+ 1`; the system time zone
// and LocalDate's text form are the oracle fields of a Calendar.

module GitService {
  import opened Text

  /** What RevCommit exposes and the report reads. */
  datatype Commit = Commit(
    id: string,            // getName(): the hash in hex
    author: string,        // getAuthorIdent().getName()
    commitTime: int,       // getCommitTime(): seconds since the epoch
    fullMessage: string,
    shortMessage: string,
    parentCount: nat)

  /** The diff of a commit against its first parent, or the message of the exception it raised. */
  datatype DiffOutcome = DiffOk(text: string) | DiffErr(message: string)

  /**
   * An exception out of JGit: the two checked kinds the public operations
   * declare, and any unchecked one (JGitInternalException and the like).
   */
  datatype GitFailure = IoError(message: string) | GitApiError(message: string) | Unchecked(message: string)

  datatype Result<T> = Ok(value: T) | Err(failure: GitFailure)

  /** A working copy as JGit sees it during one call. */
  datatype Repository = Repository(
    log: Result<seq<Commit>>,       // git.log().call(): the whole walk, in walk order
    recent: Result<seq<Commit>>,    // git.log().setMaxCount(5).call(): the walk stopped after five commits
    staged: Result<string>,         // git.diff().setCached(true): the staged diff
    diffOf: Commit -> DiffOutcome)  // git.diff() of a commit against getParent(0)

  datatype DateParse = Parsed(day: int) | Unparsable(message: string)

  /** The calendar facilities the code takes from java.time, as oracles over epoch days. */
  datatype Calendar = Calendar(
    render: int -> string,        // LocalDate.toString()
    startOfDayMs: int -> int,     // date.atStartOfDay(systemDefault()), in epoch milliseconds
    dayOfSecond: int -> int,      // Instant.ofEpochSecond(t).atZone(systemDefault()).toLocalDate()
    parse: string -> DateParse)   // LocalDate.parse(text)

  /** JGit names are 40 hex digits; the report takes the first 8. */
  predicate WellFormedWalk(walk: seq<Commit>) {
    forall c :: c in walk ==> |c.id| >= 8
  }

  /** Every real time zone's start of day moves forward with the date. */
  ghost predicate ValidCalendar(cal: Calendar) {
    forall d1, d2 :: d1 <= d2 ==> cal.startOfDayMs(d1) <= cal.startOfDayMs(d2)
  }

  /**
   * The oracles describe one working copy. The five-commit walk never goes
   * past five commits, and when the whole walk succeeds it is that walk's
   * first five commits. It may succeed on its own: a commit that cannot be
   * read further back fails only the whole walk.
   */
  predicate ValidRepository(repo: Repository) {
    && (repo.log.Ok? ==> WellFormedWalk(repo.log.value))
    && (repo.recent.Ok? ==> |repo.recent.value| <= 5)
    && (repo.log.Ok? ==> repo.recent == Ok(repo.log.value[..Min(5, |repo.log.value|)]))
  }

  // ---------------------------------------------------------------------------
  // Selecting the commits of the window.

  /** `since`: the start of the start date. */
  function Since(cal: Calendar, startDate: int): int {
    cal.startOfDayMs(startDate)
  }

  /** `until`: the start of the day after the end date. */
  function Until(cal: Calendar, endDate: int): int {
    cal.startOfDayMs(endDate + 1)
  }

  /** `commitDate.after(since) && commitDate.before(until)`: both bounds are strict. */
  predicate InWindow(c: Commit, since: int, until: int) {
    since < c.commitTime * 1000 < until
  }

  /** The commits of the walk that lie in the window, in walk order. */
  function Selected(walk: seq<Commit>, since: int, until: int): (sel: seq<Commit>)
    ensures |sel| <= |walk|
    ensures forall i :: 0 <= i < |sel| ==> sel[i] in walk && InWindow(sel[i], since, until)
  {
    if walk == [] then []
    else
      var last := walk[|walk| - 1];
      Selected(walk[..|walk| - 1], since, until) + (if InWindow(last, since, until) then [last] else [])
  }

  /** A commit is reported exactly when it is in the walk and in the window: the whole walk is examined. */
  lemma {:induction false} SelectedMembership(walk: seq<Commit>, since: int, until: int, c: Commit)
    ensures c in Selected(walk, since, until) <==> c in walk && InWindow(c, since, until)
  {
    if walk != [] {
      var init := walk[..|walk| - 1];
      SelectedMembership(init, since, until, c);
      assert walk == init + [walk[|walk| - 1]];
    }
  }

  /** Selection keeps walk order: the commits of an earlier stretch of the walk come first. */
  lemma {:induction false} SelectedAppend(a: seq<Commit>, b: seq<Commit>, since: int, until: int)
    ensures Selected(a + b, since, until) == Selected(a, since, until) + Selected(b, since, until)
  {
    if b == [] {
      assert a + b == a;
    } else {
      var init := b[..|b| - 1];
      assert (a + b)[..|a + b| - 1] == a + init;
      SelectedAppend(a, init, since, until);
    }
  }

  // ---------------------------------------------------------------------------
  // One block of the report.

  /** `"=".repeat(80)` */
  const Rule: string := seq(80, _ => '=')

  const InitialCommitNote: string := "\n[Initial commit - showing all new files]\n"
  const CodeChangesHeading: string := "\nCode Changes:\n"

  function DiffErrorNote(message: string): string {
    "\n[Could not get code changes for this commit: " + message + "]\n"
  }

  /** What follows the Message line when diffs are requested. */
  function Annotation(c: Commit, includeDiff: bool, diffOf: Commit -> DiffOutcome): string {
    if !includeDiff then ""
    else if c.parentCount == 0 then InitialCommitNote
    else match diffOf(c)
      case DiffOk(text) => if text == "" then "" else CodeChangesHeading + text
      case DiffErr(message) => DiffErrorNote(message)
  }

  function Block(c: Commit, includeDiff: bool, cal: Calendar, diffOf: Commit -> DiffOutcome): (b: string)
    requires |c.id| >= 8
  {
    Rule + "\n"
    + "Commit: " + c.id[..8] + "\n"
    + "Author: " + c.author + "\n"
    + "Date: " + cal.render(cal.dayOfSecond(c.commitTime)) + "\n"
    + "Message: " + c.fullMessage + "\n"
    + Annotation(c, includeDiff, diffOf)
    + "\n"
  }

  /** One block per commit, in the same order. */
  function Blocks(sel: seq<Commit>, includeDiff: bool, cal: Calendar, diffOf: Commit -> DiffOutcome): seq<string>
    requires WellFormedWalk(sel)
  {
    seq(|sel|, i requires 0 <= i < |sel| => Block(sel[i], includeDiff, cal, diffOf))
  }

  lemma BlocksAppend(sel: seq<Commit>, c: Commit, includeDiff: bool, cal: Calendar, diffOf: Commit -> DiffOutcome)
    requires WellFormedWalk(sel) && |c.id| >= 8
    ensures WellFormedWalk(sel + [c])
    ensures Concat(Blocks(sel + [c], includeDiff, cal, diffOf))
         == Concat(Blocks(sel, includeDiff, cal, diffOf)) + Block(c, includeDiff, cal, diffOf)
  {
    var bs := Blocks(sel + [c], includeDiff, cal, diffOf);
    assert bs[..|bs| - 1] == Blocks(sel, includeDiff, cal, diffOf);
  }

  /** The text the loop has appended after examining the commits of `walk`. */
  function Body(walk: seq<Commit>, since: int, until: int, includeDiff: bool, cal: Calendar,
                diffOf: Commit -> DiffOutcome): string
    requires WellFormedWalk(walk)
  {
    Concat(Blocks(Selected(walk, since, until), includeDiff, cal, diffOf))
  }

  /** Examining one more commit appends its block if it is in the window, and nothing otherwise. */
  lemma BodyStep(walk: seq<Commit>, c: Commit, since: int, until: int, includeDiff: bool, cal: Calendar,
                 diffOf: Commit -> DiffOutcome)
    requires WellFormedWalk(walk + [c])
    ensures WellFormedWalk(walk) && |c.id| >= 8
    ensures Body(walk + [c], since, until, includeDiff, cal, diffOf)
         == Body(walk, since, until, includeDiff, cal, diffOf)
            + (if InWindow(c, since, until) then Block(c, includeDiff, cal, diffOf) else "")
  {
    assert (walk + [c])[..|walk|] == walk;
    assert c in walk + [c];
    assert Selected(walk + [c], since, until)
        == Selected(walk, since, until) + (if InWindow(c, since, until) then [c] else []);
    var sel := Selected(walk, since, until);
    if InWindow(c, since, until) {
      BlocksAppend(sel, c, includeDiff, cal, diffOf);
    } else {
      assert Selected(walk + [c], since, until) == sel;
      var body := Body(walk, since, until, includeDiff, cal, diffOf);
      assert body + "" == body;
    }
  }

  // ---------------------------------------------------------------------------
  // The whole report.

  function NoCommitsSentinel(startText: string, endText: string): string {
    "No commits found between " + startText + " and " + endText + "."
  }

  /** `String.format("Found %d commits (%s to %s)\n\n", count, startDate, endDate)` */
  function Header(count: nat, startText: string, endText: string): string {
    "Found " + NatToDecimal(count) + " commits (" + startText + " to " + endText + ")\n\n"
  }

  /** The text getCommitLogs returns for a walk that JGit delivered. */
  function Report(walk: seq<Commit>, startDate: int, endDate: int, includeDiff: bool, cal: Calendar,
                  diffOf: Commit -> DiffOutcome): (r: string)
    requires WellFormedWalk(walk)
    ensures StartsWith(r, "No commits") <==> Selected(walk, Since(cal, startDate), Until(cal, endDate)) == []
  {
    var sel := Selected(walk, Since(cal, startDate), Until(cal, endDate));
    var startText, endText := cal.render(startDate), cal.render(endDate);
    if |sel| == 0 then
      SentinelHasPrefix(startText, endText);
      NoCommitsSentinel(startText, endText)
    else
      var body := Body(walk, Since(cal, startDate), Until(cal, endDate), includeDiff, cal, diffOf);
      HeaderLacksPrefix(|sel|, startText, endText, body);
      Header(|sel|, startText, endText) + body
  }

  lemma SentinelHasPrefix(startText: string, endText: string)
    ensures StartsWith(NoCommitsSentinel(startText, endText), "No commits")
  {
    var s := NoCommitsSentinel(startText, endText);
    assert s == "No commits" + (" found between " + startText + " and " + endText + ".");
  }

  lemma HeaderLacksPrefix(count: nat, startText: string, endText: string, body: string)
    ensures !StartsWith(Header(count, startText, endText) + body, "No commits")
  {
    var s := Header(count, startText, endText) + body;
    assert s[0] == 'F';
  }

  /** getCommitLogs: the report, or the exception opening or walking the repository raised. */
  function CommitLogs(repo: Repository, startDate: int, endDate: int, includeDiff: bool, cal: Calendar): Result<string>
    requires ValidRepository(repo)
  {
    match repo.log
    case Err(f) => Err(f)
    case Ok(walk) => Ok(Report(walk, startDate, endDate, includeDiff, cal, repo.diffOf))
  }

  /** The appends the loop body of getCommitLogs makes for one commit in the window. */
  method FormatBlock(commit: Commit, includeDiff: bool, cal: Calendar, diffOf: Commit -> DiffOutcome)
    returns (block: string)
    requires |commit.id| >= 8
    ensures block == Block(commit, includeDiff, cal, diffOf)
  {
    block := Rule + "\n";
    block := block + "Commit: " + commit.id[..8] + "\n";
    block := block + "Author: " + commit.author + "\n";
    block := block + "Date: " + cal.render(cal.dayOfSecond(commit.commitTime)) + "\n";
    block := block + "Message: " + commit.fullMessage + "\n";
    if includeDiff {
      if commit.parentCount > 0 {
        match diffOf(commit)
        case DiffOk(diff) =>
          if diff != "" {
            block := block + CodeChangesHeading;
            block := block + diff;
          }
        case DiffErr(message) =>
          block := block + "\n[Could not get code changes for this commit: " + message + "]\n";
      } else {
        block := block + InitialCommitNote;
      }
    }
    block := block + "\n";
  }

  /** getCommitLogs, one commit at a time as the source's loop appends to its StringBuilder. */
  method GetCommitLogs(repo: Repository, startDate: int, endDate: int, includeDiff: bool, cal: Calendar)
    returns (r: Result<string>)
    requires ValidRepository(repo)
    ensures r == CommitLogs(repo, startDate, endDate, includeDiff, cal)
  {
    var since := cal.startOfDayMs(startDate);
    var until := cal.startOfDayMs(endDate + 1);
    if repo.log.Err? {
      return Err(repo.log.failure);
    }
    var commits := repo.log.value;
    var log := "";
    var count := 0;
    for i := 0 to |commits|
      invariant count == |Selected(commits[..i], since, until)|
      invariant WellFormedWalk(commits[..i])
      invariant log == Body(commits[..i], since, until, includeDiff, cal, repo.diffOf)
    {
      var commit := commits[i];
      assert commits[..i + 1] == commits[..i] + [commit];
      var commitMs := commit.commitTime * 1000;
      if since < commitMs && commitMs < until {
        count := count + 1;
        var block := FormatBlock(commit, includeDiff, cal, repo.diffOf);
        log := log + block;
      }
      BodyStep(commits[..i], commit, since, until, includeDiff, cal, repo.diffOf);
    }
    assert commits[..|commits|] == commits;
    if count == 0 {
      return Ok(NoCommitsSentinel(cal.render(startDate), cal.render(endDate)));
    }
    var header := Header(count, cal.render(startDate), cal.render(endDate));
    r := Ok(header + log);
  }

  /** The legacy three-argument getCommitLogs: the report without code changes. */
  method GetCommitLogsWithoutDiff(repo: Repository, startDate: int, endDate: int, cal: Calendar)
    returns (r: Result<string>)
    requires ValidRepository(repo)
    ensures r == CommitLogs(repo, startDate, endDate, false, cal)
  {
    r := GetCommitLogs(repo, startDate, endDate, false, cal);
  }

  // ---------------------------------------------------------------------------
  // Properties of the report.

  /** No qualifying commit: the sentinel with the literal dates. Otherwise the header counts the blocks that follow. */
  lemma ReportShape(walk: seq<Commit>, startDate: int, endDate: int, includeDiff: bool, cal: Calendar,
                    diffOf: Commit -> DiffOutcome)
    requires WellFormedWalk(walk)
    ensures var sel := Selected(walk, Since(cal, startDate), Until(cal, endDate));
            var r := Report(walk, startDate, endDate, includeDiff, cal, diffOf);
            && (sel == [] ==> r == "No commits found between " + cal.render(startDate) + " and " + cal.render(endDate) + ".")
            && (sel != [] ==>
                  var digits := NatToDecimal(|sel|);
                  var blocks := Blocks(sel, includeDiff, cal, diffOf);
                  && r == "Found " + digits + " commits (" + cal.render(startDate) + " to " + cal.render(endDate) + ")\n\n"
                          + Concat(blocks)
                  && DecimalValue(digits) == |sel| == |blocks|)
  {
    var sel := Selected(walk, Since(cal, startDate), Until(cal, endDate));
    DecimalRoundTrip(|sel|);
  }

  /**
   * Without diffs no block carries an annotation (no code changes, no
   * initial-commit note, no error note) and the diff oracle is never consulted.
   */
  lemma NoDiffIgnoresOracle(walk: seq<Commit>, startDate: int, endDate: int, cal: Calendar,
                            d1: Commit -> DiffOutcome, d2: Commit -> DiffOutcome)
    requires WellFormedWalk(walk)
    ensures forall c: Commit :: Annotation(c, false, d1) == ""
    ensures Report(walk, startDate, endDate, false, cal, d1) == Report(walk, startDate, endDate, false, cal, d2)
  {
    var sel := Selected(walk, Since(cal, startDate), Until(cal, endDate));
    forall i | 0 <= i < |sel|
      ensures Block(sel[i], false, cal, d1) == Block(sel[i], false, cal, d2)
    {
    }
    assert Blocks(sel, false, cal, d1) == Blocks(sel, false, cal, d2);
  }

  /** Each block opens with the 80-character rule and the abbreviated id, and closes with a line feed. */
  lemma BlockLayout(c: Commit, includeDiff: bool, cal: Calendar, diffOf: Commit -> DiffOutcome)
    requires |c.id| >= 8
    ensures var b := Block(c, includeDiff, cal, diffOf);
            && |Rule| == 80 && (forall i :: 0 <= i < |Rule| ==> Rule[i] == '=')
            && StartsWith(b, Rule + "\n" + "Commit: " + c.id[..8] + "\n")
            && b[|b| - 1] == '\n'
  {
  }

  /**
   * getCommitLogs itself does not check the range: for a start date after the
   * end date no commit qualifies and the sentinel comes back.
   */
  lemma InvertedRangeFindsNothing(walk: seq<Commit>, startDate: int, endDate: int, includeDiff: bool, cal: Calendar,
                                  diffOf: Commit -> DiffOutcome)
    requires WellFormedWalk(walk) && ValidCalendar(cal)
    requires startDate > endDate
    ensures Selected(walk, Since(cal, startDate), Until(cal, endDate)) == []
    ensures Report(walk, startDate, endDate, includeDiff, cal, diffOf)
         == "No commits found between " + cal.render(startDate) + " and " + cal.render(endDate) + "."
  {
    assert Until(cal, endDate) <= Since(cal, startDate);
  }

  /** A root commit gets the initial-commit note, whatever the diff oracle would say. */
  lemma RootCommitNote(c: Commit, cal: Calendar, diffOf: Commit -> DiffOutcome)
    requires |c.id| >= 8 && c.parentCount == 0
    ensures Annotation(c, true, diffOf) == "\n[Initial commit - showing all new files]\n"
    ensures forall d: Commit -> DiffOutcome :: Block(c, true, cal, d) == Block(c, true, cal, diffOf)
  {
  }

  /** A commit with a parent shows "Code Changes" only for a non-empty diff; a failed diff gives the error note. */
  lemma ParentCommitNote(c: Commit, diffOf: Commit -> DiffOutcome)
    requires c.parentCount > 0
    ensures diffOf(c) == DiffOk("") ==> Annotation(c, true, diffOf) == ""
    ensures forall t: string :: diffOf(c) == DiffOk(t) && t != "" ==> Annotation(c, true, diffOf) == "\nCode Changes:\n" + t
    ensures forall m: string :: diffOf(c) == DiffErr(m) ==>
      Annotation(c, true, diffOf) == "\n[Could not get code changes for this commit: " + m + "]\n"
  {
  }

  /**
   * A diff failure stays in its own block: with two oracles that differ only
   * on commit x, the same commits are counted and every other block is unchanged.
   */
  lemma DiffFailureIsLocal(walk: seq<Commit>, startDate: int, endDate: int, includeDiff: bool, cal: Calendar,
                           d1: Commit -> DiffOutcome, d2: Commit -> DiffOutcome, x: Commit)
    requires WellFormedWalk(walk)
    requires forall c: Commit :: c != x ==> d1(c) == d2(c)
    ensures var sel := Selected(walk, Since(cal, startDate), Until(cal, endDate));
            var b1 := Blocks(sel, includeDiff, cal, d1);
            var b2 := Blocks(sel, includeDiff, cal, d2);
            && |b1| == |b2| == |sel|
            && forall i :: 0 <= i < |sel| && sel[i] != x ==> b1[i] == b2[i]
  {
  }

  /**
   * A commit made exactly at the start of the start date, or exactly at the
   * start of the day after the end date, is not reported.
   */
  lemma WindowBoundsStrict(walk: seq<Commit>, startDate: int, endDate: int, cal: Calendar, c: Commit)
    requires c.commitTime * 1000 == Since(cal, startDate) || c.commitTime * 1000 == Until(cal, endDate)
    ensures c !in Selected(walk, Since(cal, startDate), Until(cal, endDate))
  {
    SelectedMembership(walk, Since(cal, startDate), Until(cal, endDate), c);
  }

  /** The walk order of the blocks: blocks of an earlier stretch of the walk precede those of a later one. */
  lemma ReportKeepsWalkOrder(a: seq<Commit>, b: seq<Commit>, startDate: int, endDate: int, includeDiff: bool,
                             cal: Calendar, diffOf: Commit -> DiffOutcome)
    requires WellFormedWalk(a + b)
    ensures WellFormedWalk(a) && WellFormedWalk(b)
    ensures var since, until := Since(cal, startDate), Until(cal, endDate);
            Blocks(Selected(a + b, since, until), includeDiff, cal, diffOf)
              == Blocks(Selected(a, since, until), includeDiff, cal, diffOf)
                 + Blocks(Selected(b, since, until), includeDiff, cal, diffOf)
  {
    assert forall i :: 0 <= i < |a| ==> a[i] == (a + b)[i];
    assert forall i :: 0 <= i < |b| ==> b[i] == (a + b)[|a| + i];
    var since, until := Since(cal, startDate), Until(cal, endDate);
    var sa, sb := Selected(a, since, until), Selected(b, since, until);
    SelectedAppend(a, b, since, until);
    BlocksSplit(sa, sb, includeDiff, cal, diffOf);
  }

  lemma BlocksSplit(sa: seq<Commit>, sb: seq<Commit>, includeDiff: bool, cal: Calendar, diffOf: Commit -> DiffOutcome)
    requires WellFormedWalk(sa) && WellFormedWalk(sb)
    ensures WellFormedWalk(sa + sb)
    ensures Blocks(sa + sb, includeDiff, cal, diffOf) == Blocks(sa, includeDiff, cal, diffOf) + Blocks(sb, includeDiff, cal, diffOf)
  {
    assert forall i :: |sa| <= i < |sa + sb| ==> (sa + sb)[i] == sb[i - |sa|];
  }

  // ---------------------------------------------------------------------------
  // Recent commit messages.

  function ShortMessages(commits: seq<Commit>): seq<string> {
    seq(|commits|, i requires 0 <= i < |commits| => commits[i].shortMessage)
  }

  /** getRecentCommitMessages: the short messages of the five-commit walk, joined by newlines. */
  function RecentCommitMessages(repo: Repository): Result<string> {
    match repo.recent
    case Err(f) => Err(f)
    case Ok(walk) => Ok(Join(ShortMessages(walk), '\n'))
  }

  /**
   * No commits give the empty string; otherwise the lines of the result are
   * the short messages of at most five commits, in walk order, and when the
   * whole walk succeeds they are those of its first min(5, n) commits (JGit's
   * short message never contains a line feed).
   */
  lemma RecentMessagesLines(repo: Repository)
    requires ValidRepository(repo) && repo.recent.Ok?
    requires forall c :: c in repo.recent.value ==> '\n' !in c.shortMessage
    ensures var walk := repo.recent.value;
            && RecentCommitMessages(repo).Ok?
            && (walk == [] ==> RecentCommitMessages(repo).value == "")
            && (walk != [] ==>
                  var lines := Split(RecentCommitMessages(repo).value, '\n');
                  && |lines| == |walk| <= 5
                  && (forall i :: 0 <= i < |lines| ==> lines[i] == walk[i].shortMessage)
                  && (repo.log.Ok? ==>
                        && |lines| == Min(5, |repo.log.value|)
                        && forall i :: 0 <= i < |lines| ==> lines[i] == repo.log.value[i].shortMessage))
  {
    var walk := repo.recent.value;
    if walk != [] {
      var parts := ShortMessages(walk);
      assert forall i :: 0 <= i < |parts| ==> walk[i] in walk;
      SplitJoin(parts, '\n');
    }
  }

  // ---------------------------------------------------------------------------

  /**
   * Three commits made on 2025-01-01 (root), 2025-01-03 and 2025-01-10, read
   * in UTC: the report for 2025-01-02 .. 2025-01-05 without diffs counts one
   * commit and shows only the second.
   */
  lemma ThreeCommitScenario(render: int -> string, parse: string -> DateParse)
    ensures var cal := Calendar(render, d => d * 86400000, t => t / 86400, parse);
            var c1 := Commit("1111111111111111111111111111111111111111", "dev", 20089 * 86400 + 3600, "init", "init", 0);
            var c2 := Commit("2222222222222222222222222222222222222222", "dev", 20091 * 86400 + 3600, "fix bug", "fix bug", 1);
            var c3 := Commit("3333333333333333333333333333333333333333", "dev", 20098 * 86400 + 3600, "add feature", "add feature", 1);
            var walk := [c3, c2, c1];
            && Selected(walk, Since(cal, 20090), Until(cal, 20093)) == [c2]
            && StartsWith(Report(walk, 20090, 20093, false, cal, c => DiffOk("")), "Found 1 commits (")
  {
    var cal := Calendar(render, d => d * 86400000, t => t / 86400, parse);
    var c1 := Commit("1111111111111111111111111111111111111111", "dev", 20089 * 86400 + 3600, "init", "init", 0);
    var c2 := Commit("2222222222222222222222222222222222222222", "dev", 20091 * 86400 + 3600, "fix bug", "fix bug", 1);
    var c3 := Commit("3333333333333333333333333333333333333333", "dev", 20098 * 86400 + 3600, "add feature", "add feature", 1);
    var walk := [c3, c2, c1];
    var since, until := Since(cal, 20090), Until(cal, 20093);
    assert walk[..2][..1] == [c3];
    assert walk[..2] == [c3, c2];
    assert Selected([c3], since, until) == [];
    assert Selected([c3, c2], since, until) == [c2];
    assert NatToDecimal(1) == "1";
  }
}
