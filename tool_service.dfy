// ToolService: the four tools the chat assistant may call. Each checks that a
// project is selected and that its path exists, asks GitService, and wraps
// the answer (or the exception) in a reply text.
//
// File.exists(path) is a boolean parameter; the repository at that path is a
// GitService.Repository value; java.time comes in through a Calendar.

module ToolService {
  import opened Text
  import opened GitService

  datatype Option<T> = None | Some(value: T)

  /** The selected project: its display name and the path of its working copy. */
  datatype Project = Project(name: string, path: string)

  // ---------------------------------------------------------------------------
  // Replies shared by the tools.

  const NoProjectError: string := "❌ 错误：请先在左侧项目列表中选择一个 Git 项目。"

  function MissingPathError(path: string): string {
    "❌ 错误：项目路径不存在：" + path
  }

  /**
   * The reply of checkStagedChanges and getRecentCommits when GitService
   * throws; the last catch clause of each names its own operation.
   */
  function ReadFailureReply(f: GitFailure, path: string, uncheckedLabel: string): string {
    match f
    case IoError(m) => "❌ 读取 Git 仓库失败：" + m + "\n\n" + "请确保项目路径是有效的 Git 仓库：\n" + path
    case GitApiError(m) => "❌ Git 操作失败：" + m + "\n项目路径：" + path
    case Unchecked(m) => uncheckedLabel + m
  }

  // ---------------------------------------------------------------------------
  // generateGitCommit

  function EmptyStageWarning(path: string): string {
    "\U{26A0}\U{FE0F} 当前暂存区没有任何变更。\n\n"
    + "请先使用以下命令添加文件到暂存区：\n"
    + "  git add <文件名>  或  git add .\n\n"
    + "项目路径：" + path
  }

  /** generateGitCommit catches only the two checked exceptions; an unchecked one leaves the tool (Err). */
  function CommitFailure(f: GitFailure, path: string): Result<string> {
    match f
    case IoError(m) =>
      Ok("❌ 读取 Git 仓库失败：" + m + "\n\n" + "请确保：\n" + "1. 项目路径是有效的 Git 仓库\n" + "2. 项目路径：" + path)
    case GitApiError(m) =>
      Ok("❌ Git 操作失败：" + m + "\n\n" + "这可能是因为：\n" + "1. 仓库损坏或不完整\n" + "2. 没有访问权限\n" + "项目路径：" + path)
    case Unchecked(_) => Err(f)
  }

  const TruncationNotice: string := "\n...\n（变更内容较多，已截取前800字符）"
  const CommitHint: string := "💡 提示：我现在可以基于这些变更为你生成 commit 信息。"
    + "请告诉我你希望生成什么样的提交信息（例如：\"生成一个简洁的中文 commit\"）。"

  /** The user's request, shown verbatim when it is present and not blank after trim(). */
  function InstructionsSection(customInstructions: Option<string>): string {
    if customInstructions.Some? && Trim(customInstructions.value) != "" then
      "📝 用户要求：" + customInstructions.value + "\n\n"
    else
      ""
  }

  /** At most the first 800 characters of the staged diff, then the notice if any were cut. */
  function Excerpt(staged: string): string {
    Prefix(staged, 800) + (if |staged| > 800 then TruncationNotice else "")
  }

  function RecentSection(recentCommits: string): string {
    if recentCommits != "" then "📜 最近的提交记录（供参考）：\n" + "```\n" + recentCommits + "\n```\n\n" else ""
  }

  /** The analysis generateGitCommit returns once both git calls succeeded. */
  function CommitAnalysis(name: string, customInstructions: Option<string>, staged: string, recentCommits: string): string {
    "✅ 已分析项目：" + name + "\n\n"
    + InstructionsSection(customInstructions)
    + "📊 暂存区变更摘要：\n" + "```\n" + Excerpt(staged) + "\n```\n\n"
    + RecentSection(recentCommits)
    + CommitHint
  }

  /** The reply of generateGitCommit, or (Err) the unchecked exception that escapes it. */
  function GitCommitReply(project: Option<Project>, customInstructions: Option<string>, pathExists: bool,
                          repo: Repository): Result<string>
  {
    if project.None? then Ok(NoProjectError)
    else if !pathExists then Ok(MissingPathError(project.value.path))
    else match repo.staged
      case Err(f) => CommitFailure(f, project.value.path)
      case Ok(staged) =>
        if staged == "" then Ok(EmptyStageWarning(project.value.path))
        else match RecentCommitMessages(repo)
          case Err(f) => CommitFailure(f, project.value.path)
          case Ok(recent) => Ok(CommitAnalysis(project.value.name, customInstructions, staged, recent))
  }

  // ---------------------------------------------------------------------------
  // generateCommitReport

  function DateFormatError(message: string): string {
    "❌ 日期格式错误：" + message + "\n\n" + "正确格式：YYYY-MM-DD（例如：2025-01-01）"
  }

  function RangeError(startDate: string, endDate: string): string {
    "❌ 错误：开始日期（" + startDate + "）不能晚于结束日期（" + endDate + "）。"
  }

  function ReportFailureReply(f: GitFailure, path: string): string {
    match f
    case IoError(m) => "❌ 读取 Git 仓库失败：" + m + "\n项目路径：" + path
    case GitApiError(m) => "❌ Git 操作失败：" + m + "\n项目路径：" + path
    case Unchecked(m) => "❌ 获取提交记录失败：" + m
  }

  function NoCommitsReply(logs: string, name: string): string {
    "\U{26A0}\U{FE0F} " + logs + "\n\n项目：" + name
  }

  /** The success header; it quotes the dates exactly as the caller wrote them. */
  function ReportHead(name: string, startDate: string, endDate: string): string {
    "✅ 已获取项目 **" + name + "** 的提交记录\n"
    + "📅 时间范围：" + startDate + " 至 " + endDate + "\n\n"
    + "📊 提交详情：\n"
  }

  const ReportHint: string := "\n\n💡 提示：我可以根据这些提交记录为你生成一份总结报告。"
    + "请告诉我你需要什么样的报告（例如：\"生成一份工作周报\"）。"

  /** What generateCommitReport makes of the text getCommitLogs returned. */
  function WrapCommitLogs(name: string, startDate: string, endDate: string, logs: string): string {
    if StartsWith(logs, "No commits") then NoCommitsReply(logs, name)
    else ReportHead(name, startDate, endDate) + logs + ReportHint
  }

  function CommitReportReply(project: Option<Project>, startDate: string, endDate: string, includeDetails: bool,
                             pathExists: bool, repo: Repository, cal: Calendar): string
    requires ValidRepository(repo)
  {
    if project.None? then NoProjectError
    else if !pathExists then MissingPathError(project.value.path)
    else match cal.parse(startDate)
      case Unparsable(m) => DateFormatError(m)
      case Parsed(start) =>
        match cal.parse(endDate)
        case Unparsable(m) => DateFormatError(m)
        case Parsed(end) =>
          if start > end then RangeError(startDate, endDate)
          else match CommitLogs(repo, start, end, includeDetails, cal)
            case Err(f) => ReportFailureReply(f, project.value.path)
            case Ok(logs) => WrapCommitLogs(project.value.name, startDate, endDate, logs)
  }

  // ---------------------------------------------------------------------------
  // checkStagedChanges

  function StagedEmptyReply(project: Project): string {
    "\U{26A0}\U{FE0F} 当前暂存区没有任何变更。\n\n"
    + "项目：" + project.name + "\n"
    + "路径：" + project.path + "\n\n"
    + "提示：使用 'git add <文件>' 将文件添加到暂存区。"
  }

  function StagedReply(project: Option<Project>, pathExists: bool, repo: Repository): string {
    if project.None? then NoProjectError
    else if !pathExists then MissingPathError(project.value.path)
    else match repo.staged
      case Err(f) => ReadFailureReply(f, project.value.path, "❌ 获取暂存区状态失败：")
      case Ok(changes) =>
        if changes == "" then StagedEmptyReply(project.value)
        else "✅ 项目：" + project.value.name + "\n\n" + "📊 暂存区变更：\n```\n" + changes + "\n```"
  }

  // ---------------------------------------------------------------------------
  // getRecentCommits

  function NoHistoryReply(project: Project): string {
    "\U{26A0}\U{FE0F} 该项目还没有任何提交记录。\n\n" + "项目：" + project.name + "\n" + "路径：" + project.path
  }

  /** `count` is accepted and not used: GitService always reads five commits. */
  function RecentCommitsReply(project: Option<Project>, count: int, pathExists: bool, repo: Repository): string {
    if project.None? then NoProjectError
    else if !pathExists then MissingPathError(project.value.path)
    else match RecentCommitMessages(repo)
      case Err(f) => ReadFailureReply(f, project.value.path, "❌ 获取提交历史失败：")
      case Ok(commits) =>
        if Trim(commits) == "" then NoHistoryReply(project.value)
        else "✅ 项目：" + project.value.name + "\n\n" + "📜 最近 5 条提交记录：\n```\n" + commits + "\n```"
  }

  // ---------------------------------------------------------------------------
  // The service object.

  class ToolService {
    var currentProject: Option<Project>

    constructor ()
      ensures currentProject == None
    {
      currentProject := None;
    }

    method SetCurrentProject(project: Option<Project>)
      modifies this
      ensures currentProject == project
    {
      currentProject := project;
    }

    /** generateGitCommit, appending section by section as the source's StringBuilder does. */
    method GenerateGitCommit(customInstructions: Option<string>, pathExists: bool, repo: Repository)
      returns (r: Result<string>)
      ensures r == GitCommitReply(currentProject, customInstructions, pathExists, repo)
    {
      if currentProject.None? {
        return Ok(NoProjectError);
      }
      var project := currentProject.value;
      if !pathExists {
        return Ok(MissingPathError(project.path));
      }
      if repo.staged.Err? {
        return CommitFailure(repo.staged.failure, project.path);
      }
      var stagedChanges := repo.staged.value;
      if stagedChanges == "" {
        return Ok(EmptyStageWarning(project.path));
      }
      var recent := RecentCommitMessages(repo);
      if recent.Err? {
        return CommitFailure(recent.failure, project.path);
      }
      var recentCommits := recent.value;

      var result := "✅ 已分析项目：" + project.name + "\n\n";
      if customInstructions.Some? && Trim(customInstructions.value) != "" {
        result := result + ("📝 用户要求：" + customInstructions.value + "\n\n");
      } else {
        assert result + InstructionsSection(customInstructions) == result;
      }
      result := result + "📊 暂存区变更摘要：\n";
      result := result + "```\n";
      var maxLength := Min(800, |stagedChanges|);
      ghost var beforeExcerpt := result;
      result := result + stagedChanges[..maxLength];
      if |stagedChanges| > 800 {
        result := result + TruncationNotice;
      }
      assert result == beforeExcerpt + Excerpt(stagedChanges);
      result := result + "\n```\n\n";
      if recentCommits != "" {
        result := result + ("📜 最近的提交记录（供参考）：\n" + "```\n" + recentCommits + "\n```\n\n");
      } else {
        assert result + RecentSection(recentCommits) == result;
      }
      result := result + CommitHint;
      r := Ok(result);
    }

    /** generateCommitReport: validate, then call getCommitLogs and wrap its text. */
    method GenerateCommitReport(startDate: string, endDate: string, includeDetails: bool, pathExists: bool,
                                repo: Repository, cal: Calendar)
      returns (r: string)
      requires ValidRepository(repo)
      ensures r == CommitReportReply(currentProject, startDate, endDate, includeDetails, pathExists, repo, cal)
    {
      if currentProject.None? {
        return NoProjectError;
      }
      var project := currentProject.value;
      if !pathExists {
        return MissingPathError(project.path);
      }
      var start := cal.parse(startDate);
      if start.Unparsable? {
        return DateFormatError(start.message);
      }
      var end := cal.parse(endDate);
      if end.Unparsable? {
        return DateFormatError(end.message);
      }
      if start.day > end.day {
        return RangeError(startDate, endDate);
      }
      var commitLogs := GetCommitLogs(repo, start.day, end.day, includeDetails, cal);
      if commitLogs.Err? {
        return ReportFailureReply(commitLogs.failure, project.path);
      }
      if StartsWith(commitLogs.value, "No commits") {
        return NoCommitsReply(commitLogs.value, project.name);
      }
      r := ReportHead(project.name, startDate, endDate) + commitLogs.value + ReportHint;
    }

    method CheckStagedChanges(pathExists: bool, repo: Repository) returns (r: string)
      ensures r == StagedReply(currentProject, pathExists, repo)
    {
      r := StagedReply(currentProject, pathExists, repo);
    }

    method GetRecentCommits(count: int, pathExists: bool, repo: Repository) returns (r: string)
      ensures r == RecentCommitsReply(currentProject, count, pathExists, repo)
    {
      r := RecentCommitsReply(currentProject, count, pathExists, repo);
    }
  }

  // ---------------------------------------------------------------------------
  // Properties of the replies.

  /** With no project selected every tool gives the same error, whatever the path, dates or repository. */
  lemma NoProjectComesFirst(customInstructions: Option<string>, startDate: string, endDate: string,
                            includeDetails: bool, count: int, pathExists: bool, repo: Repository, cal: Calendar)
    requires ValidRepository(repo)
    ensures GitCommitReply(None, customInstructions, pathExists, repo) == Ok(NoProjectError)
    ensures CommitReportReply(None, startDate, endDate, includeDetails, pathExists, repo, cal) == NoProjectError
    ensures StagedReply(None, pathExists, repo) == NoProjectError
    ensures RecentCommitsReply(None, count, pathExists, repo) == NoProjectError
  {
  }

  /** A selected project whose path does not exist gets the path error from every tool, before any git call. */
  lemma MissingPathComesSecond(project: Project, customInstructions: Option<string>, startDate: string, endDate: string,
                               includeDetails: bool, count: int, repo: Repository, cal: Calendar)
    requires ValidRepository(repo)
    ensures GitCommitReply(Some(project), customInstructions, false, repo) == Ok(MissingPathError(project.path))
    ensures CommitReportReply(Some(project), startDate, endDate, includeDetails, false, repo, cal)
         == MissingPathError(project.path)
    ensures StagedReply(Some(project), false, repo) == MissingPathError(project.path)
    ensures RecentCommitsReply(Some(project), count, false, repo) == MissingPathError(project.path)
  {
  }

  /**
   * A start date after the end date gives the range error quoting both
   * strings as written, whatever the repository holds: getCommitLogs is not called.
   */
  lemma RangeErrorBeforeGit(project: Project, startDate: string, endDate: string, includeDetails: bool,
                            repo1: Repository, repo2: Repository, cal: Calendar)
    requires ValidRepository(repo1) && ValidRepository(repo2)
    requires cal.parse(startDate).Parsed? && cal.parse(endDate).Parsed?
    requires cal.parse(startDate).day > cal.parse(endDate).day
    ensures CommitReportReply(Some(project), startDate, endDate, includeDetails, true, repo1, cal)
         == CommitReportReply(Some(project), startDate, endDate, includeDetails, true, repo2, cal)
         == "❌ 错误：开始日期（" + startDate + "）不能晚于结束日期（" + endDate + "）。"
  {
  }

  /** An unparsable start date, or else an unparsable end date, gives the date-format error with the parser's message. */
  lemma UnparsableDate(project: Project, startDate: string, endDate: string, includeDetails: bool,
                       repo: Repository, cal: Calendar)
    requires ValidRepository(repo)
    ensures cal.parse(startDate).Unparsable? ==>
      CommitReportReply(Some(project), startDate, endDate, includeDetails, true, repo, cal)
        == DateFormatError(cal.parse(startDate).message)
    ensures cal.parse(startDate).Parsed? && cal.parse(endDate).Unparsable? ==>
      CommitReportReply(Some(project), startDate, endDate, includeDetails, true, repo, cal)
        == DateFormatError(cal.parse(endDate).message)
  {
  }

  /**
   * For a valid range: when no commit lies in the window the reply is the
   * warning around the "No commits" sentinel; otherwise the report is
   * embedded unchanged between the header quoting the literal dates and the hint.
   */
  lemma ReportWrapping(project: Project, startDate: string, endDate: string, includeDetails: bool,
                       repo: Repository, cal: Calendar)
    requires ValidRepository(repo) && repo.log.Ok?
    requires cal.parse(startDate).Parsed? && cal.parse(endDate).Parsed?
    requires cal.parse(startDate).day <= cal.parse(endDate).day
    ensures var start, end := cal.parse(startDate).day, cal.parse(endDate).day;
            var walk := repo.log.value;
            var sel := Selected(walk, Since(cal, start), Until(cal, end));
            var logs := Report(walk, start, end, includeDetails, cal, repo.diffOf);
            var reply := CommitReportReply(Some(project), startDate, endDate, includeDetails, true, repo, cal);
            && (sel == [] ==> reply == "\U{26A0}\U{FE0F} " + "No commits found between " + cal.render(start)
                                      + " and " + cal.render(end) + "." + "\n\n项目：" + project.name)
            && (sel != [] ==> reply == ReportHead(project.name, startDate, endDate) + logs + ReportHint)
  {
    var start, end := cal.parse(startDate).day, cal.parse(endDate).day;
    ReportShape(repo.log.value, start, end, includeDetails, cal, repo.diffOf);
  }

  /** With nothing staged the warning is returned and the history is not read: a failing log changes nothing. */
  lemma EmptyStageSkipsHistory(project: Project, customInstructions: Option<string>, repo1: Repository,
                               repo2: Repository)
    requires repo1.staged == repo2.staged == Ok("")
    ensures GitCommitReply(Some(project), customInstructions, true, repo1)
         == GitCommitReply(Some(project), customInstructions, true, repo2)
         == Ok(EmptyStageWarning(project.path))
  {
  }

  /** The summary holds exactly the first min(800, n) characters; the notice is added exactly when some were cut. */
  lemma ExcerptTruncation(staged: string)
    ensures |staged| <= 800 ==> Excerpt(staged) == staged
    ensures |staged| > 800 ==> Excerpt(staged) == staged[..800] + "\n...\n（变更内容较多，已截取前800字符）"
    ensures StartsWith(Excerpt(staged), staged[..Min(800, |staged|)])
  {
  }

  /** The 用户要求 line is present exactly when the instructions are given and not blank, and quotes them untrimmed. */
  lemma {:induction false} InstructionsShownIffNotBlank(customInstructions: Option<string>)
    ensures InstructionsSection(customInstructions) != "" <==> customInstructions.Some? && !IsBlank(customInstructions.value)
    ensures InstructionsSection(customInstructions) != "" ==>
      InstructionsSection(customInstructions) == "📝 用户要求：" + customInstructions.value + "\n\n"
  {
    if customInstructions.Some? {
      TrimEmptyIffBlank(customInstructions.value);
    }
  }

  /** The recent-commits section is present exactly when the history text is non-empty. */
  lemma RecentShownIffNonEmpty(recentCommits: string)
    ensures RecentSection(recentCommits) != "" <==> recentCommits != ""
  {
  }

  /** checkStagedChanges warns exactly when nothing is staged, and otherwise shows the diff verbatim in a fenced block. */
  lemma StagedReplyCases(project: Project, repo: Repository)
    requires repo.staged.Ok?
    ensures StagedReply(Some(project), true, repo) == StagedEmptyReply(project) <==> repo.staged.value == ""
    ensures repo.staged.value != "" ==>
      StagedReply(Some(project), true, repo) == "✅ 项目：" + project.name + "\n\n📊 暂存区变更：\n```\n" + repo.staged.value + "\n```"
  {
    var r := StagedReply(Some(project), true, repo);
    if repo.staged.value != "" {
      assert r[0] == '✅';
      assert StagedEmptyReply(project)[0] == '\U{26A0}';
    }
  }

  /** The count argument of getRecentCommits makes no difference. */
  lemma RecentCommitsIgnoresCount(project: Option<Project>, count1: int, count2: int, pathExists: bool, repo: Repository)
    ensures RecentCommitsReply(project, count1, pathExists, repo) == RecentCommitsReply(project, count2, pathExists, repo)
  {
  }

  /**
   * getRecentCommits reads only the five-commit walk: a history damaged further
   * back, which makes the whole walk fail, still gets the list of recent commits.
   */
  lemma RecentCommitsReadFiveCommitWalk(project: Option<Project>, count: int, pathExists: bool,
                                        repo1: Repository, repo2: Repository)
    requires repo1.recent == repo2.recent
    ensures RecentCommitsReply(project, count, pathExists, repo1) == RecentCommitsReply(project, count, pathExists, repo2)
  {
  }

  /** getRecentCommits reports an empty history exactly when the joined messages are blank; no commits at all is one such case. */
  lemma RecentCommitsBlankHistory(project: Project, repo: Repository)
    requires repo.recent.Ok?
    ensures var joined := RecentCommitMessages(repo).value;
            RecentCommitsReply(Some(project), 5, true, repo) == NoHistoryReply(project) <==> IsBlank(joined)
    ensures repo.recent.value == [] ==> RecentCommitsReply(Some(project), 5, true, repo) == NoHistoryReply(project)
  {
    var joined := RecentCommitMessages(repo).value;
    TrimEmptyIffBlank(joined);
    if !IsBlank(joined) {
      var r := RecentCommitsReply(Some(project), 5, true, repo);
      assert r[0] == '✅';
      assert NoHistoryReply(project)[0] == '\U{26A0}';
    }
  }
}
