/**
 * pages/GithubOnboarding.tsx: the repository name read off the URL the user types, the
 * fifteen-line script of git commands shown for it, and its copy button.
 */
module GithubOnboarding {
  import opened Wrappers
  import opened Strings

  const DefaultRepoName := "my-awesome-project"
  const PlaceholderUrl := "https://github.com/" + "YOUR_USER/YOUR_REPO.git"

  /** `repoUrl.split('/').pop()?.replace('.git', '') || 'my-awesome-project'` */
  function RepoName(repoUrl: string): (r: string)
    ensures r != ""
  {
    var name := ReplaceFirst(Last(Split(repoUrl, '/')), ".git", "");
    if name == "" then DefaultRepoName else name
  }

  /** Only the last `/`-separated segment counts, with its first ".git" removed. */
  lemma RepoNameOfLastSegment(prefix: string, segment: string)
    requires '/' !in segment
    ensures var name := ReplaceFirst(segment, ".git", "");
            RepoName(prefix + "/" + segment) == if name == "" then DefaultRepoName else name
  {
    LastPartAfter(prefix, '/', segment);
  }

  /** In a name without a dot, the first ".git" of `name + ".git"` is the appended one. */
  lemma StripGitSuffix(name: string)
    requires '.' !in name
    ensures ReplaceFirst(name + ".git", ".git", "") == name
  {
    var segment := name + ".git";
    var n := |name|;
    assert segment[n..] == ".git";
    assert OccursAt(segment, ".git", n);
    var k := FirstOccurrence(segment, ".git");
    assert k.Some? && k.value <= n;
    assert forall i :: 0 <= i < n ==> segment[i] == name[i];
    assert segment[k.value..k.value + 4][0] == '.';
    assert segment[..n] == name && segment[n + 4..] == "";
  }

  /** A URL ending in `/name.git`, for a name without a dot or a slash, gives that name. */
  lemma RepoNameOfGitUrl(prefix: string, name: string)
    requires name != "" && '/' !in name && '.' !in name
    ensures RepoName(prefix + "/" + name + ".git") == name
  {
    var segment := name + ".git";
    assert prefix + "/" + name + ".git" == prefix + "/" + segment;
    assert '/' !in segment;
    RepoNameOfLastSegment(prefix, segment);
    StripGitSuffix(name);
  }

  /** An empty URL, or one ending in '/', gives the default name. */
  lemma RepoNameDefault(prefix: string)
    ensures RepoName("") == DefaultRepoName
    ensures RepoName(prefix + "/") == DefaultRepoName
  {
    RepoNameOfLastSegment(prefix, "");
    assert prefix + "/" + "" == prefix + "/";
  }

  // ---------------------------------------------------------------------------
  // The script

  /** The remote line, the only line that depends on the URL. */
  function RemoteLine(repoUrl: string): string {
    "git remote add origin " + (if repoUrl != "" then repoUrl else PlaceholderUrl)
  }

  /** The array of lines `commands` is joined from. */
  function CommandLines(repoUrl: string): (lines: seq<string>)
    ensures |lines| == 15
    ensures lines[11] == RemoteLine(repoUrl)
  {
    [ "# 1. Initialize local repository",
      "git init",
      "",
      "# 2. Add all files to staging",
      "git add .",
      "",
      "# 3. Create initial commit",
      "git commit -m \"chore: " + "initial commit via AllNoop\"",
      "",
      "# 4. Branch and Remote setup",
      "git branch -M main",
      RemoteLine(repoUrl),
      "",
      "# 5. Push to GitHub",
      "git push -u origin main" ]
  }

  /** `commands` */
  function Commands(repoUrl: string): string {
    Join(CommandLines(repoUrl), "\n")
  }

  /** Every line but the remote one is the same whatever the URL. */
  lemma OnlyRemoteLineVaries(a: string, b: string)
    ensures forall i :: 0 <= i < 15 && i != 11 ==> CommandLines(a)[i] == CommandLines(b)[i]
    ensures RemoteLine(a) == RemoteLine(b) <==> a == b || (a == "" && b == PlaceholderUrl) || (a == PlaceholderUrl && b == "")
  {
    var p := "git remote add origin ";
    if RemoteLine(a) == RemoteLine(b) {
      var ua := if a != "" then a else PlaceholderUrl;
      var ub := if b != "" then b else PlaceholderUrl;
      assert ua == RemoteLine(a)[|p|..] && ub == RemoteLine(b)[|p|..];
    }
  }

  /** No line holds a line break, given a URL without one. */
  lemma NoBreakInLines(repoUrl: string)
    requires '\n' !in repoUrl
    ensures forall i :: 0 <= i < 15 ==> '\n' !in CommandLines(repoUrl)[i]
  {
    var lines := CommandLines(repoUrl);
    NoBreakInFirst(repoUrl);
    NoBreakInSecond(repoUrl);
    NoBreakInThird(repoUrl);
    NoBreakInRemote(repoUrl);
    forall i | 0 <= i < 15
      ensures '\n' !in lines[i]
    {
      assert i < 4 || 4 <= i < 8 || (8 <= i < 15 && i != 11) || i == 11;
    }
  }

  lemma NoBreakInFirst(repoUrl: string)
    ensures var lines := CommandLines(repoUrl);
            '\n' !in lines[0] && '\n' !in lines[1] && '\n' !in lines[2] && '\n' !in lines[3]
  {
  }

  lemma NoBreakInSecond(repoUrl: string)
    ensures var lines := CommandLines(repoUrl);
            '\n' !in lines[4] && '\n' !in lines[5] && '\n' !in lines[6] && '\n' !in lines[7]
  {
    var c := "git commit -m \"chore: ";
    var d := "initial commit via AllNoop\"";
    assert '\n' !in c && '\n' !in d;
  }

  lemma NoBreakInThird(repoUrl: string)
    ensures var lines := CommandLines(repoUrl);
            && '\n' !in lines[8] && '\n' !in lines[9] && '\n' !in lines[10]
            && '\n' !in lines[12] && '\n' !in lines[13] && '\n' !in lines[14]
  {
  }

  lemma NoBreakInRemote(repoUrl: string)
    requires '\n' !in repoUrl
    ensures '\n' !in RemoteLine(repoUrl)
  {
    var p := "git remote add origin ";
    var u := if repoUrl != "" then repoUrl else PlaceholderUrl;
    assert '\n' !in p;
    assert '\n' !in "https://github.com/" && '\n' !in "YOUR_USER/YOUR_REPO.git";
    assert '\n' !in u;
    assert RemoteLine(repoUrl) == p + u;
  }

  /**
   * The script is exactly fifteen lines joined by line breaks, with none after the last:
   * splitting it at line breaks gives the lines back, for any URL without a line break.
   */
  lemma CommandsSplitIntoLines(repoUrl: string)
    requires '\n' !in repoUrl
    ensures Split(Commands(repoUrl), '\n') == CommandLines(repoUrl)
    ensures Last(Split(Commands(repoUrl), '\n')) == "git push -u origin main"
  {
    var lines := CommandLines(repoUrl);
    NoBreakInLines(repoUrl);
    assert Commands(repoUrl) == Join(lines, ['\n']);
    SplitJoin(lines, '\n');
  }

  /** The page's state: the URL field, the copy flag and what it leaves in the clipboard. */
  class Onboarding {
    var repoUrl: string
    var copied: bool
    var clipboard: Option<string>

    constructor (clipboard: Option<string>)
      ensures repoUrl == "" && !copied && this.clipboard == clipboard
    {
      repoUrl := "";
      copied := false;
      this.clipboard := clipboard;
    }

    /** `handleCopy()`: the script for the current URL goes to the clipboard. */
    method HandleCopy()
      modifies this
      ensures clipboard == Some(Commands(repoUrl)) && copied
      ensures repoUrl == old(repoUrl)
    {
      clipboard := Some(Commands(repoUrl));
      copied := true;
    }
  }
}
