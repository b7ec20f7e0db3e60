/**
 The page's session as a record, and each request handler as pure steps: the
 synchronous part that runs before the agent gateway is called, and the part
 that runs once its outcome is known. The outcome is an input.
 */
module Workflow {
  import opened Wrappers
  import opened Text
  import opened Status
  import opened Projects
  import opened AddonConfig

  datatype Screen = Workspace | CodeReview | History | Settings

  datatype Role = User | Agent

  datatype FeedbackEntry = FeedbackEntry(role: Role, message: string)

  datatype CommitResult = CommitResult(repoUrl: string, gistUrl: string, message: string)

  datatype PackageResult = PackageResult(packageName: string, installPath: string, message: string, downloadUrl: string)

  datatype Session = Session(
    status: Status,
    screen: Screen,
    files: seq<AddonFile>,
    addonName: string,
    fileTree: string,
    specSummary: string,
    genSummary: string,
    selectedFile: int,
    iterationCount: int,
    feedbackHistory: seq<FeedbackEntry>,
    commitResult: Option<CommitResult>,
    packageResult: Option<PackageResult>,
    errorMessage: string,
    statusMessage: string,
    projects: seq<Project>)

  /** The page's state when it loads (before saved projects are read back). */
  const Initial: Session :=
    Session(Idle, Workspace, [], "", "", "", "", 0, 0, [], None, None, "", "", [])

  /**
   What the gateway call gives back: `success` with the agent's data, failure
   with an optional error text, or an exception.
   */
  datatype Outcome<T> = Success(data: T) | Failure(error: Option<string>) | Thrown

  /** JavaScript's `a || b` on strings: the empty string counts as missing. */
  function Or(a: string, b: string): string
  {
    if a != "" then a else b
  }

  // ---- Generate ----

  /** The generate agent's fields; `files` is `None` when the reply holds no array. */
  datatype GenerateData = GenerateData(
    files: Option<seq<AddonFile>>,
    addonName: Option<string>,
    fileTree: Option<string>,
    specificationSummary: Option<string>,
    generationSummary: Option<string>)

  function GenerateStart(s: Session): (r: Session)
    ensures IsBusy(r.status) && BadgeOf(r.status).pulse
  {
    s.(status := Generating, statusMessage := "Generating your addon...", errorMessage := "",
       commitResult := None, packageResult := None)
  }

  /** The addon's name: the agent's, else the form's, else `MyAddon`. */
  function GeneratedName(d: GenerateData, cfg: Config): (name: string)
    ensures name != ""
    ensures d.addonName.Some? && d.addonName.value != "" ==> name == d.addonName.value
    ensures d.addonName.GetOr("") == "" && cfg.addonName != "" ==> name == cfg.addonName
    ensures d.addonName.GetOr("") == "" && cfg.addonName == "" ==> name == "MyAddon"
  {
    Or(d.addonName.GetOr(""), Or(cfg.addonName, "MyAddon"))
  }

  function GenerateFinish(s: Session, cfg: Config, o: Outcome<GenerateData>, id: string, now: string): Session
  {
    match o
    case Success(d) =>
      var files := d.files.GetOr([]);
      var name := GeneratedName(d, cfg);
      var tree := d.fileTree.GetOr("");
      var spec := d.specificationSummary.GetOr("");
      s.(files := files, addonName := name, fileTree := tree, specSummary := spec,
         genSummary := d.generationSummary.GetOr(""), iterationCount := 1, selectedFile := 0,
         feedbackHistory := [], screen := CodeReview, status := Ready,
         statusMessage := "Addon generated successfully!",
         projects := [Project(id, name, cfg.addonType, files, now, 1, Ready, tree, spec)] + s.projects)
    case Failure(e) =>
      s.(status := Idle, errorMessage := e.GetOr("Failed to generate addon"), statusMessage := "")
    case Thrown =>
      s.(status := Idle, errorMessage := "An unexpected error occurred", statusMessage := "")
  }

  /**
   `handleGenerate` as one step, with the project id and the timestamp as
   inputs. Success opens the review with a fresh history and prepends exactly
   one project; failure goes back to idle and keeps files and projects, but
   the previous commit and package results are gone either way.
   */
  function Generate(s: Session, cfg: Config, o: Outcome<GenerateData>, id: string, now: string): (r: Session)
    ensures r.status == (if o.Success? then Ready else Idle)
    ensures r.commitResult.None? && r.packageResult.None?
    ensures o.Success? ==>
              r.files == o.data.files.GetOr([]) && r.addonName == GeneratedName(o.data, cfg)
              && r.iterationCount == 1 && r.feedbackHistory == [] && r.selectedFile == 0
              && r.screen == CodeReview && r.errorMessage == ""
    ensures o.Success? ==>
              r.fileTree == o.data.fileTree.GetOr("") && r.specSummary == o.data.specificationSummary.GetOr("")
              && r.genSummary == o.data.generationSummary.GetOr("") && r.statusMessage == "Addon generated successfully!"
    ensures o.Success? ==>
              |r.projects| == |s.projects| + 1 && r.projects[1..] == s.projects
              && r.projects[0] == Project(id, r.addonName, cfg.addonType, r.files, now, 1, Ready, r.fileTree, r.specSummary)
    ensures !o.Success? ==>
              r == s.(status := Idle, errorMessage := r.errorMessage, statusMessage := "",
                      commitResult := None, packageResult := None)
    ensures o.Failure? ==> r.errorMessage == o.error.GetOr("Failed to generate addon")
    ensures o.Thrown? ==> r.errorMessage == "An unexpected error occurred"
  {
    var r := GenerateFinish(GenerateStart(s), cfg, o, id, now);
    assert o.Success? ==> r.projects[1..] == s.projects;
    r
  }

  // ---- Refine ----

  /** One entry of the agent's `modifications`; either field may be missing. */
  datatype Modification = Modification(filename: Option<string>, changeDescription: Option<string>)

  datatype RefineData = RefineData(
    updatedFiles: Option<seq<AddonFile>>,
    modifications: Option<seq<Modification>>,
    feedbackSummary: Option<string>)

  function Bullet(m: Modification): string
  {
    "- **" + m.filename.GetOr("unknown") + "**: " + m.changeDescription.GetOr("updated")
  }

  /** A bullet opens with the bold file name (or `unknown`) and a colon, and ends with the change (or `updated`). */
  lemma BulletParts(m: Modification)
    ensures StartsWith(Bullet(m), "- **" + m.filename.GetOr("unknown") + "**: ")
    ensures EndsWith(Bullet(m), m.changeDescription.GetOr("updated"))
  {
    var head := "- **" + m.filename.GetOr("unknown") + "**: ";
    var desc := m.changeDescription.GetOr("updated");
    assert Bullet(m) == head + desc;
    assert Bullet(m)[..|head|] == head;
    assert Bullet(m)[|Bullet(m)| - |desc|..] == desc;
  }

  /**
   One bullet per modification, in order: each names its file (or `unknown`)
   in bold after `- `, and ends with the change (or `updated`).
   */
  function Bullets(mods: seq<Modification>): (r: seq<string>)
    ensures |r| == |mods|
    ensures forall k :: 0 <= k < |mods| ==>
              StartsWith(r[k], "- **" + mods[k].filename.GetOr("unknown") + "**: ")
              && EndsWith(r[k], mods[k].changeDescription.GetOr("updated"))
  {
    AllBulletParts(mods);
    seq(|mods|, k requires 0 <= k < |mods| => Bullet(mods[k]))
  }

  lemma AllBulletParts(mods: seq<Modification>)
    ensures forall k :: 0 <= k < |mods| ==>
              StartsWith(Bullet(mods[k]), "- **" + mods[k].filename.GetOr("unknown") + "**: ")
              && EndsWith(Bullet(mods[k]), mods[k].changeDescription.GetOr("updated"))
  {
    forall k | 0 <= k < |mods|
      ensures StartsWith(Bullet(mods[k]), "- **" + mods[k].filename.GetOr("unknown") + "**: ")
      ensures EndsWith(Bullet(mods[k]), mods[k].changeDescription.GetOr("updated"))
    {
      BulletParts(mods[k]);
    }
  }

  /** A modification whose file name and change are single lines gives a single-line bullet. */
  predicate OneLine(m: Modification)
  {
    NoNewline(m.filename.GetOr("unknown")) && NoNewline(m.changeDescription.GetOr("updated"))
  }

  lemma BulletOneLine(m: Modification)
    requires OneLine(m)
    ensures NoNewline(Bullet(m))
  {
    var a, b := m.filename.GetOr("unknown"), m.changeDescription.GetOr("updated");
    var x := Bullet(m);
    assert x == "- **" + a + "**: " + b;
    forall k | 0 <= k < |x| ensures x[k] != '\n' {
      if k < 4 {
      } else if k < 4 + |a| {
        assert x[k] == a[k - 4];
      } else if k < 4 + |a| + 4 {
      } else {
        assert x[k] == b[k - 8 - |a|];
      }
    }
  }

  /**
   The modifications block of the agent's message can be read back line by
   line: splitting the joined bullets at newlines gives the bullets again,
   when every file name and change is a single line.
   */
  lemma BulletsReadBack(mods: seq<Modification>)
    requires |mods| > 0
    requires forall k :: 0 <= k < |mods| ==> OneLine(mods[k])
    ensures SplitLines(Join(Bullets(mods), "\n")) == Bullets(mods)
  {
    var bs := Bullets(mods);
    forall k | 0 <= k < |bs| ensures NoNewline(bs[k]) {
      BulletOneLine(mods[k]);
    }
    SplitLinesOfJoin(bs);
  }

  /** The agent's reply in the history: the summary, then one bullet per modification. */
  function AgentMessage(summary: Option<string>, mods: seq<Modification>): string
  {
    summary.GetOr("Changes applied")
      + (if |mods| > 0 then "\n\nModifications:\n" + Join(Bullets(mods), "\n") else "")
  }

  /** The reply opens with the summary (or `Changes applied`) and names every modification. */
  lemma AgentMessageParts(summary: Option<string>, mods: seq<Modification>)
    ensures StartsWith(AgentMessage(summary, mods), summary.GetOr("Changes applied"))
    ensures |mods| == 0 ==> AgentMessage(summary, mods) == summary.GetOr("Changes applied")
    ensures forall k :: 0 <= k < |mods| ==> Contains(AgentMessage(summary, mods), Bullet(mods[k]))
  {
    var base := summary.GetOr("Changes applied");
    var msg := AgentMessage(summary, mods);
    assert msg[..|base|] == base;
    if |mods| > 0 {
      var head := base + "\n\nModifications:\n";
      var bs := Bullets(mods);
      assert msg == head + Join(bs, "\n");
      forall k | 0 <= k < |mods| ensures Contains(msg, Bullet(mods[k])) {
        JoinContains(bs, "\n", k);
        ContainsAfter(head, Join(bs, "\n"), bs[k]);
      }
    }
  }

  /** The refine prompt, piece by piece; `filesJson` stands for `JSON.stringify` of the files. */
  function RefinePromptPieces(addonName: string, filesJson: string, feedback: string): seq<string>
  {
    ["Current addon \"" + addonName + "\" files:\n",
     filesJson,
     "\n\nDeveloper Feedback: " + feedback,
     "\n\nPlease analyze the feedback and produce updated files with the requested changes."]
  }

  function RefinePrompt(addonName: string, filesJson: string, feedback: string): string
  {
    Concat(RefinePromptPieces(addonName, filesJson, feedback))
  }

  /** The prompt carries the files and the developer's feedback verbatim. */
  lemma RefinePromptCarries(addonName: string, filesJson: string, feedback: string)
    ensures Contains(RefinePrompt(addonName, filesJson, feedback), "\n\nDeveloper Feedback: " + feedback)
    ensures Contains(RefinePrompt(addonName, filesJson, feedback), filesJson)
  {
    var ps := RefinePromptPieces(addonName, filesJson, feedback);
    ConcatContains(ps, 1);
    ConcatContains(ps, 2);
  }

  function RefineStart(s: Session): (r: Session)
    ensures IsBusy(r.status) && BadgeOf(r.status).pulse
  {
    s.(status := Refining, statusMessage := "Applying your feedback...", errorMessage := "")
  }

  function RefineFinish(s: Session, feedback: string, o: Outcome<RefineData>): Session
  {
    match o
    case Success(d) =>
      var updated := d.updatedFiles.GetOr([]);
      s.(files := if |updated| > 0 then updated else s.files,
         iterationCount := s.iterationCount + 1,
         feedbackHistory := s.feedbackHistory
           + [FeedbackEntry(User, feedback), FeedbackEntry(Agent, AgentMessage(d.feedbackSummary, d.modifications.GetOr([])))],
         statusMessage := "Refinement complete!",
         projects := UpdateByName(s.projects, s.addonName, updated),
         status := Ready)
    case Failure(e) =>
      s.(errorMessage := e.GetOr("Failed to refine addon"),
         feedbackHistory := s.feedbackHistory
           + [FeedbackEntry(User, feedback), FeedbackEntry(Agent, "Error: " + e.GetOr("Failed to process feedback"))],
         status := Ready)
    case Thrown =>
      s.(errorMessage := "An unexpected error occurred during refinement", status := Ready)
  }

  /**
   `handleRefine` as one step. It ends `ready` on every path. Success
   replaces the files only when some came back, counts one more iteration and
   appends the feedback and the agent's reply; failure appends the feedback
   and the error; an exception appends nothing.
   */
  function Refine(s: Session, feedback: string, o: Outcome<RefineData>): (r: Session)
    ensures r.status == Ready
    ensures r.addonName == s.addonName
    ensures r == s.(status := Ready, files := r.files, iterationCount := r.iterationCount,
                    feedbackHistory := r.feedbackHistory, projects := r.projects,
                    errorMessage := r.errorMessage, statusMessage := r.statusMessage)
    ensures o.Success? ==> r.errorMessage == "" && r.statusMessage == "Refinement complete!"
    ensures o.Success? ==>
              r.iterationCount == s.iterationCount + 1
              && r.files == (if |o.data.updatedFiles.GetOr([])| > 0 then o.data.updatedFiles.value else s.files)
              && r.projects == UpdateByName(s.projects, s.addonName, o.data.updatedFiles.GetOr([]))
    ensures !o.Success? ==> r.iterationCount == s.iterationCount && r.files == s.files && r.projects == s.projects
    ensures !o.Thrown? ==>
              |r.feedbackHistory| == |s.feedbackHistory| + 2 && r.feedbackHistory[..|s.feedbackHistory|] == s.feedbackHistory
              && r.feedbackHistory[|s.feedbackHistory|] == FeedbackEntry(User, feedback)
              && r.feedbackHistory[|s.feedbackHistory| + 1].role == Agent
    ensures o.Success? ==>
              r.feedbackHistory[|s.feedbackHistory| + 1].message
              == AgentMessage(o.data.feedbackSummary, o.data.modifications.GetOr([]))
    ensures o.Failure? ==>
              r.feedbackHistory[|s.feedbackHistory| + 1].message == "Error: " + o.error.GetOr("Failed to process feedback")
    ensures o.Thrown? ==> r.feedbackHistory == s.feedbackHistory
  {
    var r := RefineFinish(RefineStart(s), feedback, o);
    assert !o.Thrown? ==> r.feedbackHistory[..|s.feedbackHistory|] == s.feedbackHistory;
    r
  }

  /** After a failed or aborted refine the progress text is left in place; only the error changes. */
  lemma RefineFailureKeepsProgress(s: Session, feedback: string, o: Outcome<RefineData>)
    requires !o.Success?
    ensures Refine(s, feedback, o).statusMessage == "Applying your feedback..."
    ensures Refine(s, feedback, o).errorMessage
              == if o.Thrown? then "An unexpected error occurred during refinement" else o.error.GetOr("Failed to refine addon")
  {
  }

  /**
   The review screen's send action, the only caller of `handleRefine`: the
   feedback box's text, trimmed, goes to refine only when it is not blank and
   no refine is running, and the box is then cleared. Otherwise nothing
   happens. The result is the session and the box's new text.
   */
  function SendFeedback(s: Session, input: string, o: Outcome<RefineData>): (r: (Session, string))
    ensures IsBlank(input) || s.status == Refining ==> r == (s, input)
    ensures !IsBlank(input) && s.status != Refining ==> r == (Refine(s, Trim(input), o), "")
  {
    TrimEmptyIffBlank(input);
    if Trim(input) != "" && s.status != Refining then (Refine(s, Trim(input), o), "") else (s, input)
  }

  /**
   What the history records for a sent message is the box's text without its
   surrounding white space: not empty, neither starting nor ending with white
   space, and found verbatim in what was typed.
   */
  lemma SentFeedbackEntry(s: Session, input: string, o: Outcome<RefineData>)
    requires !IsBlank(input) && s.status != Refining && !o.Thrown?
    ensures var h := SendFeedback(s, input, o).0.feedbackHistory;
            var m := h[|s.feedbackHistory|].message;
            |h| == |s.feedbackHistory| + 2 && h[|s.feedbackHistory|].role == User
            && m != "" && !IsJsSpace(m[0]) && !IsJsSpace(m[|m| - 1]) && Contains(input, m)
  {
    TrimEmptyIffBlank(input);
    TrimEnds(input);
  }

  // ---- Commit ----

  datatype CommitData = CommitData(
    repositoryUrl: Option<string>,
    gistUrl: Option<string>,
    message: Option<string>,
    status: Option<string>)

  function CommitStart(s: Session): (r: Session)
    ensures IsBusy(r.status) && BadgeOf(r.status).pulse
  {
    s.(status := Committing, statusMessage := "Committing to GitHub...", errorMessage := "", commitResult := None)
  }

  function CommitFinish(s: Session, o: Outcome<CommitData>): Session
  {
    match o
    case Success(d) =>
      s.(commitResult := Some(CommitResult(d.repositoryUrl.GetOr(""), d.gistUrl.GetOr(""),
                                           d.message.GetOr(d.status.GetOr("Files committed successfully")))),
         statusMessage := "Committed to GitHub!", status := Ready)
    case Failure(e) =>
      s.(errorMessage := e.GetOr("Failed to commit to GitHub"), statusMessage := "", status := Ready)
    case Thrown =>
      s.(errorMessage := "GitHub commit failed", statusMessage := "", status := Ready)
  }

  /**
   `handleCommit` as one step: on success the agent's links and message are
   recorded, otherwise the error is shown; nothing else of the session moves.
   */
  function Commit(s: Session, o: Outcome<CommitData>): (r: Session)
    ensures r.status == Ready
    ensures r.commitResult.Some? <==> o.Success?
    ensures o.Success? ==>
              r.commitResult.value == CommitResult(o.data.repositoryUrl.GetOr(""), o.data.gistUrl.GetOr(""),
                                                   o.data.message.GetOr(o.data.status.GetOr("Files committed successfully")))
              && r.statusMessage == "Committed to GitHub!" && r.errorMessage == ""
    ensures o.Failure? ==> r.errorMessage == o.error.GetOr("Failed to commit to GitHub") && r.statusMessage == ""
    ensures o.Thrown? ==> r.errorMessage == "GitHub commit failed" && r.statusMessage == ""
    ensures r == s.(status := Ready, commitResult := r.commitResult, errorMessage := r.errorMessage,
                    statusMessage := r.statusMessage)
  {
    CommitFinish(CommitStart(s), o)
  }

  /** Only the latest commit attempt shows: a second commit overwrites everything the first one set. */
  lemma CommitLastWins(s: Session, o1: Outcome<CommitData>, o2: Outcome<CommitData>)
    ensures Commit(Commit(s, o1), o2) == Commit(s, o2)
  {
  }

  /** The commit prompt, piece by piece; `filesJson` stands for `JSON.stringify` of the files. */
  function CommitPromptPieces(repoName: string, branch: string, commitMsg: string, addonName: string, filesJson: string): seq<string>
  {
    ["Create a GitHub repository and commit these WoW addon files.\nRepository: " + repoName,
     "\nBranch: " + Or(branch, "main"),
     "\nCommit message: " + Or(commitMsg, "Initial addon commit"),
     "\nAddon name: " + addonName,
     "\n\nFiles:\n" + filesJson]
  }

  function CommitPrompt(repoName: string, branch: string, commitMsg: string, addonName: string, filesJson: string): string
  {
    Concat(CommitPromptPieces(repoName, branch, commitMsg, addonName, filesJson))
  }

  /** An empty branch or message asks for `main` and `Initial addon commit`. */
  lemma CommitPromptDefaults(repoName: string, branch: string, commitMsg: string, addonName: string, filesJson: string)
    ensures Contains(CommitPrompt(repoName, branch, commitMsg, addonName, filesJson),
                     "\nBranch: " + (if branch == "" then "main" else branch))
    ensures Contains(CommitPrompt(repoName, branch, commitMsg, addonName, filesJson),
                     "\nCommit message: " + (if commitMsg == "" then "Initial addon commit" else commitMsg))
    ensures Contains(CommitPrompt(repoName, branch, commitMsg, addonName, filesJson), "\nAddon name: " + addonName)
  {
    var ps := CommitPromptPieces(repoName, branch, commitMsg, addonName, filesJson);
    ConcatContains(ps, 1);
    ConcatContains(ps, 2);
    ConcatContains(ps, 3);
  }

  // ---- Package ----

  /**
   The package agent's fields, and the top-level artifact list: `None` when it
   is not an array, otherwise each artifact's `file_url`.
   */
  datatype PackageData = PackageData(
    packageName: Option<string>,
    installationPath: Option<string>,
    message: Option<string>,
    status: Option<string>,
    artifactUrls: Option<seq<Option<string>>>)

  function PackageStart(s: Session): (r: Session)
    ensures IsBusy(r.status) && BadgeOf(r.status).pulse
  {
    s.(status := Packaging, statusMessage := "Packaging addon...", errorMessage := "", packageResult := None)
  }

  /** The `file_url` of the first artifact, when there is a first artifact and it has one. */
  function FirstArtifactUrl(d: PackageData): Option<string>
  {
    match d.artifactUrls
    case None => None
    case Some(urls) => if |urls| == 0 then None else urls[0]
  }

  const DefaultInstallPath: string := "World of Warcraft/_retail_/Interface/AddOns/"

  function PackageFinish(s: Session, o: Outcome<PackageData>): Session
  {
    match o
    case Success(d) =>
      s.(packageResult := Some(PackageResult(d.packageName.GetOr(s.addonName + ".zip"),
                                             d.installationPath.GetOr(DefaultInstallPath),
                                             d.message.GetOr(d.status.GetOr("Package created successfully")),
                                             FirstArtifactUrl(d).GetOr(""))),
         statusMessage := "Package ready for download!", status := Ready)
    case Failure(e) =>
      s.(errorMessage := e.GetOr("Failed to package addon"), statusMessage := "", status := Ready)
    case Thrown =>
      s.(errorMessage := "Packaging failed", statusMessage := "", status := Ready)
  }

  /**
   `handlePackage` as one step: on success the package's name, path, message
   and link are recorded, otherwise the error is shown; nothing else of the
   session moves.
   */
  function Package(s: Session, o: Outcome<PackageData>): (r: Session)
    ensures r.status == Ready
    ensures r.packageResult.Some? <==> o.Success?
    ensures o.Success? && FirstArtifactUrl(o.data).Some? ==> r.packageResult.value.downloadUrl == FirstArtifactUrl(o.data).value
    ensures o.Success? && FirstArtifactUrl(o.data).None? ==> r.packageResult.value.downloadUrl == ""
    ensures o.Success? ==>
              r.packageResult.value.packageName == o.data.packageName.GetOr(s.addonName + ".zip")
              && r.packageResult.value.installPath == o.data.installationPath.GetOr(DefaultInstallPath)
    ensures o.Success? ==>
              r.packageResult.value.message == o.data.message.GetOr(o.data.status.GetOr("Package created successfully"))
              && r.statusMessage == "Package ready for download!" && r.errorMessage == ""
    ensures o.Failure? ==> r.errorMessage == o.error.GetOr("Failed to package addon") && r.statusMessage == ""
    ensures o.Thrown? ==> r.errorMessage == "Packaging failed" && r.statusMessage == ""
    ensures r == s.(status := Ready, packageResult := r.packageResult, errorMessage := r.errorMessage,
                    statusMessage := r.statusMessage)
  {
    PackageFinish(PackageStart(s), o)
  }

  /** Only the latest packaging attempt shows: a second one overwrites everything the first one set. */
  lemma PackageLastWins(s: Session, o1: Outcome<PackageData>, o2: Outcome<PackageData>)
    ensures Package(Package(s, o1), o2) == Package(s, o2)
  {
  }

  /** The package prompt; the ZIP is named after the addon, or `Addon` when it has no name. */
  function PackagePrompt(addonName: string, filesJson: string): string
  {
    "Package these WoW addon files into a ZIP named " + Or(addonName, "Addon")
      + ".zip" + " for direct extraction into Interface/AddOns folder:\n" + filesJson
  }

  /**
   When the agent names no package, the result is named as the prompt asked,
   as long as the addon has a name.
   */
  lemma PackageNameAgrees(s: Session, d: PackageData, filesJson: string)
    requires s.addonName != "" && d.packageName.None?
    ensures Contains(PackagePrompt(s.addonName, filesJson), Package(s, Success(d)).packageResult.value.packageName)
  {
    var pre := "Package these WoW addon files into a ZIP named ";
    var zip := s.addonName + ".zip";
    var post := " for direct extraction into Interface/AddOns folder:\n" + filesJson;
    assert Or(s.addonName, "Addon") == s.addonName;
    assert Package(s, Success(d)).packageResult.value.packageName == zip;
    assert PackagePrompt(s.addonName, filesJson) == pre + zip + post;
    ContainsMiddle(pre, zip, post);
  }

  // ---- Resume and delete ----

  /** `handleResumeProject`: the review screen shows the saved project afresh. */
  function Resume(s: Session, p: Project): (r: Session)
    ensures r.status == Ready && r.screen == CodeReview
    ensures r.files == p.files && r.addonName == p.name && r.iterationCount == p.iterationCount
    ensures r.feedbackHistory == [] && r.commitResult.None? && r.packageResult.None?
    ensures r.fileTree == p.fileTree && r.specSummary == p.specSummary && r.genSummary == ""
    ensures r.selectedFile == 0 && r.statusMessage == "" && r.errorMessage == ""
    ensures r.projects == s.projects
  {
    s.(files := p.files, addonName := p.name, fileTree := p.fileTree, specSummary := p.specSummary,
       genSummary := "", iterationCount := p.iterationCount, selectedFile := 0, feedbackHistory := [],
       commitResult := None, packageResult := None, statusMessage := "", errorMessage := "",
       status := Ready, screen := CodeReview)
  }

  /** `handleDeleteProject`: only the project list changes. */
  function Delete(s: Session, id: string): (r: Session)
    ensures r == s.(projects := r.projects)
    ensures forall p :: p in r.projects <==> p in s.projects && p.id != id
  {
    s.(projects := RemoveById(s.projects, id))
  }

  /** Resuming the project a generate just saved brings back what that generate showed. */
  lemma ResumeAfterGenerate(s: Session, cfg: Config, d: GenerateData, id: string, now: string)
    ensures var g := Generate(s, cfg, Success(d), id, now);
            var r := Resume(g, g.projects[0]);
            r.files == g.files && r.addonName == g.addonName && r.fileTree == g.fileTree
            && r.specSummary == g.specSummary && r.iterationCount == g.iterationCount
            && r.feedbackHistory == g.feedbackHistory && r.status == g.status && r.projects == g.projects
  {
  }

  /** Deleting the project a generate just saved, under an id no other project has, restores the list. */
  lemma DeleteAfterGenerate(s: Session, cfg: Config, d: GenerateData, id: string, now: string)
    requires forall k :: 0 <= k < |s.projects| ==> s.projects[k].id != id
    ensures Delete(Generate(s, cfg, Success(d), id, now), id).projects == s.projects
  {
    var g := Generate(s, cfg, Success(d), id, now);
    assert g.projects == [g.projects[0]] + s.projects;
    RemoveAppend([g.projects[0]], s.projects, id);
    RemoveAbsent(s.projects, id);
    assert RemoveById([g.projects[0]], id) == [];
  }

  // ---- Any sequence of handler outcomes ----

  datatype Step =
    | GenerateStep(cfg: Config, generated: Outcome<GenerateData>, id: string, now: string)
    | RefineStep(feedback: string, refined: Outcome<RefineData>)
    | CommitStep(committed: Outcome<CommitData>)
    | PackageStep(packaged: Outcome<PackageData>)
    | ResumeStep(project: Project)
    | DeleteStep(deleted: string)

  function Apply(s: Session, step: Step): Session
  {
    match step
    case GenerateStep(cfg, o, id, now) => Generate(s, cfg, o, id, now)
    case RefineStep(feedback, o) => Refine(s, feedback, o)
    case CommitStep(o) => Commit(s, o)
    case PackageStep(o) => Package(s, o)
    case ResumeStep(p) => Resume(s, p)
    case DeleteStep(id) => Delete(s, id)
  }

  /** Once a handler has finished the badge stops pulsing; only delete keeps the status it found. */
  lemma ApplyNeverBusy(s: Session, step: Step)
    requires !IsBusy(s.status)
    ensures !IsBusy(Apply(s, step).status)
    ensures !step.DeleteStep? ==> Apply(s, step).status in {Idle, Ready}
  {
  }

  /** Only a successful generate makes the list longer, and by exactly one project. */
  lemma OnlyGenerateGrowsProjects(s: Session, step: Step)
    ensures |Apply(s, step).projects| > |s.projects| <==> step.GenerateStep? && step.generated.Success?
    ensures step.GenerateStep? && step.generated.Success? ==> |Apply(s, step).projects| == |s.projects| + 1
  {
    if step.DeleteStep? {
      var r := RemoveById(s.projects, step.deleted);
      assert |r| <= |s.projects|;
    }
  }

  /** The handlers never consult the status: apart from delete, the starting status makes no difference. */
  lemma StatusIgnored(s: Session, step: Step, a: Status, b: Status)
    requires !step.DeleteStep?
    ensures Apply(s.(status := a), step) == Apply(s.(status := b), step)
  {
  }

  /** The feedback history is only appended to, by refine, or cleared, by generate and resume. */
  lemma FeedbackAppendOrReset(s: Session, step: Step)
    ensures var h := Apply(s, step).feedbackHistory;
            h == [] || (|s.feedbackHistory| <= |h| && h[..|s.feedbackHistory|] == s.feedbackHistory)
  {
    var h := Apply(s, step).feedbackHistory;
    if h == s.feedbackHistory {
      assert h[..|s.feedbackHistory|] == s.feedbackHistory;
    }
  }

  /** Every saved project counts at least one iteration. */
  predicate CountsInvariant(s: Session)
  {
    CountsPositive(s.projects)
  }

  lemma ApplyKeepsCounts(s: Session, step: Step)
    requires CountsInvariant(s)
    ensures CountsInvariant(Apply(s, step))
  {
    match step
    case GenerateStep(cfg, o, id, now) =>
      var r := Generate(s, cfg, o, id, now);
      if o.Success? {
        forall k | 0 <= k < |r.projects| ensures r.projects[k].iterationCount >= 1 {
          if k > 0 {
            assert r.projects[k] == s.projects[k - 1];
          }
        }
      }
    case RefineStep(feedback, o) =>
      if o.Success? {
        UpdateKeepsCounts(s.projects, s.addonName, o.data.updatedFiles.GetOr([]));
      }
    case DeleteStep(id) =>
      RemoveKeepsCounts(s.projects, id);
    case _ =>
  }

  function Run(s: Session, steps: seq<Step>): Session
    decreases |steps|
  {
    if |steps| == 0 then s else Run(Apply(s, steps[0]), steps[1..])
  }

  /** From the page's initial state, whatever the handlers' outcomes, no finished run is left busy and every saved project counts an iteration. */
  lemma {:induction false} RunInvariant(s: Session, steps: seq<Step>)
    requires CountsInvariant(s) && !IsBusy(s.status)
    ensures CountsInvariant(Run(s, steps)) && !IsBusy(Run(s, steps).status)
    decreases |steps|
  {
    if |steps| > 0 {
      ApplyKeepsCounts(s, steps[0]);
      ApplyNeverBusy(s, steps[0]);
      RunInvariant(Apply(s, steps[0]), steps[1..]);
    }
  }

  lemma InitialRuns(steps: seq<Step>)
    ensures CountsInvariant(Run(Initial, steps)) && !IsBusy(Run(Initial, steps).status)
  {
    RunInvariant(Initial, steps);
  }

  /** A successful generate may leave the review with no files at all. */
  lemma GenerateMayHaveNoFiles(s: Session, cfg: Config, d: GenerateData, id: string, now: string)
    requires d.files.None?
    ensures Generate(s, cfg, Success(d), id, now).files == []
    ensures Generate(s, cfg, Success(d), id, now).projects[0].files == []
  {
  }

  /** `??` keeps an empty error text: a failure that reports `""` leaves the error message empty. */
  lemma EmptyErrorKept(s: Session, cfg: Config, id: string, now: string)
    ensures Generate(s, cfg, Failure(Some("")), id, now).errorMessage == ""
    ensures Generate(s, cfg, Failure(None), id, now).errorMessage == "Failed to generate addon"
  {
  }
}
