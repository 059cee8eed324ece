/**
 * The GitLab side of the pipeline: turning a merge-request event and the
 * impacted projects into per-project command batches, running those batches
 * (with the executor and the lock store as oracles) and collecting the
 * changed file paths of a merge request.
 */
module Gitlab {
  import opened Wrappers
  import opened Strings
  import opened Digger

  // ---------------------------------------------------------------------------
  // Events and the comment-command vocabulary
  // ---------------------------------------------------------------------------

  /** The `MERGE_REQUEST_EVENT_NAME` value that triggered the pipeline; any string may arrive. */
  type GitLabEventType = string

  const MergeRequestOpened: GitLabEventType := "merge_request_opened"
  const MergeRequestUpdated: GitLabEventType := "merge_request_updated"
  const MergeRequestClosed: GitLabEventType := "merge_request_closed"
  const MergeRequestComment: GitLabEventType := "merge_request_commented"

  const PlanCommand: string := "digger plan"
  const ApplyCommand: string := "digger apply"
  const UnlockCommand: string := "digger unlock"
  const LockCommand: string := "digger lock"

  /** The phrases a comment is scanned for, in scanning order. */
  const SupportedCommands: seq<string> := [PlanCommand, ApplyCommand, UnlockCommand, LockCommand]

  /** The four command literals are pairwise different. */
  lemma CommandLiteralsDistinct()
    ensures PlanCommand != ApplyCommand && PlanCommand != UnlockCommand && PlanCommand != LockCommand
    ensures ApplyCommand != UnlockCommand && ApplyCommand != LockCommand && UnlockCommand != LockCommand
  {
    assert PlanCommand[7] != LockCommand[7];
  }

  datatype Error = UnsupportedEventType(eventType: GitLabEventType)

  /** The lifecycle stages whose workflow lists the non-comment events select. */
  datatype Stage = CommitToDefault | PullRequestPushed | PullRequestClosed

  function StageOf(eventType: GitLabEventType): Option<Stage>
  {
    if eventType == MergeRequestOpened then Some(CommitToDefault)
    else if eventType == MergeRequestUpdated then Some(PullRequestPushed)
    else if eventType == MergeRequestClosed then Some(PullRequestClosed)
    else None
  }

  function Workflow(p: Project, stage: Stage): seq<string>
  {
    match stage
    case CommitToDefault => p.workflowConfiguration.onCommitToDefault
    case PullRequestPushed => p.workflowConfiguration.onPullRequestPushed
    case PullRequestClosed => p.workflowConfiguration.onPullRequestClosed
  }

  predicate IsSupportedEventType(eventType: GitLabEventType)
  {
    StageOf(eventType).Some? || eventType == MergeRequestComment
  }

  // ---------------------------------------------------------------------------
  // Which vocabulary phrases a comment mentions
  // ---------------------------------------------------------------------------

  /**
   * The positions in `phrases` of the phrases that `text` contains, ascending:
   * exactly the contained ones, each once, in vocabulary order.
   */
  function MatchedPositions(phrases: seq<string>, text: string): (js: seq<int>)
    ensures forall m | 0 <= m < |js| :: 0 <= js[m] < |phrases|
    ensures forall m, m' | 0 <= m < m' < |js| :: js[m] < js[m']
    ensures forall j | 0 <= j < |phrases| :: j in js <==> Contains(text, phrases[j])
  {
    if phrases == [] then []
    else
      var n := |phrases| - 1;
      MatchedPositions(phrases[..n], text) + (if Contains(text, phrases[n]) then [n] else [])
  }

  /** The phrases of `phrases` that `text` contains, kept in their order. */
  function MatchedCommands(phrases: seq<string>, text: string): seq<string>
  {
    if phrases == [] then []
    else
      var n := |phrases| - 1;
      MatchedCommands(phrases[..n], text) + (if Contains(text, phrases[n]) then [phrases[n]] else [])
  }

  /** The m-th matched phrase is the phrase at the m-th matched position. */
  lemma {:induction false} MatchedCommandsInOrder(phrases: seq<string>, text: string)
    ensures |MatchedCommands(phrases, text)| == |MatchedPositions(phrases, text)|
    ensures forall m | 0 <= m < |MatchedCommands(phrases, text)| ::
      MatchedCommands(phrases, text)[m] == phrases[MatchedPositions(phrases, text)[m]]
  {
    if phrases != [] {
      var n := |phrases| - 1;
      MatchedCommandsInOrder(phrases[..n], text);
    }
  }

  lemma MatchedCommandsAreContained(phrases: seq<string>, text: string)
    ensures forall p | p in MatchedCommands(phrases, text) :: p in phrases && Contains(text, p)
    ensures forall p | p in phrases && Contains(text, p) :: p in MatchedCommands(phrases, text)
  {
    var r, js := MatchedCommands(phrases, text), MatchedPositions(phrases, text);
    MatchedCommandsInOrder(phrases, text);
    forall p | p in phrases && Contains(text, p) ensures p in r {
      var j :| 0 <= j < |phrases| && phrases[j] == p;
      var m :| 0 <= m < |js| && js[m] == j;
      assert r[m] == p;
    }
  }

  // ---------------------------------------------------------------------------
  // Routing: the specification of ConvertGitLabEventToCommands
  // ---------------------------------------------------------------------------

  /** One single-command batch per project, in project order. */
  function ForPhrase(phrase: string, projects: seq<Project>): seq<ProjectCommand>
  {
    seq(|projects|, i requires 0 <= i < |projects| => CommandFor(projects[i], [phrase]))
  }

  /** Phrase-major, then project order: all projects for the first phrase, then the second, ... */
  function CommentRouting(phrases: seq<string>, projects: seq<Project>): seq<ProjectCommand>
  {
    if phrases == [] then []
    else
      var n := |phrases| - 1;
      CommentRouting(phrases[..n], projects) + ForPhrase(phrases[n], projects)
  }

  /** A comment routing holds one batch per phrase and project. */
  lemma {:induction false} CommentRoutingLength(phrases: seq<string>, projects: seq<Project>)
    ensures |CommentRouting(phrases, projects)| == |phrases| * |projects|
  {
    if phrases != [] {
      var n := |phrases| - 1;
      CommentRoutingLength(phrases[..n], projects);
      assert |phrases| * |projects| == n * |projects| + |projects|;
    }
  }

  /** The batch for the m-th phrase and the i-th project sits at index m * |projects| + i. */
  lemma {:induction false} CommentRoutingAt(phrases: seq<string>, projects: seq<Project>, m: int, i: int)
    requires 0 <= m < |phrases| && 0 <= i < |projects|
    ensures m * |projects| + i < |CommentRouting(phrases, projects)|
    ensures CommentRouting(phrases, projects)[m * |projects| + i] == CommandFor(projects[i], [phrases[m]])
  {
    var n, k := |phrases| - 1, |projects|;
    var init := phrases[..n];
    CommentRoutingLength(init, projects);
    CommentRoutingLength(phrases, projects);
    var left := CommentRouting(init, projects);
    assert CommentRouting(phrases, projects) == left + ForPhrase(phrases[n], projects);
    if m < n {
      CommentRoutingAt(init, projects, m, i);
      assert init[m] == phrases[m];
    } else {
      assert m * k + i == |left| + i;
    }
  }

  /** Every batch of a comment routing is the batch of one phrase for one project. */
  lemma {:induction false} CommentRoutingEntry(phrases: seq<string>, projects: seq<Project>, j: int)
    requires 0 <= j < |CommentRouting(phrases, projects)|
    ensures exists m, i | 0 <= m < |phrases| && 0 <= i < |projects| ::
      CommentRouting(phrases, projects)[j] == CommandFor(projects[i], [phrases[m]])
  {
    var n := |phrases| - 1;
    var init := phrases[..n];
    var left := CommentRouting(init, projects);
    assert CommentRouting(phrases, projects) == left + ForPhrase(phrases[n], projects);
    if j < |left| {
      CommentRoutingEntry(init, projects, j);
      var m, i :| 0 <= m < |init| && 0 <= i < |projects| && left[j] == CommandFor(projects[i], [init[m]]);
      assert init[m] == phrases[m];
    } else {
      var i := j - |left|;
      assert CommentRouting(phrases, projects)[j] == CommandFor(projects[i], [phrases[n]]);
    }
  }

  /**
   * Every batch a comment produces holds exactly one command, a vocabulary
   * phrase that the comment contains, and copies an impacted project's identity.
   */
  lemma CommentCommandsAreMatchedPhrases(text: string, projects: seq<Project>, k: int)
    requires 0 <= k < |CommentRouting(MatchedCommands(SupportedCommands, text), projects)|
    ensures var c := CommentRouting(MatchedCommands(SupportedCommands, text), projects)[k];
      |c.commands| == 1 && c.commands[0] in SupportedCommands && Contains(text, c.commands[0]) &&
      exists i | 0 <= i < |projects| ::
        c.projectName == projects[i].name && c.projectDir == projects[i].dir &&
        c.projectWorkspace == projects[i].workspace && c.terragrunt == projects[i].terragrunt
  {
    var phrases := MatchedCommands(SupportedCommands, text);
    CommentRoutingEntry(phrases, projects, k);
    MatchedCommandsAreContained(SupportedCommands, text);
    var m, i :| 0 <= m < |phrases| && 0 <= i < |projects| &&
      CommentRouting(phrases, projects)[k] == CommandFor(projects[i], [phrases[m]]);
    assert phrases[m] in phrases;
  }

  /** A comment that mentions no vocabulary phrase produces no batches. */
  lemma NoPhraseNoCommands(text: string, projects: seq<Project>)
    requires forall p | p in SupportedCommands :: !Contains(text, p)
    ensures CommentRouting(MatchedCommands(SupportedCommands, text), projects) == []
  {
    NoneContained(SupportedCommands, text);
  }

  lemma {:induction false} NoneContained(phrases: seq<string>, text: string)
    requires forall p | p in phrases :: !Contains(text, p)
    ensures MatchedCommands(phrases, text) == []
  {
    if phrases != [] {
      var n := |phrases| - 1;
      assert phrases[n] in phrases;
      NoneContained(phrases[..n], text);
    }
  }

  lemma MatchedStep(phrases: seq<string>, text: string, j: int)
    requires 0 <= j < |phrases|
    ensures MatchedCommands(phrases[..j + 1], text)
         == MatchedCommands(phrases[..j], text) + (if Contains(text, phrases[j]) then [phrases[j]] else [])
  {
    assert phrases[..j + 1][..j] == phrases[..j];
  }

  lemma CommentRoutingStep(phrases: seq<string>, phrase: string, projects: seq<Project>)
    ensures CommentRouting(phrases + [phrase], projects) == CommentRouting(phrases, projects) + ForPhrase(phrase, projects)
  {
    assert (phrases + [phrase])[..|phrases|] == phrases;
  }

  /** "digger plan digger apply" mentions neither lock phrase. */
  lemma NoLockPhraseInPlanApply()
    ensures !Contains("digger plan digger apply", UnlockCommand)
    ensures !Contains("digger plan digger apply", LockCommand)
  {
    var t := "digger plan digger apply";
    forall i | 0 <= i <= |t| - |LockCommand|
      ensures !OccursAt(t, UnlockCommand, i) && !OccursAt(t, LockCommand, i)
    {
      // Both lock phrases begin with "digger " followed by 'u' or 'l'.
      var k := if i == 0 || i == 12 then 7 else 0;
      MismatchRulesOut(t, LockCommand, i, k);
      if i <= |t| - |UnlockCommand| {
        MismatchRulesOut(t, UnlockCommand, i, k);
      }
    }
  }

  /**
   * Substring matching fires every phrase a comment mentions: "digger plan
   * digger apply" yields a plan batch and then an apply batch for the project.
   */
  lemma PlanApplyCommentFiresBoth(p: Project)
    ensures CommentRouting(MatchedCommands(SupportedCommands, "digger plan digger apply"), [p])
         == [CommandFor(p, [PlanCommand]), CommandFor(p, [ApplyCommand])]
  {
    var t := "digger plan digger apply";
    assert OccursAt(t, PlanCommand, 0);
    assert OccursAt(t, ApplyCommand, 12);
    NoLockPhraseInPlanApply();
    MatchedStep(SupportedCommands, t, 0);
    MatchedStep(SupportedCommands, t, 1);
    MatchedStep(SupportedCommands, t, 2);
    MatchedStep(SupportedCommands, t, 3);
    assert SupportedCommands[..0] == [];
    assert SupportedCommands[..4] == SupportedCommands;
    assert MatchedCommands(SupportedCommands, t) == [PlanCommand, ApplyCommand];
    CommentRoutingStep([], PlanCommand, [p]);
    CommentRoutingStep([PlanCommand], ApplyCommand, [p]);
  }

  // ---------------------------------------------------------------------------
  // ConvertGitLabEventToCommands
  // ---------------------------------------------------------------------------

  /**
   * Lifecycle events select each project's workflow list for that stage; a
   * comment fires every vocabulary phrase it contains for every project; any
   * other event type is an error with no batches.
   */
  method ConvertGitLabEventToCommands(eventType: GitLabEventType, diggerCommand: string, impactedProjects: seq<Project>)
    returns (commandsPerProject: seq<ProjectCommand>, err: Option<Error>)
    ensures err.Some? <==> !IsSupportedEventType(eventType)
    ensures err.Some? ==> err.value == UnsupportedEventType(eventType) && commandsPerProject == []
    ensures StageOf(eventType).Some? ==>
      |commandsPerProject| == |impactedProjects| &&
      forall i | 0 <= i < |impactedProjects| ::
        commandsPerProject[i] == CommandFor(impactedProjects[i], Workflow(impactedProjects[i], StageOf(eventType).value))
    ensures eventType == MergeRequestComment ==>
      commandsPerProject == CommentRouting(MatchedCommands(SupportedCommands, diggerCommand), impactedProjects) &&
      |commandsPerProject| == |MatchedCommands(SupportedCommands, diggerCommand)| * |impactedProjects|
  {
    commandsPerProject := [];
    var stage := StageOf(eventType);
    if stage.Some? {
      for i := 0 to |impactedProjects|
        invariant |commandsPerProject| == i
        invariant forall k | 0 <= k < i ::
          commandsPerProject[k] == CommandFor(impactedProjects[k], Workflow(impactedProjects[k], stage.value))
      {
        var project := impactedProjects[i];
        commandsPerProject := commandsPerProject + [CommandFor(project, Workflow(project, stage.value))];
      }
      return commandsPerProject, None;
    } else if eventType == MergeRequestComment {
      for j := 0 to |SupportedCommands|
        invariant commandsPerProject == CommentRouting(MatchedCommands(SupportedCommands[..j], diggerCommand), impactedProjects)
      {
        var command := SupportedCommands[j];
        MatchedStep(SupportedCommands, diggerCommand, j);
        if Contains(diggerCommand, command) {
          ghost var before := commandsPerProject;
          for i := 0 to |impactedProjects|
            invariant |commandsPerProject| == |before| + i
            invariant commandsPerProject[..|before|] == before
            invariant forall k | 0 <= k < i :: commandsPerProject[|before| + k] == CommandFor(impactedProjects[k], [command])
          {
            var project := impactedProjects[i];
            commandsPerProject := commandsPerProject + [CommandFor(project, [command])];
          }
          assert commandsPerProject == before + ForPhrase(command, impactedProjects);
          CommentRoutingStep(MatchedCommands(SupportedCommands[..j], diggerCommand), command, impactedProjects);
        } else {
          assert MatchedCommands(SupportedCommands[..j + 1], diggerCommand) == MatchedCommands(SupportedCommands[..j], diggerCommand);
        }
      }
      assert SupportedCommands[..|SupportedCommands|] == SupportedCommands;
      CommentRoutingLength(MatchedCommands(SupportedCommands, diggerCommand), impactedProjects);
      return commandsPerProject, None;
    } else {
      return [], Some(UnsupportedEventType(eventType));
    }
  }

  // ---------------------------------------------------------------------------
  // Running the batches: the specification of RunCommandsPerProject
  // ---------------------------------------------------------------------------

  /** One command string of one batch, in the order the run loop reaches it. */
  datatype Visit = Visit(projectCommand: ProjectCommand, command: string)

  /** What the executor is asked to do; a lock records whether it was acquired. */
  datatype Action =
    | Plan(projectCommand: ProjectCommand)
    | Apply(projectCommand: ProjectCommand)
    | Unlock(projectCommand: ProjectCommand)
    | Lock(projectCommand: ProjectCommand, acquired: bool)

  function VisitsOf(pc: ProjectCommand): seq<Visit>
  {
    seq(|pc.commands|, i requires 0 <= i < |pc.commands| => Visit(pc, pc.commands[i]))
  }

  /** Batch by batch, then each batch's commands in list order. */
  function Visits(pcs: seq<ProjectCommand>): seq<Visit>
  {
    if pcs == [] then []
    else
      var n := |pcs| - 1;
      Visits(pcs[..n]) + VisitsOf(pcs[n])
  }

  /** The number of `digger lock` commands among `vs`. */
  function LockCount(vs: seq<Visit>): nat
  {
    if vs == [] then 0
    else
      var n := |vs| - 1;
      LockCount(vs[..n]) + (if vs[n].command == LockCommand then 1 else 0)
  }

  /** The executor call for `v`; `lockOutcome(n)` is the answer to the run's n-th lock request. */
  function Dispatch(v: Visit, locksBefore: nat, lockOutcome: nat -> bool): seq<Action>
  {
    if v.command == PlanCommand then [Plan(v.projectCommand)]
    else if v.command == ApplyCommand then [Apply(v.projectCommand)]
    else if v.command == UnlockCommand then [Unlock(v.projectCommand)]
    else if v.command == LockCommand then [Lock(v.projectCommand, lockOutcome(locksBefore))]
    else []
  }

  /** The executor calls for `vs`, one per recognised command, in visit order. */
  function ActionsOf(vs: seq<Visit>, lockOutcome: nat -> bool): seq<Action>
  {
    if vs == [] then []
    else
      var n := |vs| - 1;
      ActionsOf(vs[..n], lockOutcome) + Dispatch(vs[n], LockCount(vs[..n]), lockOutcome)
  }

  /** The run passes when no lock was requested, otherwise when the LAST lock request succeeded. */
  function LastLockVerdict(vs: seq<Visit>, lockOutcome: nat -> bool): bool
  {
    LockCount(vs) == 0 || lockOutcome(LockCount(vs) - 1)
  }

  /** The run passes when every lock request succeeded. */
  predicate AllLocksAcquired(vs: seq<Visit>, lockOutcome: nat -> bool)
  {
    forall n: nat | n < LockCount(vs) :: lockOutcome(n)
  }

  /** How the answer to a lock request is folded into the run's flag. */
  datatype Aggregation = Overwrite | AllMustSucceed

  /** The variables of the run loop: the flag, the executor calls so far, the lock requests so far. */
  datatype RunState = RunState(lockAcquisitionSuccess: bool, actions: seq<Action>, locks: nat)

  /** One iteration of the run loop. */
  function Step(st: RunState, v: Visit, lockOutcome: nat -> bool, aggregation: Aggregation): RunState
  {
    var acquired := lockOutcome(st.locks);
    if v.command == LockCommand then
      RunState(
        if aggregation == Overwrite then acquired else st.lockAcquisitionSuccess && acquired,
        st.actions + Dispatch(v, st.locks, lockOutcome),
        st.locks + 1)
    else
      st.(actions := st.actions + Dispatch(v, st.locks, lockOutcome))
  }

  /** The run loop over a visit order, starting from a passing flag and no calls. */
  function Run(vs: seq<Visit>, lockOutcome: nat -> bool, aggregation: Aggregation): RunState
  {
    if vs == [] then RunState(true, [], 0)
    else
      var n := |vs| - 1;
      Step(Run(vs[..n], lockOutcome, aggregation), vs[n], lockOutcome, aggregation)
  }

  lemma RunStep(vs: seq<Visit>, v: Visit, lockOutcome: nat -> bool, aggregation: Aggregation)
    ensures Run(vs + [v], lockOutcome, aggregation) == Step(Run(vs, lockOutcome, aggregation), v, lockOutcome, aggregation)
  {
    assert (vs + [v])[..|vs|] == vs;
  }

  lemma VisitsStep(pcs: seq<ProjectCommand>, p: int)
    requires 0 <= p < |pcs|
    ensures Visits(pcs[..p + 1]) == Visits(pcs[..p]) + VisitsOf(pcs[p])[..|pcs[p].commands|]
  {
    assert pcs[..p + 1][..p] == pcs[..p];
    assert VisitsOf(pcs[p])[..|pcs[p].commands|] == VisitsOf(pcs[p]);
  }

  lemma VisitsOfStep(pc: ProjectCommand, c: int)
    requires 0 <= c < |pc.commands|
    ensures VisitsOf(pc)[..c + 1] == VisitsOf(pc)[..c] + [Visit(pc, pc.commands[c])]
  {
  }

  /** Whatever the aggregation, the loop makes one executor call per recognised command and counts the lock requests. */
  lemma {:induction false} RunMakesDispatchedCalls(vs: seq<Visit>, lockOutcome: nat -> bool, aggregation: Aggregation)
    ensures Run(vs, lockOutcome, aggregation).actions == ActionsOf(vs, lockOutcome)
    ensures Run(vs, lockOutcome, aggregation).locks == LockCount(vs)
  {
    if vs != [] {
      RunMakesDispatchedCalls(vs[..|vs| - 1], lockOutcome, aggregation);
    }
  }

  /** Overwriting the flag leaves it holding the answer to the last lock request. */
  lemma {:induction false} OverwriteKeepsLastLock(vs: seq<Visit>, lockOutcome: nat -> bool)
    ensures Run(vs, lockOutcome, Overwrite).lockAcquisitionSuccess == LastLockVerdict(vs, lockOutcome)
  {
    if vs != [] {
      var n := |vs| - 1;
      OverwriteKeepsLastLock(vs[..n], lockOutcome);
      RunMakesDispatchedCalls(vs[..n], lockOutcome, Overwrite);
    }
  }

  /** Conjoining the answers leaves the flag true exactly when every lock request succeeded. */
  lemma {:induction false} ConjunctionChecksEveryLock(vs: seq<Visit>, lockOutcome: nat -> bool)
    ensures Run(vs, lockOutcome, AllMustSucceed).lockAcquisitionSuccess <==> AllLocksAcquired(vs, lockOutcome)
  {
    if vs != [] {
      var n := |vs| - 1;
      ConjunctionChecksEveryLock(vs[..n], lockOutcome);
      RunMakesDispatchedCalls(vs[..n], lockOutcome, AllMustSucceed);
    }
  }

  /** The visit order of a concatenation of batch lists is the concatenation of their visit orders. */
  lemma {:induction false} VisitsAppend(a: seq<ProjectCommand>, b: seq<ProjectCommand>)
    ensures Visits(a + b) == Visits(a) + Visits(b)
  {
    if b == [] {
      assert a + b == a;
    } else {
      var n := |b| - 1;
      VisitsAppend(a, b[..n]);
      assert (a + b)[..|a + b| - 1] == a + b[..n];
    }
  }

  /** A command outside the four literals causes no executor call and leaves the verdict alone. */
  lemma UnknownCommandIgnored(vs: seq<Visit>, v: Visit, lockOutcome: nat -> bool)
    requires v.command !in SupportedCommands
    ensures ActionsOf(vs + [v], lockOutcome) == ActionsOf(vs, lockOutcome)
    ensures LastLockVerdict(vs + [v], lockOutcome) == LastLockVerdict(vs, lockOutcome)
  {
    assert (vs + [v])[..|vs|] == vs;
  }

  /** A lock request decides the verdict by itself, whatever earlier requests returned. */
  lemma LaterLockOverrides(vs: seq<Visit>, v: Visit, lockOutcome: nat -> bool)
    requires v.command == LockCommand
    ensures LastLockVerdict(vs + [v], lockOutcome) == lockOutcome(LockCount(vs))
  {
    assert (vs + [v])[..|vs|] == vs;
    assert LockCount(vs + [v]) == LockCount(vs) + 1;
  }

  /** With at most one lock request the overwriting and the conjoining verdicts agree. */
  lemma VerdictsAgreeOnOneLock(vs: seq<Visit>, lockOutcome: nat -> bool)
    requires LockCount(vs) <= 1
    ensures LastLockVerdict(vs, lockOutcome) == AllLocksAcquired(vs, lockOutcome)
  {
  }

  /**
   * The overwrite loses an earlier failure. A `digger lock` comment on a merge
   * request impacting projects `a` and `b` routes one lock batch to each; when
   * `a` is held elsewhere (its request, the first, is refused) and `b` is free
   * (the second is granted), the run still passes.
   */
  lemma OverwriteForgetsEarlierFailure(a: Project, b: Project)
    ensures var pcs := CommentRouting([LockCommand], [a, b]);
      var outcome := (n: nat) => n == 1;
      && pcs == [CommandFor(a, [LockCommand]), CommandFor(b, [LockCommand])]
      && LockCount(Visits(pcs)) == 2 && !outcome(0)
      && LastLockVerdict(Visits(pcs), outcome) && !AllLocksAcquired(Visits(pcs), outcome)
  {
    var pa, pb := CommandFor(a, [LockCommand]), CommandFor(b, [LockCommand]);
    var pcs := CommentRouting([LockCommand], [a, b]);
    assert [LockCommand][..0] == [] && [LockCommand][0] == LockCommand;
    assert CommentRouting([], [a, b]) == [];
    assert pcs == ForPhrase(LockCommand, [a, b]);
    assert pcs == [pa, pb];
    assert [pa, pb][..1] == [pa] && [pa][..0] == [];
    assert Visits([pa]) == VisitsOf(pa);
    assert Visits(pcs) == VisitsOf(pa) + VisitsOf(pb);
    var vs := Visits(pcs);
    assert |vs| == 2 && vs[0] == Visit(pa, LockCommand) && vs[1] == Visit(pb, LockCommand);
    assert vs[..1][..0] == [];
    assert LockCount(vs[..1]) == 1;
  }

  // ---------------------------------------------------------------------------
  // RunCommandsPerProject
  // ---------------------------------------------------------------------------

  /**
   * Visits every command of every batch in order and asks the executor for the
   * matching action. The returned flag is what decides the process exit status:
   * the answer to the last lock request, or true when there was none.
   */
  method RunCommandsPerProject(commandsPerProject: seq<ProjectCommand>, lockOutcome: nat -> bool)
    returns (lockAcquisitionSuccess: bool, actions: seq<Action>)
    ensures actions == ActionsOf(Visits(commandsPerProject), lockOutcome)
    ensures lockAcquisitionSuccess == LastLockVerdict(Visits(commandsPerProject), lockOutcome)
  {
    CommandLiteralsDistinct();
    lockAcquisitionSuccess := true;
    actions := [];
    var locks: nat := 0;
    ghost var visited: seq<Visit> := [];
    for p := 0 to |commandsPerProject|
      invariant visited == Visits(commandsPerProject[..p])
      invariant RunState(lockAcquisitionSuccess, actions, locks) == Run(visited, lockOutcome, Overwrite)
    {
      var projectCommands := commandsPerProject[p];
      ghost var start := visited;
      for c := 0 to |projectCommands.commands|
        invariant visited == start + VisitsOf(projectCommands)[..c]
        invariant RunState(lockAcquisitionSuccess, actions, locks) == Run(visited, lockOutcome, Overwrite)
      {
        var command := projectCommands.commands[c];
        RunStep(visited, Visit(projectCommands, command), lockOutcome, Overwrite);
        if command == PlanCommand {
          actions := actions + [Plan(projectCommands)];
        } else if command == ApplyCommand {
          actions := actions + [Apply(projectCommands)];
        } else if command == UnlockCommand {
          actions := actions + [Unlock(projectCommands)];
        } else if command == LockCommand {
          lockAcquisitionSuccess := lockOutcome(locks);
          actions := actions + [Lock(projectCommands, lockAcquisitionSuccess)];
          locks := locks + 1;
        }
        VisitsOfStep(projectCommands, c);
        visited := visited + [Visit(projectCommands, command)];
      }
      VisitsStep(commandsPerProject, p);
    }
    assert commandsPerProject[..|commandsPerProject|] == commandsPerProject;
    RunMakesDispatchedCalls(visited, lockOutcome, Overwrite);
    OverwriteKeepsLastLock(visited, lockOutcome);
  }

  /**
   * The run loop with the evidently intended aggregation: a refused lock
   * request makes the run fail even when a later request succeeds.
   */
  method RunCommandsPerProjectAllLocks(commandsPerProject: seq<ProjectCommand>, lockOutcome: nat -> bool)
    returns (lockAcquisitionSuccess: bool, actions: seq<Action>)
    ensures actions == ActionsOf(Visits(commandsPerProject), lockOutcome)
    ensures lockAcquisitionSuccess <==> AllLocksAcquired(Visits(commandsPerProject), lockOutcome)
  {
    CommandLiteralsDistinct();
    lockAcquisitionSuccess := true;
    actions := [];
    var locks: nat := 0;
    ghost var visited: seq<Visit> := [];
    for p := 0 to |commandsPerProject|
      invariant visited == Visits(commandsPerProject[..p])
      invariant RunState(lockAcquisitionSuccess, actions, locks) == Run(visited, lockOutcome, AllMustSucceed)
    {
      var projectCommands := commandsPerProject[p];
      ghost var start := visited;
      for c := 0 to |projectCommands.commands|
        invariant visited == start + VisitsOf(projectCommands)[..c]
        invariant RunState(lockAcquisitionSuccess, actions, locks) == Run(visited, lockOutcome, AllMustSucceed)
      {
        var command := projectCommands.commands[c];
        RunStep(visited, Visit(projectCommands, command), lockOutcome, AllMustSucceed);
        if command == PlanCommand {
          actions := actions + [Plan(projectCommands)];
        } else if command == ApplyCommand {
          actions := actions + [Apply(projectCommands)];
        } else if command == UnlockCommand {
          actions := actions + [Unlock(projectCommands)];
        } else if command == LockCommand {
          var acquired := lockOutcome(locks);
          if !acquired {
            lockAcquisitionSuccess := false;
          }
          actions := actions + [Lock(projectCommands, acquired)];
          locks := locks + 1;
        }
        VisitsOfStep(projectCommands, c);
        visited := visited + [Visit(projectCommands, command)];
      }
      VisitsStep(commandsPerProject, p);
    }
    assert commandsPerProject[..|commandsPerProject|] == commandsPerProject;
    RunMakesDispatchedCalls(visited, lockOutcome, AllMustSucceed);
    ConjunctionChecksEveryLock(visited, lockOutcome);
  }

  // ---------------------------------------------------------------------------
  // GetChangedFiles
  // ---------------------------------------------------------------------------

  /** One file change of a merge request, as the GitLab API reports it. */
  datatype MergeRequestChange = MergeRequestChange(oldPath: string, newPath: string)

  /** The new path of every change, index for index. */
  method GetChangedFiles(changes: seq<MergeRequestChange>) returns (fileNames: seq<string>)
    ensures |fileNames| == |changes|
    ensures forall i | 0 <= i < |changes| :: fileNames[i] == changes[i].newPath
  {
    var names := new string[|changes|];
    for i := 0 to |changes|
      invariant forall k | 0 <= k < i :: names[k] == changes[k].newPath
    {
      names[i] := changes[i].newPath;
    }
    fileNames := names[..];
  }
}
