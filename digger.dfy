/**
 * The configuration types of the `digger` package that the GitLab core reads:
 * a project with its workflow stages, and the resolved per-project unit of work.
 */
module Digger {

  /** Command sequences to run at each merge-request lifecycle stage. */
  datatype WorkflowConfiguration = WorkflowConfiguration(
    onCommitToDefault: seq<string>,
    onPullRequestPushed: seq<string>,
    onPullRequestClosed: seq<string>)

  /** A project impacted by a merge request, as the configuration resolved it. */
  datatype Project = Project(
    name: string,
    dir: string,
    workspace: string,
    terragrunt: bool,
    workflowConfiguration: WorkflowConfiguration)

  /** One project's batch of command strings, consumed once by the run loop. */
  datatype ProjectCommand = ProjectCommand(
    projectName: string,
    projectDir: string,
    projectWorkspace: string,
    terragrunt: bool,
    commands: seq<string>)

  /** A command batch for `p`: its identity fields are copied unchanged. */
  function CommandFor(p: Project, commands: seq<string>): ProjectCommand
  {
    ProjectCommand(p.name, p.dir, p.workspace, p.terragrunt, commands)
  }
}
