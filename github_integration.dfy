/** auto_readme/integrations/github/integration.py: the release workflow for
    projects kept in git or linked to a GitHub repository. Whether `.git`
    exists is a parameter. */
module GitHubIntegration {
  import opened Common
  import opened Strings
  import opened Configuration
  import opened IntegrationBase

  /** `is_applicable`: a `.git` directory, or a truthy `github_link`. */
  predicate IsApplicable(cfg: Config, gitExists: bool) {
    gitExists || Truthy(cfg.githubLink)
  }

  /** Applicability in terms of the link as the configuration spells it: a
      repository is enough on its own; without one, only a non-empty link counts,
      so an empty link reads as no link. */
  lemma ApplicableCases(cfg: Config, gitExists: bool)
    ensures gitExists ==> IsApplicable(cfg, gitExists)
    ensures !gitExists && cfg.githubLink.Some? && cfg.githubLink.value != "" ==> IsApplicable(cfg, gitExists)
    ensures !gitExists && cfg.githubLink == Some("") ==> !IsApplicable(cfg, gitExists)
    ensures IsApplicable(cfg, gitExists) <==> gitExists || (cfg.githubLink.Some? && |cfg.githubLink.value| > 0)
  {
  }

  /** The template arguments of `setup`, with their defaults. */
  function TemplateArguments(cfg: Config): (args: TemplateArgs)
    ensures |args| == 3
    ensures args[0] == ("title", if cfg.title.Some? then cfg.title.value else "Repository")
    ensures args[1] == ("github_link", if cfg.githubLink.Some? then cfg.githubLink.value else "")
    ensures args[2] == ("maintainer", if cfg.maintainer.Some? then cfg.maintainer.value else "")
  {
    [("title", cfg.title.GetOr("Repository")),
     ("github_link", cfg.githubLink.GetOr("")),
     ("maintainer", cfg.maintainer.GetOr(""))]
  }

  const WorkflowFile := "release.yml"

  const FailurePrefix := "Failed to create GitHub workflow: "

  /** `setup`: writes the rendered workflow to .github/workflows/release.yml;
      any failure on the way is re-raised with the GitHub prefix. */
  function Setup(cfg: Config, host: Host): (r: Result<Written<string>>)
    ensures var path := ".github/workflows/release.yml";
            var made := host.mkdirFails(".github/workflows");
            var rendered := host.render(GitHub, TemplateArguments(cfg));
            && (made.Some? ==> r == Err(Failed(FailurePrefix + Message(made.value))))
            && (made.None? && rendered.Err? ==> r == Err(Failed(FailurePrefix + Message(rendered.error))))
            && (made.None? && rendered.Ok? && host.writeFails(path).Some? ==>
                  r == Err(Failed(FailurePrefix + Message(host.writeFails(path).value))))
            && (made.None? && rendered.Ok? && host.writeFails(path).None? ==>
                  r == Ok(Written(path, rendered.value, "Created GitHub Actions workflow at " + path)))
  {
    var w := WriteWorkflow(GitHub, TemplateArguments(cfg), WorkflowFile, "Created GitHub Actions workflow at ", host);
    WorkflowPath();
    Wrap(FailurePrefix, w)
  }

  lemma WorkflowPath()
    ensures WorkflowsDir + "/" + WorkflowFile == ".github/workflows/release.yml"
  {
  }

  /** The steps `get_requirements` lists. */
  const PushBefore := "Push this repository to "
  const PushRepository := PushBefore + ("GitHub" + "")
  const ActionsEnabled := "Ensure GitHub Actions are enabled in repository settings"
  const TagReleases := "Create releases by pushing git tags (e.g., 'git tag v1.0.0 && git push origin v1.0.0')"

  /** `get_requirements`. */
  function Requirements(): (r: seq<string>)
    ensures |r| == 3
    ensures Contains(r[0], "GitHub")
  {
    ContainsMiddle(PushBefore, "GitHub", "");
    [PushRepository, ActionsEnabled, TagReleases]
  }
}
