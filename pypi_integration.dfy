/** auto_readme/integrations/pypi/integration.py: the publishing workflow for
    projects whose `type` is "python-package". */
module PyPIIntegration {
  import opened Common
  import opened Strings
  import opened Configuration
  import opened IntegrationBase

  const PythonPackage := "python-package"

  /** `is_applicable`: the lower-cased `type` (absent reads as "") is "python-package". */
  predicate IsApplicable(cfg: Config) {
    Lower(cfg.projectType.GetOr("")) == PythonPackage
  }

  /** An absent type never applies; a present one applies whatever its letter case,
      exactly when it has the length of "python-package" and lower-cases to it. */
  lemma ApplicableCases(cfg: Config)
    ensures cfg.projectType.None? ==> !IsApplicable(cfg)
    ensures cfg.projectType == Some("Python-Package") ==> IsApplicable(cfg)
    ensures IsApplicable(cfg) <==>
      cfg.projectType.Some? && |cfg.projectType.value| == |PythonPackage|
      && forall i :: 0 <= i < |PythonPackage| ==> LowerChar(cfg.projectType.value[i]) == PythonPackage[i]
  {
    if cfg.projectType == Some("Python-Package") {
      assert Lower("Python-Package") == PythonPackage;
    }
  }

  /** `title.lower().replace("_", "-")`. */
  function NormalizeName(title: string): (r: string)
    ensures |r| == |title|
    ensures '_' !in r
    ensures forall i :: 0 <= i < |r| ==> !IsUpper(r[i])
    ensures forall i :: 0 <= i < |r| ==> r[i] == (if title[i] == '_' then '-' else LowerChar(title[i]))
  {
    LowerReplacing(title, '_', '-')
  }

  /** Normalising a normalised name changes nothing. */
  lemma NormalizeIdempotent(title: string)
    ensures NormalizeName(NormalizeName(title)) == NormalizeName(title)
  {
    var once := NormalizeName(title);
    var twice := NormalizeName(once);
    assert forall i :: 0 <= i < |once| ==> twice[i] == once[i];
  }

  /** `_get_package_name`: a truthy `package_name` verbatim, otherwise the
      normalised title, with "my-package" standing in for an absent title. */
  function PackageName(cfg: Config): (r: string)
    ensures Truthy(cfg.packageName) ==> r == cfg.packageName.value
    ensures !Truthy(cfg.packageName) ==> '_' !in r && r == NormalizeName(cfg.title.GetOr("my-package"))
    ensures !Truthy(cfg.packageName) && cfg.title.None? ==> r == "my-package"
  {
    if Truthy(cfg.packageName) then cfg.packageName.value
    else
      var name := NormalizeName(cfg.title.GetOr("my-package"));
      assert cfg.title.None? ==> name == "my-package";
      name
  }

  /** The template arguments of `setup`, with their defaults. */
  function TemplateArguments(cfg: Config): (args: TemplateArgs)
    ensures |args| == 3
    ensures args[0] == ("title", if cfg.title.Some? then cfg.title.value else "Python Package")
    ensures args[1] == ("maintainer", if cfg.maintainer.Some? then cfg.maintainer.value else "")
    ensures args[2] == ("package_name", PackageName(cfg))
  {
    [("title", cfg.title.GetOr("Python Package")),
     ("maintainer", cfg.maintainer.GetOr("")),
     ("package_name", PackageName(cfg))]
  }

  const WorkflowFile := "pypi-publish.yml"

  const FailurePrefix := "Failed to create PyPI workflow: "

  /** `setup`: writes the rendered workflow to .github/workflows/pypi-publish.yml;
      any failure on the way is re-raised with the PyPI prefix. */
  function Setup(cfg: Config, host: Host): (r: Result<Written<string>>)
    ensures var path := ".github/workflows/pypi-publish.yml";
            var made := host.mkdirFails(".github/workflows");
            var rendered := host.render(PyPI, TemplateArguments(cfg));
            && (made.Some? ==> r == Err(Failed(FailurePrefix + Message(made.value))))
            && (made.None? && rendered.Err? ==> r == Err(Failed(FailurePrefix + Message(rendered.error))))
            && (made.None? && rendered.Ok? && host.writeFails(path).Some? ==>
                  r == Err(Failed(FailurePrefix + Message(host.writeFails(path).value))))
            && (made.None? && rendered.Ok? && host.writeFails(path).None? ==>
                  r == Ok(Written(path, rendered.value, "Created PyPI publishing workflow at " + path)))
  {
    var w := WriteWorkflow(PyPI, TemplateArguments(cfg), WorkflowFile, "Created PyPI publishing workflow at ", host);
    WorkflowPath();
    Wrap(FailurePrefix, w)
  }

  lemma WorkflowPath()
    ensures WorkflowsDir + "/" + WorkflowFile == ".github/workflows/pypi-publish.yml"
  {
  }

  /** The steps `get_requirements` lists. */
  const RegisterBefore := "Register your package name on "
  const RegisterAfter := ": https://pypi.org/"
  const Register := RegisterBefore + ("PyPI" + RegisterAfter)
  const TrustedPublishing := "Set up trusted publishing in PyPI project settings"
  const LinkRepository := "Link your GitHub repository to PyPI trusted publishing"
  const TagReleases := "Create releases with version tags to trigger automatic publishing"
  const PackageConfigured := "Ensure your pyproject.toml or setup.py is properly configured"

  /** `get_requirements`. */
  function Requirements(): (r: seq<string>)
    ensures |r| == 5
    ensures Contains(r[0], "PyPI")
  {
    ContainsMiddle(RegisterBefore, "PyPI", RegisterAfter);
    [Register, TrustedPublishing, LinkRepository, TagReleases, PackageConfigured]
  }
}
