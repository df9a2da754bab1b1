/** auto_readme/cli.py: the `make-readme` and `make-all` commands. What the
    commands print is left out; what remains is which files they write and the
    exit status. The file system, YAML parsing and README rendering are
    parameters (`Env`). */
module Cli {
  import opened Common
  import opened Configuration
  import opened Generator

  /** The files the commands generate. */
  datatype Artifact = Readme | LicenseFile | CitationBib

  function FileName(a: Artifact): string {
    match a
    case Readme => "README.md"
    case LicenseFile => "LICENSE"
    case CitationBib => "citation.bib"
  }

  /** `cmd_make_all`'s generators, in the order of its dictionary. */
  const Artifacts: seq<Artifact> := [Readme, LicenseFile, CitationBib]

  /** Where the commands run: which paths exist and what parsing each yields
      (for `load_config`), what the README template renders for a
      configuration, and whether writing a file fails. */
  datatype Env = Env(
    exists_: string -> bool,
    parse: string -> Result<Config>,
    readme: Config -> Result<string>,
    writeFails: string -> Option<Error>)

  /** The generator behind each file. Only the licence cannot fail. */
  function Generate(a: Artifact, cfg: Config, env: Env): (r: Result<string>)
    ensures a == LicenseFile ==> r == Ok(License(cfg))
    ensures a == CitationBib ==> r == Citation(cfg)
    ensures a == Readme ==> r == env.readme(cfg)
  {
    match a
    case Readme => env.readme(cfg)
    case LicenseFile => Ok(License(cfg))
    case CitationBib => Citation(cfg)
  }

  /** Generating a file and then `write_output`: the content written, or the
      exception raised by either step. */
  function Produce(a: Artifact, cfg: Config, env: Env): (r: Result<string>)
    ensures r.Ok? <==> Generate(a, cfg, env).Ok? && env.writeFails(FileName(a)).None?
    ensures r.Ok? ==> r.value == Generate(a, cfg, env).value
  {
    var content :- Generate(a, cfg, env);
    match env.writeFails(FileName(a))
    case Some(e) => Err(e)
    case None => Ok(content)
  }

  /** `Produce` for a loaded configuration. */
  function ProduceIn(cfg: Config, env: Env): Artifact -> Result<string> {
    a => Produce(a, cfg, env)
  }

  /** Exit status and generated files of a command. */
  datatype Outcome = Outcome(status: int, generated: seq<Artifact>)

  /** What `cmd_make_all` does: a configuration that cannot be loaded exits with
      status 1 before anything is generated; otherwise every file is tried, and
      the status is 1 only when none of them could be generated. */
  function MakeAllOutcome(configPath: string, env: Env): Outcome {
    match LoadConfig(configPath, env.exists_, env.parse)
    case Err(_) => Outcome(1, [])
    case Ok(cfg) =>
      var generated := Succeeded(Artifacts, ProduceIn(cfg, env));
      Outcome(if generated == [] then 1 else 0, generated)
  }

  /** The loop of `cmd_make_all`: try every file, keep going past failures. */
  method GenerateAll(produce: Artifact -> Result<string>) returns (generated: seq<Artifact>)
    ensures generated == Succeeded(Artifacts, produce)
  {
    generated := [];
    var i := 0;
    while i < |Artifacts|
      invariant 0 <= i <= |Artifacts|
      invariant generated == Succeeded(Artifacts[..i], produce)
    {
      var a := Artifacts[i];
      assert Artifacts[..i + 1][..i] == Artifacts[..i];
      var written := produce(a);
      if written.Ok? {
        generated := generated + [a];
      }
      i := i + 1;
    }
    assert Artifacts[..i] == Artifacts;
  }

  /** `cmd_make_all`. */
  method MakeAll(configPath: string, env: Env) returns (status: int, generated: seq<Artifact>)
    ensures Outcome(status, generated) == MakeAllOutcome(configPath, env)
  {
    var loaded := LoadConfig(configPath, env.exists_, env.parse);
    if loaded.Err? {
      return 1, [];
    }
    generated := GenerateAll(ProduceIn(loaded.value, env));
    status := if generated == [] then 1 else 0;
  }

  /** `make-all` succeeds exactly when the configuration loads and at least one
      file is generated and written. */
  lemma MakeAllSucceeds(configPath: string, env: Env)
    ensures var loaded, out := LoadConfig(configPath, env.exists_, env.parse), MakeAllOutcome(configPath, env);
      out.status == 0 <==> loaded.Ok? && exists a :: a in Artifacts && Produce(a, loaded.value, env).Ok?
  {
    var loaded := LoadConfig(configPath, env.exists_, env.parse);
    if loaded.Ok? {
      SucceededNone(Artifacts, ProduceIn(loaded.value, env));
    }
  }

  /** The licence never fails to generate, so once the configuration loads and
      LICENSE can be written, `make-all` succeeds whatever happens to README.md
      and citation.bib. */
  lemma MakeAllLicenseSuffices(configPath: string, env: Env)
    requires LoadConfig(configPath, env.exists_, env.parse).Ok?
    requires env.writeFails("LICENSE").None?
    ensures MakeAllOutcome(configPath, env).status == 0
    ensures LicenseFile in MakeAllOutcome(configPath, env).generated
  {
    SucceededExactly(Artifacts, ProduceIn(LoadConfig(configPath, env.exists_, env.parse).value, env), LicenseFile);
  }

  /** A configuration without a title cannot be cited: citation.bib is not
      generated, and the other files are unaffected. */
  lemma MakeAllWithoutTitle(configPath: string, env: Env)
    requires LoadConfig(configPath, env.exists_, env.parse).Ok?
    requires LoadConfig(configPath, env.exists_, env.parse).value.title.None?
    ensures CitationBib !in MakeAllOutcome(configPath, env).generated
    ensures var cfg := LoadConfig(configPath, env.exists_, env.parse).value;
      Readme in MakeAllOutcome(configPath, env).generated <==> Produce(Readme, cfg, env).Ok?
  {
    var cfg := LoadConfig(configPath, env.exists_, env.parse).value;
    SucceededExactly(Artifacts, ProduceIn(cfg, env), CitationBib);
    SucceededExactly(Artifacts, ProduceIn(cfg, env), Readme);
  }

  /** What `cmd_make_readme` does: load, render and write README.md, then
      generate and write LICENSE; the first failure ends the command with
      status 1, after whatever was already written. */
  function MakeReadme(configPath: string, env: Env): (out: Outcome)
    ensures out.status == 0 <==> out.generated == [Readme, LicenseFile]
    ensures out.status == 0 <==>
      && LoadConfig(configPath, env.exists_, env.parse).Ok?
      && Produce(Readme, LoadConfig(configPath, env.exists_, env.parse).value, env).Ok?
      && env.writeFails("LICENSE").None?
    ensures out.generated <= [Readme, LicenseFile]
    ensures Readme in out.generated <==>
      && LoadConfig(configPath, env.exists_, env.parse).Ok?
      && Produce(Readme, LoadConfig(configPath, env.exists_, env.parse).value, env).Ok?
    ensures out.status == 0 || out.status == 1
  {
    match LoadConfig(configPath, env.exists_, env.parse)
    case Err(_) => Outcome(1, [])
    case Ok(cfg) =>
      if Produce(Readme, cfg, env).Err? then Outcome(1, [])
      else if Produce(LicenseFile, cfg, env).Err? then Outcome(1, [Readme])
      else Outcome(0, [Readme, LicenseFile])
  }
}
