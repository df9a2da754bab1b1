/** auto_readme/integration/base.py: what every integration shares. The three
    concrete integrations are the constructors of `Kind`; an integration's
    `name` is its class name with "Integration" removed. Setting an integration
    up touches the file system and renders templates; both are parameters here
    (`Host`), so that a setup is a function from the configuration and the host
    to the file it would write, or to the exception it would raise. */
module IntegrationBase {
  import opened Common
  import opened Strings

  datatype Kind = GitHub | Zenodo | PyPI

  function ClassName(k: Kind): string {
    match k
    case GitHub => "GitHubIntegration"
    case Zenodo => "ZenodoIntegration"
    case PyPI => "PyPIIntegration"
  }

  /** The `name` property, for any class name. */
  function NameOf(className: string): string {
    ReplaceAll(className, "Integration", "")
  }

  function Name(k: Kind): string {
    NameOf(ClassName(k))
  }

  /** `__str__`. */
  function Describe(k: Kind): (s: string)
    ensures Name(k) <= s && s[|Name(k)|..] == " Integration"
  {
    Name(k) + " Integration"
  }

  /** A class name in which "Integration" does not occur is its own name. */
  lemma NameWithoutSuffix(className: string)
    requires !Contains(className, "Integration")
    ensures NameOf(className) == className
  {
    ReplaceAbsent(className, "Integration", "");
  }

  /** A class name that is a word free of the letter 'I' followed by
      "Integration" is named by that word. */
  lemma NameStripsSuffix(word: string)
    requires 'I' !in word
    ensures NameOf(word + "Integration") == word
  {
    ReplaceWhole("Integration", "");
    ReplaceSkipsClear(word, "Integration", "Integration", "");
    assert word + "" == word;
  }

  /** The three integrations are called "GitHub", "Zenodo" and "PyPI". */
  lemma KnownNames()
    ensures Name(GitHub) == "GitHub"
    ensures Name(Zenodo) == "Zenodo"
    ensures Name(PyPI) == "PyPI"
  {
    NameGitHub();
    NameZenodo();
    NamePyPI();
  }

  lemma NameGitHub()
    ensures Name(GitHub) == "GitHub"
  {
    NameStripsSuffix("GitHub");
    assert "GitHub" + "Integration" == "GitHubIntegration";
  }

  lemma NameZenodo()
    ensures Name(Zenodo) == "Zenodo"
  {
    NameStripsSuffix("Zenodo");
    assert "Zenodo" + "Integration" == "ZenodoIntegration";
  }

  /** "PyPI" itself ends with 'I': the pass tries a match at that 'I', fails at
      the next character, and matches one position later. */
  lemma NamePyPI()
    ensures Name(PyPI) == "PyPI"
  {
    var p := "Integration";
    ReplaceWhole(p, "");
    ReplaceMismatch("IIntegration", p, "", 1);
    assert "IIntegration"[1..] == p;
    ReplaceSkipsClear("PyP", "IIntegration", p, "");
    assert "PyP" + "IIntegration" == "PyPIIntegration";
    assert "PyP" + ("I" + "") == "PyPI";
  }

  /** Different integrations have different names and descriptions. */
  lemma NamesDistinct(a: Kind, b: Kind)
    ensures Name(a) == Name(b) <==> a == b
    ensures Describe(a) == Describe(b) <==> a == b
  {
    KnownNames();
    if Describe(a) == Describe(b) {
      assert Describe(a)[..|Name(a)|] == Name(a);
      assert Describe(b)[..|Name(b)|] == Name(b);
      assert |Name(a)| == |Name(b)|;
    }
  }

  // ---------------------------------------------------------------------------
  // Setting an integration up

  /** The keyword arguments a workflow template is rendered with, in call order. */
  type TemplateArgs = seq<(string, string)>

  /** The surroundings a setup runs in: whether creating a directory fails,
      whether writing a file fails, and what rendering an integration's
      workflow template with given arguments yields (the template lookup and
      rendering may fail too). */
  datatype Host = Host(
    mkdirFails: string -> Option<Error>,
    writeFails: string -> Option<Error>,
    render: (Kind, TemplateArgs) -> Result<string>)

  /** What a successful setup leaves behind: the file it wrote, what it wrote
      there, and the message it returns. */
  datatype Written<C> = Written(path: string, content: C, message: string)

  /** The body of a workflow setup: create the workflows directory, render the
      integration's template, write the result to `file` under the directory,
      and report `announce` followed by the path written. */
  function WriteWorkflow(k: Kind, args: TemplateArgs, file: string, announce: string, host: Host): (r: Result<Written<string>>)
    ensures var path := WorkflowsDir + "/" + file;
            var made := host.mkdirFails(WorkflowsDir);
            var rendered := host.render(k, args);
            && (made.Some? ==> r == Err(made.value))
            && (made.None? && rendered.Err? ==> r == Err(rendered.error))
            && (made.None? && rendered.Ok? && host.writeFails(path).Some? ==> r == Err(host.writeFails(path).value))
            && (made.None? && rendered.Ok? && host.writeFails(path).None? ==>
                  r == Ok(Written(path, rendered.value, announce + path)))
  {
    if host.mkdirFails(WorkflowsDir).Some? then Err(host.mkdirFails(WorkflowsDir).value)
    else
      var content :- host.render(k, args);
      var path := WorkflowsDir + "/" + file;
      if host.writeFails(path).Some? then Err(host.writeFails(path).value)
      else Ok(Written(path, content, announce + path))
  }

  const WorkflowsDir := ".github/workflows"

  /** `except Exception as e: raise Exception(f"{prefix}{e}")`. */
  function Wrap<T>(prefix: string, r: Result<T>): (w: Result<T>)
    ensures w.Ok? <==> r.Ok?
    ensures r.Ok? ==> w == r
    ensures r.Err? ==> w.error == Failed(prefix + Message(r.error))
  {
    match r
    case Ok(_) => r
    case Err(e) => Err(Failed(prefix + Message(e)))
  }
}
