/** auto_readme/integration/__init__.py: the fixed list of integrations and
    `setup_all_integrations`, which sets up every applicable one in list order,
    collects the names of those set up, and lets the first failure escape.
    `SetupAll` is that loop over any applicability test and any setup outcome;
    `Trace` is its specification, and the lemmas state what the source promises
    about it. Console output is left out. */
module Integrations {
  import opened Common
  import opened Configuration
  import opened IntegrationBase
  import GitHubIntegration
  import ZenodoIntegration
  import PyPIIntegration

  /** `INTEGRATIONS`. */
  const All: seq<Kind> := [GitHub, Zenodo, PyPI]

  /** What a run of the loop leaves: the returned list of names or the escaping
      exception, and the integrations whose `setup` was called, in order. */
  datatype Run = Run(outcome: Result<seq<string>>, invoked: seq<Kind>)

  /** The loop over `ks`, as a function of the loop's length: a failure so far
      stops everything; otherwise an applicable integration is set up and, if
      that works, its name is appended. */
  function Trace(ks: seq<Kind>, applicable: Kind -> bool, setup: Kind -> Result<string>): Run
    decreases |ks|
  {
    if ks == [] then Run(Ok([]), [])
    else
      var prev := Trace(ks[..|ks| - 1], applicable, setup);
      var k := ks[|ks| - 1];
      if prev.outcome.Err? || !applicable(k) then prev
      else match setup(k)
        case Err(e) => Run(Err(e), prev.invoked + [k])
        case Ok(_) => Run(Ok(prev.outcome.value + [Name(k)]), prev.invoked + [k])
  }

  /** The applicable integrations of `ks`, in order. */
  function Filter(ks: seq<Kind>, applicable: Kind -> bool): seq<Kind>
    decreases |ks|
  {
    if ks == [] then []
    else Filter(ks[..|ks| - 1], applicable) + (if applicable(ks[|ks| - 1]) then [ks[|ks| - 1]] else [])
  }

  function Names(ks: seq<Kind>): (r: seq<string>)
    ensures |r| == |ks| && forall i :: 0 <= i < |ks| ==> r[i] == Name(ks[i])
  {
    seq(|ks|, i requires 0 <= i < |ks| => Name(ks[i]))
  }

  /** Every setup of `ks` succeeds. */
  predicate AllSucceed(ks: seq<Kind>, setup: Kind -> Result<string>) {
    forall i :: 0 <= i < |ks| ==> setup(ks[i]).Ok?
  }

  /** `setup_all_integrations`, over any applicability test and setup outcome. */
  method SetupAll(applicable: Kind -> bool, setup: Kind -> Result<string>)
    returns (r: Result<seq<string>>, invoked: seq<Kind>)
    ensures Run(r, invoked) == Trace(All, applicable, setup)
  {
    var applied: seq<string> := [];
    invoked := [];
    var i := 0;
    while i < |All|
      invariant 0 <= i <= |All|
      invariant Trace(All[..i], applicable, setup) == Run(Ok(applied), invoked)
    {
      var k := All[i];
      PrefixStep(All, i);
      if applicable(k) {
        invoked := invoked + [k];
        var outcome := setup(k);
        if outcome.Err? {
          r := Err(outcome.error);
          TraceFailedPrefix(All[..i + 1], All[i + 1..], applicable, setup);
          return;
        }
        applied := applied + [Name(k)];
      }
      i := i + 1;
    }
    assert All[..i] == All;
    r := Ok(applied);
  }

  /** Once the loop has failed, the remaining integrations change nothing. */
  lemma {:induction false} TraceFailedPrefix(xs: seq<Kind>, ys: seq<Kind>, applicable: Kind -> bool,
                                             setup: Kind -> Result<string>)
    requires Trace(xs, applicable, setup).outcome.Err?
    ensures Trace(xs + ys, applicable, setup) == Trace(xs, applicable, setup)
    decreases |ys|
  {
    if ys == [] {
      AppendEmpty(xs);
    } else {
      AppendInit(xs, ys);
      TraceFailedPrefix(xs, ys[..|ys| - 1], applicable, setup);
    }
  }

  /** The loop returns a list exactly when every applicable integration sets up
      without failure; it then has set up exactly the applicable ones and returns
      their names, in list order. */
  lemma TraceSucceeds(ks: seq<Kind>, applicable: Kind -> bool, setup: Kind -> Result<string>)
    ensures Trace(ks, applicable, setup).outcome.Ok? <==> AllSucceed(Filter(ks, applicable), setup)
    ensures var run, applied := Trace(ks, applicable, setup), Filter(ks, applicable);
      run.outcome.Ok? ==> run.outcome.value == Names(applied) && run.invoked == applied
  {
    TraceOkExactly(ks, applicable, setup);
    TraceOkNames(ks, applicable, setup);
  }

  /** The loop fails exactly when some applicable integration fails to set up. */
  lemma {:induction false} TraceOkExactly(ks: seq<Kind>, applicable: Kind -> bool, setup: Kind -> Result<string>)
    ensures Trace(ks, applicable, setup).outcome.Ok? <==> AllSucceed(Filter(ks, applicable), setup)
    decreases |ks|
  {
    if ks != [] {
      var init, k := ks[..|ks| - 1], ks[|ks| - 1];
      TraceOkExactly(init, applicable, setup);
      var prev, before := Trace(init, applicable, setup), Filter(init, applicable);
      var applied := Filter(ks, applicable);
      assert applied == before + (if applicable(k) then [k] else []);
      if prev.outcome.Err? {
        assert Trace(ks, applicable, setup) == prev;
        var i :| 0 <= i < |before| && !setup(before[i]).Ok?;
        assert !setup(applied[i]).Ok?;
      } else if !applicable(k) {
        assert Trace(ks, applicable, setup) == prev;
      } else if setup(k).Err? {
        assert !setup(applied[|before|]).Ok?;
      }
    }
  }

  /** A loop that returns a list has set up exactly the applicable integrations
      and returns their names. */
  lemma {:induction false} TraceOkNames(ks: seq<Kind>, applicable: Kind -> bool, setup: Kind -> Result<string>)
    ensures var run, applied := Trace(ks, applicable, setup), Filter(ks, applicable);
      run.outcome.Ok? ==> run.outcome.value == Names(applied) && run.invoked == applied
    decreases |ks|
  {
    if ks != [] {
      var init, k := ks[..|ks| - 1], ks[|ks| - 1];
      TraceOkNames(init, applicable, setup);
      var before := Filter(init, applicable);
      if applicable(k) {
        NamesAppend(before, [k]);
      }
    }
  }

  /** On failure the setups called are a prefix of the applicable ones: all but
      the last succeeded, and the last raised the exception that escapes. */
  lemma {:induction false} TraceFails(ks: seq<Kind>, applicable: Kind -> bool, setup: Kind -> Result<string>)
    ensures var run, applied := Trace(ks, applicable, setup), Filter(ks, applicable);
      run.outcome.Err? ==>
        && run.invoked != []
        && run.invoked <= applied
        && setup(run.invoked[|run.invoked| - 1]) == Err(run.outcome.error)
        && forall j :: 0 <= j < |run.invoked| - 1 ==> setup(run.invoked[j]).Ok?
    decreases |ks|
  {
    if ks != [] {
      var init, k := ks[..|ks| - 1], ks[|ks| - 1];
      TraceFails(init, applicable, setup);
      TraceOkExactly(init, applicable, setup);
      TraceOkNames(init, applicable, setup);
      var prev := Trace(init, applicable, setup);
      if prev.outcome.Ok? && applicable(k) && setup(k).Err? {
        var run := Trace(ks, applicable, setup);
        assert run.invoked[..|run.invoked| - 1] == prev.invoked;
      }
    }
  }

  /** Only applicable integrations are ever set up. */
  lemma {:induction false} FilterApplicable(ks: seq<Kind>, applicable: Kind -> bool)
    ensures forall i :: 0 <= i < |Filter(ks, applicable)| ==> applicable(Filter(ks, applicable)[i])
    decreases |ks|
  {
    if ks != [] {
      FilterApplicable(ks[..|ks| - 1], applicable);
    }
  }

  /** Over the fixed list, the applicable integrations are GitHub, Zenodo and
      PyPI, each kept when applicable. */
  lemma FilterAll(applicable: Kind -> bool)
    ensures Filter(All, applicable) ==
      (if applicable(GitHub) then [GitHub] else []) + (if applicable(Zenodo) then [Zenodo] else [])
      + (if applicable(PyPI) then [PyPI] else [])
  {
    var two, one: seq<Kind> := [GitHub, Zenodo], [GitHub];
    assert All[..|All| - 1] == two;
    assert two[..|two| - 1] == one;
    assert one[..|one| - 1] == [];
  }

  /** A returned list is a sub-list of ["GitHub", "Zenodo", "PyPI"] in that
      order: each name at most once, at most three names. */
  lemma AppliedNames(applicable: Kind -> bool, setup: Kind -> Result<string>)
    requires Trace(All, applicable, setup).outcome.Ok?
    ensures var names := Trace(All, applicable, setup).outcome.value;
      && names == (if applicable(GitHub) then ["GitHub"] else []) + (if applicable(Zenodo) then ["Zenodo"] else [])
                  + (if applicable(PyPI) then ["PyPI"] else [])
      && |names| <= 3
      && forall i, j :: 0 <= i < j < |names| ==> names[i] != names[j]
  {
    TraceSucceeds(All, applicable, setup);
    AppliedNamesListed(applicable);
    FilterAllDistinct(applicable);
    NamesOfDistinct(Filter(All, applicable));
  }

  lemma AppliedNamesListed(applicable: Kind -> bool)
    ensures Names(Filter(All, applicable)) ==
      (if applicable(GitHub) then ["GitHub"] else []) + (if applicable(Zenodo) then ["Zenodo"] else [])
      + (if applicable(PyPI) then ["PyPI"] else [])
  {
    FilterAll(applicable);
    var g, z, p := if applicable(GitHub) then [GitHub] else [], if applicable(Zenodo) then [Zenodo] else [],
                   if applicable(PyPI) then [PyPI] else [];
    NamesAppend(g + z, p);
    NamesAppend(g, z);
    NamesOptional(applicable(GitHub), GitHub);
    NamesOptional(applicable(Zenodo), Zenodo);
    NamesOptional(applicable(PyPI), PyPI);
    KnownNames();
  }

  lemma NamesOptional(b: bool, k: Kind)
    ensures Names(if b then [k] else []) == if b then [Name(k)] else []
  {
  }

  /** No integration is applicable twice. */
  lemma FilterAllDistinct(applicable: Kind -> bool)
    ensures |Filter(All, applicable)| <= 3
    ensures forall i, j :: 0 <= i < j < |Filter(All, applicable)| ==> Filter(All, applicable)[i] != Filter(All, applicable)[j]
  {
    FilterAll(applicable);
  }

  lemma NamesAppend(a: seq<Kind>, b: seq<Kind>)
    ensures Names(a + b) == Names(a) + Names(b)
  {
  }

  /** Integrations listed at most once have names listed at most once. */
  lemma NamesOfDistinct(ks: seq<Kind>)
    requires forall i, j :: 0 <= i < j < |ks| ==> ks[i] != ks[j]
    ensures forall i, j :: 0 <= i < j < |Names(ks)| ==> Names(ks)[i] != Names(ks)[j]
  {
    forall i, j | 0 <= i < j < |ks|
      ensures Names(ks)[i] != Names(ks)[j]
    {
      NamesDistinct(ks[i], ks[j]);
    }
  }

  /** Nothing applicable: nothing is set up and the empty list is returned. */
  lemma NoneApplicable(applicable: Kind -> bool, setup: Kind -> Result<string>)
    requires !applicable(GitHub) && !applicable(Zenodo) && !applicable(PyPI)
    ensures Trace(All, applicable, setup) == Run(Ok([]), [])
  {
    TraceSucceeds(All, applicable, setup);
    FilterAll(applicable);
  }

  /** Only GitHub applicable and its setup succeeding: the result is ["GitHub"]. */
  lemma OnlyGitHub(applicable: Kind -> bool, setup: Kind -> Result<string>)
    requires applicable(GitHub) && !applicable(Zenodo) && !applicable(PyPI) && setup(GitHub).Ok?
    ensures Trace(All, applicable, setup) == Run(Ok(["GitHub"]), [GitHub])
  {
    TraceSucceeds(All, applicable, setup);
    FilterAll(applicable);
    var applied := Filter(All, applicable);
    assert applied == [GitHub];
    assert setup(applied[0]).Ok?;
    AppliedNames(applicable, setup);
    assert ["GitHub"] + [] + [] == ["GitHub"];
  }

  // ---------------------------------------------------------------------------
  // The concrete integrations

  /** `integration.is_applicable(config)`, with `.git`'s existence as a parameter. */
  function ApplicableIn(cfg: Config, gitExists: bool): Kind -> bool {
    (k: Kind) => match k
         case GitHub => GitHubIntegration.IsApplicable(cfg, gitExists)
         case Zenodo => ZenodoIntegration.IsApplicable(cfg)
         case PyPI => PyPIIntegration.IsApplicable(cfg)
  }

  /** `integration.setup(config)`: the returned message, or the exception. */
  function SetupIn(cfg: Config, host: Host): Kind -> Result<string> {
    (k: Kind) => match k
         case GitHub => Reported(GitHubIntegration.Setup(cfg, host))
         case Zenodo => Reported(ZenodoIntegration.Setup(cfg, host))
         case PyPI => Reported(PyPIIntegration.Setup(cfg, host))
  }

  /** A setup's returned message, or its exception. */
  function Reported<C>(r: Result<Written<C>>): (m: Result<string>)
    ensures m.Ok? <==> r.Ok?
    ensures r.Ok? ==> m.value == r.value.message
    ensures r.Err? ==> m.error == r.error
  {
    match r
    case Ok(w) => Ok(w.message)
    case Err(e) => Err(e)
  }

  /** `setup_all_integrations(config)`. */
  method SetupAllIntegrations(cfg: Config, gitExists: bool, host: Host)
    returns (r: Result<seq<string>>, invoked: seq<Kind>)
    ensures Run(r, invoked) == Trace(All, ApplicableIn(cfg, gitExists), SetupIn(cfg, host))
  {
    r, invoked := SetupAll(ApplicableIn(cfg, gitExists), SetupIn(cfg, host));
  }

  /** A project with no repository, no GitHub link, no Zenodo reference and no
      type gets no integration and an empty list. */
  lemma BareProject(cfg: Config, host: Host)
    requires cfg.githubLink.None? && cfg.doi.None? && cfg.zenodoLink.None? && cfg.projectType.None?
    ensures Trace(All, ApplicableIn(cfg, false), SetupIn(cfg, host)) == Run(Ok([]), [])
  {
    ZenodoIntegration.ApplicableIgnoresCase(cfg);
    PyPIIntegration.ApplicableCases(cfg);
    NoneApplicable(ApplicableIn(cfg, false), SetupIn(cfg, host));
  }
}
