/** main.py: the legacy generator script. Its citation is a @misc record in the
    compact layout; its dataset card and Zenodo record are those of the `src`
    generators with the tags of the `hugging_face` mapping; `main` tries every
    output in turn, reports a failure and goes on with the next. Licence and
    README rendering go through Jinja templates and are parameters; JSON text
    is not modelled, only the records serialised. */
module LegacyMain {
  import opened Common
  import opened Strings
  import opened Configuration
  import opened Records
  import Generator
  import HFCardGenerator
  import ZenodoGenerator

  /** `title.lower().replace("-", "_")`. */
  function MiscKey(title: string): (key: string)
    ensures |key| == |title|
    ensures '-' !in key
    ensures forall i :: 0 <= i < |key| ==> !IsUpper(key[i])
    ensures forall i :: 0 <= i < |key| ==> key[i] == (if title[i] == '-' then '_' else LowerChar(title[i]))
  {
    LowerReplacing(title, '-', '_')
  }

  /** The @misc record, with the keys read in the order the f-string reads them:
      `title`, every contributor's `name`, `published`, `version`. */
  function MiscRecord(cfg: Config): (r: Result<BibRecord>)
    ensures r.Ok? <==> (cfg.title.Some? && Generator.ContributorNames(cfg).Ok? && cfg.published.Some?
                    && cfg.version.Some?)
    ensures cfg.title.None? ==> r == Err(MissingKey("title"))
    ensures r.Ok? ==>
      && r.value.entryType == "misc"
      && r.value.key == MiscKey(cfg.title.value)
      && |r.value.fields| == 6
      && r.value.fields[0] == BibField("title", cfg.title.value)
      && r.value.fields[1] == BibField("author", Join(" and ", Generator.ContributorNames(cfg).value))
      && r.value.fields[2] == BibField("year", Take(cfg.published.value, 4))
      && r.value.fields[3] == BibField("version", cfg.version.value)
      && r.value.fields[4] == BibField("doi", cfg.doi.GetOr(""))
      && r.value.fields[5] == BibField("url", cfg.huggingfaceLink.GetOr(""))
  {
    var title :- Require(cfg.title, "title");
    var names :- Generator.ContributorNames(cfg);
    var published :- Require(cfg.published, "published");
    var version :- Require(cfg.version, "version");
    Ok(BibRecord("misc", MiscKey(title), [
      BibField("title", title),
      BibField("author", Join(" and ", names)),
      BibField("year", Take(published, 4)),
      BibField("version", version),
      BibField("doi", cfg.doi.GetOr("")),
      BibField("url", cfg.huggingfaceLink.GetOr(""))]))
  }

  /** `generate_citation`: the record in the compact layout. */
  function Citation(cfg: Config): (r: Result<string>)
    ensures r.Ok? <==> MiscRecord(cfg).Ok?
    ensures r.Ok? ==> "@misc{" + MiscKey(cfg.title.value) + "," <= r.value
  {
    var rec :- MiscRecord(cfg);
    assert Head(rec) == "@misc{" + MiscKey(cfg.title.value) + ",";
    Ok(RenderCompact(rec))
  }

  /** Every field of the citation is printed on a line of its own. */
  lemma CitationShowsFields(cfg: Config, i: nat)
    requires MiscRecord(cfg).Ok? && i < 6
    ensures Contains(Citation(cfg).value, CompactLine(MiscRecord(cfg).value.fields[i]))
  {
    RenderCompactShows(MiscRecord(cfg).value, i);
  }

  /** `generate_huggingface_card`: the `src` card with the `hugging_face` tags. */
  function HuggingFaceCard(cfg: Config): (r: Result<DatasetCard>)
    ensures r.Ok? ==> r.value.tags == HuggingFaceTags(cfg)
    ensures r.Ok? ==> cfg.tagline.Some? && r.value.prettyName == cfg.tagline.value
  {
    HFCardGenerator.CardWith(cfg, HuggingFaceTags(cfg))
  }

  /** `generate_zenodo_metadata`: the `src` record with the `hugging_face` tags
      as keywords. */
  function ZenodoMetadata(cfg: Config): (r: Result<ZenodoRecord>)
    ensures r.Ok? ==> r.value.keywords == HuggingFaceTags(cfg)
    ensures cfg.title.None? ==> r.Err?
  {
    ZenodoGenerator.RecordWith(cfg, HuggingFaceTags(cfg))
  }

  // ---------------------------------------------------------------------------
  // main

  /** The files `main` writes under outputs/. */
  datatype Output = DatasetCardJson | MetadataJson | CitationBib | LicenseMd | ReadmeMd

  function FileName(o: Output): string {
    match o
    case DatasetCardJson => "dataset_card.json"
    case MetadataJson => "metadata.json"
    case CitationBib => "citation.bib"
    case LicenseMd => "LICENSE.md"
    case ReadmeMd => "README.md"
  }

  /** The order of `main`'s generators. */
  const Outputs: seq<Output> := [DatasetCardJson, MetadataJson, CitationBib, LicenseMd, ReadmeMd]

  /** Rendering the licence and README templates, and writing a file under outputs/. */
  datatype Env = Env(
    license: Config -> Result<string>,
    readme: Config -> Result<string>,
    writeFails: string -> Option<Error>)

  /** What an output holds: the dataset card and the Zenodo record are written
      as their JSON serialisation, which is not modelled, so they are kept as
      records; the citation, licence and README are text. */
  datatype Content = CardJson(card: DatasetCard) | RecordJson(record: ZenodoRecord) | Text(text: string)

  /** Generating one output: its content, or the exception raised. */
  function Generate(o: Output, cfg: Config, env: Env): (r: Result<Content>)
    ensures o == DatasetCardJson ==> (r.Ok? <==> HuggingFaceCard(cfg).Ok?)
    ensures o == DatasetCardJson && r.Ok? ==> r.value == CardJson(HuggingFaceCard(cfg).value)
    ensures o == MetadataJson ==> (r.Ok? <==> ZenodoMetadata(cfg).Ok?)
    ensures o == MetadataJson && r.Ok? ==> r.value == RecordJson(ZenodoMetadata(cfg).value)
    ensures o == CitationBib ==> (r.Ok? <==> Citation(cfg).Ok?) && (r.Ok? ==> r.value == Text(Citation(cfg).value))
    ensures o == LicenseMd ==> (r.Ok? <==> env.license(cfg).Ok?) && (r.Ok? ==> r.value == Text(env.license(cfg).value))
    ensures o == ReadmeMd ==> (r.Ok? <==> env.readme(cfg).Ok?) && (r.Ok? ==> r.value == Text(env.readme(cfg).value))
  {
    match o
    case DatasetCardJson => var card :- HuggingFaceCard(cfg); Ok(CardJson(card))
    case MetadataJson => var record :- ZenodoMetadata(cfg); Ok(RecordJson(record))
    case CitationBib => var text :- Citation(cfg); Ok(Text(text))
    case LicenseMd => var text :- env.license(cfg); Ok(Text(text))
    case ReadmeMd => var text :- env.readme(cfg); Ok(Text(text))
  }

  /** Generating one output and writing it: the content written, or the first
      exception raised. */
  function Attempt(o: Output, cfg: Config, env: Env): (r: Result<Content>)
    ensures r.Ok? <==> Generate(o, cfg, env).Ok? && env.writeFails(FileName(o)).None?
    ensures r.Ok? ==> r.value == Generate(o, cfg, env).value
    ensures Generate(o, cfg, env).Err? ==> r.error == Generate(o, cfg, env).error
    ensures Generate(o, cfg, env).Ok? && env.writeFails(FileName(o)).Some? ==> r == Err(env.writeFails(FileName(o)).value)
  {
    var content :- Generate(o, cfg, env);
    match env.writeFails(FileName(o))
    case Some(e) => Err(e)
    case None => Ok(content)
  }

  function AttemptIn(cfg: Config, env: Env): Output -> Result<Content> {
    o => Attempt(o, cfg, env)
  }

  /** The loop of `main`: try every output in turn, report a failure and go on
      with the next. */
  method AttemptAll(attempt: Output -> Result<Content>) returns (written: seq<Output>)
    ensures written == Succeeded(Outputs, attempt)
  {
    written := [];
    var i := 0;
    while i < |Outputs|
      invariant 0 <= i <= |Outputs|
      invariant written == Succeeded(Outputs[..i], attempt)
    {
      var o := Outputs[i];
      assert Outputs[..i + 1][..i] == Outputs[..i];
      var outcome := attempt(o);
      if outcome.Ok? {
        written := written + [o];
      }
      i := i + 1;
    }
    assert Outputs[..i] == Outputs;
  }

  /** `main` after argument parsing: a configuration that cannot be loaded ends
      the run with that exception; otherwise every output is tried in order and
      the written ones are returned. */
  method RunAll(load: Result<Config>, env: Env) returns (r: Result<seq<Output>>)
    ensures load.Err? ==> r == Err(load.error)
    ensures load.Ok? ==> r == Ok(Succeeded(Outputs, AttemptIn(load.value, env)))
  {
    if load.Err? {
      return Err(load.error);
    }
    var written := AttemptAll(AttemptIn(load.value, env));
    return Ok(written);
  }

  /** A failing output never stops the others: each output is written exactly
      when its own generation and writing succeed. */
  lemma RunAllIndependent(cfg: Config, env: Env, o: Output)
    ensures o in Succeeded(Outputs, AttemptIn(cfg, env)) <==> Attempt(o, cfg, env).Ok?
  {
    SucceededExactly(Outputs, AttemptIn(cfg, env), o);
  }

  /** Without a title, neither the citation nor the Zenodo record is written;
      the licence still is when its template renders and the file can be
      written. */
  lemma RunAllWithoutTitle(cfg: Config, env: Env)
    requires cfg.title.None?
    ensures CitationBib !in Succeeded(Outputs, AttemptIn(cfg, env))
    ensures MetadataJson !in Succeeded(Outputs, AttemptIn(cfg, env))
    ensures env.license(cfg).Ok? && env.writeFails("LICENSE.md").None? ==>
      LicenseMd in Succeeded(Outputs, AttemptIn(cfg, env))
  {
    SucceededExactly(Outputs, AttemptIn(cfg, env), CitationBib);
    SucceededExactly(Outputs, AttemptIn(cfg, env), MetadataJson);
    SucceededExactly(Outputs, AttemptIn(cfg, env), LicenseMd);
  }
}
