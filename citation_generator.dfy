/** src/generators/citation_generator.py: the BibTeX citation of the `src`
    generators. The key joins the first author's last name, the year and the
    squeezed title; when both the code and the dataset have a Zenodo DOI, two
    records are printed (software, then dataset), otherwise one dataset record
    with the first DOI available. Fields are laid out with names padded to six
    columns. */
module CitationGenerator {
  import opened Common
  import opened Strings
  import opened Configuration
  import opened Records

  /** `self.config["contributors"][0]`: the key is required and the list must
      not be empty. */
  function FirstContributor(cfg: Config): (r: Result<Contributor>)
    ensures cfg.contributors.None? ==> r == Err(MissingKey("contributors"))
    ensures cfg.contributors == Some([]) ==> r == Err(IndexOutOfRange)
    ensures cfg.contributors.Some? && cfg.contributors.value != [] ==> r == Ok(cfg.contributors.value[0])
  {
    var cs :- Require(cfg.contributors, "contributors");
    if cs == [] then Err(IndexOutOfRange) else Ok(cs[0])
  }

  /** `author.lower().split()[-1]`: the last word of the lower-cased name; a
      name without any word raises IndexError. */
  function LastName(author: string): (r: Result<string>)
    ensures r.Ok? <==> Split(Lower(author)) != []
    ensures r.Ok? ==> r.value == Split(Lower(author))[|Split(Lower(author))| - 1] && IsToken(r.value)
    ensures r.Err? ==> r.error == IndexOutOfRange
  {
    var words := Split(Lower(author));
    if words == [] then Err(IndexOutOfRange)
    else
      LastWordIsToken(Lower(author));
      Ok(words[|words| - 1])
  }

  /** `published.split("-")[0]`. */
  function Year(published: string): (year: string)
    ensures year <= published && '-' !in year
    ensures |year| < |published| ==> published[|year|] == '-'
  {
    BeforeFirst(published, '-')
  }

  /** `title.lower().replace("-", "").replace(" ", "")`: the lower-cased
      title with every "-" and " " removed, each other character kept as many
      times as it occurs. */
  function TitleKey(title: string): (k: string)
    ensures '-' !in k && ' ' !in k
    ensures forall c :: c in k <==> c in Lower(title) && c != '-' && c != ' '
    ensures multiset(k) == multiset(Lower(title))['-' := 0][' ' := 0]
    ensures |k| == |title| - multiset(Lower(title))['-'] - multiset(Lower(title))[' ']
  {
    DeleteChar(DeleteChar(Lower(title), '-'), ' ')
  }

  /** The title key is built piece by piece: the key of a concatenation is
      the concatenation of the keys, so the order of the kept characters is
      the title's. */
  lemma TitleKeyAppend(a: string, b: string)
    ensures TitleKey(a + b) == TitleKey(a) + TitleKey(b)
  {
    LowerAppend(a, b);
    DeleteCharAppend(Lower(a), Lower(b), '-');
    DeleteCharAppend(DeleteChar(Lower(a), '-'), DeleteChar(Lower(b), '-'), ' ');
  }

  /** One character of the title: "-" and " " vanish, anything else is
      lower-cased. With `TitleKeyAppend` this fixes the key of every title. */
  lemma TitleKeyChar(c: char)
    ensures TitleKey([c]) == if c == '-' || c == ' ' then [] else [LowerChar(c)]
  {
    assert Lower([c]) == [LowerChar(c)];
    assert [LowerChar(c)][1..] == [];
  }

  /** `f"{last_name}{year}{title_key}"`. */
  function Key(lastName: string, year: string, title: string): (key: string)
    ensures lastName <= key
    ensures key[|lastName|..] == year + TitleKey(title)
  {
    var key := lastName + year + TitleKey(title);
    assert key == lastName + (year + TitleKey(title));
    key
  }

  /** `https://huggingface.co/{type}/{repo}` from the `hugging_face` mapping,
      all three keys required. */
  function HuggingFaceUrl(cfg: Config): (r: Result<string>)
    ensures r.Ok? <==> cfg.huggingFace.Some? && cfg.huggingFace.value.kind.Some? && cfg.huggingFace.value.repo.Some?
    ensures r.Ok? ==> r.value == "https://huggingface.co/" + cfg.huggingFace.value.kind.value + "/"
                                 + cfg.huggingFace.value.repo.value
  {
    var hf :- Require(cfg.huggingFace, "hugging_face");
    var kind :- Require(hf.kind, "type");
    var repo :- Require(hf.repo, "repo");
    Ok("https://huggingface.co/" + kind + "/" + repo)
  }

  /** Both DOIs truthy: the two-record form. */
  predicate Dual(cfg: Config) {
    Truthy(cfg.githubRepoZenodoDoi) && Truthy(cfg.datasetZenodoDoi)
  }

  /** `github_doi or dataset_doi or config.get("doi", "")`. */
  function SingleDoi(cfg: Config): (doi: string)
    ensures Truthy(cfg.githubRepoZenodoDoi) ==> doi == cfg.githubRepoZenodoDoi.value
    ensures !Truthy(cfg.githubRepoZenodoDoi) && Truthy(cfg.datasetZenodoDoi) ==> doi == cfg.datasetZenodoDoi.value
    ensures !Truthy(cfg.githubRepoZenodoDoi) && !Truthy(cfg.datasetZenodoDoi) ==> doi == cfg.doi.GetOr("")
  {
    Or(cfg.githubRepoZenodoDoi, Or(cfg.datasetZenodoDoi, Some(cfg.doi.GetOr("")))).value
  }

  /** The six fields of a record, in printed order. */
  function Fields(author: string, title: string, year: string, url: string, doi: string, note: string): seq<BibField> {
    [BibField("author", author), BibField("title", title), BibField("year", year),
     BibField("url", url), BibField("doi", doi), BibField("note", note)]
  }

  /** `Version {version}, {affiliation}`. */
  function Note(version: string, affiliation: string): string {
    "Version " + version + ", " + affiliation
  }

  /** The records `generate` prints, with the keys it requires read in the order
      the code reads them. */
  function Entries(cfg: Config): (r: Result<seq<BibRecord>>)
    ensures r.Ok? <==> Citable(cfg)
    ensures r.Ok? ==> |r.value| == if Dual(cfg) then 2 else 1
    ensures r.Ok? && Dual(cfg) ==>
      && r.value[0].entryType == "software" && r.value[0].key == KeyOf(cfg) + "code"
      && r.value[1].entryType == "dataset" && r.value[1].key == KeyOf(cfg) + "data"
    ensures r.Ok? && !Dual(cfg) ==> r.value[0].entryType == "dataset" && r.value[0].key == KeyOf(cfg)
  {
    var first :- FirstContributor(cfg);
    var author :- Require(first.name, "name");
    var published :- Require(cfg.published, "published");
    var year := Year(published);
    var lastName :- LastName(author);
    var title :- Require(cfg.title, "title");
    var key := Key(lastName, year, title);
    var hfUrl :- HuggingFaceUrl(cfg);
    if Dual(cfg) then
      var version :- Require(cfg.version, "version");
      var affiliation :- Require(first.affiliation, "affiliation");
      var tagline :- Require(cfg.tagline, "tagline");
      var note := Note(version, affiliation);
      Ok([BibRecord("software", key + "code",
                    Fields(author, title + ": Code", year, cfg.githubLink.GetOr(""), cfg.githubRepoZenodoDoi.value, note)),
          BibRecord("dataset", key + "data",
                    Fields(author, title + ": " + tagline, year, hfUrl, cfg.datasetZenodoDoi.value, note))])
    else
      var tagline :- Require(cfg.tagline, "tagline");
      var version :- Require(cfg.version, "version");
      var affiliation :- Require(first.affiliation, "affiliation");
      Ok([BibRecord("dataset", key, Fields(author, title + ": " + tagline, year, hfUrl, SingleDoi(cfg),
                                           Note(version, affiliation)))])
  }

  /** `CitationGenerator.generate`: the records in the aligned layout, separated
      by a blank line. */
  function Generate(cfg: Config): (r: Result<string>)
    ensures r.Ok? <==> Citable(cfg)
    ensures r.Ok? && Dual(cfg) ==>
      r.value == RenderAligned(Entries(cfg).value[0]) + "\n\n" + RenderAligned(Entries(cfg).value[1])
    ensures r.Ok? && !Dual(cfg) ==> r.value == RenderAligned(Entries(cfg).value[0])
  {
    var records :- Entries(cfg);
    var texts := seq(|records|, i requires 0 <= i < |records| => RenderAligned(records[i]));
    assert |texts| == 2 ==> texts[1..] == [texts[1]];
    Ok(Join("\n\n", texts))
  }

  /** The configuration keys a citation needs. */
  predicate Citable(cfg: Config) {
    && cfg.contributors.Some? && cfg.contributors.value != []
    && cfg.contributors.value[0].name.Some? && cfg.contributors.value[0].affiliation.Some?
    && Split(Lower(cfg.contributors.value[0].name.value)) != []
    && cfg.published.Some? && cfg.title.Some? && cfg.tagline.Some? && cfg.version.Some?
    && cfg.huggingFace.Some? && cfg.huggingFace.value.kind.Some? && cfg.huggingFace.value.repo.Some?
  }

  /** The key `generate` uses, for a citable configuration. */
  function KeyOf(cfg: Config): string
    requires Citable(cfg)
  {
    Key(LastName(cfg.contributors.value[0].name.value).value, Year(cfg.published.value), cfg.title.value)
  }

  /** With both DOIs: two records, software then dataset, keyed `key + "code"`
      and `key + "data"`, carrying the code and the dataset DOI; the software
      record points at the GitHub link, the dataset record at Hugging Face. Both
      name only the first contributor and carry "Version v, affiliation". */
  lemma DualEntries(cfg: Config)
    requires Citable(cfg) && Dual(cfg)
    ensures var rs, first := Entries(cfg).value, cfg.contributors.value[0];
      var note := Note(cfg.version.value, first.affiliation.value);
      && Entries(cfg).Ok? && |rs| == 2
      && rs[0].entryType == "software" && rs[0].key == KeyOf(cfg) + "code"
      && rs[0].fields == Fields(first.name.value, cfg.title.value + ": Code", Year(cfg.published.value),
                                cfg.githubLink.GetOr(""), cfg.githubRepoZenodoDoi.value, note)
      && rs[1].entryType == "dataset" && rs[1].key == KeyOf(cfg) + "data"
      && rs[1].fields == Fields(first.name.value, cfg.title.value + ": " + cfg.tagline.value,
                                Year(cfg.published.value), HuggingFaceUrl(cfg).value, cfg.datasetZenodoDoi.value, note)
  {
  }

  /** Otherwise: one dataset record with the plain key and the first DOI
      available (code, then dataset, then `doi`, else empty). */
  lemma SingleEntry(cfg: Config)
    requires Citable(cfg) && !Dual(cfg)
    ensures var rs, first := Entries(cfg).value, cfg.contributors.value[0];
      && Entries(cfg).Ok? && |rs| == 1
      && rs[0].entryType == "dataset" && rs[0].key == KeyOf(cfg)
      && rs[0].fields == Fields(first.name.value, cfg.title.value + ": " + cfg.tagline.value,
                                Year(cfg.published.value), HuggingFaceUrl(cfg).value, SingleDoi(cfg),
                                Note(cfg.version.value, first.affiliation.value))
  {
  }

  /** The key is the first author's last name as `LastName` finds it, then the
      year, then the title lower-cased without dashes and blanks; no dash occurs
      after the last name. */
  lemma KeyParts(cfg: Config)
    requires Citable(cfg)
    ensures var last := LastName(cfg.contributors.value[0].name.value);
      && last.Ok?
      && last.value <= KeyOf(cfg)
      && KeyOf(cfg)[|last.value|..] == Year(cfg.published.value) + TitleKey(cfg.title.value)
      && '-' !in KeyOf(cfg)[|last.value|..]
  {
    var last := LastName(cfg.contributors.value[0].name.value).value;
    NoDashAfter(last, Year(cfg.published.value), cfg.title.value);
  }

  lemma NoDashAfter(last: string, year: string, title: string)
    requires '-' !in year
    ensures '-' !in Key(last, year, title)[|last|..]
  {
    var titleKey := TitleKey(title);
    var rest := year + titleKey;
    assert forall k | 0 <= k < |rest| :: rest[k] == if k < |year| then year[k] else titleKey[k - |year|];
  }

  /** Rendered records joined by a blank line start with the first record's head. */
  lemma JoinedStartsWithHead(rs: seq<BibRecord>)
    requires rs != []
    ensures Head(rs[0]) <= Join("\n\n", seq(|rs|, i requires 0 <= i < |rs| => RenderAligned(rs[i])))
  {
    var texts := seq(|rs|, i requires 0 <= i < |rs| => RenderAligned(rs[i]));
    HeadStartsAligned(rs[0]);
    JoinStartsWithFirst("\n\n", texts);
    PrefixTransitive(Head(rs[0]), texts[0], Join("\n\n", texts));
  }

  /** The printed text begins with the head line of the first record: the
      software record with both DOIs, the dataset record otherwise. */
  lemma GenerateStartsWithHead(cfg: Config)
    requires Citable(cfg)
    ensures Generate(cfg).Ok? && Entries(cfg).Ok?
    ensures Head(Entries(cfg).value[0]) <= Generate(cfg).value
  {
    JoinedStartsWithHead(Entries(cfg).value);
  }
}
