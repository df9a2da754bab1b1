/** auto_readme/generator.py: locating the configuration file and the
    generators for the citation, the MIT licence, the Hugging Face dataset card
    and the Zenodo metadata. README rendering goes through a Jinja template and
    is not modelled here; its outcome is a parameter wherever it is used. */
module Generator {
  import opened Common
  import opened Strings
  import opened Configuration
  import opened Records

  // ---------------------------------------------------------------------------
  // load_config: which file is read

  const DefaultConfigPath := "config.yaml"

  /** The paths `load_config` tries, in order. */
  function ConfigCandidates(configPath: string): (r: seq<string>)
    ensures configPath != DefaultConfigPath ==> r == [configPath]
    ensures configPath == DefaultConfigPath ==> r == ["config/config.yaml", "config.yaml"]
  {
    if configPath != DefaultConfigPath then [configPath]
    else ["config/config.yaml", "config.yaml"]
  }

  /** The first path of `paths` that exists. */
  function FirstExisting(paths: seq<string>, exists_: string -> bool): (r: Option<string>)
    ensures r.None? <==> forall i :: 0 <= i < |paths| ==> !exists_(paths[i])
    ensures r.Some? ==> exists i :: 0 <= i < |paths| && paths[i] == r.value && exists_(paths[i])
                               && forall j :: 0 <= j < i ==> !exists_(paths[j])
  {
    if paths == [] then None
    else if exists_(paths[0]) then Some(paths[0])
    else FirstExisting(paths[1..], exists_)
  }

  /** The file `load_config(configPath)` opens, or the FileNotFoundError it raises.
      `exists_` stands for `Path.exists`. */
  function ResolveConfigPath(configPath: string, exists_: string -> bool): (r: Result<string>)
    ensures configPath != DefaultConfigPath ==>
      r == if exists_(configPath) then Ok(configPath)
           else Err(NotFound("Could not find config file: " + configPath))
    ensures configPath == DefaultConfigPath ==>
      r == if exists_("config/config.yaml") then Ok("config/config.yaml")
           else if exists_("config.yaml") then Ok("config.yaml")
           else Err(NotFound("Could not find config.yaml in current directory or config/ folder"))
  {
    var candidates := ConfigCandidates(configPath);
    assert candidates[1..] == if configPath == DefaultConfigPath then ["config.yaml"] else [];
    assert configPath == DefaultConfigPath ==> candidates[1..][1..] == [];
    match FirstExisting(candidates, exists_)
    case Some(p) => Ok(p)
    case None =>
      assert !exists_(candidates[0]);
      assert configPath == DefaultConfigPath ==> !exists_(candidates[1]);
      if configPath != DefaultConfigPath then Err(NotFound("Could not find config file: " + configPath))
      else Err(NotFound("Could not find config.yaml in current directory or config/ folder"))
  }

  /** `load_config`: resolve the path, then parse that file; `parse` stands for
      opening the file and `yaml.safe_load`, which may fail in its own way. */
  function LoadConfig(configPath: string, exists_: string -> bool, parse: string -> Result<Config>): (r: Result<Config>)
    ensures ResolveConfigPath(configPath, exists_).Err? ==> r == Err(ResolveConfigPath(configPath, exists_).error)
    ensures ResolveConfigPath(configPath, exists_).Ok? ==> r == parse(ResolveConfigPath(configPath, exists_).value)
  {
    var path :- ResolveConfigPath(configPath, exists_);
    parse(path)
  }

  // ---------------------------------------------------------------------------
  // generate_citation

  /** One character of the citation key: lower-cased, with "-" and " " turned into "_". */
  function KeyChar(c: char): char {
    if c == '-' || c == ' ' then '_' else LowerChar(c)
  }

  /** `title.lower().replace("-", "_").replace(" ", "_")` */
  function CitationKey(title: string): string {
    ReplaceChar(ReplaceChar(Lower(title), '-', '_'), ' ', '_')
  }

  /** The key keeps the title's length, contains neither blank nor hyphen nor
      upper-case letter, and is the title character by character under `KeyChar`. */
  lemma CitationKeyShape(title: string)
    ensures |CitationKey(title)| == |title|
    ensures ' ' !in CitationKey(title) && '-' !in CitationKey(title)
    ensures forall i :: 0 <= i < |title| ==> CitationKey(title)[i] == KeyChar(title[i])
    ensures forall i :: 0 <= i < |title| ==> !IsUpper(CitationKey(title)[i])
  {
    var k := CitationKey(title);
    forall i | 0 <= i < |title| ensures k[i] == KeyChar(title[i]) {
      assert Lower(title)[i] == LowerChar(title[i]);
    }
    assert forall i :: 0 <= i < |k| ==> k[i] != ' ' && k[i] != '-';
  }

  /** Two titles give the same key exactly when they have the same length and
      agree character by character once case is ignored and blanks, hyphens
      and underscores are identified. */
  lemma CitationKeyCollisions(a: string, b: string)
    ensures CitationKey(a) == CitationKey(b) <==>
      |a| == |b| && forall i :: 0 <= i < |a| ==> KeyChar(a[i]) == KeyChar(b[i])
  {
    CitationKeyShape(a);
    CitationKeyShape(b);
    if |a| == |b| && forall i :: 0 <= i < |a| ==> KeyChar(a[i]) == KeyChar(b[i]) {
      assert forall i :: 0 <= i < |a| ==> CitationKey(a)[i] == CitationKey(b)[i];
    }
  }

  function ContributorName(c: Contributor): Result<string> {
    Require(c.name, "name")
  }

  /** `[c["name"] for c in config.get("contributors", [])]` */
  function ContributorNames(cfg: Config): (r: Result<seq<string>>)
    ensures r.Ok? <==> forall i :: 0 <= i < |Contributors(cfg)| ==> Contributors(cfg)[i].name.Some?
    ensures r.Ok? ==> (|r.value| == |Contributors(cfg)|
                   && forall i :: 0 <= i < |r.value| ==> r.value[i] == Contributors(cfg)[i].name.value)
    ensures r.Err? ==> r.error == MissingKey("name")
  {
    MapAll(Contributors(cfg), ContributorName)
  }

  /** The BibTeX record `generate_citation` prints, with the keys it requires read
      in the order the code reads them: title, contributor names, published,
      tagline, version. */
  function CitationRecord(cfg: Config): (r: Result<BibRecord>)
    ensures r.Ok? <==> (cfg.title.Some? && ContributorNames(cfg).Ok? && cfg.published.Some?
                    && cfg.tagline.Some? && cfg.version.Some?)
    ensures cfg.title.None? ==> r == Err(MissingKey("title"))
    ensures r.Ok? ==>
      && r.value.entryType == "dataset"
      && r.value.key == CitationKey(cfg.title.value) + "_data"
      && |r.value.fields| == 6
      && r.value.fields[0] == BibField("title", cfg.title.value + ": " + cfg.tagline.value)
      && r.value.fields[1] == BibField("author", Join(" and ", ContributorNames(cfg).value))
      && r.value.fields[2] == BibField("year", Take(cfg.published.value, 4))
      && r.value.fields[3] == BibField("version", cfg.version.value)
      && r.value.fields[4] == BibField("doi", cfg.doi.GetOr(""))
      && r.value.fields[5] == BibField("url", cfg.huggingfaceLink.GetOr(""))
  {
    var title :- Require(cfg.title, "title");
    var key := CitationKey(title);
    var names :- ContributorNames(cfg);
    var published :- Require(cfg.published, "published");
    var year := Take(published, 4);
    var tagline :- Require(cfg.tagline, "tagline");
    var version :- Require(cfg.version, "version");
    Ok(BibRecord("dataset", key + "_data", [
      BibField("title", title + ": " + tagline),
      BibField("author", Join(" and ", names)),
      BibField("year", year),
      BibField("version", version),
      BibField("doi", cfg.doi.GetOr("")),
      BibField("url", cfg.huggingfaceLink.GetOr(""))]))
  }

  /** `generate_citation`: the record above in the compact layout. */
  function Citation(cfg: Config): (r: Result<string>)
    ensures r.Ok? <==> CitationRecord(cfg).Ok?
    ensures r.Ok? ==> "@dataset{" + CitationKey(cfg.title.value) + "_data," <= r.value
  {
    var rec :- CitationRecord(cfg);
    assert Head(rec) == "@dataset{" + CitationKey(cfg.title.value) + "_data,";
    Ok(RenderCompact(rec))
  }

  /** The year the citation shows is the first four characters of `published`
      (all of it when shorter), and it appears in the text as `year={...}`. */
  lemma CitationYear(cfg: Config)
    requires Citation(cfg).Ok?
    ensures var year := Take(cfg.published.value, 4);
      && (|cfg.published.value| >= 4 ==> year == cfg.published.value[..4])
      && Contains(Citation(cfg).value, "  year={" + year + "}")
  {
    var rec := CitationRecord(cfg).value;
    var year := Take(cfg.published.value, 4);
    assert Citation(cfg).value == RenderCompact(rec);
    RenderCompactShows(rec, 2);
    YearLine(year);
  }

  lemma YearLine(year: string)
    ensures CompactLine(BibField("year", year)) == "  year={" + year + "}"
  {
  }

  /** The author field lists the contributor names joined by " and " in order;
      it is empty without contributors and is the one name with a single contributor. */
  lemma CitationAuthors(cfg: Config)
    requires CitationRecord(cfg).Ok?
    ensures Contributors(cfg) == [] ==> CitationRecord(cfg).value.fields[1].value == ""
    ensures |Contributors(cfg)| == 1 ==>
      CitationRecord(cfg).value.fields[1].value == Contributors(cfg)[0].name.value
    ensures |Contributors(cfg)| >= 2 ==>
      var names := ContributorNames(cfg).value;
      CitationRecord(cfg).value.fields[1].value
        == Join(" and ", names[..|names| - 1]) + " and " + names[|names| - 1]
  {
    var names := ContributorNames(cfg).value;
    if |names| >= 2 {
      assert names == names[..|names| - 1] + [names[|names| - 1]];
      JoinAppend(" and ", names[..|names| - 1], [names[|names| - 1]]);
    }
  }

  /** A missing `doi` does not stop the citation from being generated: it
      prints as an empty field. */
  lemma CitationWithoutDoi(cfg: Config)
    requires CitationRecord(cfg).Ok?
    ensures CitationRecord(cfg.(doi := None)).Ok?
    ensures CitationRecord(cfg.(doi := None)).value.fields[4] == BibField("doi", "")
  {
    assert ContributorNames(cfg.(doi := None)) == ContributorNames(cfg);
  }

  // ---------------------------------------------------------------------------
  // generate_license

  /** `config.get("published", "2025")[:4]` */
  function LicenseYear(cfg: Config): (year: string)
    ensures cfg.published.None? ==> year == "2025"
    ensures cfg.published.Some? ==> year <= cfg.published.value && |year| == if |cfg.published.value| < 4 then |cfg.published.value| else 4
  {
    Take(cfg.published.GetOr("2025"), 4)
  }

  /** The first contributor's `name`, else "Author". */
  function LicenseHolder(cfg: Config): (holder: string)
    ensures Contributors(cfg) != [] && Contributors(cfg)[0].name.Some? ==> holder == Contributors(cfg)[0].name.value
    ensures Contributors(cfg) == [] || Contributors(cfg)[0].name.None? ==> holder == "Author"
  {
    var cs := Contributors(cfg);
    if cs != [] then cs[0].name.GetOr("Author") else "Author"
  }

  /** The lines of the MIT permission notice, blank lines included. */
  const MitLines: seq<string> := [
    "Permission is hereby granted, free of charge, to any person obtaining a copy",
    "of this software and associated documentation files (the \"Software\"), to deal",
    "in the Software without restriction, including without limitation the rights",
    "to use, copy, modify, merge, publish, distribute, sublicense, and/or sell",
    "copies of the Software, and to permit persons to whom the Software is",
    "furnished to do so, subject to the following conditions:",
    "",
    "The above copyright notice and this permission notice shall be included in all",
    "copies or substantial portions of the Software.",
    "",
    "THE SOFTWARE IS PROVIDED \"AS IS\", WITHOUT WARRANTY OF ANY KIND, EXPRESS OR",
    "IMPLIED, INCLUDING BUT NOT LIMITED TO THE WARRANTIES OF MERCHANTABILITY,",
    "FITNESS FOR A PARTICULAR PURPOSE AND NONINFRINGEMENT. IN NO EVENT SHALL THE",
    "AUTHORS OR COPYRIGHT HOLDERS BE LIABLE FOR ANY CLAIM, DAMAGES OR OTHER",
    "LIABILITY, WHETHER IN AN ACTION OF CONTRACT, TORT OR OTHERWISE, ARISING FROM,",
    "OUT OF OR IN CONNECTION WITH THE SOFTWARE OR THE USE OR OTHER DEALINGS IN THE",
    "SOFTWARE."]

  /** The MIT permission notice: its lines separated by newlines. */
  const MitPermission := Join("\n", MitLines)

  /** The layout of the licence file: title, copyright line, notice. */
  function LicenseDocument(copyright: string, notice: string): (text: string)
    ensures "MIT License\n\n" <= text
    ensures Contains(text, copyright)
    ensures Contains(text, notice)
  {
    var text := "MIT License\n\n" + copyright + "\n\n" + notice;
    PrefixContained(copyright + "\n\n" + notice, copyright);
    ContainedInRight("MIT License\n\n", copyright + "\n\n" + notice, copyright);
    assert text == "MIT License\n\n" + (copyright + "\n\n" + notice);
    PrefixContained(notice, notice);
    ContainedInRight("MIT License\n\n" + copyright + "\n\n", notice, notice);
    text
  }

  /** `generate_license`: never fails. The text begins "MIT License", carries the
      copyright line with the year and holder, and then the permission notice. */
  function License(cfg: Config): (text: string)
    ensures "MIT License\n\n" <= text
    ensures Contains(text, "Copyright (c) " + LicenseYear(cfg) + " " + LicenseHolder(cfg))
    ensures Contains(text, MitPermission)
  {
    LicenseDocument("Copyright (c) " + LicenseYear(cfg) + " " + LicenseHolder(cfg), MitPermission)
  }

  // ---------------------------------------------------------------------------
  // generate_huggingface_card

  /** `generate_huggingface_card`: requires title, version, description and every
      contributor's four keys; `pretty_name` is the lower-cased title. */
  function HuggingFaceCard(cfg: Config): (r: Result<DatasetCard>)
    ensures r.Ok? <==> (cfg.title.Some? && cfg.version.Some? && cfg.description.Some?
                    && forall i :: 0 <= i < |Contributors(cfg)| ==> CardAuthor(Contributors(cfg)[i]).Ok?)
    ensures r.Ok? ==>
      && r.value.title == cfg.title.value
      && r.value.prettyName == Lower(cfg.title.value)
      && r.value.version == cfg.version.value
      && r.value.language == cfg.language.GetOr(["en"])
      && r.value.license == "mit"
      && r.value.tags == cfg.tags.GetOr([])
      && r.value.description == cfg.description.value
      && |r.value.authors| == |Contributors(cfg)|
      && forall i :: 0 <= i < |Contributors(cfg)| ==> r.value.authors[i] == CardAuthor(Contributors(cfg)[i]).value
  {
    var title :- Require(cfg.title, "title");
    var version :- Require(cfg.version, "version");
    var description :- Require(cfg.description, "description");
    var authors :- MapAll(Contributors(cfg), CardAuthor);
    Ok(DatasetCard(title, Lower(title), version, cfg.language.GetOr(["en"]), "mit",
                   cfg.tags.GetOr([]), description, authors))
  }

  // ---------------------------------------------------------------------------
  // generate_zenodo_metadata

  /** `f"{name.split()[-1]}, {' '.join(name.split()[:-1])}"`: IndexError on a
      name without any word. */
  function LastCommaRest(name: string): (r: Result<string>)
    ensures r.Ok? <==> Split(name) != []
    ensures r.Err? ==> r.error == IndexOutOfRange
  {
    var parts := Split(name);
    if parts == [] then Err(IndexOutOfRange)
    else Ok(parts[|parts| - 1] + ", " + Join(" ", parts[..|parts| - 1]))
  }

  /** A name of words separated by single blanks becomes "Last, First Middle";
      a one-word name becomes "Word, ". */
  lemma LastCommaRestOfWords(ts: seq<string>)
    requires ts != [] && forall i :: 0 <= i < |ts| ==> IsToken(ts[i])
    ensures LastCommaRest(Join(" ", ts)) == Ok(ts[|ts| - 1] + ", " + Join(" ", ts[..|ts| - 1]))
  {
    SplitJoin(ts);
  }

  /** "First Last" becomes "Last, First". */
  lemma LastCommaRestTwoWords(first: string, last: string)
    requires IsToken(first) && IsToken(last)
    ensures LastCommaRest(first + " " + last) == Ok(last + ", " + first)
  {
    var ts := [first, last];
    LastCommaRestOfWords(ts);
    assert Join(" ", ts[..1]) == first by { assert ts[..1] == [first]; }
    assert Join(" ", ts) == first + " " + last by { assert ts[1..] == [last]; }
  }

  /** A one-word name becomes "Word, ". */
  lemma LastCommaRestOneWord(w: string)
    requires IsToken(w)
    ensures LastCommaRest(w) == Ok(w + ", ")
  {
    LastCommaRestOfWords([w]);
    assert Join(" ", [w]) == w;
    assert [w][..0] == [];
    assert Join(" ", [w][..0]) == "";
    assert w + ", " + "" == w + ", ";
  }

  /** A name that is empty or only whitespace makes the generator fail. */
  lemma LastCommaRestBlank(name: string)
    requires forall k :: 0 <= k < |name| ==> IsSpace(name[k])
    ensures LastCommaRest(name) == Err(IndexOutOfRange)
    decreases |name|
  {
    if name != [] {
      LastCommaRestBlank(name[1..]);
      assert Split(name) == Split(name[1..]) by { SplitSkipsSpace(name[0], name[1..]); assert name == [name[0]] + name[1..]; }
    }
  }

  function ZenodoCreator(c: Contributor): (r: Result<Creator>)
    ensures r.Ok? <==> c.name.Some? && LastCommaRest(c.name.value).Ok? && c.affiliation.Some? && c.orcid.Some?
    ensures r.Ok? ==> r.value == Creator(LastCommaRest(c.name.value).value, c.affiliation.value, c.orcid.value)
  {
    var raw :- Require(c.name, "name");
    var name :- LastCommaRest(raw);
    var affiliation :- Require(c.affiliation, "affiliation");
    var orcid :- Require(c.orcid, "orcid");
    Ok(Creator(name, affiliation, orcid))
  }

  /** `generate_zenodo_metadata`: upload type and licence are fixed, keywords
      default to []; one creator per contributor, in order. */
  function ZenodoMetadata(cfg: Config): (r: Result<ZenodoRecord>)
    ensures r.Ok? <==> (cfg.published.Some? && cfg.title.Some? && cfg.description.Some? && cfg.version.Some?
                    && forall i :: 0 <= i < |Contributors(cfg)| ==> ZenodoCreator(Contributors(cfg)[i]).Ok?)
    ensures r.Ok? ==>
      && r.value.uploadType == "dataset"
      && r.value.publicationDate == cfg.published.value
      && r.value.title == cfg.title.value
      && r.value.description == cfg.description.value
      && r.value.license == "mit"
      && r.value.keywords == cfg.tags.GetOr([])
      && r.value.version == cfg.version.value
      && |r.value.creators| == |Contributors(cfg)|
      && forall i :: 0 <= i < |Contributors(cfg)| ==> r.value.creators[i] == ZenodoCreator(Contributors(cfg)[i]).value
  {
    var published :- Require(cfg.published, "published");
    var title :- Require(cfg.title, "title");
    var creators :- MapAll(Contributors(cfg), ZenodoCreator);
    var description :- Require(cfg.description, "description");
    var version :- Require(cfg.version, "version");
    Ok(ZenodoRecord("dataset", published, title, creators, description, "mit", cfg.tags.GetOr([]), version))
  }
}
