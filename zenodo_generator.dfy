/** src/generators/zenodo_generator.py: the Zenodo metadata record of the `src`
    generators, whose creator names swap the first two words of a name. The
    same record is built by the legacy main.py with other keywords, so the
    keywords are a parameter of `RecordWith`. */
module ZenodoGenerator {
  import opened Common
  import opened Strings
  import opened Configuration
  import opened Records

  /** `f"{name.split()[1]}, {name.split()[0]}"`: the second word, a comma, the
      first word; later words are dropped and fewer than two raise IndexError. */
  function SwapName(name: string): (r: Result<string>)
    ensures r.Ok? <==> |Split(name)| >= 2
    ensures r.Ok? ==> r.value == Split(name)[1] + ", " + Split(name)[0]
    ensures r.Err? ==> r.error == IndexOutOfRange
  {
    var words := Split(name);
    if |words| < 2 then Err(IndexOutOfRange) else Ok(words[1] + ", " + words[0])
  }

  /** Words separated by single blanks: the first two swap, the rest are lost. */
  lemma SwapNameOfWords(ws: seq<string>)
    requires |ws| >= 2 && forall i :: 0 <= i < |ws| ==> IsToken(ws[i])
    ensures SwapName(Join(" ", ws)) == Ok(ws[1] + ", " + ws[0])
  {
    SplitJoin(ws);
  }

  /** "First Last" becomes "Last, First". */
  lemma SwapTwoWords(first: string, last: string)
    requires IsToken(first) && IsToken(last)
    ensures SwapName(first + " " + last) == Ok(last + ", " + first)
  {
    var ws := [first, last];
    SwapNameOfWords(ws);
    assert Join(" ", ws) == first + " " + last by { assert ws[1..] == [last]; }
  }

  /** A one-word name cannot be swapped. */
  lemma SwapOneWord(w: string)
    requires IsToken(w)
    ensures SwapName(w) == Err(IndexOutOfRange)
  {
    SplitJoinSingle(w);
  }

  /** One creator: the name (swapped), then `affiliation`, then `orcid`, each required. */
  function SwappedCreator(c: Contributor): (r: Result<Creator>)
    ensures r.Ok? <==> c.name.Some? && |Split(c.name.value)| >= 2 && c.affiliation.Some? && c.orcid.Some?
    ensures r.Ok? ==> r.value == Creator(SwapName(c.name.value).value, c.affiliation.value, c.orcid.value)
  {
    var raw :- Require(c.name, "name");
    var name :- SwapName(raw);
    var affiliation :- Require(c.affiliation, "affiliation");
    var orcid :- Require(c.orcid, "orcid");
    Ok(Creator(name, affiliation, orcid))
  }

  /** The record, with the keys read in dictionary order: `published`, `title`,
      the creators, `description`, `version`. Upload type and licence are fixed. */
  function RecordWith(cfg: Config, keywords: seq<string>): (r: Result<ZenodoRecord>)
    ensures r.Ok? <==> (cfg.published.Some? && cfg.title.Some? && cfg.description.Some? && cfg.version.Some?
                    && forall i :: 0 <= i < |Contributors(cfg)| ==> SwappedCreator(Contributors(cfg)[i]).Ok?)
    ensures r.Ok? ==>
      && r.value.uploadType == "dataset"
      && r.value.publicationDate == cfg.published.value
      && r.value.title == cfg.title.value
      && r.value.description == cfg.description.value
      && r.value.license == "mit"
      && r.value.keywords == keywords
      && r.value.version == cfg.version.value
      && |r.value.creators| == |Contributors(cfg)|
      && forall i :: 0 <= i < |Contributors(cfg)| ==> r.value.creators[i] == SwappedCreator(Contributors(cfg)[i]).value
    ensures cfg.published.None? ==> r == Err(MissingKey("published"))
  {
    var published :- Require(cfg.published, "published");
    var title :- Require(cfg.title, "title");
    var creators :- MapAll(Contributors(cfg), SwappedCreator);
    var description :- Require(cfg.description, "description");
    var version :- Require(cfg.version, "version");
    Ok(ZenodoRecord("dataset", published, title, creators, description, "mit", keywords, version))
  }

  /** `ZenodoGenerator.generate`: the keywords are the top-level `tags`. */
  function Generate(cfg: Config): (r: Result<ZenodoRecord>)
    ensures r.Ok? <==> (cfg.published.Some? && cfg.title.Some? && cfg.description.Some? && cfg.version.Some?
                    && forall i :: 0 <= i < |Contributors(cfg)| ==> SwappedCreator(Contributors(cfg)[i]).Ok?)
    ensures r.Ok? ==>
      && r.value.uploadType == "dataset"
      && r.value.publicationDate == cfg.published.value
      && r.value.title == cfg.title.value
      && r.value.description == cfg.description.value
      && r.value.license == "mit"
      && r.value.keywords == cfg.tags.GetOr([])
      && r.value.version == cfg.version.value
      && |r.value.creators| == |Contributors(cfg)|
      && forall i :: 0 <= i < |Contributors(cfg)| ==> r.value.creators[i] == SwappedCreator(Contributors(cfg)[i]).value
  {
    RecordWith(cfg, cfg.tags.GetOr([]))
  }

  /** A contributor whose name is a single word makes the whole record fail. */
  lemma OneWordNameFails(cfg: Config, i: int)
    requires 0 <= i < |Contributors(cfg)|
    requires Contributors(cfg)[i].name.Some? && IsToken(Contributors(cfg)[i].name.value)
    ensures Generate(cfg).Err?
  {
    SwapOneWord(Contributors(cfg)[i].name.value);
  }
}
