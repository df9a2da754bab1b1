/** src/generators/hf_generator.py: the Hugging Face dataset card of the `src`
    generators. Unlike auto_readme/generator.py, `pretty_name` is the tagline
    and `language` is required. The legacy main.py builds the same card with
    the tags of the `hugging_face` mapping, so the tags are a parameter of
    `CardWith`. */
module HFCardGenerator {
  import opened Common
  import opened Configuration
  import opened Records

  /** The card, with the keys read in dictionary order: `title`, `tagline`,
      `version`, `language`, `description`, then every contributor's four keys. */
  function CardWith(cfg: Config, tags: seq<string>): (r: Result<DatasetCard>)
    ensures r.Ok? <==> (cfg.title.Some? && cfg.tagline.Some? && cfg.version.Some? && cfg.language.Some?
                    && cfg.description.Some?
                    && forall i :: 0 <= i < |Contributors(cfg)| ==> CardAuthor(Contributors(cfg)[i]).Ok?)
    ensures r.Ok? ==>
      && r.value.title == cfg.title.value
      && r.value.prettyName == cfg.tagline.value
      && r.value.version == cfg.version.value
      && r.value.language == cfg.language.value
      && r.value.license == "mit"
      && r.value.tags == tags
      && r.value.description == cfg.description.value
      && |r.value.authors| == |Contributors(cfg)|
      && forall i :: 0 <= i < |Contributors(cfg)| ==> r.value.authors[i] == CardAuthor(Contributors(cfg)[i]).value
    ensures cfg.title.Some? && cfg.tagline.Some? && cfg.version.Some? && cfg.language.None? ==>
      r == Err(MissingKey("language"))
  {
    var title :- Require(cfg.title, "title");
    var prettyName :- Require(cfg.tagline, "tagline");
    var version :- Require(cfg.version, "version");
    var language :- Require(cfg.language, "language");
    var description :- Require(cfg.description, "description");
    var authors :- MapAll(Contributors(cfg), CardAuthor);
    Ok(DatasetCard(title, prettyName, version, language, "mit", tags, description, authors))
  }

  /** `HFCardGenerator.generate`: the tags are the top-level `tags`. */
  function Generate(cfg: Config): (r: Result<DatasetCard>)
    ensures r.Ok? ==> cfg.tagline.Some? && r.value.prettyName == cfg.tagline.value && r.value.tags == cfg.tags.GetOr([])
  {
    CardWith(cfg, cfg.tags.GetOr([]))
  }
}
