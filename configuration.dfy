/** The project-description mapping read from config.yaml, as the modelled code
    reads it. Every key may be absent: `None` is a key missing from the YAML mapping. */
module Configuration {
  import opened Common

  /** One entry of the `contributors` list. */
  datatype Contributor = Contributor(
    name: Option<string>,
    email: Option<string>,
    affiliation: Option<string>,
    orcid: Option<string>)

  /** The nested `hugging_face` mapping: `type`, `repo` and `tags`. */
  datatype HuggingFace = HuggingFace(
    kind: Option<string>,
    repo: Option<string>,
    tags: Option<seq<string>>)

  datatype Config = Config(
    title: Option<string>,
    version: Option<string>,
    published: Option<string>,
    tagline: Option<string>,
    description: Option<string>,
    doi: Option<string>,
    language: Option<seq<string>>,
    tags: Option<seq<string>>,
    contributors: Option<seq<Contributor>>,
    githubLink: Option<string>,
    huggingfaceLink: Option<string>,
    zenodoLink: Option<string>,
    maintainer: Option<string>,
    projectType: Option<string>,        // the `type` key
    packageName: Option<string>,
    githubRepoZenodoDoi: Option<string>,
    datasetZenodoDoi: Option<string>,
    huggingFace: Option<HuggingFace>,
    changelog: Option<map<string, seq<string>>>)

  /** Python truthiness of a string-valued `config.get(key)`: present and non-empty. */
  predicate Truthy(o: Option<string>) {
    o.Some? && o.value != ""
  }

  /** `config.get("contributors", [])`. */
  function Contributors(cfg: Config): seq<Contributor> {
    cfg.contributors.GetOr([])
  }

  /** `config.get("hugging_face", {}).get("tags", [])`. */
  function HuggingFaceTags(cfg: Config): seq<string> {
    match cfg.huggingFace
    case None => []
    case Some(hf) => hf.tags.GetOr([])
  }

  /** Python's `a or b`: `a` when it is truthy, otherwise `b`. */
  function Or(a: Option<string>, b: Option<string>): Option<string> {
    if Truthy(a) then a else b
  }
}
