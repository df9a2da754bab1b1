/** auto_readme/integrations/zenodo/integration.py: the .zenodo.json metadata
    file for projects whose DOI or link mentions Zenodo. The metadata is built
    step by step in the source (a loop appending creators, keys added to a
    dictionary when a value is present); `CreateMetadata` follows those steps
    and is proved to produce `MetadataOf`, the specification the setup and the
    lemmas use. JSON text layout is not modelled: the metadata is a record whose
    optional keys are `Option` fields. */
module ZenodoIntegration {
  import opened Common
  import opened Strings
  import opened Configuration
  import opened IntegrationBase

  // ---------------------------------------------------------------------------
  // is_applicable

  /** "zenodo" occurs in the lower-cased `doi` or `zenodo_link` (absent reads as ""). */
  predicate IsApplicable(cfg: Config) {
    Contains(Lower(cfg.doi.GetOr("")), "zenodo") || Contains(Lower(cfg.zenodoLink.GetOr("")), "zenodo")
  }

  /** Applicability is a case-insensitive search of the DOI and the link; with
      neither key present it is false. */
  lemma ApplicableIgnoresCase(cfg: Config)
    ensures IsApplicable(cfg) <==>
      ContainsIgnoringCase(cfg.doi.GetOr(""), "zenodo") || ContainsIgnoringCase(cfg.zenodoLink.GetOr(""), "zenodo")
    ensures cfg.doi.None? && cfg.zenodoLink.None? ==> !IsApplicable(cfg)
  {
    ContainsLowerIgnoringCase(cfg.doi.GetOr(""), "zenodo");
    ContainsLowerIgnoringCase(cfg.zenodoLink.GetOr(""), "zenodo");
  }

  /** A link that names zenodo in lower case, such as "https://zenodo.org/record/1",
      makes the integration applicable whatever the DOI. */
  lemma ApplicableWithLink(cfg: Config)
    requires cfg.zenodoLink.Some? && Contains(cfg.zenodoLink.value, "zenodo")
    ensures IsApplicable(cfg)
  {
    var s := cfg.zenodoLink.value;
    var i :| 0 <= i <= |s| - 6 && OccursAt(s, "zenodo", i);
    LowerSlice(s, i, i + 6);
    assert Lower("zenodo") == "zenodo";
    assert OccursAt(Lower(s), "zenodo", i);
  }

  // ---------------------------------------------------------------------------
  // _create_zenodo_metadata

  /** One entry of `creators`; `orcid` is a key that is present only when set. */
  datatype Creator = Creator(name: string, affiliation: string, orcid: Option<string>)

  datatype RelatedIdentifier = RelatedIdentifier(identifier: string, relation: string, resourceType: string)

  /** The .zenodo.json record; `doi` and `relatedIdentifiers` are keys that are
      present only when set. `license` is the `id` of the licence object. */
  datatype Metadata = Metadata(
    uploadType: string,
    publicationDate: string,
    title: string,
    creators: seq<Creator>,
    description: string,
    license: string,
    keywords: seq<string>,
    version: string,
    doi: Option<string>,
    relatedIdentifiers: Option<seq<RelatedIdentifier>>)

  /** The `upload_type_mapping` lookup with "dataset" as the fallback. */
  function UploadType(projectType: string): (r: string)
    ensures r == "dataset" || r == "software" || r == "publication"
    ensures r == "software" <==> projectType == "python-package"
    ensures r == "publication" <==> projectType == "research"
  {
    if projectType == "dataset" then "dataset"
    else if projectType == "python-package" then "software"
    else if projectType == "research" then "publication"
    else "dataset"
  }

  /** `_format_author_name`: the words of the stripped name; one word is kept,
      several become "Last, First Middle", none leave the name as it was. */
  function FormatAuthorName(name: string): string {
    FormatParts(name, Split(Strip(name)))
  }

  /** The choice `_format_author_name` makes once the words of the stripped
      name are known. */
  function FormatParts(name: string, parts: seq<string>): string {
    if |parts| == 1 then parts[0]
    else if |parts| >= 2 then parts[|parts| - 1] + ", " + Join(" ", parts[..|parts| - 1])
    else name
  }

  /** A name made of words separated by single blanks: the last word moves to
      the front, followed by ", " and the other words in their order. */
  lemma FormatWords(ts: seq<string>)
    requires |ts| >= 2 && forall i :: 0 <= i < |ts| ==> IsToken(ts[i])
    ensures FormatAuthorName(Join(" ", ts)) == ts[|ts| - 1] + ", " + Join(" ", ts[..|ts| - 1])
  {
    var name := Join(" ", ts);
    StripJoinedTokens(ts);
    SplitJoin(ts);
    FormatOfParts(name, ts);
  }

  /** `_format_author_name` once the words of the stripped name are known. */
  lemma FormatOfParts(name: string, parts: seq<string>)
    requires Split(Strip(name)) == parts && |parts| >= 2
    ensures FormatAuthorName(name) == parts[|parts| - 1] + ", " + Join(" ", parts[..|parts| - 1])
  {
  }

  /** "First Last" becomes "Last, First". */
  lemma FormatTwoWords(first: string, last: string)
    requires IsToken(first) && IsToken(last)
    ensures FormatAuthorName(first + " " + last) == last + ", " + first
  {
    SplitTwoWords(first, last);
    FormatOfParts(first + " " + last, [first, last]);
    assert [first, last][..1] == [first];
  }

  /** The words of "First Last", stripped, are First and Last. */
  lemma SplitTwoWords(first: string, last: string)
    requires IsToken(first) && IsToken(last)
    ensures Split(Strip(first + " " + last)) == [first, last]
  {
    var ts := [first, last];
    assert Join(" ", ts) == first + " " + last by { assert ts[1..] == [last]; }
    StripJoinedTokens(ts);
    SplitJoin(ts);
  }

  /** A single word is kept as it is. */
  lemma FormatOneWord(w: string)
    requires IsToken(w)
    ensures FormatAuthorName(w) == w
  {
    StripJoinedTokens([w]);
    SplitJoin([w]);
  }

  /** A name that is empty or only whitespace is returned unchanged. */
  lemma FormatBlank(name: string)
    requires forall k :: 0 <= k < |name| ==> IsSpace(name[k])
    ensures FormatAuthorName(name) == name
  {
    SplitBlank(name);
    FormatNoParts(name);
  }

  lemma FormatNoParts(name: string)
    requires Split(Strip(name)) == []
    ensures FormatAuthorName(name) == name
  {
  }

  /** One creator: KeyError without `name`; `affiliation` defaults to ""; `orcid`
      only when it is truthy. */
  function CreatorOf(c: Contributor): (r: Result<Creator>)
    ensures r.Ok? <==> c.name.Some?
    ensures r.Err? ==> r.error == MissingKey("name")
    ensures r.Ok? ==>
      && r.value.name == FormatAuthorName(c.name.value)
      && r.value.affiliation == c.affiliation.GetOr("")
      && (r.value.orcid.Some? <==> Truthy(c.orcid))
      && (r.value.orcid.Some? ==> r.value.orcid == c.orcid)
  {
    var name :- Require(c.name, "name");
    Ok(Creator(FormatAuthorName(name), c.affiliation.GetOr(""), if Truthy(c.orcid) then c.orcid else None))
  }

  function GitHubRelation(link: string): RelatedIdentifier {
    RelatedIdentifier(link, "isSupplementTo", "software")
  }

  function HuggingFaceRelation(link: string): RelatedIdentifier {
    RelatedIdentifier(link, "isIdenticalTo", "dataset")
  }

  /** `related_identifiers`: the GitHub link, then the Hugging Face link, each
      when truthy; the key is left out when neither is. */
  function Related(cfg: Config): (r: Option<seq<RelatedIdentifier>>)
    ensures r.None? <==> !Truthy(cfg.githubLink) && !Truthy(cfg.huggingfaceLink)
    ensures r.Some? ==> 1 <= |r.value| <= 2
    ensures r.Some? ==> (|r.value| == 2 <==> Truthy(cfg.githubLink) && Truthy(cfg.huggingfaceLink))
    ensures Truthy(cfg.githubLink) ==> r.Some? && r.value[0] == GitHubRelation(cfg.githubLink.value)
    ensures Truthy(cfg.huggingfaceLink) ==>
      r.Some? && r.value[|r.value| - 1] == HuggingFaceRelation(cfg.huggingfaceLink.value)
  {
    var github := if Truthy(cfg.githubLink) then [GitHubRelation(cfg.githubLink.value)] else [];
    var hf := if Truthy(cfg.huggingfaceLink) then [HuggingFaceRelation(cfg.huggingfaceLink.value)] else [];
    if github + hf == [] then None else Some(github + hf)
  }

  /** What `_create_zenodo_metadata` returns: every key but `creators` has a
      default, so the only failure is a contributor without a name. */
  function MetadataOf(cfg: Config): (r: Result<Metadata>)
    ensures r.Ok? <==> forall i :: 0 <= i < |Contributors(cfg)| ==> Contributors(cfg)[i].name.Some?
    ensures r.Err? ==> r.error == MissingKey("name")
    ensures r.Ok? ==>
      && r.value.uploadType == UploadType(cfg.projectType.GetOr("dataset"))
      && r.value.publicationDate == cfg.published.GetOr("2025-01-01")
      && r.value.title == cfg.title.GetOr("")
      && r.value.description == cfg.description.GetOr("")
      && r.value.license == "MIT"
      && r.value.keywords == cfg.tags.GetOr([])
      && r.value.version == cfg.version.GetOr("1.0.0")
      && |r.value.creators| == |Contributors(cfg)|
      && (forall i :: 0 <= i < |Contributors(cfg)| ==> CreatorOf(Contributors(cfg)[i]) == Ok(r.value.creators[i]))
      && (r.value.doi.Some? <==> Truthy(cfg.doi))
      && (r.value.doi.Some? ==> r.value.doi == cfg.doi)
      && r.value.relatedIdentifiers == Related(cfg)
  {
    var creators :- MapAll(Contributors(cfg), CreatorOf);
    Ok(Metadata(
      UploadType(cfg.projectType.GetOr("dataset")),
      cfg.published.GetOr("2025-01-01"),
      cfg.title.GetOr(""),
      creators,
      cfg.description.GetOr(""),
      "MIT",
      cfg.tags.GetOr([]),
      cfg.version.GetOr("1.0.0"),
      if Truthy(cfg.doi) then cfg.doi else None,
      Related(cfg)))
  }

  /** The loop of `_create_zenodo_metadata` that appends one creator per
      contributor; the first contributor without a name raises KeyError. */
  method CollectCreators(contributors: seq<Contributor>) returns (r: Result<seq<Creator>>)
    ensures r == MapAll(contributors, CreatorOf)
  {
    var creators: seq<Creator> := [];
    var i := 0;
    while i < |contributors|
      invariant 0 <= i <= |contributors|
      invariant MapAll(contributors[..i], CreatorOf) == Ok(creators)
    {
      var c := contributors[i];
      if c.name.None? {
        r := Err(MissingKey("name"));
        MapAllStops(contributors, i, CreatorOf);
        return;
      }
      var creator := BuildCreator(c);
      MapAllExtend(contributors, i, CreatorOf, creators, creator);
      creators := creators + [creator];
      i := i + 1;
    }
    assert contributors[..i] == contributors;
    r := Ok(creators);
  }

  /** The `creator` dictionary of one named contributor, `orcid` added when truthy. */
  method BuildCreator(c: Contributor) returns (creator: Creator)
    requires c.name.Some?
    ensures CreatorOf(c) == Ok(creator)
  {
    creator := Creator(FormatAuthorName(c.name.value), c.affiliation.GetOr(""), None);
    if Truthy(c.orcid) {
      creator := creator.(orcid := c.orcid);
    }
  }

  /** `related_identifiers`, appended to in the order the source does. */
  method CollectRelated(cfg: Config) returns (related: seq<RelatedIdentifier>)
    ensures related == [] ==> Related(cfg).None?
    ensures related != [] ==> Related(cfg) == Some(related)
  {
    related := [];
    if Truthy(cfg.githubLink) {
      related := related + [GitHubRelation(cfg.githubLink.value)];
    }
    if Truthy(cfg.huggingfaceLink) {
      related := related + [HuggingFaceRelation(cfg.huggingfaceLink.value)];
    }
    assert related == (if Truthy(cfg.githubLink) then [GitHubRelation(cfg.githubLink.value)] else [])
                      + (if Truthy(cfg.huggingfaceLink) then [HuggingFaceRelation(cfg.huggingfaceLink.value)] else []);
  }

  /** `_create_zenodo_metadata`, step by step as the source builds it. */
  method CreateMetadata(cfg: Config) returns (r: Result<Metadata>)
    ensures r == MetadataOf(cfg)
  {
    var uploadType := UploadType(cfg.projectType.GetOr("dataset"));
    var creators :- CollectCreators(Contributors(cfg));

    var metadata := Metadata(uploadType, cfg.published.GetOr("2025-01-01"), cfg.title.GetOr(""), creators,
                             cfg.description.GetOr(""), "MIT", cfg.tags.GetOr([]), cfg.version.GetOr("1.0.0"),
                             None, None);
    if Truthy(cfg.doi) {
      metadata := metadata.(doi := cfg.doi);
    }
    var related := CollectRelated(cfg);
    if related != [] {
      metadata := metadata.(relatedIdentifiers := Some(related));
    }
    r := Ok(metadata);
  }

  // ---------------------------------------------------------------------------
  // setup and get_requirements

  const MetadataFile := ".zenodo.json"

  const FailurePrefix := "Failed to create Zenodo metadata: "

  /** `setup`: builds the metadata and writes .zenodo.json; a missing contributor
      name or a failed write is re-raised with the Zenodo prefix. */
  function Setup(cfg: Config, host: Host): (r: Result<Written<Metadata>>)
    ensures MetadataOf(cfg).Err? ==> r == Err(Failed(FailurePrefix + Message(MissingKey("name"))))
    ensures MetadataOf(cfg).Ok? && host.writeFails(MetadataFile).Some? ==>
      r == Err(Failed(FailurePrefix + Message(host.writeFails(MetadataFile).value)))
    ensures MetadataOf(cfg).Ok? && host.writeFails(MetadataFile).None? ==>
      r == Ok(Written(MetadataFile, MetadataOf(cfg).value, "Created Zenodo metadata file at " + MetadataFile))
  {
    var written :=
      var metadata :- MetadataOf(cfg);
      if host.writeFails(MetadataFile).Some? then Err(host.writeFails(MetadataFile).value)
      else Ok(Written(MetadataFile, metadata, "Created Zenodo metadata file at " + MetadataFile));
    Wrap(FailurePrefix, written)
  }

  /** The steps `get_requirements` lists. */
  const AccountBefore := "Create a "
  const AccountAfter := " account at https://zenodo.org/"
  const CreateAccount := AccountBefore + ("Zenodo" + AccountAfter)
  const UploadDataset := "Upload your dataset to Zenodo"
  const MetadataFilled := "The .zenodo.json file will automatically populate metadata fields"
  const UpdateDoi := "Update the DOI in config.yaml once your dataset is published"

  /** `get_requirements`. */
  function Requirements(): (r: seq<string>)
    ensures |r| == 4
    ensures Contains(r[0], "Zenodo")
  {
    ContainsMiddle(AccountBefore, "Zenodo", AccountAfter);
    [CreateAccount, UploadDataset, MetadataFilled, UpdateDoi]
  }
}
