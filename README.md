# auto-research-readme, modelled in Dafny

auto-research-readme turns one project description, a YAML mapping usually
kept in `config.yaml`, into the text files a research project publishes:
a README, an MIT licence, a BibTeX citation, a Hugging Face dataset card and
Zenodo metadata. It also decides which platform automations apply to the
project (a GitHub release workflow, a PyPI publishing workflow, a
`.zenodo.json` file) and sets them up. Its release helper records each
version's changes at the head of `CHANGELOG.md`.

This project models the logic of those steps and proves what it promises:

- the artifact generators of `auto_readme/generator.py`, of the `src` generators
  (`citation_generator.py`, `zenodo_generator.py`, `hf_generator.py`) and of
  the legacy `main.py`, each a function from the configuration to a record or
  a text, or to the exception it raises (`KeyError` for a missing key,
  `IndexError` for a missing list element);
- the three integrations: applicability, the Zenodo metadata record, author
  name formatting, the PyPI package name, and the template arguments, target
  path and error wrapping of each `setup`;
- the integration dispatcher `setup_all_integrations`, as a loop with
  invariants over any applicability test and any setup outcome, proved
  against a specification function;
- the `make-all` and `make-readme` commands, as a loop that keeps going past
  failures and as an abort-on-first-failure sequence;
- the changelog merge, as a class whose `content` field is the file
  (`None` while the file does not exist).

The configuration is a datatype (`Configuration.Config`) with one `Option`
field per key the code reads. A missing key is `None`, and `config.get(k, d)`
becomes `GetOr(d)`. Python truthiness of a string is `Truthy`, and `a or b`
is `Or`. The file system, YAML parsing and Jinja rendering are parameters:
a predicate for "this path exists", a parse function, and "this write fails
with this error". A rendered template is an opaque function of its
arguments.

A few facts about the code that are easy to miss:

- A one-word author name is treated differently by each generator.
  `_format_author_name` keeps it (`ZenodoIntegration.FormatOneWord`).
  `generate_zenodo_metadata` in `auto_readme/generator.py` turns it into
  "Word, " (`Generator.LastCommaRestOneWord`). The `src` Zenodo generator and
  the legacy `main.py` raise `IndexError` (`ZenodoGenerator.SwapOneWord`).
- Every generator gives a name of three or more words a definite result:
  `Generator.LastCommaRestOfWords`, `ZenodoIntegration.FormatWords`,
  `ZenodoGenerator.SwapNameOfWords`.
- The legacy `main` tries every output and goes on past a failing one, as
  `make-all` does (`LegacyMain.RunAll`).

## Model

| member | source | states |
|---|---|---|
| Generator.ConfigCandidates | auto_readme/generator.py:35-47 | a non-default path is the only candidate; the default path tries config/config.yaml, then config.yaml |
| Generator.FirstExisting | auto_readme/generator.py:49-52 | the result is None exactly when no candidate exists, and otherwise the first existing candidate in order |
| Generator.ResolveConfigPath | auto_readme/generator.py:34-56 | the file opened, or FileNotFoundError with the message of each branch; a non-default path that does not exist is an error, and the default search takes the first of its two paths that exists |
| Generator.LoadConfig | auto_readme/generator.py:19-56 | a not-found error is passed on; otherwise the result is the parse of exactly the resolved file |
| Generator.CitationKeyShape | auto_readme/generator.py:158 | the key has the title's length, contains no blank, hyphen or upper-case letter, and maps each title character through lower-casing with "-" and " " turned into "_" |
| Generator.CitationKeyCollisions | auto_readme/generator.py:158 | two titles give the same key if and only if they have the same length and agree character by character once case is ignored and blanks, hyphens and underscores are identified |
| Generator.ContributorNames | auto_readme/generator.py:161 | the names of all contributors in order; KeyError("name") when any contributor lacks a name |
| Generator.CitationRecord | auto_readme/generator.py:157-173 | succeeds iff title, every name, published, tagline and version are present; a missing title raises KeyError("title"); the record is @dataset keyed key+"_data" with the six fields in order and doi/url defaulting to "" |
| Generator.Citation | auto_readme/generator.py:166-175 | succeeds iff the record does, and the text begins "@dataset{" + key + "_data," |
| Generator.CitationYear | auto_readme/generator.py:164-169 | the year is the first four characters of published, and the text contains `year={...}` with it |
| Generator.CitationAuthors | auto_readme/generator.py:161 | the author field is empty without contributors, the single name with one, and the names joined by " and " in order otherwise |
| Generator.CitationWithoutDoi | auto_readme/generator.py:171 | a missing doi does not stop the citation, and its doi field is empty |
| Generator.LicenseYear | auto_readme/generator.py:189 | the first four characters of published, or "2025" when it is absent |
| Generator.LicenseHolder | auto_readme/generator.py:190-191 | the first contributor's name, else "Author" with no contributors or no name |
| Generator.LicenseDocument | auto_readme/generator.py:193-213 | the text begins "MIT License" and contains the copyright line and the notice |
| Generator.License | auto_readme/generator.py:188-215 | never fails; begins "MIT License", contains "Copyright (c) {year} {holder}" and the permission notice |
| Generator.HuggingFaceCard | auto_readme/generator.py:94-111 | succeeds iff title, version, description and every contributor's four keys are present; pretty_name is the lower-cased title, language defaults to ["en"], tags to [], license is "mit", one author per contributor in order |
| Generator.LastCommaRest | auto_readme/generator.py:132 | a name with no word raises IndexError, any other name succeeds |
| Generator.LastCommaRestOfWords | auto_readme/generator.py:132 | a name of single-blank-separated words becomes the last word, ", " and the other words in order |
| Generator.LastCommaRestTwoWords | auto_readme/generator.py:132 | "First Last" becomes "Last, First" |
| Generator.LastCommaRestOneWord | auto_readme/generator.py:132 | a one-word name becomes "Word, " |
| Generator.LastCommaRestBlank | auto_readme/generator.py:132 | an empty or all-blank name raises IndexError |
| Generator.ZenodoCreator | auto_readme/generator.py:131-135 | succeeds iff name (with a word), affiliation and orcid are present; the creator carries the reformatted name and both keys |
| Generator.ZenodoMetadata | auto_readme/generator.py:126-142 | succeeds iff published, title, description, version and every creator succeed; upload type "dataset", licence "mit", keywords default [], one creator per contributor in order |
| Records.RenderCompactShows | auto_readme/generator.py:166-173 | every field of a compact record is printed on its own `  name={value}` line |
| Records.RenderAlignedShows | src/generators/citation_generator.py:22-29 | every field of an aligned record is printed on its own padded `  name   = {value}` line |
| Cli.Generate | auto_readme/cli.py:68-72 | README.md is the rendered template, LICENSE the licence (which never fails), citation.bib the citation |
| Cli.Produce | auto_readme/cli.py:76-79 | a file is produced iff its generator succeeds and its write does not fail, and then it holds the generated text |
| Cli.GenerateAll | auto_readme/cli.py:74-81 | the loop records exactly the files that were produced, in attempt order, whatever failed before them |
| Cli.MakeAll | auto_readme/cli.py:65-93 | a configuration that does not load gives status 1 and nothing generated; otherwise all three files are tried and the status is 1 iff none was generated |
| Cli.MakeAllSucceeds | auto_readme/cli.py:83-89 | status 0 iff the configuration loads and at least one file is produced |
| Cli.MakeAllLicenseSuffices | auto_readme/cli.py:68-89 | once the configuration loads and LICENSE is writable, the command succeeds and LICENSE is among the generated files |
| Cli.MakeAllWithoutTitle | auto_readme/cli.py:74-81 | without a title citation.bib is not generated, and README.md is generated iff it alone can be produced |
| Cli.MakeReadme | auto_readme/cli.py:35-52 | status 0 iff the configuration loads, README.md is produced and LICENSE is writable; README.md is written iff the configuration loads and README.md is produced; success writes README.md then LICENSE; a failure stops with status 1 and what was written before it |
| ZenodoIntegration.ApplicableIgnoresCase | auto_readme/integrations/zenodo/integration.py:36-43 | applicable iff "zenodo" occurs, ignoring case, in doi or zenodo_link (absent reads as ""); neither key present means not applicable |
| ZenodoIntegration.ApplicableWithLink | auto_readme/integrations/zenodo/integration.py:40-43 | a link containing "zenodo" makes the integration applicable |
| ZenodoIntegration.UploadType | auto_readme/integrations/zenodo/integration.py:97-103 | the result is one of the three upload types; "software" iff the type is "python-package", "publication" iff it is "research", "dataset" otherwise |
| ZenodoIntegration.FormatWords | auto_readme/integrations/zenodo/integration.py:173-179 | two or more words become the last word, ", " and the other words joined by blanks |
| ZenodoIntegration.FormatTwoWords | auto_readme/integrations/zenodo/integration.py:176-179 | "First Last" becomes "Last, First" |
| ZenodoIntegration.FormatOneWord | auto_readme/integrations/zenodo/integration.py:173-175 | a single word is returned as it is |
| ZenodoIntegration.FormatBlank | auto_readme/integrations/zenodo/integration.py:180-181 | an empty or all-blank name is returned unchanged |
| ZenodoIntegration.CreatorOf | auto_readme/integrations/zenodo/integration.py:107-117 | KeyError("name") iff the name is missing; the formatted name, affiliation defaulting to "", and orcid present iff truthy |
| ZenodoIntegration.Related | auto_readme/integrations/zenodo/integration.py:137-159 | omitted iff neither link is truthy; at most two entries; the GitHub entry (isSupplementTo, software) first, the Hugging Face entry (isIdenticalTo, dataset) last |
| ZenodoIntegration.MetadataOf | auto_readme/integrations/zenodo/integration.py:96-161 | fails only on a contributor without a name; the upload type, the defaults ("2025-01-01", "", "", "1.0.0", []), licence "MIT", one creator per contributor in order, doi present iff truthy, and the related identifiers |
| ZenodoIntegration.CollectCreators | auto_readme/integrations/zenodo/integration.py:105-117 | the appending loop yields the creator of every contributor in order, or the KeyError of the first without a name |
| ZenodoIntegration.BuildCreator | auto_readme/integrations/zenodo/integration.py:108-117 | the mutated creator dictionary equals the creator of the contributor |
| ZenodoIntegration.CollectRelated | auto_readme/integrations/zenodo/integration.py:137-159 | the appended list is empty iff the key is omitted, and otherwise it is the related identifiers |
| ZenodoIntegration.CreateMetadata | auto_readme/integrations/zenodo/integration.py:86-161 | the step-by-step construction yields exactly `MetadataOf` |
| ZenodoIntegration.Setup | auto_readme/integrations/zenodo/integration.py:58-70 | .zenodo.json holds the metadata and the message names it; a missing name or a failed write is re-raised prefixed "Failed to create Zenodo metadata: " |
| ZenodoIntegration.Requirements | auto_readme/integrations/zenodo/integration.py:79-84 | four items, the first mentioning "Zenodo" |
| PyPIIntegration.ApplicableCases | auto_readme/integrations/pypi/integration.py:36-39 | applicable iff type is present and lower-cases to "python-package"; absent type gives false; "Python-Package" applies |
| PyPIIntegration.NormalizeName | auto_readme/integrations/pypi/integration.py:110 | same length, no "_", no upper case; each character lower-cased with "_" turned into "-" |
| PyPIIntegration.NormalizeIdempotent | auto_readme/integrations/pypi/integration.py:110 | normalising twice gives the same name as normalising once |
| PyPIIntegration.PackageName | auto_readme/integrations/pypi/integration.py:104-110 | a truthy package_name verbatim; otherwise the normalised title, "my-package" without a title |
| PyPIIntegration.TemplateArguments | auto_readme/integrations/pypi/integration.py:64-68 | title defaulting to "Python Package", maintainer defaulting to "", and the package name |
| PyPIIntegration.Setup | auto_readme/integrations/pypi/integration.py:54-77 | writes the rendered workflow to .github/workflows/pypi-publish.yml; a failed mkdir, render or write is re-raised prefixed "Failed to create PyPI workflow: " |
| PyPIIntegration.Requirements | auto_readme/integrations/pypi/integration.py:86-92 | five items, the first mentioning "PyPI" |
| GitHubIntegration.ApplicableCases | auto_readme/integrations/github/integration.py:39-45 | applicable iff .git exists or the link is non-empty; .git alone suffices; an empty link counts as absent |
| GitHubIntegration.TemplateArguments | auto_readme/integrations/github/integration.py:70-74 | title defaulting to "Repository", github_link and maintainer defaulting to "" |
| GitHubIntegration.Setup | auto_readme/integrations/github/integration.py:60-83 | writes the rendered workflow to .github/workflows/release.yml; a failed mkdir, render or write is re-raised prefixed "Failed to create GitHub workflow: " |
| GitHubIntegration.Requirements | auto_readme/integrations/github/integration.py:92-96 | three items, the first mentioning "GitHub" |
| IntegrationBase.Describe | auto_readme/integration/base.py:66-68 | `__str__` is the name followed by " Integration" |
| IntegrationBase.NameWithoutSuffix | auto_readme/integration/base.py:64 | a class name without "Integration" is its own name |
| IntegrationBase.NameStripsSuffix | auto_readme/integration/base.py:64 | a word free of 'I' followed by "Integration" is named by that word |
| IntegrationBase.KnownNames | auto_readme/integration/base.py:61-64 | the three integrations are named "GitHub", "Zenodo" and "PyPI" |
| IntegrationBase.NameGitHub | auto_readme/integration/base.py:64 | GitHubIntegration is named "GitHub" |
| IntegrationBase.NameZenodo | auto_readme/integration/base.py:64 | ZenodoIntegration is named "Zenodo" |
| IntegrationBase.NamePyPI | auto_readme/integration/base.py:64 | PyPIIntegration is named "PyPI": the left-to-right pass skips the 'I' of "PyPI" |
| IntegrationBase.NamesDistinct | auto_readme/integration/base.py:61-68 | different integrations have different names and different descriptions |
| IntegrationBase.WriteWorkflow | auto_readme/integrations/github/integration.py:60-80 | the workflow directory is created, the template rendered and the file written, the first failure being the result |
| IntegrationBase.Wrap | auto_readme/integrations/github/integration.py:82-83 | a success is kept; a failure becomes one exception whose message is the prefix followed by the original message |
| Integrations.SetupAll | auto_readme/integration/__init__.py:40-62 | the loop over GitHub, Zenodo, PyPI returns and invokes exactly what the specification `Trace` says |
| Integrations.TraceFailedPrefix | auto_readme/integration/__init__.py:60-62 | after a failure the remaining integrations change nothing |
| Integrations.TraceSucceeds | auto_readme/integration/__init__.py:40-50 | a list is returned iff every applicable integration sets up; then exactly the applicable ones were set up and their names are returned in order |
| Integrations.TraceOkExactly | auto_readme/integration/__init__.py:40-50 | the loop fails iff some applicable integration fails to set up |
| Integrations.TraceOkNames | auto_readme/integration/__init__.py:40-50 | a loop that returns a list has set up exactly the applicable integrations, in order, and returns their names |
| Integrations.TraceFails | auto_readme/integration/__init__.py:42-62 | on failure the setups called are a prefix of the applicable ones; all but the last succeeded, and the last raised the escaping exception |
| Integrations.FilterApplicable | auto_readme/integration/__init__.py:45-49 | only applicable integrations are set up |
| Integrations.FilterAll | auto_readme/integration/__init__.py:20-24 | the applicable integrations are taken in the order GitHub, Zenodo, PyPI |
| Integrations.AppliedNames | auto_readme/integration/__init__.py:40-50 | a returned list is a sub-list of ["GitHub", "Zenodo", "PyPI"] in that order, at most three names, none repeated |
| Integrations.AppliedNamesListed | auto_readme/integration/__init__.py:42-50 | the names of the applicable integrations, listed in order |
| Integrations.FilterAllDistinct | auto_readme/integration/__init__.py:20-24 | no integration is applicable twice |
| Integrations.NoneApplicable | auto_readme/integration/__init__.py:64-70 | nothing applicable: no setup runs and [] is returned |
| Integrations.OnlyGitHub | auto_readme/integration/__init__.py:42-67 | only GitHub applicable and set up: the result is ["GitHub"] |
| Integrations.Reported | auto_readme/integration/__init__.py:49 | a setup's message on success, its exception on failure |
| Integrations.SetupAllIntegrations | auto_readme/integration/__init__.py:27-70 | the dispatcher over the three concrete integrations follows `Trace` |
| Integrations.BareProject | auto_readme/integration/__init__.py:42-70 | no repository, no GitHub link, no Zenodo reference and no type: nothing is set up and [] is returned |
| Changelog.Entry | auto_readme/integration/release/changelog.py:26-30 | the entry starts with its header line, contains the header and ends with a newline |
| Changelog.BulletsListChanges | auto_readme/integration/release/changelog.py:28-29 | every change appears as a line "- c" |
| Changelog.EntryListsChanges | auto_readme/integration/release/changelog.py:26-30 | every change is listed in the entry |
| Changelog.BulletsLength | auto_readme/integration/release/changelog.py:28-29 | the bullets are three characters longer per change than the changes |
| Changelog.Merge | auto_readme/integration/release/changelog.py:31-44 | after the merge the file exists and contains the version's header |
| Changelog.MergeKeepsContent | auto_readme/integration/release/changelog.py:43-44 | the old content is a suffix of the new content |
| Changelog.MergeIdempotent | auto_readme/integration/release/changelog.py:37-41 | merging the same version again leaves the file unchanged, whatever changes are listed |
| Changelog.ChangelogFile.constructor | auto_readme/integration/release/changelog.py:24-25 | the file starts with the given content, or absent |
| Changelog.ChangelogFile.Append | auto_readme/integration/release/changelog.py:24-45 | the new content is the merge: created with the entry when absent, unchanged when the header occurs, the entry prepended otherwise; the action reported matches |
| Changelog.BuildEntry | auto_readme/integration/release/changelog.py:26-30 | the `+=` loop builds exactly the entry: header line, one "- c" line per change, blank line |
| Changelog.ChangesFor | auto_readme/integration/release/changelog.py:18-20 | the changes under str(version) in the changelog mapping, [] when either is missing |
| Changelog.UpdateChangelog | auto_readme/integration/release/changelog.py:48-53 | a missing or unreadable configuration gives status 1 and leaves the file alone; no changes leaves it alone; otherwise the version's entry is merged in |
| CitationGenerator.FirstContributor | src/generators/citation_generator.py:6 | KeyError without contributors, IndexError with an empty list, the first contributor otherwise |
| CitationGenerator.LastName | src/generators/citation_generator.py:9 | the last word of the lower-cased name, IndexError iff it has no word |
| CitationGenerator.Year | src/generators/citation_generator.py:7 | the part of published before its first "-" |
| CitationGenerator.TitleKey | src/generators/citation_generator.py:10 | the lower-cased title with every "-" and " " deleted: a character is in the key iff it is in the lower-cased title and is neither "-" nor " ", with the same count, so the length drops by exactly the number of those two |
| CitationGenerator.TitleKeyAppend | src/generators/citation_generator.py:10 | the key of a concatenation is the concatenation of the keys, so kept characters stay in title order |
| CitationGenerator.TitleKeyChar | src/generators/citation_generator.py:10 | a "-" or " " gives nothing; any other character gives its lower-case form |
| CitationGenerator.Key | src/generators/citation_generator.py:11 | the key is the last name followed by the year and the squeezed title |
| CitationGenerator.HuggingFaceUrl | src/generators/citation_generator.py:14 | "https://huggingface.co/" + type + "/" + repo, failing iff a key is missing |
| CitationGenerator.SingleDoi | src/generators/citation_generator.py:43 | the first truthy of the GitHub DOI and the dataset DOI, else doi, else "" |
| CitationGenerator.Entries | src/generators/citation_generator.py:5-51 | records are produced iff the configuration holds every key they need; with both DOIs a @software record key+"code" then a @dataset record key+"data", otherwise one @dataset record with the plain key |
| CitationGenerator.Generate | src/generators/citation_generator.py:5-51 | a text is printed iff the configuration holds every key; with both DOIs it is the software record, a blank line and the dataset record, otherwise the single record |
| CitationGenerator.DualEntries | src/generators/citation_generator.py:20-40 | with both DOIs, a @software record key+"code" then a @dataset record key+"data", with their titles, URLs, DOIs, the first author only and the version note |
| CitationGenerator.SingleEntry | src/generators/citation_generator.py:41-51 | otherwise one @dataset record with the plain key and the DOI by priority |
| CitationGenerator.KeyParts | src/generators/citation_generator.py:6-11 | the key is the last name, then the year and the squeezed title, with no "-" after the last name |
| CitationGenerator.NoDashAfter | src/generators/citation_generator.py:7-11 | no "-" follows the last name in a key |
| CitationGenerator.JoinedStartsWithHead | src/generators/citation_generator.py:40 | records joined by a blank line start with the first record's head line |
| CitationGenerator.GenerateStartsWithHead | src/generators/citation_generator.py:22-44 | the text begins with the head line of its first record |
| ZenodoGenerator.SwapName | src/generators/zenodo_generator.py:14 | the second word, ", ", the first word; IndexError iff there are fewer than two words |
| ZenodoGenerator.SwapNameOfWords | src/generators/zenodo_generator.py:14 | the first two words swap and later words are dropped |
| ZenodoGenerator.SwapTwoWords | src/generators/zenodo_generator.py:14 | "First Last" becomes "Last, First" |
| ZenodoGenerator.SwapOneWord | src/generators/zenodo_generator.py:14 | a one-word name raises IndexError |
| ZenodoGenerator.SwappedCreator | src/generators/zenodo_generator.py:13-17 | succeeds iff a two-word name, affiliation and orcid are present; the swapped name and both keys copied |
| ZenodoGenerator.RecordWith | src/generators/zenodo_generator.py:7-24 | succeeds iff published, title, description, version and every creator succeed; a missing published raises KeyError("published"); upload type "dataset", licence "mit", one creator per contributor in order |
| ZenodoGenerator.Generate | src/generators/zenodo_generator.py:5-24 | succeeds iff published, title, description, version and every creator succeed; upload type "dataset", licence "mit", one swapped creator per contributor in order, keywords the tags, defaulting to [] |
| ZenodoGenerator.OneWordNameFails | src/generators/zenodo_generator.py:12-19 | one contributor with a one-word name makes the whole record fail |
| HFCardGenerator.CardWith | src/generators/hf_generator.py:7-24 | succeeds iff title, tagline, version, language, description and every contributor's four keys are present; a missing language raises KeyError("language"); pretty_name is the tagline, licence "mit", one author per contributor in order |
| HFCardGenerator.Generate | src/generators/hf_generator.py:5-24 | pretty_name is the tagline and tags are tags, defaulting to [] |
| LegacyMain.MiscKey | main.py:73 | the key has the title's length, no "-" and no upper case; "-" becomes "_" and blanks are kept |
| LegacyMain.MiscRecord | main.py:71-80 | succeeds iff title, every name, published and version are present; a @misc record with the six fields in order, doi and url defaulting to "" |
| LegacyMain.Citation | main.py:71-80 | the text begins "@misc{" + key + "," |
| LegacyMain.CitationShowsFields | main.py:74-79 | every field is printed on its own line |
| LegacyMain.HuggingFaceCard | main.py:22-44 | pretty_name is the tagline and tags come from hugging_face.tags |
| LegacyMain.ZenodoMetadata | main.py:47-68 | keywords come from hugging_face.tags; a missing title is an error |
| LegacyMain.Generate | main.py:127-133 | each of the five outputs succeeds iff its generator does, and its content is that generator's card, Zenodo record, citation, licence or README text |
| LegacyMain.Attempt | main.py:135-140 | an output is written iff it is generated and the write does not fail; the content written is the generated one; a generation error is raised as is, and otherwise the write's error |
| LegacyMain.AttemptAll | main.py:135-140 | the loop over the five outputs, in order, returns exactly those whose attempt succeeds |
| LegacyMain.RunAll | main.py:118-140 | a configuration that does not load raises; otherwise all five outputs are tried in order and exactly the written ones are returned |
| LegacyMain.RunAllIndependent | main.py:135-140 | an output is written iff its own generation and write succeed, whatever the others do |
| LegacyMain.RunAllWithoutTitle | main.py:127-140 | without a title, neither citation.bib nor metadata.json is written, and LICENSE.md still is when it renders and is writable |

## Left out

- Console output is not modelled: the progress and error lines of every command, and the requirements list `setup_all_integrations` prints. `get_requirements` is pure and its result is only printed, so "requirements are fetched only after a successful setup" has no counterpart in the model.
- YAML parsing is a parameter (`parse`). Non-string values are not modelled: a number for `version`, a `changelog: null` that makes `.get` raise `AttributeError`, an empty file that `yaml.safe_load` turns into `None`.
- Jinja rendering is a parameter: `generate_readme`, the legacy licence and README templates of `main.py`, `src/generators/license_generator.py`, `src/generators/readme_generator.py` and the workflow templates.
- The text that `json.dumps` prints is not modelled; the cards and metadata are records.
- File-system effects are parameters: `write_output`, `mkdir` and the writes inside each `setup` are "this operation fails with this error". `BaseGenerator.write_to_file` is not part of this model. Reading or writing `CHANGELOG.md` is assumed to succeed.
- `auto_readme/integration/release/release.py` (git subprocesses), `push_to_huggingface` (network), argparse wiring, `cmd_init` and the re-export-only modules are not part of this model. The dispatcher imports its classes from `auto_readme.integration.platforms`, which is not part of this model; the classes of `auto_readme/integrations` stand in for them.
- `lower()` and `split()` are modelled over ASCII letters and ASCII whitespace only, without Unicode case folding.
- Changelog.UpdateChangelog: a configuration that cannot be parsed makes the source raise an uncaught exception rather than call `sys.exit(1)`; both are modelled as status 1.
- Changelog.ChangesFor: looks the changes up under the version string itself, which is `str(version)` only for string versions.
- ZenodoIntegration.MetadataOf: the licence object `{"id": "MIT"}` is modelled by its identifier.
- LegacyMain.RunAll: `load_config` of `main.py` opens the path directly; its outcome is the `load` parameter.
