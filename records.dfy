/** The structured outputs the generators build before serialising them:
    dataset-card and archive-metadata records, and BibTeX records with the
    two layouts the repository prints them in. JSON layout is not modelled;
    BibTeX text is, because it is built by string formatting. */
module Records {
  import opened Common
  import opened Strings
  import opened Configuration

  /** One entry of a dataset card's `authors` list. */
  datatype Author = Author(name: string, email: string, affiliation: string, orcid: string)

  /** `{"name": c["name"], "email": c["email"], "affiliation": c["affiliation"],
      "orcid": c["orcid"]}`: all four keys are required, read in that order. */
  function CardAuthor(c: Contributor): (r: Result<Author>)
    ensures r.Ok? <==> c.name.Some? && c.email.Some? && c.affiliation.Some? && c.orcid.Some?
    ensures r.Ok? ==> r.value == Author(c.name.value, c.email.value, c.affiliation.value, c.orcid.value)
  {
    var name :- Require(c.name, "name");
    var email :- Require(c.email, "email");
    var affiliation :- Require(c.affiliation, "affiliation");
    var orcid :- Require(c.orcid, "orcid");
    Ok(Author(name, email, affiliation, orcid))
  }

  /** The Hugging Face dataset card. */
  datatype DatasetCard = DatasetCard(
    title: string,
    prettyName: string,
    version: string,
    language: seq<string>,
    license: string,
    tags: seq<string>,
    description: string,
    authors: seq<Author>)

  /** One entry of a Zenodo record's `creators` list. */
  datatype Creator = Creator(name: string, affiliation: string, orcid: string)

  /** The Zenodo metadata record written by the plain generators. */
  datatype ZenodoRecord = ZenodoRecord(
    uploadType: string,
    publicationDate: string,
    title: string,
    creators: seq<Creator>,
    description: string,
    license: string,
    keywords: seq<string>,
    version: string)

  // ---------------------------------------------------------------------------
  // BibTeX

  datatype BibField = BibField(name: string, value: string)

  /** `@entryType{key, field = {value}, ...}` */
  datatype BibRecord = BibRecord(entryType: string, key: string, fields: seq<BibField>)

  /** The first line of a rendered record. */
  function Head(r: BibRecord): string {
    "@" + r.entryType + "{" + r.key + ","
  }

  /** `  name={value}`, the layout of auto_readme/generator.py and main.py. */
  function CompactLine(f: BibField): string {
    "  " + f.name + "={" + f.value + "}"
  }

  /** `s` padded with blanks on the right to at least `width` characters. */
  function PadRight(s: string, width: nat): (r: string)
    ensures s <= r
    ensures |r| == if |s| < width then width else |s|
    decreases width - |s|
  {
    if |s| < width then PadRight(s + " ", width) else s
  }

  /** `  name   = {value}` with the name padded to six columns, the layout of
      src/generators/citation_generator.py. */
  function AlignedLine(f: BibField): string {
    "  " + PadRight(f.name, 6) + " = {" + f.value + "}"
  }

  function CompactLines(fields: seq<BibField>): (r: seq<string>)
    ensures |r| == |fields|
    ensures forall i :: 0 <= i < |fields| ==> r[i] == CompactLine(fields[i])
  {
    seq(|fields|, i requires 0 <= i < |fields| => CompactLine(fields[i]))
  }

  function AlignedLines(fields: seq<BibField>): (r: seq<string>)
    ensures |r| == |fields|
    ensures forall i :: 0 <= i < |fields| ==> r[i] == AlignedLine(fields[i])
  {
    seq(|fields|, i requires 0 <= i < |fields| => AlignedLine(fields[i]))
  }

  function RenderCompact(r: BibRecord): string {
    Head(r) + "\n" + Join(",\n", CompactLines(r.fields)) + "\n}"
  }

  function RenderAligned(r: BibRecord): string {
    Head(r) + "\n" + Join(",\n", AlignedLines(r.fields)) + "\n}"
  }

  /** A rendered record begins with its head line. */
  lemma HeadStartsAligned(r: BibRecord)
    ensures Head(r) <= RenderAligned(r)
  {
    var rest := "\n" + Join(",\n", AlignedLines(r.fields)) + "\n}";
    assert RenderAligned(r) == Head(r) + rest;
  }

  /** Every element of a list occurs in the list joined with any separator. */
  lemma {:induction false} JoinContainsElement(sep: string, xs: seq<string>, i: nat)
    requires i < |xs|
    ensures Contains(Join(sep, xs), xs[i])
  {
    if |xs| == 1 {
      PrefixContained(xs[0], xs[0]);
    } else if i == 0 {
      PrefixContained(xs[0], xs[0]);
      ContainedInLeft(xs[0], sep + Join(sep, xs[1..]), xs[0]);
      assert xs[0] + sep + Join(sep, xs[1..]) == xs[0] + (sep + Join(sep, xs[1..]));
    } else {
      JoinContainsElement(sep, xs[1..], i - 1);
      ContainedInRight(xs[0] + sep, Join(sep, xs[1..]), xs[i]);
    }
  }

  /** A rendered record starts with its head line and shows every field on a line of its own. */
  lemma RenderCompactShows(r: BibRecord, i: nat)
    requires i < |r.fields|
    ensures Head(r) <= RenderCompact(r)
    ensures Contains(RenderCompact(r), CompactLine(r.fields[i]))
  {
    var body := Join(",\n", CompactLines(r.fields));
    JoinContainsElement(",\n", CompactLines(r.fields), i);
    ContainedInRight(Head(r) + "\n", body, CompactLine(r.fields[i]));
    ContainedInLeft(Head(r) + "\n" + body, "\n}", CompactLine(r.fields[i]));
  }

  lemma RenderAlignedShows(r: BibRecord, i: nat)
    requires i < |r.fields|
    ensures Head(r) <= RenderAligned(r)
    ensures Contains(RenderAligned(r), AlignedLine(r.fields[i]))
  {
    var body := Join(",\n", AlignedLines(r.fields));
    JoinContainsElement(",\n", AlignedLines(r.fields), i);
    ContainedInRight(Head(r) + "\n", body, AlignedLine(r.fields[i]));
    ContainedInLeft(Head(r) + "\n" + body, "\n}", AlignedLine(r.fields[i]));
  }
}
