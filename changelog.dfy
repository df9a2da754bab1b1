/** auto_readme/integration/release/changelog.py: recording a release in
    CHANGELOG.md. The file is a mutable field of `ChangelogFile`, `None` while
    it does not exist; the entry for a version is built line by line and put in
    front of the file unless the version's header already occurs in it. */
module Changelog {
  import opened Common
  import opened Strings
  import opened Configuration

  /** `entry_header`. */
  function Header(version: string): string {
    "## [" + version + "]"
  }

  /** The bullet lines of an entry, "- c\n" per change, in order. */
  function Bullets(changes: seq<string>): (b: string)
    decreases |changes|
  {
    if changes == [] then ""
    else Bullets(changes[..|changes| - 1]) + "- " + changes[|changes| - 1] + "\n"
  }

  /** The entry for a version: its header line, its bullets and a blank line. */
  function Entry(version: string, changes: seq<string>): (e: string)
    ensures Header(version) + "\n" <= e
    ensures Contains(e, Header(version))
    ensures e[|e| - 1] == '\n'
  {
    var e := Header(version) + "\n" + Bullets(changes) + "\n";
    assert e == Header(version) + ("\n" + Bullets(changes) + "\n");
    PrefixContained(e, Header(version));
    e
  }

  /** Every change appears in the bullets as its own line "- c\n". */
  lemma {:induction false} BulletsListChanges(changes: seq<string>, i: int)
    requires 0 <= i < |changes|
    ensures Contains(Bullets(changes), "- " + changes[i] + "\n")
    decreases |changes|
  {
    var init, last := changes[..|changes| - 1], changes[|changes| - 1];
    var line := "- " + last + "\n";
    if i == |changes| - 1 {
      PrefixContained(line, line);
      ContainedInRight(Bullets(init), line, line);
      assert Bullets(changes) == Bullets(init) + line;
    } else {
      assert changes[i] == init[i];
      BulletsListChanges(init, i);
      ContainedInLeft(Bullets(init), line, "- " + changes[i] + "\n");
      assert Bullets(changes) == Bullets(init) + line;
    }
  }

  /** Every change of an entry is listed in it. */
  lemma EntryListsChanges(version: string, changes: seq<string>, i: int)
    requires 0 <= i < |changes|
    ensures Contains(Entry(version, changes), "- " + changes[i] + "\n")
  {
    var p := "- " + changes[i] + "\n";
    BulletsListChanges(changes, i);
    ContainedInRight(Header(version) + "\n", Bullets(changes), p);
    ContainedInLeft(Header(version) + "\n" + Bullets(changes), "\n", p);
  }

  /** The length of the entry: header, its newline, each "- c\n", final newline. */
  lemma {:induction false} BulletsLength(changes: seq<string>)
    ensures |Bullets(changes)| == 3 * |changes| + SumOfLengths(changes)
    decreases |changes|
  {
    if changes != [] {
      BulletsLength(changes[..|changes| - 1]);
    }
  }

  function SumOfLengths(xs: seq<string>): nat
    decreases |xs|
  {
    if xs == [] then 0 else SumOfLengths(xs[..|xs| - 1]) + |xs[|xs| - 1]|
  }

  /** What `append_to_changelog_md` leaves in the file: a missing file is created
      holding just the entry; a file in which the header already occurs is kept
      as it is; any other file gets the entry in front of its content. */
  function Merge(file: Option<string>, version: string, changes: seq<string>): (r: Option<string>)
    ensures r.Some?
    ensures Contains(r.value, Header(version))
  {
    match file
    case None => Some(Entry(version, changes))
    case Some(content) =>
      if Contains(content, Header(version)) then file
      else
        ContainedInLeft(Entry(version, changes), content, Header(version));
        Some(Entry(version, changes) + content)
  }

  /** The old content is never lost: it is the whole new content or its end. */
  lemma MergeKeepsContent(content: string, version: string, changes: seq<string>)
    ensures var merged := Merge(Some(content), version, changes).value;
      |content| <= |merged| && merged[|merged| - |content|..] == content
  {
    var merged := Merge(Some(content), version, changes).value;
    if !Contains(content, Header(version)) {
      assert merged == Entry(version, changes) + content;
      assert merged[|Entry(version, changes)|..] == content;
    }
  }

  /** Merging is idempotent for a version, whatever the changes listed the second
      time: after one merge the header is in the file. */
  lemma MergeIdempotent(file: Option<string>, version: string, changes: seq<string>, again: seq<string>)
    ensures Merge(Merge(file, version, changes), version, again) == Merge(file, version, changes)
  {
  }

  /** The possible outcomes of `append_to_changelog_md`, one per message it prints. */
  datatype Action = Created | AlreadyPresent | Prepended

  /** CHANGELOG.md. */
  class ChangelogFile {
    /** The file's content; `None` while the file does not exist. */
    var content: Option<string>

    constructor(initial: Option<string>)
      ensures content == initial
    {
      content := initial;
    }

    /** `append_to_changelog_md`. */
    method Append(version: string, changes: seq<string>) returns (action: Action)
      modifies this
      ensures content == Merge(old(content), version, changes)
      ensures action == Created <==> old(content).None?
      ensures action == AlreadyPresent <==> old(content).Some? && content == old(content)
    {
      var entry := BuildEntry(version, changes);
      if content.None? {
        content := Some(entry);
        return Created;
      }
      if Contains(content.value, Header(version)) {
        return AlreadyPresent;
      }
      var before := content.value;
      ContainedInLeft(entry, before, Header(version));
      content := Some(entry + before);
      assert Contains(content.value, Header(version));
      return Prepended;
    }
  }

  /** The entry, built as `append_to_changelog_md` builds it: the header line,
      then one `+=` per change, then the blank line. */
  method BuildEntry(version: string, changes: seq<string>) returns (entry: string)
    ensures entry == Entry(version, changes)
  {
    entry := Header(version) + "\n";
    var i := 0;
    while i < |changes|
      invariant 0 <= i <= |changes|
      invariant entry == Header(version) + "\n" + Bullets(changes[..i])
    {
      assert changes[..i + 1][..i] == changes[..i];
      entry := entry + "- " + changes[i] + "\n";
      i := i + 1;
    }
    assert changes[..i] == changes;
    entry := entry + "\n";
  }

  /** `str(config.get("version"))`: a missing version reads as "None". */
  function VersionKey(cfg: Config): string {
    cfg.version.GetOr("None")
  }

  /** The lookup of `get_changelog_from_config`: the changes listed under the
      version in the `changelog` mapping, none when either is missing. */
  function ChangesFor(cfg: Config): (changes: seq<string>)
    ensures cfg.changelog.Some? && VersionKey(cfg) in cfg.changelog.value ==>
      changes == cfg.changelog.value[VersionKey(cfg)]
    ensures cfg.changelog.None? || VersionKey(cfg) !in cfg.changelog.value ==> changes == []
  {
    match cfg.changelog
    case None => []
    case Some(m) => if VersionKey(cfg) in m then m[VersionKey(cfg)] else []
  }

  /** `update_changelog`: a configuration file that does not exist ends the run
      with status 1, as does one that cannot be parsed; a version without
      changes leaves CHANGELOG.md alone; otherwise the version's entry is merged
      in. `exists_` and `parse` stand for the file system and YAML. */
  method UpdateChangelog(configPath: string, exists_: string -> bool, parse: string -> Result<Config>,
                         log: ChangelogFile)
    returns (status: int)
    modifies log
    ensures !exists_(configPath) ==> status == 1 && log.content == old(log.content)
    ensures exists_(configPath) && parse(configPath).Err? ==> status == 1 && log.content == old(log.content)
    ensures exists_(configPath) && parse(configPath).Ok? ==>
      var cfg := parse(configPath).value;
      && status == 0
      && log.content == (if ChangesFor(cfg) == [] then old(log.content)
                         else Merge(old(log.content), VersionKey(cfg), ChangesFor(cfg)))
  {
    if !exists_(configPath) {
      return 1;
    }
    var loaded := parse(configPath);
    if loaded.Err? {
      return 1;
    }
    var cfg := loaded.value;
    var changes := ChangesFor(cfg);
    if changes == [] {
      return 0;
    }
    var _ := log.Append(VersionKey(cfg), changes);
    status := 0;
  }
}
