/**
 * The output directory of a crawl, seen as a write-once ledger keyed by item id.
 *
 * For an item `id` the crawler uses four file names in the directory:
 * `{id}.json` (metadata, written on success), `{id}.error.txt` (error text,
 * written on failure) and `{id}.jpg` / `{id}.png` (the image bytes). The
 * presence of the first or the second makes the id terminal.
 */
module Ledger {

  /** `fetched_at`, an aware datetime in Asia/Tokyo; kept opaque. */
  type Timestamp = int

  /**
   * The metadata record written to `{id}.json`. The three crawlers declare
   * three record classes with exactly these five fields.
   */
  datatype Metadata = Metadata(
    id: string,
    url: string,
    contentType: string,
    fileName: string,
    fetchedAt: Timestamp)

  /** What a file of the output directory holds. */
  datatype FileContent =
    | Text(text: string)       // `{id}.error.txt`
    | Bytes(data: seq<bv8>)    // `{id}.jpg`, `{id}.png`
    | Json(meta: Metadata)     // `{id}.json`, serialised by the record's JSON dump

  type Directory = map<string, FileContent>

  const METADATA_SUFFIX := ".json"
  const ERROR_SUFFIX := ".error.txt"
  const JPEG_SUFFIX := ".jpg"
  const PNG_SUFFIX := ".png"

  function MetadataName(id: string): string { id + METADATA_SUFFIX }

  function ErrorName(id: string): string { id + ERROR_SUFFIX }

  /** The ledger check: an id is terminal once its metadata or its error file exists. */
  predicate IsTerminal(files: Directory, id: string)
  {
    MetadataName(id) in files || ErrorName(id) in files
  }

  /** The file names that processing `id` may write. */
  predicate Owns(id: string, name: string)
  {
    || name == MetadataName(id)
    || name == ErrorName(id)
    || name == id + JPEG_SUFFIX
    || name == id + PNG_SUFFIX
  }

  /**
   * The ledger check looks at the id's own files only, and not at its image
   * files: an orphan `{id}.jpg` or `{id}.png` does not make an id terminal.
   */
  lemma TerminalExactlyWhenOutcomeFile(files: Directory, id: string)
    ensures IsTerminal(files, id) <==>
      exists n :: n in files && Owns(id, n) && n != id + JPEG_SUFFIX && n != id + PNG_SUFFIX
  {
    if IsTerminal(files, id) {
      var n := if MetadataName(id) in files then MetadataName(id) else ErrorName(id);
      // the image names are the only ones four characters longer than the id
      assert |n| != |id + JPEG_SUFFIX| && |n| != |id + PNG_SUFFIX|;
    }
  }

  /** The suffix an owned name adds to its id. */
  function OwnedSuffix(id: string, name: string): (suffix: string)
    requires Owns(id, name)
    ensures name == id + suffix
    ensures suffix == METADATA_SUFFIX || suffix == ERROR_SUFFIX || suffix == JPEG_SUFFIX || suffix == PNG_SUFFIX
  {
    if name == MetadataName(id) then METADATA_SUFFIX
    else if name == ErrorName(id) then ERROR_SUFFIX
    else if name == id + JPEG_SUFFIX then JPEG_SUFFIX
    else PNG_SUFFIX
  }

  /**
   * Two of the four suffixes that end the same name are the same suffix: their
   * last characters ('n', 't', 'g', 'g') and third-to-last characters
   * ('s', 't', 'j', 'p') already tell them apart.
   */
  lemma SuffixesDiffer(s: string, t: string, name: string)
    requires s == METADATA_SUFFIX || s == ERROR_SUFFIX || s == JPEG_SUFFIX || s == PNG_SUFFIX
    requires t == METADATA_SUFFIX || t == ERROR_SUFFIX || t == JPEG_SUFFIX || t == PNG_SUFFIX
    requires |s| <= |name| && |t| <= |name|
    requires name[|name| - |s|..] == s && name[|name| - |t|..] == t
    ensures s == t
  {
    var n := |name|;
    assert s[|s| - 1] == name[n - 1] by { assert name[n - |s|..][|s| - 1] == name[n - 1]; }
    assert t[|t| - 1] == name[n - 1] by { assert name[n - |t|..][|t| - 1] == name[n - 1]; }
    assert s[|s| - 3] == name[n - 3] by { assert name[n - |s|..][|s| - 3] == name[n - 3]; }
    assert t[|t| - 3] == name[n - 3] by { assert name[n - |t|..][|t| - 3] == name[n - 3]; }
  }

  /**
   * Two different ids never share a file name: each suffix ends in a
   * character sequence none of the others ends in, so a name fixes its
   * suffix and then its id.
   */
  lemma OwnerIsUnique(a: string, b: string, name: string)
    requires Owns(a, name) && Owns(b, name)
    ensures a == b
  {
    var sa := OwnedSuffix(a, name);
    var sb := OwnedSuffix(b, name);
    assert name[|name| - |sa|..] == sa;
    assert name[|name| - |sb|..] == sb;
    SuffixesDiffer(sa, sb, name);
    assert a == name[..|a|] && b == name[..|b|];
  }

  /** Each of an id's four names belongs to no other id. */
  lemma OthersNamesNotOwned(a: string, b: string)
    requires a != b
    ensures !Owns(a, MetadataName(b)) && !Owns(a, ErrorName(b))
    ensures !Owns(a, b + JPEG_SUFFIX) && !Owns(a, b + PNG_SUFFIX)
  {
    if Owns(a, MetadataName(b)) { OwnerIsUnique(a, b, MetadataName(b)); }
    if Owns(a, ErrorName(b)) { OwnerIsUnique(a, b, ErrorName(b)); }
    if Owns(a, b + JPEG_SUFFIX) { OwnerIsUnique(a, b, b + JPEG_SUFFIX); }
    if Owns(a, b + PNG_SUFFIX) { OwnerIsUnique(a, b, b + PNG_SUFFIX); }
  }

  /** At most one terminal file per id. */
  predicate AtMostOneOutcome(files: Directory, id: string)
  {
    !(MetadataName(id) in files && ErrorName(id) in files)
  }

  /**
   * A metadata file names the id's own image file, and that image file is
   * present: metadata is only ever written after the image bytes.
   */
  predicate ImageBacked(files: Directory, id: string)
  {
    MetadataName(id) in files ==>
      && files[MetadataName(id)].Json?
      && var meta := files[MetadataName(id)].meta;
      && meta.id == id
      && (meta.fileName == id + JPEG_SUFFIX || meta.fileName == id + PNG_SUFFIX)
      && meta.fileName in files
      && files[meta.fileName].Bytes?
  }

  /** The invariant of a directory written only by the crawler. */
  ghost predicate WellFormed(files: Directory)
  {
    forall id :: AtMostOneOutcome(files, id) && ImageBacked(files, id)
  }
}
