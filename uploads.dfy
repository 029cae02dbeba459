/** The string logic of media uploads: checking an uploaded file's metadata,
    size and type against the allowed MIME table, building its storage key and
    public URL, and turning such a URL back into a key when a file is deleted.
    The object-storage calls themselves are not part of this model. */
module Uploads {
  import opened Results

  /** The storage bucket and region the service is configured with. */
  datatype StorageConfig = StorageConfig(bucket: string, region: string)

  /** An uploaded file's metadata. None is a content type or size the client
      did not send; an empty filename stands for a missing one. */
  datatype UploadFile = UploadFile(filename: string, contentType: Option<string>, size: Option<int>)

  /** `file.content_type` is truthy: present and not empty. */
  predicate HasContentType(f: UploadFile)
  {
    f.contentType.Some? && f.contentType.value != ""
  }

  const MaxFileSizeMb: nat := 10
  const MaxFileSizeBytes: nat := MaxFileSizeMb * 1024 * 1024

  /** The accepted content types and, for each, the accepted file extensions. */
  const AllowedMimeTypes: map<string, seq<string>> := map[
    "image/jpeg" := ["jpg", "jpeg"],
    "image/png" := ["png"],
    "image/gif" := ["gif"],
    "image/webp" := ["webp"],
    "image/avif" := ["avif"],
    "video/mp4" := ["mp4"],
    "video/webm" := ["webm"],
    "video/ogg" := ["ogg"]
  ]

  /** The only key prefixes a delete may touch. */
  const DeletablePrefixes: seq<string> := ["uploads/", "posts/", "temp-uploads/"]

  predicate StartsWith(s: string, prefix: string)
  {
    |prefix| <= |s| && s[..|prefix|] == prefix
  }

  /** `sep` occurs in `s` at index `j`. */
  predicate OccursAt(s: string, sep: string, j: nat)
  {
    j + |sep| <= |s| && s[j..j + |sep|] == sep
  }

  /** Occurrences in `s` past its first character are the occurrences in `s[1..]`, shifted by one. */
  lemma OccursShift(s: string, sep: string)
    requires |s| > 0
    ensures forall j: nat :: OccursAt(s, sep, j + 1) <==> OccursAt(s[1..], sep, j)
  {
    forall j: nat ensures OccursAt(s, sep, j + 1) <==> OccursAt(s[1..], sep, j) {
      if j + 1 + |sep| <= |s| {
        assert s[1..][j..j + |sep|] == s[j + 1..j + 1 + |sep|];
      }
    }
  }

  /** The first index at which `sep` occurs in `s`. */
  function Find(s: string, sep: string): (r: Option<nat>)
    ensures r.Some? ==> OccursAt(s, sep, r.value)
    ensures r.Some? ==> forall j: nat :: j < r.value ==> !OccursAt(s, sep, j)
    ensures r.None? ==> forall j: nat :: !OccursAt(s, sep, j)
    decreases |s|
  {
    if |s| < |sep| then None
    else if s[..|sep|] == sep then Some(0)
    else
      OccursShift(s, sep);
      match Find(s[1..], sep)
      case None =>
        assert forall j: nat :: !OccursAt(s, sep, j) by {
          forall j: nat ensures !OccursAt(s, sep, j) {
            if j > 0 {
              assert !OccursAt(s[1..], sep, j - 1);
            }
          }
        }
        None
      case Some(i) =>
        assert forall j: nat :: j < i + 1 ==> !OccursAt(s, sep, j) by {
          forall j: nat | j < i + 1 ensures !OccursAt(s, sep, j) {
            if j > 0 {
              assert !OccursAt(s[1..], sep, j - 1);
            }
          }
        }
        Some(i + 1)
  }

  /** `s.split(sep)[0]`: the text of `s` before the first `sep`, or all of it. */
  function Before(s: string, sep: string): (r: string)
    ensures |r| <= |s| && r == s[..|r|]
    ensures forall j: nat :: j < |r| ==> !OccursAt(s, sep, j)
    ensures |r| < |s| ==> OccursAt(s, sep, |r|)
  {
    match Find(s, sep)
    case None => s
    case Some(j) => s[..j]
  }

  function LowerChar(c: char): char
  {
    if 'A' <= c <= 'Z' then (c as int + 32) as char else c
  }

  /** `s.lower()` on ASCII letters. */
  function Lower(s: string): (r: string)
    ensures |r| == |s|
    ensures forall i :: 0 <= i < |s| ==> r[i] == LowerChar(s[i])
  {
    if s == [] then [] else [LowerChar(s[0])] + Lower(s[1..])
  }

  /** `s.split('.')[-1]`: the longest suffix of `s` without a dot. */
  function LastSegment(s: string): (r: string)
    ensures |r| <= |s| && r == s[|s| - |r|..]
    ensures '.' !in r
    ensures |r| < |s| ==> s[|s| - |r| - 1] == '.'
  {
    if s == [] then []
    else if s[|s| - 1] == '.' then []
    else
      var r := LastSegment(s[..|s| - 1]) + [s[|s| - 1]];
      assert s[..|s| - 1][|s| - 1 - (|r| - 1)..] + [s[|s| - 1]] == s[|s| - |r|..];
      r
  }

  /** The lower-cased text after the last dot of a file name, or the whole name if it has none. */
  function Extension(filename: string): string
  {
    Lower(LastSegment(filename))
  }

  /** The checks of an upload, in the service's order: metadata, then size,
      then type; on success the file's extension. A missing size fails the
      size comparison with a TypeError, which the upload's catch-all handler
      turns into "File upload failed". */
  function ValidateUpload(f: UploadFile): (r: Result<string>)
    ensures (f.filename == "" || !HasContentType(f)) ==> r == Err(BadRequest("File metadata is incomplete"))
    ensures f.filename != "" && HasContentType(f) && f.size.None? ==> r == Err(ServerError("File upload failed"))
    ensures f.filename != "" && HasContentType(f) && f.size.Some? && f.size.value > MaxFileSizeBytes ==>
              r == Err(TooLarge("File exceeds maximum size of 10MB"))
    ensures r.Ok? <==>
              f.filename != "" && f.contentType.Some? && f.size.Some? && f.size.value <= MaxFileSizeBytes
              && f.contentType.value in AllowedMimeTypes
              && Extension(f.filename) in AllowedMimeTypes[f.contentType.value]
    ensures r.Ok? ==> r.value == Extension(f.filename)
    ensures r.Err? ==> r.error in {BadRequest("File metadata is incomplete"),
                                   ServerError("File upload failed"),
                                   TooLarge("File exceeds maximum size of 10MB"),
                                   BadRequest("File type not allowed")}
  {
    if f.filename == "" || !HasContentType(f) then
      Err(BadRequest("File metadata is incomplete"))
    else if f.size.None? then
      Err(ServerError("File upload failed"))
    else if f.size.value > MaxFileSizeBytes then
      Err(TooLarge("File exceeds maximum size of 10MB"))
    else
      var ext := Extension(f.filename);
      if f.contentType.value !in AllowedMimeTypes || ext !in AllowedMimeTypes[f.contentType.value] then
        Err(BadRequest("File type not allowed"))
      else
        Ok(ext)
  }

  /** The object key an upload is stored under. */
  function StorageKey(folder: string, uuid: string, ext: string): (r: string)
    ensures |r| == |folder| + |uuid| + |ext| + 2
    ensures r[..|folder| + 1] == folder + "/" && r[|r| - |ext| - 1..] == "." + ext
  {
    folder + "/" + uuid + "." + ext
  }

  /** The prefix every object URL of the configured bucket starts with. */
  function BaseUrl(cfg: StorageConfig): (r: string)
    ensures StartsWith(r, "https://" + cfg.bucket + ".s3.") && r[|r| - 1] == '/'
  {
    "https://" + cfg.bucket + ".s3." + cfg.region + ".amazonaws.com/"
  }

  /** The public URL of the object stored under `key`, assuming the key needs no percent-encoding. */
  function ObjectUrl(cfg: StorageConfig, key: string): (r: string)
    ensures StartsWith(r, BaseUrl(cfg)) && r[|BaseUrl(cfg)|..] == key
  {
    BaseUrl(cfg) + key
  }

  /** An upload to `folder`: the file's checks, then the URL of the object
      stored under a key built from `uuid` and the extension. */
  function UploadUrl(cfg: StorageConfig, f: UploadFile, folder: string, uuid: string): (r: Result<string>)
    ensures ValidateUpload(f).Err? ==> r == Err(ValidateUpload(f).error)
    ensures ValidateUpload(f).Ok? ==>
              r == Ok(ObjectUrl(cfg, StorageKey(folder, uuid, Extension(f.filename))))
  {
    match ValidateUpload(f)
    case Err(e) => Err(e)
    case Ok(ext) => Ok(ObjectUrl(cfg, StorageKey(folder, uuid, ext)))
  }

  /** `key` is the longest prefix of `rest` holding neither a '?' nor the start
      of an occurrence of `base`. */
  predicate KeyPrefix(rest: string, base: string, key: string)
  {
    && |key| <= |rest| && key == rest[..|key|]
    && (forall j: nat :: j < |key| ==> rest[j] != '?' && !OccursAt(rest, base, j))
    && (|key| < |rest| ==> rest[|key|] == '?' || OccursAt(rest, base, |key|))
  }

  /** At most one text is such a prefix. */
  lemma KeyPrefixUnique(rest: string, base: string, k1: string, k2: string)
    requires KeyPrefix(rest, base, k1) && KeyPrefix(rest, base, k2)
    ensures k1 == k2
  {
  }

  /** `rest.split(base)[0].split("?")[0]` is that prefix, and holds no '?'. */
  lemma CutFacts(rest: string, base: string)
    ensures KeyPrefix(rest, base, Before(Before(rest, base), "?"))
    ensures '?' !in Before(Before(rest, base), "?")
  {
    var upTo := Before(rest, base);
    var key := Before(upTo, "?");
    forall j: nat | j < |key| ensures rest[j] != '?' && !OccursAt(rest, base, j) {
      assert !OccursAt(upTo, "?", j);
      assert upTo[j..j + 1] == [rest[j]];
    }
    if |key| < |upTo| {
      assert OccursAt(upTo, "?", |key|);
      assert upTo[|key|..|key| + 1] == [rest[|key|]];
    }
    forall j | 0 <= j < |key| ensures key[j] != '?' {
      assert rest[j] != '?';
    }
  }

  /** The key a URL's remainder names, scanned character by character: all
      of `rest` up to its first '?' or to where `base` first begins. */
  function KeyText(rest: string, base: string): string
    decreases |rest|
  {
    if rest == [] || rest[0] == '?' || StartsWith(rest, base) then []
    else [rest[0]] + KeyText(rest[1..], base)
  }

  /** The scan stops exactly at the first '?' or occurrence of `base`. */
  lemma {:induction false} KeyTextPrefix(rest: string, base: string)
    ensures KeyPrefix(rest, base, KeyText(rest, base))
    decreases |rest|
  {
    if rest != [] && rest[0] != '?' {
      if StartsWith(rest, base) {
        assert rest[0..|base|] == rest[..|base|];
      } else {
        var tail := KeyText(rest[1..], base);
        var key := [rest[0]] + tail;
        KeyTextPrefix(rest[1..], base);
        OccursShift(rest, base);
        assert rest[..|key|] == [rest[0]] + rest[1..][..|tail|];
        forall j: nat | j < |key| ensures rest[j] != '?' && !OccursAt(rest, base, j) {
          if j > 0 {
            assert rest[j] == rest[1..][j - 1];
            assert !OccursAt(rest[1..], base, j - 1);
          } else if |base| <= |rest| {
            assert rest[0..|base|] == rest[..|base|];
          }
        }
        if |key| < |rest| {
          assert rest[|key|] == rest[1..][|tail|];
        }
      }
    }
  }

  /** The service's `split(base)[0].split("?")[0]` computes the scanned key. */
  lemma KeyTextIsCut(rest: string, base: string)
    ensures Before(Before(rest, base), "?") == KeyText(rest, base)
    ensures '?' !in KeyText(rest, base)
  {
    CutFacts(rest, base);
    KeyTextPrefix(rest, base);
    KeyPrefixUnique(rest, base, Before(Before(rest, base), "?"), KeyText(rest, base));
  }

  /** The key named by an object URL: the text after the first base URL, up to
      the next base URL or the first '?' (the query of a presigned URL),
      whichever comes first. None stands for the IndexError raised when the
      base URL does not occur at all. */
  function KeyOfUrl(cfg: StorageConfig, url: string): (r: Option<string>)
    ensures r.None? <==> Find(url, BaseUrl(cfg)).None?
    ensures r.Some? ==> '?' !in r.value
    ensures r.Some? ==> r.value == KeyText(url[Find(url, BaseUrl(cfg)).value + |BaseUrl(cfg)|..], BaseUrl(cfg))
  {
    if Find(url, BaseUrl(cfg)).None? then None
    else
      KeyTextIsCut(url[Find(url, BaseUrl(cfg)).value + |BaseUrl(cfg)|..], BaseUrl(cfg));
      Some(Before(Before(url[Find(url, BaseUrl(cfg)).value + |BaseUrl(cfg)|..], BaseUrl(cfg)), "?"))
  }

  predicate Deletable(key: string)
  {
    exists p :: p in DeletablePrefixes && StartsWith(key, p)
  }

  /** The checks of a delete: the URL must point into the configured bucket,
      and the key it names must lie under one of the deletable prefixes. */
  function DeleteKey(cfg: StorageConfig, url: string): (r: Result<string>)
    ensures !StartsWith(url, "https://" + cfg.bucket + ".s3.") ==> r == Err(BadRequest("Invalid S3 file URL format"))
    ensures r.Ok? <==>
              StartsWith(url, "https://" + cfg.bucket + ".s3.")
              && KeyOfUrl(cfg, url).Some? && Deletable(KeyOfUrl(cfg, url).value)
    ensures r.Ok? ==> r.value == KeyOfUrl(cfg, url).value && '?' !in r.value
    ensures StartsWith(url, "https://" + cfg.bucket + ".s3.") && KeyOfUrl(cfg, url).None? ==>
              r == Err(ServerError("File deletion failed"))
    ensures StartsWith(url, "https://" + cfg.bucket + ".s3.") && KeyOfUrl(cfg, url).Some? && r.Err? ==>
              r == Err(Forbidden("Can only delete files from allowed paths"))
  {
    if !StartsWith(url, "https://" + cfg.bucket + ".s3.") then
      Err(BadRequest("Invalid S3 file URL format"))
    else
      match KeyOfUrl(cfg, url)
      case None => Err(ServerError("File deletion failed"))
      case Some(key) =>
        if !(StartsWith(key, "uploads/") || StartsWith(key, "posts/") || StartsWith(key, "temp-uploads/")) then
          assert !Deletable(key);
          Err(Forbidden("Can only delete files from allowed paths"))
        else
          assert StartsWith(key, DeletablePrefixes[0]) || StartsWith(key, DeletablePrefixes[1])
                 || StartsWith(key, DeletablePrefixes[2]);
          Ok(key)
  }
}

/** What the upload and delete checks promise about each other. */
module UploadFacts {
  import opened Results
  import opened Uploads

  /** The characters `str(uuid.uuid4())` is made of. */
  predicate UuidText(s: string)
  {
    forall i :: 0 <= i < |s| ==> ('0' <= s[i] <= '9' || 'a' <= s[i] <= 'f' || s[i] == '-')
  }

  /** Lower-case letters and digits only. */
  predicate PlainText(s: string)
  {
    forall i :: 0 <= i < |s| ==> ('a' <= s[i] <= 'z' || '0' <= s[i] <= '9')
  }

  /** The extension of `stem.ext` is `ext`, whatever dots `stem` holds. */
  lemma {:induction false} LastSegmentAfterDot(stem: string, ext: string)
    requires '.' !in ext
    ensures LastSegment(stem + "." + ext) == ext
  {
    var s := stem + "." + ext;
    if ext != [] {
      var init := ext[..|ext| - 1];
      assert s[..|s| - 1] == stem + "." + init;
      LastSegmentAfterDot(stem, init);
      assert ext == init + [ext[|ext| - 1]];
    } else {
      assert s[|s| - 1] == '.';
    }
  }

  /** The extension is the lower-cased dot-free tail of the name: the whole
      name, or what follows its last dot. */
  lemma ExtensionIsLoweredTail(filename: string)
    ensures |Extension(filename)| <= |filename| && '.' !in Extension(filename)
    ensures forall i :: 0 <= i < |Extension(filename)| ==>
              Extension(filename)[i] == LowerChar(filename[|filename| - |Extension(filename)| + i])
    ensures |Extension(filename)| < |filename| ==> filename[|filename| - |Extension(filename)| - 1] == '.'
  {
  }

  /** A name without a dot is its own extension, lower-cased. */
  lemma ExtensionWithoutDot(name: string)
    requires '.' !in name
    ensures Extension(name) == Lower(name)
  {
  }

  /** Every accepted extension is plain lower-case letters and digits. */
  lemma AllowedExtensionsPlain(ct: string, ext: string)
    requires ct in AllowedMimeTypes && ext in AllowedMimeTypes[ct]
    ensures PlainText(ext)
  {
  }

  /** Plain text has no dot, no ':' and no '?', and lower-casing leaves it alone. */
  lemma PlainTextFacts(s: string)
    requires PlainText(s)
    ensures '.' !in s && ':' !in s && '?' !in s
    ensures Lower(s) == s
  {
    assert forall i :: 0 <= i < |s| ==> LowerChar(s[i]) == s[i];
  }

  /** A file stored under its accepted extension keeps that extension in its key. */
  lemma StoredKeyKeepsExtension(f: UploadFile, folder: string, uuid: string)
    requires ValidateUpload(f).Ok?
    ensures Extension(StorageKey(folder, uuid, ValidateUpload(f).value)) == ValidateUpload(f).value
  {
    var ext := ValidateUpload(f).value;
    AllowedExtensionsPlain(f.contentType.value, ext);
    PlainTextFacts(ext);
    LastSegmentAfterDot(folder + "/" + uuid, ext);
    assert StorageKey(folder, uuid, ext) == (folder + "/" + uuid) + "." + ext;
  }

  /** The size limit is inclusive: a file exactly at the limit passes the size check. */
  lemma SizeLimitInclusive(f: UploadFile)
    requires f.filename != "" && HasContentType(f) && f.size.Some?
    ensures ValidateUpload(f) == Err(TooLarge("File exceeds maximum size of 10MB")) <==> f.size.value > 10 * 1024 * 1024
  {
  }

  /** A key with no ':' and no '?' is read back unchanged from its URL. */
  lemma KeyOfObjectUrl(cfg: StorageConfig, key: string)
    requires ':' !in key && '?' !in key
    ensures KeyOfUrl(cfg, ObjectUrl(cfg, key)) == Some(key)
    ensures StartsWith(ObjectUrl(cfg, key), "https://" + cfg.bucket + ".s3.")
  {
    var base := BaseUrl(cfg);
    var url := ObjectUrl(cfg, key);
    assert url[..|base|] == base;
    assert Find(url, base) == Some(0);
    assert url[|base|..] == key;
    assert base[5] == ':';
    forall j: nat | j + |base| <= |key| ensures !OccursAt(key, base, j) {
      assert key[j + 5] in key;
      assert key[j..j + |base|][5] != base[5];
    }
    assert Before(key, base) == key;
    forall j: nat | j + 1 <= |key| ensures !OccursAt(key, "?", j) {
      assert key[j] in key;
      assert key[j..j + 1][0] != "?"[0];
    }
    assert Before(key, "?") == key;
    var prefix := "https://" + cfg.bucket + ".s3.";
    assert url == prefix + (cfg.region + ".amazonaws.com/" + key);
    assert url[..|prefix|] == prefix;
  }

  /** Scanning a key free of ':' and '?' followed by a '?' stops at that '?':
      a base starting "https:" cannot begin inside the key, since its ':'
      would fall on a key character, or one of its letters on the '?'. */
  lemma {:induction false} KeyTextOfQuery(key: string, query: string, base: string)
    requires |base| >= 6 && base[..6] == "https:"
    requires ':' !in key && '?' !in key
    ensures KeyText(key + "?" + query, base) == key
    decreases |key|
  {
    var rest := key + "?" + query;
    if key == [] {
      assert rest[0] == '?';
    } else {
      assert rest[0] == key[0] && key[0] in key;
      var d := if 5 < |key| then 5 else |key|;
      assert base[d] == "https:"[d];
      if 5 < |key| {
        assert rest[5] == key[5] && key[5] in key;
      }
      if |base| <= |rest| {
        assert rest[..|base|][d] == rest[d] != base[d];
      }
      assert rest[1..] == key[1..] + "?" + query;
      assert forall c :: c in key[1..] ==> c in key;
      KeyTextOfQuery(key[1..], query, base);
    }
  }

  /** A presigned URL, the object URL followed by a query, names the same key. */
  lemma KeyOfPresignedUrl(cfg: StorageConfig, key: string, query: string)
    requires ':' !in key && '?' !in key
    ensures KeyOfUrl(cfg, ObjectUrl(cfg, key) + "?" + query) == Some(key)
  {
    var base := BaseUrl(cfg);
    var url := ObjectUrl(cfg, key) + "?" + query;
    assert url[..|base|] == base;
    assert Find(url, base) == Some(0);
    assert url[|base|..] == key + "?" + query;
    assert base[..6] == "https:";
    KeyTextOfQuery(key, query, base);
  }

  /** A storage key built from a folder and uuid of plain characters has no ':' or '?'. */
  lemma StorageKeyPlain(folder: string, uuid: string, ext: string)
    requires ':' !in folder && '?' !in folder && UuidText(uuid) && PlainText(ext)
    ensures ':' !in StorageKey(folder, uuid, ext) && '?' !in StorageKey(folder, uuid, ext)
  {
    PlainTextFacts(ext);
    assert forall i :: 0 <= i < |uuid| ==> uuid[i] != ':' && uuid[i] != '?';
    assert StorageKey(folder, uuid, ext) == folder + ("/" + (uuid + ("." + ext)));
  }

  /** Deleting by the URL an upload returned names the key the upload stored. */
  lemma UploadedKeyRoundTrip(cfg: StorageConfig, f: UploadFile, folder: string, uuid: string)
    requires UploadUrl(cfg, f, folder, uuid).Ok?
    requires ':' !in folder && '?' !in folder && UuidText(uuid)
    ensures KeyOfUrl(cfg, UploadUrl(cfg, f, folder, uuid).value)
            == Some(StorageKey(folder, uuid, ValidateUpload(f).value))
    ensures StartsWith(UploadUrl(cfg, f, folder, uuid).value, "https://" + cfg.bucket + ".s3.")
  {
    var ext := ValidateUpload(f).value;
    AllowedExtensionsPlain(f.contentType.value, ext);
    StorageKeyPlain(folder, uuid, ext);
    KeyOfObjectUrl(cfg, StorageKey(folder, uuid, ext));
  }

  /** A key whose first `n` characters differ from those of `p` does not start with `p`. */
  lemma PrefixMismatch(key: string, p: string, n: nat)
    requires n <= |p| && n <= |key| && key[..n] != p[..n]
    ensures !StartsWith(key, p)
  {
    if |p| <= |key| {
      assert key[..|p|][..n] == key[..n];
    }
  }

  /** Deleting by the URL an upload returned succeeds with the stored key
      exactly when that key lies under a deletable prefix. */
  lemma DeleteUploaded(cfg: StorageConfig, f: UploadFile, folder: string, uuid: string)
    requires UploadUrl(cfg, f, folder, uuid).Ok?
    requires ':' !in folder && '?' !in folder && UuidText(uuid)
    ensures var key := StorageKey(folder, uuid, ValidateUpload(f).value);
            DeleteKey(cfg, UploadUrl(cfg, f, folder, uuid).value)
            == if Deletable(key) then Ok(key) else Err(Forbidden("Can only delete files from allowed paths"))
  {
    UploadedKeyRoundTrip(cfg, f, folder, uuid);
  }

  /** The key of an upload to `folder` begins with the folder's name. */
  lemma KeyStartsWithFolder(folder: string, uuid: string, ext: string, n: nat)
    requires n <= |folder|
    ensures StorageKey(folder, uuid, ext)[..n] == folder[..n]
  {
    assert StorageKey(folder, uuid, ext) == folder + ("/" + uuid + "." + ext);
  }

  /** The folders post media are stored in: plain names under "posts/". */
  lemma PostFolderFacts(folder: string)
    requires folder == "posts/images" || folder == "posts/videos"
    ensures ':' !in folder && '?' !in folder
    ensures |folder| >= 6 && folder[..6] == DeletablePrefixes[1]
  {
  }

  /** A key built in a post-media folder lies under the "posts/" prefix. */
  lemma PostKeyDeletable(folder: string, uuid: string, ext: string)
    requires |folder| >= 6 && folder[..6] == DeletablePrefixes[1]
    ensures Deletable(StorageKey(folder, uuid, ext))
  {
    KeyStartsWithFolder(folder, uuid, ext, 6);
    assert StartsWith(StorageKey(folder, uuid, ext), DeletablePrefixes[1]);
  }

  /** The media of a post, stored under posts/images or posts/videos, may be deleted again. */
  lemma PostMediaDeletable(cfg: StorageConfig, f: UploadFile, folder: string, uuid: string)
    requires folder == "posts/images" || folder == "posts/videos"
    requires UploadUrl(cfg, f, folder, uuid).Ok? && UuidText(uuid)
    ensures DeleteKey(cfg, UploadUrl(cfg, f, folder, uuid).value)
            == Ok(StorageKey(folder, uuid, ValidateUpload(f).value))
  {
    PostFolderFacts(folder);
    DeleteUploaded(cfg, f, folder, uuid);
    PostKeyDeletable(folder, uuid, ValidateUpload(f).value);
  }

  /** A key beginning with "re", "st" or "pr" lies under no deletable prefix. */
  lemma HeadBlocksDelete(key: string)
    requires |key| >= 2
    requires key[..2] == "re" || key[..2] == "st" || key[..2] == "pr"
    ensures !Deletable(key)
  {
    forall i | 0 <= i < |DeletablePrefixes| ensures !StartsWith(key, DeletablePrefixes[i]) {
      var p := DeletablePrefixes[i];
      assert p[..2] == "up" || p[..2] == "po" || p[..2] == "te";
      PrefixMismatch(key, p, 2);
    }
  }

  /** The folders of reels, stories and profile pictures: plain names that start
      like no deletable prefix. */
  lemma OtherFolderFacts(folder: string)
    requires folder == "reels" || folder == "stories" || folder == "profile_pictures"
    ensures ':' !in folder && '?' !in folder
    ensures |folder| >= 2 && (folder[..2] == "re" || folder[..2] == "st" || folder[..2] == "pr")
  {
  }

  /** A key built in such a folder lies under no deletable prefix. */
  lemma OtherKeyNotDeletable(folder: string, uuid: string, ext: string)
    requires |folder| >= 2 && (folder[..2] == "re" || folder[..2] == "st" || folder[..2] == "pr")
    ensures !Deletable(StorageKey(folder, uuid, ext))
  {
    KeyStartsWithFolder(folder, uuid, ext, 2);
    HeadBlocksDelete(StorageKey(folder, uuid, ext));
  }

  /** Media of reels, stories and profile pictures can never be deleted through this path. */
  lemma OtherMediaNotDeletable(cfg: StorageConfig, f: UploadFile, folder: string, uuid: string)
    requires folder == "reels" || folder == "stories" || folder == "profile_pictures"
    requires UploadUrl(cfg, f, folder, uuid).Ok? && UuidText(uuid)
    ensures DeleteKey(cfg, UploadUrl(cfg, f, folder, uuid).value)
            == Err(Forbidden("Can only delete files from allowed paths"))
  {
    OtherFolderFacts(folder);
    DeleteUploaded(cfg, f, folder, uuid);
    OtherKeyNotDeletable(folder, uuid, ValidateUpload(f).value);
  }
}
