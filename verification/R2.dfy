/**
 * Object storage: how file names become keys, which bucket a file goes to, and
 * how a stored reference leads back to the object it names.
 */
module R2 {
  import opened Common

  datatype FileType = BOOK | COVER | AVATAR

  datatype Config = Config(bucket: string, publicBucket: string, publicBaseUrl: string)

  datatype Object = Object(bucket: string, key: string)

  // ---- Slugs ----

  predicate IsSlugChar(c: char) { 'a' <= c <= 'z' || '0' <= c <= '9' }

  /** Every maximal run of other characters becomes one hyphen. */
  function Dashed(s: string): string
  {
    if s == "" then "" else
      var front, c := s[..|s| - 1], s[|s| - 1];
      Dashed(front)
      + if IsSlugChar(c) then [c]
        else if front != "" && !IsSlugChar(front[|front| - 1]) then ""
        else "-"
  }

  function TrimLeft(s: string): string
  {
    if s != "" && s[0] == '-' then TrimLeft(s[1..]) else s
  }

  function TrimRight(s: string): string
  {
    if s != "" && s[|s| - 1] == '-' then TrimRight(s[..|s| - 1]) else s
  }

  function Cleaned(lowered: string): string { TrimRight(TrimLeft(Dashed(lowered))) }

  /** The slug of a name, from the name in lower case. */
  function Slug(lowered: string): string
  {
    var clean := Cleaned(lowered);
    var short := if |clean| <= 60 then clean else clean[..60];
    if short == "" then "file" else short
  }

  // ---- Keys and references ----

  function PrefixByType(fileType: FileType): string
  {
    match fileType
    case BOOK => "books"
    case COVER => "covers"
    case AVATAR => "avatars"
  }

  /** A key; `unique` is the fresh identifier each call draws. */
  function BuildKey(fileType: FileType, lowered: string, unique: string, ext: string): string
  {
    PrefixByType(fileType) + "/" + Slug(lowered) + "-" + unique + "." + ext
  }

  function BucketFor(config: Config, fileType: FileType): string
  {
    if fileType != BOOK then config.publicBucket else config.bucket
  }

  /** What the caller keeps: the key of a private object, the URL of a public one. */
  function ReferenceFor(config: Config, fileType: FileType, key: string): string
  {
    if fileType != BOOK then config.publicBaseUrl + "/" + key else key
  }

  /** The object a reference is taken to name when it is deleted. */
  function DeleteTarget(config: Config, reference: string): Object
  {
    var base := config.publicBaseUrl;
    if base <= reference
    then Object(config.publicBucket, if |base| + 1 <= |reference| then reference[|base| + 1..] else "")
    else Object(config.bucket, reference)
  }

  class R2Service {
    const config: Config
    var objects: set<Object>

    constructor (config: Config)
      ensures this.config == config && objects == {}
    {
      this.config, objects := config, {};
    }

    /** storeFile and storeStream; a failed upload throws and nothing is returned. */
    method Store(fileType: FileType, lowered: string, unique: string, ext: string, uploadOk: bool)
      returns (reference: Option<string>)
      modifies this
      ensures var key := BuildKey(fileType, lowered, unique, ext);
              && reference == (if uploadOk then Some(ReferenceFor(config, fileType, key)) else None)
              && objects == old(objects) + if uploadOk then {Object(BucketFor(config, fileType), key)} else {}
    {
      var isPublic := fileType != BOOK;
      var key := BuildKey(fileType, lowered, unique, ext);
      if !uploadOk {
        return None;
      }
      objects := objects + {Object(if isPublic then config.publicBucket else config.bucket, key)};
      return Some(if isPublic then config.publicBaseUrl + "/" + key else key);
    }

    method DeleteFile(reference: string)
      modifies this
      ensures objects == old(objects) - {DeleteTarget(config, reference)}
    {
      var bucket, key := config.bucket, reference;
      if config.publicBaseUrl <= reference {
        bucket := config.publicBucket;
        var start := |config.publicBaseUrl| + 1;
        key := if start <= |reference| then reference[start..] else "";
      }
      objects := objects - {Object(bucket, key)};
    }

    /** Deleting what was just stored leaves the buckets as they were. */
    method StoreThenDelete(fileType: FileType, lowered: string, unique: string, ext: string)
      requires fileType == BOOK ==> !(config.publicBaseUrl <= BuildKey(fileType, lowered, unique, ext))
      requires Object(BucketFor(config, fileType), BuildKey(fileType, lowered, unique, ext)) !in objects
      modifies this
      ensures objects == old(objects)
    {
      var reference := Store(fileType, lowered, unique, ext, true);
      ReferenceRoundTrip(config, fileType, BuildKey(fileType, lowered, unique, ext));
      DeleteFile(reference.value);
    }
  }

  /**
   * The reference of a stored object leads back to exactly its bucket and key, if and only if the object
   * is public or the public base URL is no prefix of its key. The empty base URL is a prefix of every key.
   */
  lemma {:induction false} ReferenceRoundTrip(config: Config, fileType: FileType, key: string)
    requires key != ""
    ensures DeleteTarget(config, ReferenceFor(config, fileType, key)) == Object(BucketFor(config, fileType), key)
            <==> fileType != BOOK || !(config.publicBaseUrl <= key)
  {
    var base := config.publicBaseUrl;
    if fileType != BOOK {
      var url := base + "/" + key;
      assert url[..|base|] == base;
      assert url[|base| + 1..] == key;
    } else if base <= key {
      assert |DeleteTarget(config, key).key| < |key|;
    }
  }

  /**
   * Every built key has a faithful reference, if and only if it is public or the public base URL is no prefix of it.
   * It is none of any book's when, like an absolute URL, it parts from the books' prefix somewhere.
   */
  lemma {:induction false} BuiltKeysRoundTrip(config: Config, fileType: FileType, lowered: string, unique: string,
                                              ext: string)
    ensures var key := BuildKey(fileType, lowered, unique, ext);
      DeleteTarget(config, ReferenceFor(config, fileType, key)) == Object(BucketFor(config, fileType), key)
      <==> fileType != BOOK || !(config.publicBaseUrl <= key)
    ensures !(config.publicBaseUrl <= "books/") && !("books/" <= config.publicBaseUrl) ==>
      !(config.publicBaseUrl <= BuildKey(BOOK, lowered, unique, ext))
  {
    ReferenceRoundTrip(config, fileType, BuildKey(fileType, lowered, unique, ext));
    var base, key := config.publicBaseUrl, BuildKey(BOOK, lowered, unique, ext);
    assert key[..6] == "books/";
    if base <= key {
      assert base == key[..|base|];
      if |base| <= 6 {
        assert base == key[..6][..|base|];
      } else {
        assert base[..6] == key[..6];
      }
    }
  }

  /** A key begins with the prefix of its type alone, and ends in its identifier and extension. */
  lemma {:induction false} KeyNamesItsType(fileType: FileType, lowered: string, unique: string, ext: string)
    ensures var key := BuildKey(fileType, lowered, unique, ext);
      && (fileType == BOOK <==> "books/" <= key)
      && (fileType == COVER <==> "covers/" <= key)
      && (fileType == AVATAR <==> "avatars/" <= key)
      && |key| >= |unique| + |ext| + 1 && key[|key| - |ext| - |unique| - 1..] == unique + "." + ext
  {
    var tail := unique + "." + ext;
    var head := PrefixByType(fileType) + "/" + Slug(lowered) + "-";
    var key := BuildKey(fileType, lowered, unique, ext);
    assert key == head + tail;
    assert key[0] == PrefixByType(fileType)[0];
    assert key[..|PrefixByType(fileType)| + 1] == PrefixByType(fileType) + "/";
  }

  // ---- Slug shape and content ----

  ghost predicate SlugText(s: string)
  {
    && (forall i :: 0 <= i < |s| ==> IsSlugChar(s[i]) || s[i] == '-')
    && (forall i :: 0 < i < |s| ==> s[i - 1] != '-' || s[i] != '-')
  }

  /** The letters and digits of a text, in order. */
  function Kept(s: string): string
  {
    if s == "" then "" else Kept(s[..|s| - 1]) + if IsSlugChar(s[|s| - 1]) then [s[|s| - 1]] else ""
  }

  lemma {:induction false} DashedText(s: string)
    ensures SlugText(Dashed(s))
    ensures s != "" ==> Dashed(s) != "" && (Dashed(s)[|Dashed(s)| - 1] == '-' <==> !IsSlugChar(s[|s| - 1]))
    ensures Kept(Dashed(s)) == Kept(s)
  {
    if s != "" {
      var front, c := s[..|s| - 1], s[|s| - 1];
      DashedText(front);
      if IsSlugChar(c) {
        assert Dashed(s)[..|Dashed(s)| - 1] == Dashed(front);
      } else if front != "" && !IsSlugChar(front[|front| - 1]) {
        assert Dashed(s) == Dashed(front);
      } else {
        assert Dashed(s)[..|Dashed(s)| - 1] == Dashed(front);
      }
    }
  }

  lemma {:induction false} KeptSuffix(s: string)
    requires s != "" && s[0] == '-'
    ensures Kept(s[1..]) == Kept(s)
  {
    if |s| > 1 {
      KeptSuffix(s[..|s| - 1]);
      assert s[1..][..|s| - 2] == s[..|s| - 1][1..];
    }
  }

  lemma {:induction false} TrimLeftText(s: string)
    requires SlugText(s)
    ensures SlugText(TrimLeft(s)) && Kept(TrimLeft(s)) == Kept(s)
    ensures TrimLeft(s) != "" ==> TrimLeft(s)[0] != '-'
  {
    if s != "" && s[0] == '-' {
      KeptSuffix(s);
      TrimLeftText(s[1..]);
    }
  }

  lemma {:induction false} TrimRightText(s: string)
    requires SlugText(s) && (s != "" ==> s[0] != '-')
    ensures SlugText(TrimRight(s)) && Kept(TrimRight(s)) == Kept(s)
    ensures TrimRight(s) != "" ==> TrimRight(s)[0] != '-' && TrimRight(s)[|TrimRight(s)| - 1] != '-'
  {
    if s != "" && s[|s| - 1] == '-' {
      TrimRightText(s[..|s| - 1]);
    }
  }

  lemma {:induction false} CleanedText(lowered: string)
    ensures SlugText(Cleaned(lowered)) && Kept(Cleaned(lowered)) == Kept(lowered)
    ensures Cleaned(lowered) != "" ==>
              Cleaned(lowered)[0] != '-' && Cleaned(lowered)[|Cleaned(lowered)| - 1] != '-'
  {
    DashedText(lowered);
    TrimLeftText(Dashed(lowered));
    TrimRightText(TrimLeft(Dashed(lowered)));
  }

  /** A slug is 1 to 60 characters of [a-z0-9-], with no leading and no doubled hyphen. */
  lemma {:induction false} SlugShape(lowered: string)
    ensures 1 <= |Slug(lowered)| <= 60
    ensures SlugText(Slug(lowered)) && Slug(lowered)[0] != '-'
  {
    CleanedText(lowered);
  }

  lemma {:induction false} KeptPrefix(s: string, n: nat)
    requires n <= |s|
    ensures Kept(s[..n]) <= Kept(s)
  {
    if n < |s| {
      KeptPrefix(s[..|s| - 1], n);
      assert s[..|s| - 1][..n] == s[..n];
    } else {
      assert s[..n] == s;
    }
  }

  lemma {:induction false} KeptNothing(s: string)
    requires SlugText(s) && Kept(s) == ""
    ensures forall i :: 0 <= i < |s| ==> s[i] == '-'
  {
    if s != "" {
      KeptNothing(s[..|s| - 1]);
    }
  }

  /** A slug keeps the letters and digits of the name, in order, as far as it reaches; "file" stands for none. */
  lemma {:induction false} SlugContent(lowered: string)
    ensures Kept(lowered) == "" ==> Slug(lowered) == "file"
    ensures Kept(lowered) != "" ==> Kept(Slug(lowered)) <= Kept(lowered)
    ensures |Cleaned(lowered)| <= 60 && Kept(lowered) != "" ==> Kept(Slug(lowered)) == Kept(lowered)
    ensures |Cleaned(lowered)| > 60 ==> |Slug(lowered)| == 60
  {
    CleanedText(lowered);
    if Kept(lowered) == "" {
      KeptNothing(Cleaned(lowered));
    } else if |Cleaned(lowered)| > 60 {
      KeptPrefix(Cleaned(lowered), 60);
    }
  }

  lemma {:induction false} DashedFixed(s: string)
    requires SlugText(s)
    ensures Dashed(s) == s
  {
    if s != "" {
      DashedFixed(s[..|s| - 1]);
      assert |s| > 1 ==> s[|s| - 2] != '-' || s[|s| - 1] != '-';
    }
  }

  /** Slugging a slug changes nothing, if and only if the cut at 60 did not leave a hyphen at the end. */
  lemma {:induction false} SlugOfSlug(lowered: string)
    ensures Slug(Slug(lowered)) == Slug(lowered) <==> Slug(lowered)[|Slug(lowered)| - 1] != '-'
  {
    var s := Slug(lowered);
    SlugShape(lowered);
    DashedFixed(s);
    assert TrimLeft(s) == s;
    if s[|s| - 1] == '-' {
      CleanedText(s);
      assert |s| > 1 && s[..|s| - 1] != "";
      SlugShape(s);
      TrimRightShrinks(s);
    }
  }

  lemma {:induction false} TrimRightShrinks(s: string)
    requires s != "" && s[|s| - 1] == '-'
    ensures |TrimRight(s)| < |s|
  {
    if |s| > 1 && s[|s| - 2] == '-' {
      TrimRightShrinks(s[..|s| - 1]);
    }
  }
}
