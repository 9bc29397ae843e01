/** The app.kubernetes.io/version label value derived from an image reference. */
module VersionLabel {
  import opened Text

  const MAX_LABEL_VALUE: nat := 63
  const SHORT_DIGEST: nat := 12

  predicate Joiner(c: char) { c == '-' || c == '_' || c == '.' }

  /** What the API server accepts as a label value that is not empty. */
  ghost predicate ValidLabelValue(s: string) {
    && 1 <= |s| <= MAX_LABEL_VALUE
    && IsAlnum(s[0]) && IsAlnum(s[|s| - 1])
    && forall c :: c in s ==> IsAlnum(c) || Joiner(c)
  }

  function Coerced(value: string): string {
    if value == "" then ""
    else Coerced(value[..|value| - 1]) +
         [if IsAlnum(value[|value| - 1]) || Joiner(value[|value| - 1]) then value[|value| - 1] else '-']
  }

  function TrimJoinersLeft(s: string): string {
    if s != "" && Joiner(s[0]) then TrimJoinersLeft(s[1..]) else s
  }

  function TrimJoinersRight(s: string): string {
    if s != "" && Joiner(s[|s| - 1]) then TrimJoinersRight(s[..|s| - 1]) else s
  }

  function Sanitized(value: string): string {
    var b := Coerced(value);
    var out := TrimJoinersRight(TrimJoinersLeft(if |b| > MAX_LABEL_VALUE then b[..MAX_LABEL_VALUE] else b));
    if out == "" then "unknown" else out
  }

  /** sanitizeLabelValue. */
  method SanitizeLabelValue(value: string) returns (out: string)
    ensures out == Sanitized(value)
  {
    var b := "";
    for i := 0 to |value|
      invariant b == Coerced(value[..i])
    {
      assert value[..i + 1][..i] == value[..i];
      if IsAlnum(value[i]) || Joiner(value[i]) {
        b := b + [value[i]];
      } else {
        b := b + ['-'];
      }
    }
    assert value[..|value|] == value;
    out := b;
    if |out| > MAX_LABEL_VALUE {
      out := out[..MAX_LABEL_VALUE];
    }
    out := TrimJoinersRight(TrimJoinersLeft(out));
    if out == "" {
      out := "unknown";
    }
  }

  /** The last position of a character, or -1. */
  function LastIndex(s: string, c: char): (i: int)
    ensures -1 <= i < |s|
    ensures i >= 0 ==> s[i] == c
  {
    if s == "" then -1 else if s[|s| - 1] == c then |s| - 1 else LastIndex(s[..|s| - 1], c)
  }

  /** The part of a digest reference that names the version. */
  function DigestText(digest: string): string {
    var hex := match Cut(digest, ':')
      case Some(p) => p.snd
      case None => digest;
    if |hex| > SHORT_DIGEST then hex[..SHORT_DIGEST] else hex
  }

  /** The digest prefix or the tag of an image reference, if it has either. */
  function VersionText(image: string): Option<string> {
    var at := LastIndex(image, '@');
    if at != -1 then Some(DigestText(image[at + 1..]))
    else
      var slash := LastIndex(image, '/');
      var tagPart := if slash != -1 then image[slash..] else image;
      var colon := LastIndex(tagPart, ':');
      if colon != -1 then Some(tagPart[colon + 1..]) else None
  }

  /** ExtractVersionFromImage. */
  function ExtractVersion(image: string): string {
    match VersionText(image)
    case Some(text) => Sanitized(text)
    case None => "latest"
  }

  lemma {:induction false} CoercedKeeps(value: string)
    ensures |Coerced(value)| == |value|
    ensures forall c :: c in Coerced(value) ==> IsAlnum(c) || Joiner(c)
  {
    if value != "" { CoercedKeeps(value[..|value| - 1]); }
  }

  lemma {:induction false} TrimLeftKeeps(s: string)
    ensures |TrimJoinersLeft(s)| <= |s|
    ensures forall c :: c in TrimJoinersLeft(s) ==> c in s
    ensures TrimJoinersLeft(s) != "" ==> !Joiner(TrimJoinersLeft(s)[0])
  {
    if s != "" && Joiner(s[0]) { TrimLeftKeeps(s[1..]); }
  }

  lemma {:induction false} TrimRightKeeps(s: string)
    ensures |TrimJoinersRight(s)| <= |s| && TrimJoinersRight(s) == s[..|TrimJoinersRight(s)|]
    ensures TrimJoinersRight(s) != "" ==> !Joiner(TrimJoinersRight(s)[|TrimJoinersRight(s)| - 1])
  {
    if s != "" && Joiner(s[|s| - 1]) { TrimRightKeeps(s[..|s| - 1]); }
  }

  lemma SanitizedIsValid(value: string)
    ensures ValidLabelValue(Sanitized(value))
  {
    var b := Coerced(value);
    CoercedKeeps(value);
    var cut := if |b| > MAX_LABEL_VALUE then b[..MAX_LABEL_VALUE] else b;
    var left := TrimJoinersLeft(cut);
    TrimLeftKeeps(cut);
    var out := TrimJoinersRight(left);
    TrimRightKeeps(left);
    if out != "" {
      assert out[0] == left[0];
      forall c | c in out ensures IsAlnum(c) || Joiner(c) { assert c in left; }
      assert out[0] in out && out[|out| - 1] in out;
    }
  }

  /** Whatever stands in spec.image, the version label is one the API server accepts. */
  lemma VersionIsAlwaysValid(image: string)
    ensures ValidLabelValue(ExtractVersion(image))
  {
    match VersionText(image) {
      case Some(text) => SanitizedIsValid(text);
      case None => LatestIsValid();
    }
  }

  lemma LatestIsValid()
    ensures ValidLabelValue("latest")
  {
  }

  // ------------------------------------------------------- what the label says

  lemma {:induction false} CoercedSame(value: string)
    requires forall c :: c in value ==> IsAlnum(c) || Joiner(c)
    ensures Coerced(value) == value
  {
    if value != "" {
      var init := value[..|value| - 1];
      forall c | c in init ensures c in value {}
      CoercedSame(init);
      assert value[|value| - 1] in value;
      assert value == init + [value[|value| - 1]];
    }
  }

  /** A valid label value is kept as it is. */
  lemma ValidIsKept(value: string)
    requires ValidLabelValue(value)
    ensures Sanitized(value) == value
  {
    CoercedSame(value);
  }

  lemma {:induction false} LastIndexAt(a: string, b: string, c: char)
    requires c !in b
    ensures LastIndex(a + [c] + b, c) == |a|
  {
    var s := a + [c] + b;
    if b == "" {
      assert s[|s| - 1] == c;
    } else {
      var init := b[..|b| - 1];
      forall x | x in init ensures x in b {}
      assert s[..|s| - 1] == a + [c] + init;
      assert s[|s| - 1] == b[|b| - 1] && b[|b| - 1] in b;
      LastIndexAt(a, init, c);
    }
  }

  lemma {:induction false} LastIndexNone(s: string, c: char)
    requires c !in s
    ensures LastIndex(s, c) == -1
  {
    if s != "" {
      assert s[|s| - 1] in s;
      forall x | x in s[..|s| - 1] ensures x in s {}
      LastIndexNone(s[..|s| - 1], c);
    }
  }

  lemma {:induction false} LastIndexOver(a: string, b: string, c: char)
    requires c !in b
    ensures LastIndex(a + b, c) == LastIndex(a, c)
  {
    if b == "" {
      assert a + b == a;
    } else {
      var init, s := b[..|b| - 1], a + b;
      forall x | x in init ensures x in b {}
      assert s[..|s| - 1] == a + init;
      assert s[|s| - 1] == b[|b| - 1] && b[|b| - 1] in b;
      LastIndexOver(a, init, c);
    }
  }

  /** The label of an image with a digest is the start of the digest, without its
      algorithm. */
  lemma DigestIsShortened(image: string, algorithm: string, hex: string)
    requires '@' !in algorithm && ':' !in algorithm && '@' !in hex
    requires |hex| >= 12 && ValidLabelValue(hex[..12])
    ensures ExtractVersion(image + "@" + algorithm + ":" + hex) == hex[..12]
  {
    var digest := algorithm + [':'] + hex;
    var full := image + "@" + algorithm + ":" + hex;
    assert full == image + ['@'] + digest;
    LastIndexAt(image, digest, '@');
    assert full[|image| + 1..] == digest;
    CutAt(algorithm, hex, ':');
    assert |hex| == 12 ==> hex[..12] == hex;
    ValidIsKept(hex[..12]);
  }

  /** The label of an image with a tag is the tag. */
  lemma TagIsKept(head: string, tag: string)
    requires '@' !in head && ValidLabelValue(tag)
    ensures ExtractVersion(head + ":" + tag) == tag
  {
    var image := head + ":" + tag;
    TagPlain(tag);
    LastIndexNone(image, '@');
    assert image == head + (":" + tag);
    LastIndexOver(head, ":" + tag, '/');
    var slash := LastIndex(head, '/');
    var part := if slash != -1 then head[slash..] else head;
    assert (if slash != -1 then image[slash..] else image) == part + [':'] + tag;
    LastIndexAt(part, tag, ':');
    assert (part + [':'] + tag)[|part| + 1..] == tag;
    ValidIsKept(tag);
  }

  lemma TagPlain(tag: string)
    requires ValidLabelValue(tag)
    ensures ':' !in tag && '/' !in tag && '@' !in tag
  {
  }

  /** An image with neither is labelled latest, whatever port its registry has. */
  lemma NoVersionIsLatest(image: string, registry: string, name: string)
    requires image == name || image == registry + "/" + name
    requires '@' !in registry && '@' !in name && ':' !in name && '/' !in name
    ensures ExtractVersion(image) == "latest"
  {
    LastIndexNone(image, '@');
    if image == name {
      LastIndexNone(image, '/');
      LastIndexNone(image, ':');
    } else {
      assert image == registry + ['/'] + name;
      LastIndexAt(registry, name, '/');
      assert image[|registry|..] == "/" + name;
      LastIndexNone("/" + name, ':');
    }
  }
}
