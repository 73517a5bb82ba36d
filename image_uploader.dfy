/**
 * The upload form (`ImageUploader`): the category/template selection, the list of pending
 * uploads with their metadata, the schema-driven form over a template's field tree, and the
 * encoding of an upload's metadata into object-store attributes.
 *
 * Browser and vendor effects are parameters: the object URLs the browser assigns to dropped
 * files, the clock readings taken for object keys, and whether the batch of uploads succeeded.
 */
module ImageUploader {

  import opened Wrappers
  import opened Js
  import opened Types

  // =============================================================================================
  // Attribute keys and values

  /** The characters an attribute key may contain: `[a-z0-9-]`. */
  predicate IsAttributeKeyChar(c: char)
  {
    IsLowerAlnum(c) || c == '-'
  }

  /** A key made only of `[a-z0-9-]`. */
  predicate IsAttributeKey(k: string)
  {
    forall i :: 0 <= i < |k| ==> IsAttributeKeyChar(k[i])
  }

  /** The number of UTF-16 code units JavaScript stores a character in: a character outside
      the Basic Multilingual Plane takes two (a surrogate pair), any other one. */
  function Utf16Width(c: char): nat
  {
    if c as int < 0x1_0000 then 1 else 2
  }

  /** The `length` JavaScript reports for a string: its number of UTF-16 code units. */
  function Utf16Length(s: string): nat
  {
    if s == [] then 0 else Utf16Width(s[0]) + Utf16Length(s[1..])
  }

  /** Every character lies in the Basic Multilingual Plane, so each is one code unit. */
  predicate InBmp(s: string)
  {
    forall i :: 0 <= i < |s| ==> s[i] as int < 0x1_0000
  }

  /** What `key.toLowerCase().replace(/[^a-z0-9]/g, '-')` makes of one UTF-16 code unit of
      the Basic Multilingual Plane: it is lower-cased, then kept when it is in `[a-z0-9]` and
      replaced by `-` otherwise. */
  function LowerOrHyphen(c: char): (r: char)
    ensures IsAttributeKeyChar(r)
  {
    var l := AsciiLower(c);
    if IsLowerAlnum(l) then l else '-'
  }

  /** What `key.toLowerCase().replace(/[^a-z0-9]/g, '-')` makes of one character. The pattern
      has no `u` flag, so it sees code units: a character outside the Basic Multilingual Plane
      is two surrogates, neither in `[a-z0-9]`, and becomes `--`. */
  function SanitizeChar(c: char): (r: string)
    ensures |r| == Utf16Width(c)
    ensures forall i :: 0 <= i < |r| ==> IsAttributeKeyChar(r[i])
  {
    if c as int >= 0x1_0000 then "--" else [LowerOrHyphen(c)]
  }

  /** The sanitised form of a key inside the Basic Multilingual Plane: it has the key's length
      and characters keep their positions; one that is a lower-case letter or a digit after
      lower-casing stays, any other becomes `-`. */
  function SanitizeBmp(key: string): (r: string)
    ensures |r| == |key|
    ensures forall i :: 0 <= i < |key| && IsLowerAlnum(AsciiLower(key[i])) ==> r[i] == AsciiLower(key[i])
    ensures forall i :: 0 <= i < |key| && !IsLowerAlnum(AsciiLower(key[i])) ==> r[i] == '-'
  {
    seq(|key|, i requires 0 <= i < |key| => LowerOrHyphen(key[i]))
  }

  /** The strings of `ps`, one after the other. */
  function Concat(ps: seq<string>): string
  {
    if ps == [] then "" else ps[0] + Concat(ps[1..])
  }

  lemma {:induction false} ConcatAppend(a: seq<string>, b: seq<string>)
    ensures Concat(a + b) == Concat(a) + Concat(b)
  {
    if a == [] {
      assert a + b == b;
    } else {
      assert (a + b)[0] == a[0] && (a + b)[1..] == a[1..] + b;
      ConcatAppend(a[1..], b);
    }
  }

  /** What each character of the key becomes, in order. */
  function SanitizedPieces(key: string): seq<string>
  {
    seq(|key|, i requires 0 <= i < |key| => SanitizeChar(key[i]))
  }

  /** The sanitised text has one character per code unit, all in `[a-z0-9-]`, and inside the
      Basic Multilingual Plane it is the character-by-character image of the key. */
  lemma {:induction false} SanitizedPiecesJoin(key: string)
    ensures |Concat(SanitizedPieces(key))| == Utf16Length(key)
    ensures forall i :: 0 <= i < |Concat(SanitizedPieces(key))| ==> IsAttributeKeyChar(Concat(SanitizedPieces(key))[i])
    ensures InBmp(key) ==> |Concat(SanitizedPieces(key))| == |key|
                           && Concat(SanitizedPieces(key)) == SanitizeBmp(key)
  {
    if key != [] {
      var ps := SanitizedPieces(key);
      assert ps == [SanitizeChar(key[0])] + SanitizedPieces(key[1..]);
      assert ps[1..] == SanitizedPieces(key[1..]);
      SanitizedPiecesJoin(key[1..]);
      var head := SanitizeChar(key[0]);
      var rest := Concat(SanitizedPieces(key[1..]));
      assert Concat(ps) == head + rest;
      forall i | 0 <= i < |head + rest| ensures IsAttributeKeyChar((head + rest)[i]) {
        if i >= |head| { assert (head + rest)[i] == rest[i - |head|]; }
      }
      if InBmp(key) {
        assert InBmp(key[1..]) by {
          assert forall i :: 0 <= i < |key[1..]| ==> key[1..][i] == key[i + 1];
        }
        forall i | 0 <= i < |key| ensures (head + rest)[i] == SanitizeBmp(key)[i] {
          if i > 0 { assert key[i] == key[1..][i - 1]; }
        }
      }
    }
  }

  /** `key.toLowerCase().replace(/[^a-z0-9]/g, '-')`, with lower-casing restricted to ASCII.
      The result has one character per UTF-16 code unit of the key, all of them in `[a-z0-9-]`;
      for a key inside the Basic Multilingual Plane it is `SanitizeBmp(key)`, the key with each
      character lower-cased or replaced in place. */
  function SanitizeKey(key: string): (r: string)
    ensures |r| == Utf16Length(key)
    ensures IsAttributeKey(r)
    ensures InBmp(key) ==> r == SanitizeBmp(key)
  {
    SanitizedPiecesJoin(key);
    Concat(SanitizedPieces(key))
  }

  /** Sanitising works character by character: the key of a concatenation is the concatenation
      of the keys. */
  lemma SanitizeAppend(a: string, b: string)
    ensures SanitizeKey(a + b) == SanitizeKey(a) + SanitizeKey(b)
  {
    assert SanitizedPieces(a + b) == SanitizedPieces(a) + SanitizedPieces(b);
    ConcatAppend(SanitizedPieces(a), SanitizedPieces(b));
  }

  /** A key already made of `[a-z0-9-]` is left as it is. */
  lemma SanitizeKeepsAttributeKeys(key: string)
    requires IsAttributeKey(key)
    ensures SanitizeKey(key) == key
  {
    assert InBmp(key);
  }

  /** Sanitising a key that is already sanitised changes nothing. */
  lemma SanitizeIdempotent(key: string)
    ensures SanitizeKey(SanitizeKey(key)) == SanitizeKey(key)
  {
    SanitizeKeepsAttributeKeys(SanitizeKey(key));
  }

  /** Sanitising is not injective: replacing any one character by another that sanitises to the
      same text (`A` by `a`, `_` by `.` or `-`, one emoji by another) leaves the key unchanged. */
  lemma SanitizeMergesKeys(key: string, i: nat, c: char)
    requires i < |key| && SanitizeChar(c) == SanitizeChar(key[i])
    ensures SanitizeKey(key[i := c]) == SanitizeKey(key)
  {
    assert SanitizedPieces(key[i := c]) == SanitizedPieces(key);
  }

  /** A single character sanitises to what it becomes on its own. */
  lemma SanitizeOne(c: char)
    ensures SanitizeKey([c]) == SanitizeChar(c)
  {
    assert SanitizedPieces([c]) == [SanitizeChar(c)];
    assert Concat([SanitizeChar(c)]) == SanitizeChar(c) + Concat([]);
  }

  // Keys used in the examples below.
  const EmojiKey: string := "a\U{1F600}"
  const HyphensKey: string := "a--"
  const WeightDashKey: string := "Weight-kg"
  const WeightUnderscoreKey: string := "weight_kg"
  const WeightUnitKey: string := "Weight (kg)"
  const GroupPathKey: string := "specs.color"
  const WeightKey: string := "weight"

  /** A character outside the Basic Multilingual Plane becomes two hyphens, so `"a😀"` collides
      with `"a--"` (and with `"a.."`). */
  lemma SanitizeAstralCharacter()
    ensures SanitizeKey(EmojiKey) == "a--"
    ensures SanitizeKey(HyphensKey) == "a--"
  {
    SanitizeKeepsAttributeKeys(HyphensKey);
    assert EmojiKey == "a" + "\U{1F600}";
    SanitizeAppend("a", "\U{1F600}");
    SanitizeOne('a');
    SanitizeOne('\U{1F600}');
  }

  // The sanitised forms of the keys used in the examples below, character by character.

  lemma SanitizeBmpWeightKg()
    ensures SanitizeBmp("Weight-kg") == "weight-kg" && SanitizeBmp("weight_kg") == "weight-kg"
  {
    var a := SanitizeBmp("Weight-kg");
    assert a[0] == 'w' && a[1] == 'e' && a[2] == 'i' && a[3] == 'g' && a[4] == 'h' && a[5] == 't' && a[6] == '-' && a[7] == 'k' && a[8] == 'g';
    var b := SanitizeBmp("weight_kg");
    assert b[0] == 'w' && b[1] == 'e' && b[2] == 'i' && b[3] == 'g' && b[4] == 'h' && b[5] == 't' && b[6] == '-' && b[7] == 'k' && b[8] == 'g';
  }

  lemma SanitizeBmpSpecsColor()
    ensures SanitizeBmp("specs.color") == "specs-color"
  {
    var a := SanitizeBmp("specs.color");
    assert a[0] == 's' && a[1] == 'p' && a[2] == 'e' && a[3] == 'c' && a[4] == 's' && a[5] == '-' && a[6] == 'c' && a[7] == 'o' && a[8] == 'l' && a[9] == 'o' && a[10] == 'r';
  }

  lemma SanitizeBmpWeightParenKg()
    ensures SanitizeBmp("Weight (kg)") == "weight--kg-"
  {
    var a := SanitizeBmp("Weight (kg)");
    assert a[0] == 'w' && a[1] == 'e' && a[2] == 'i' && a[3] == 'g' && a[4] == 'h' && a[5] == 't' && a[6] == '-' && a[7] == '-' && a[8] == 'k' && a[9] == 'g' && a[10] == '-';
  }

  /** Keys that differ only in case or punctuation collide. */
  lemma SanitizeCollision()
    ensures SanitizeKey(WeightDashKey) == "weight-kg"
    ensures SanitizeKey(WeightUnderscoreKey) == "weight-kg"
  {
    assert InBmp(WeightDashKey) && InBmp(WeightUnderscoreKey);
    SanitizeBmpWeightKg();
  }

  /** A group path is flattened: its dot becomes a hyphen. */
  lemma SanitizeGroupPath()
    ensures SanitizeKey(GroupPathKey) == "specs-color"
  {
    assert InBmp(GroupPathKey);
    SanitizeBmpSpecsColor();
  }

  /** Spaces and parentheses each become a hyphen, so "Weight (kg)" does not collide with
      "Weight-kg". */
  lemma SanitizeSpacesAndParentheses()
    ensures SanitizeKey(WeightUnitKey) == "weight--kg-"
  {
    assert InBmp(WeightUnitKey);
    SanitizeBmpWeightParenKg();
  }

  /** `String(value || '')`: every falsy value becomes the empty string. */
  function AttributeValue(v: JsValue): (r: string)
    ensures r == "" <==> Falsy(v)
    ensures !Falsy(v) ==> r == ToJsString(v)
  {
    ToJsString(Or(v, Str("")))
  }

  /** The attribute map an upload carries: the entries of the metadata in order, each written
      under its sanitised key, so that a later entry overwrites an earlier one whose key
      sanitises to the same name. */
  function EncodedAttributes(m: Record): (r: map<string, string>)
    ensures forall k :: k in r ==> IsAttributeKey(k)
  {
    if m == [] then map[]
    else EncodedAttributes(m[..|m| - 1])[SanitizeKey(m[|m| - 1].0) := AttributeValue(m[|m| - 1].1)]
  }

  /** Builds the attribute map entry by entry, as the upload does before sending the file. */
  method EncodeMetadata(m: Record) returns (attributes: map<string, string>)
    ensures attributes == EncodedAttributes(m)
  {
    attributes := map[];
    var i := 0;
    while i < |m|
      invariant 0 <= i <= |m|
      invariant attributes == EncodedAttributes(m[..i])
    {
      var (key, value) := m[i];
      var sanitizedKey := SanitizeKey(key);
      assert m[..i + 1][..i] == m[..i];
      attributes := attributes[sanitizedKey := AttributeValue(value)];
      i := i + 1;
    }
    assert m[..i] == m;
  }

  /** The attribute names are exactly the sanitised metadata keys. */
  lemma {:induction false} EncodedKeys(m: Record)
    ensures forall i :: 0 <= i < |m| ==> SanitizeKey(m[i].0) in EncodedAttributes(m)
    ensures forall k :: k in EncodedAttributes(m) ==> exists i :: 0 <= i < |m| && SanitizeKey(m[i].0) == k
  {
    if m != [] {
      var init := m[..|m| - 1];
      EncodedKeys(init);
      forall i | 0 <= i < |m| ensures SanitizeKey(m[i].0) in EncodedAttributes(m) {
        if i < |init| { assert init[i] == m[i]; }
      }
      forall k | k in EncodedAttributes(m)
        ensures exists i :: 0 <= i < |m| && SanitizeKey(m[i].0) == k
      {
        if k != SanitizeKey(m[|m| - 1].0) {
          var i :| 0 <= i < |init| && SanitizeKey(init[i].0) == k;
          assert init[i] == m[i];
        }
      }
    }
  }

  /** There is at most one attribute per metadata entry, fewer when keys collide. */
  lemma {:induction false} EncodedSize(m: Record)
    ensures |EncodedAttributes(m)| <= |m|
  {
    if m != [] {
      var init := m[..|m| - 1];
      EncodedSize(init);
      var before := EncodedAttributes(init);
      var k := SanitizeKey(m[|m| - 1].0);
      if k in before {
        assert before[k := AttributeValue(m[|m| - 1].1)].Keys == before.Keys;
      } else {
        assert before[k := AttributeValue(m[|m| - 1].1)].Keys == before.Keys + {k};
      }
    }
  }

  /** The value under an attribute name is that of the last entry whose key sanitises to it. */
  lemma {:induction false} EncodedLastWins(m: Record, i: nat)
    requires i < |m|
    requires forall j :: i < j < |m| ==> SanitizeKey(m[j].0) != SanitizeKey(m[i].0)
    ensures SanitizeKey(m[i].0) in EncodedAttributes(m)
    ensures EncodedAttributes(m)[SanitizeKey(m[i].0)] == AttributeValue(m[i].1)
  {
    if i < |m| - 1 {
      var init := m[..|m| - 1];
      assert init[i] == m[i];
      forall j | i < j < |init| ensures SanitizeKey(init[j].0) != SanitizeKey(init[i].0) {
        assert init[j] == m[j];
      }
      EncodedLastWins(init, i);
    }
  }

  /** The attributes of a two-entry record: the second entry written over the first. */
  lemma EncodedPair(k1: string, v1: JsValue, k2: string, v2: JsValue)
    ensures EncodedAttributes([(k1, v1), (k2, v2)])
         == map[SanitizeKey(k1) := AttributeValue(v1)][SanitizeKey(k2) := AttributeValue(v2)]
  {
    var m: Record := [(k1, v1), (k2, v2)];
    assert m[..1] == [(k1, v1)];
    assert m[..1][..0] == [];
    assert EncodedAttributes(m[..1]) == map[SanitizeKey(k1) := AttributeValue(v1)];
  }

  /** Two keys that collide leave one attribute, holding the later value. */
  lemma EncodedPairCollision(k1: string, v1: JsValue, k2: string, v2: JsValue)
    requires SanitizeKey(k1) == SanitizeKey(k2)
    ensures EncodedAttributes([(k1, v1), (k2, v2)]) == map[SanitizeKey(k2) := AttributeValue(v2)]
  {
    EncodedPair(k1, v1, k2, v2);
    var k := SanitizeKey(k2);
    assert map[k := AttributeValue(v1)][k := AttributeValue(v2)] == map[k := AttributeValue(v2)];
  }

  lemma AttributeSeven()
    ensures AttributeValue(Num(7)) == "7"
  {
  }

  /** `{Weight-kg: 5, weight_kg: 7}` is sent as the single attribute `weight-kg -> "7"`. */
  lemma EncodedCollision()
    ensures EncodedAttributes([(WeightDashKey, Num(5)), (WeightUnderscoreKey, Num(7))]) == map["weight-kg" := "7"]
  {
    SanitizeCollision();
    EncodedPairCollision(WeightDashKey, Num(5), WeightUnderscoreKey, Num(7));
    AttributeSeven();
  }

  lemma SanitizeWeight()
    ensures SanitizeKey(WeightKey) == "weight"
  {
    SanitizeKeepsAttributeKeys(WeightKey);
  }

  lemma AttributeTwelve()
    ensures AttributeValue(Num(12)) == "12"
  {
    assert NatToDecimal(1) == "1";
    assert NatToDecimal(12) == NatToDecimal(1) + [DigitChar(2)];
  }

  /** A number and a value under a group path: `{weight: 12, "specs.color": "red"}` is sent as
      `weight -> "12"` and `specs-color -> "red"`. */
  lemma EncodedProductExample()
    ensures EncodedAttributes([(WeightKey, Num(12)), (GroupPathKey, Str("red"))])
         == map["weight" := "12", "specs-color" := "red"]
  {
    EncodedPair(WeightKey, Num(12), GroupPathKey, Str("red"));
    SanitizeGroupPath();
    SanitizeWeight();
    AttributeTwelve();
    assert AttributeValue(Str("red")) == "red";
  }

  // =============================================================================================
  // Pending uploads

  /** A file the user dropped; only its name is used. */
  datatype File = File(name: string)

  /** A pending upload: the file, its preview URL, its metadata record and, once the transfer
      has reported, its progress percentage. */
  datatype UploadedImage = UploadedImage(file: File, preview: string, metadata: Record,
                                         uploadProgress: Option<real>)

  /** The entries a drop adds: one per file, in order, with empty metadata and no progress.
      `previews[k]` is the object URL the browser assigned to `files[k]`. */
  function NewUploads(files: seq<File>, previews: seq<string>): (r: seq<UploadedImage>)
    requires |previews| == |files|
    ensures |r| == |files|
    ensures forall k :: 0 <= k < |r| ==> r[k] == UploadedImage(files[k], previews[k], [], None)
  {
    if files == [] then []
    else [UploadedImage(files[0], previews[0], [], None)] + NewUploads(files[1..], previews[1..])
  }

  /** The list after a metadata edit of image `index`: an index that names no image leaves the
      list as it was; otherwise only that image changes, and in it only the metadata property
      `field`, which now holds `value`. */
  function WithMetadata(images: seq<UploadedImage>, index: int, field: string, value: JsValue)
    : (r: seq<UploadedImage>)
    ensures !(0 <= index < |images|) ==> r == images
    ensures |r| == |images|
    ensures forall k :: 0 <= k < |images| && k != index ==> r[k] == images[k]
    ensures 0 <= index < |images| ==>
              && r[index].file == images[index].file
              && r[index].preview == images[index].preview
              && r[index].uploadProgress == images[index].uploadProgress
              && Get(r[index].metadata, field) == value
              && (forall key :: key != field ==> Get(r[index].metadata, key) == Get(images[index].metadata, key))
              && Keys(r[index].metadata) == Keys(images[index].metadata) + {field}
  {
    if 0 <= index < |images| then
      images[index := images[index].(metadata := Put(images[index].metadata, field, value))]
    else images
  }

  /** The list after a progress report for image `index`: an index that names no image leaves
      the list as it was; otherwise only that image's progress changes. */
  function WithProgress(images: seq<UploadedImage>, index: int, progress: real)
    : (r: seq<UploadedImage>)
    ensures !(0 <= index < |images|) ==> r == images
    ensures |r| == |images|
    ensures forall k :: 0 <= k < |images| && k != index ==> r[k] == images[k]
    ensures 0 <= index < |images| ==>
              r[index] == UploadedImage(images[index].file, images[index].preview,
                                        images[index].metadata, Some(progress))
  {
    if 0 <= index < |images| then images[index := images[index].(uploadProgress := Some(progress))]
    else images
  }

  /** A transfer progress report for image `index` of a batch: `transferredBytes` of
      `totalBytes` (0 when the total is unknown). */
  datatype ProgressEvent = ProgressEvent(index: int, transferredBytes: nat, totalBytes: nat)

  /** `(transferredBytes / totalBytes) * 100`, computed exactly. */
  function Percent(transferredBytes: nat, totalBytes: nat): (r: real)
    requires totalBytes > 0
    ensures r >= 0.0
    ensures transferredBytes <= totalBytes ==> r <= 100.0
  {
    (transferredBytes as real / totalBytes as real) * 100.0
  }

  /** The list after the progress reports of a save, in the order they arrived: a report whose
      total is unknown (`!totalBytes`) is ignored, any other sets that image's progress. Only
      progress changes: every image keeps its file, preview and metadata, and an image no
      report with a total names keeps its progress too. */
  function AfterProgress(images: seq<UploadedImage>, events: seq<ProgressEvent>): (r: seq<UploadedImage>)
    ensures |r| == |images|
    ensures forall k :: 0 <= k < |images| ==>
              r[k].file == images[k].file && r[k].preview == images[k].preview && r[k].metadata == images[k].metadata
    ensures forall k :: 0 <= k < |images| && (forall e :: 0 <= e < |events| && events[e].index == k ==> events[e].totalBytes == 0)
              ==> r[k] == images[k]
  {
    if events == [] then images
    else
      var before := AfterProgress(images, events[..|events| - 1]);
      var e := events[|events| - 1];
      if e.totalBytes == 0 then before else WithProgress(before, e.index, Percent(e.transferredBytes, e.totalBytes))
  }

  /** An image's progress is that of the last report with a known total that names it. */
  lemma {:induction false} AfterProgressLastWins(images: seq<UploadedImage>, events: seq<ProgressEvent>, e: nat)
    requires e < |events| && 0 <= events[e].index < |images| && events[e].totalBytes > 0
    requires forall e' :: e < e' < |events| && events[e'].index == events[e].index ==> events[e'].totalBytes == 0
    ensures AfterProgress(images, events)[events[e].index].uploadProgress
         == Some(Percent(events[e].transferredBytes, events[e].totalBytes))
  {
    var init := events[..|events| - 1];
    if e < |events| - 1 {
      assert init[e] == events[e];
      forall e' | e < e' < |init| && init[e'].index == init[e].index ensures init[e'].totalBytes == 0 {
        assert init[e'] == events[e'];
      }
      AfterProgressLastWins(images, init, e);
    }
  }

  /** Editing one metadata property of one image leaves every other (image, property) pair
      reading as before. */
  lemma MetadataEditIsolated(images: seq<UploadedImage>, index: int, field: string, value: JsValue,
                             k: nat, key: string)
    requires k < |images|
    ensures Get(WithMetadata(images, index, field, value)[k].metadata, key)
         == if k == index && key == field then value else Get(images[k].metadata, key)
  {
  }

  // =============================================================================================
  // Category change

  /** The template selected after choosing category `categoryId`: for a non-empty id naming a
      category, the first template whose id is that category's `templateId` (none if there is
      none); for no id, the empty id or an unknown one, the previous selection. */
  function TemplateAfterCategoryChange(categories: seq<Category>, templates: seq<Template>,
                                       categoryId: Option<string>, current: Option<Template>)
    : (r: Option<Template>)
    ensures categoryId.None? || categoryId == Some("") ==> r == current
    ensures (categoryId.Some? && forall k :: 0 <= k < |categories| ==> categories[k].id != categoryId.value)
              ==> r == current
    ensures forall k ::
              (0 <= k < |categories| && categoryId == Some(categories[k].id) && categories[k].id != ""
               && (forall j :: 0 <= j < k ==> categories[j].id != categories[k].id)) ==>
                && (r.None? <==> forall t :: 0 <= t < |templates| ==> templates[t].id != categories[k].templateId)
                && (r.Some? ==> r.value in templates && r.value.id == categories[k].templateId)
  {
    if categoryId.None? || categoryId.value == "" then current
    else
      match Find(categories, (c: Category) => c.id == categoryId.value)
      case None => current
      case Some(category) => Find(templates, (t: Template) => t.id == category.templateId)
  }

  // =============================================================================================
  // Saving

  /** The bucket every upload goes to. */
  const StorageBucket: string := "s3MetaDataManagement"

  /** The object key of an upload: `media-files/<category name>/<clock reading>-<file name>`.
      It lies in the category's folder and ends with the file's name after a hyphen. */
  function ObjectKey(categoryName: string, now: nat, fileName: string): (r: string)
    ensures |r| > |"media-files/" + categoryName + "/"|
    ensures r[..|"media-files/" + categoryName + "/"|] == "media-files/" + categoryName + "/"
    ensures |r| > |fileName| && r[|r| - |fileName| - 1..] == "-" + fileName
  {
    "media-files/" + categoryName + "/" + NatToDecimal(now) + "-" + fileName
  }

  /** The category a save uploads into: the selected one, when an id is selected and it names
      one of the categories (the first with that id). */
  function SaveTarget(categories: seq<Category>, selected: Option<string>): (r: Option<Category>)
    ensures r.Some? ==> selected.Some? && r.value in categories && r.value.id == selected.value
    ensures r.None? <==> selected.None? || selected.value == ""
                         || forall k :: 0 <= k < |categories| ==> categories[k].id != selected.value
  {
    if selected.None? || selected.value == "" then None
    else Find(categories, (c: Category) => c.id == selected.value)
  }

  /** What one upload sends: the object key and attributes of the stored file, and the image
      record created afterwards (its metadata is written as JSON text; here it is the record). */
  datatype UploadRequest = UploadRequest(bucket: string, path: string, attributes: map<string, string>,
                                         categoryId: string, metadata: Record)

  // =============================================================================================
  // The metadata form

  /** What a number control shows: nothing, or `Number(value)`. */
  datatype NumberShown = Blank | Shown(x: JsNumber)

  /** The controls the form renders. A group with `fields` renders a container labelled with
      its name around its children; every other field renders one input keyed by its path. */
  datatype Control =
    | Container(key: string, caption: string, children: seq<Control>)
    | NumberInput(key: string, caption: string, number: NumberShown)
    | SelectInput(key: string, caption: string, data: seq<string>, selected: Option<string>)
    | TextInput(key: string, caption: string, text: string)

  /** `prefix ? `${prefix}.${name}` : name`: the name alone at the top level, and below it the
      prefix, a dot and the name. */
  function FieldPath(prefix: string, name: string): (r: string)
    ensures prefix == "" ==> r == name
    ensures prefix != "" ==> |r| == |prefix| + 1 + |name| && r[..|prefix| + 1] == prefix + "."
                             && r[|prefix| + 1..] == name
  {
    if prefix == "" then name else prefix + "." + name
  }

  /** `metadata[path] ?? ''`: the stored value, or `''` when it is absent, `null` or
      `undefined`. */
  function StoredValue(m: Record, path: string): (r: JsValue)
    ensures !Nullish(r)
    ensures Nullish(Get(m, path)) ==> r == Str("")
    ensures !Nullish(Get(m, path)) ==> r == Get(m, path)
  {
    Coalesce(Get(m, path), Str(""))
  }

  /** `value === '' ? '' : Number(value)`: blank exactly for the empty string. */
  function NumberShownFor(v: JsValue): (r: NumberShown)
    ensures r == Blank <==> v == Str("")
    ensures r.Shown? ==> r.x == ToNumber(v)
  {
    if v == Str("") then Blank else Shown(ToNumber(v))
  }

  /** `value?.toString() || null`: no choice exactly for the empty string, and otherwise the
      value's text. */
  function SelectShownFor(v: JsValue): (r: Option<string>)
    ensures r.None? <==> v == Str("")
    ensures r.Some? ==> r.value == ToJsString(v) && r.value != ""
  {
    var t := ToJsString(v);
    if t == "" then None else Some(t)
  }

  /** `value?.toString() || ''`: empty exactly for the empty string, a string as it is. */
  function TextShownFor(v: JsValue): (r: string)
    ensures r == "" <==> v == Str("")
    ensures v.Str? ==> r == v.s
  {
    ToJsString(v)
  }

  /** The control a field renders for metadata `m` under path prefix `prefix`: keyed by the
      field's path and captioned with its name; a container for a group with `fields`, a number
      input for a number, a select over the options for a select, and a text input for the
      rest, each leaf showing the value stored at its path. */
  function RenderField(f: Field, m: Record, prefix: string): (r: Control)
    ensures r.key == FieldPath(prefix, f.name) && r.caption == f.name
    ensures r.Container? <==> f.Group?
    ensures r.Container? ==> f.Group? && r.children == RenderFields(f.fields, m, r.key)
    ensures r.NumberInput? <==> f.Number?
    ensures r.SelectInput? <==> f.Select?
    ensures r.SelectInput? ==> r.data == f.options && r.selected == SelectShownFor(StoredValue(m, r.key))
    ensures r.NumberInput? ==> r.number == NumberShownFor(StoredValue(m, r.key))
    ensures r.TextInput? ==> r.text == TextShownFor(StoredValue(m, r.key))
  {
    var path := FieldPath(prefix, f.name);
    var value := StoredValue(m, path);
    match f
    case Group(name, fields) => Container(path, name, RenderFields(fields, m, path))
    case Number(name) => NumberInput(path, name, NumberShownFor(value))
    case Select(name, options) => SelectInput(path, name, options, SelectShownFor(value))
    case _ => TextInput(path, f.name, TextShownFor(value))
  }

  /** One control per sibling field, in order. */
  function RenderFields(fs: seq<Field>, m: Record, prefix: string): (r: seq<Control>)
    ensures |r| == |fs|
    ensures forall i :: 0 <= i < |fs| ==> r[i] == RenderField(fs[i], m, prefix)
  {
    if fs == [] then []
    else
      var rest := RenderFields(fs[1..], m, prefix);
      var r := [RenderField(fs[0], m, prefix)] + rest;
      assert forall i :: 1 <= i < |fs| ==> fs[i] == fs[1..][i - 1] && r[i] == rest[i - 1];
      r
  }

  /** The keys of the input controls inside a rendered control, in pre-order. */
  function InputKeys(c: Control): seq<string>
  {
    match c
    case Container(_, _, children) => InputKeysAll(children)
    case _ => [c.key]
  }

  function InputKeysAll(cs: seq<Control>): seq<string>
  {
    if cs == [] then [] else InputKeys(cs[0]) + InputKeysAll(cs[1..])
  }

  /** The metadata paths a field's inputs read and write: a leaf's own path, or for a group
      with `fields` the paths of its children, which all begin with the group's path. */
  function FieldPaths(f: Field, prefix: string): (r: seq<string>)
    ensures !f.Group? ==> r == [FieldPath(prefix, f.name)]
    ensures forall i :: 0 <= i < |r| ==>
              |r[i]| >= |FieldPath(prefix, f.name)| && r[i][..|FieldPath(prefix, f.name)|] == FieldPath(prefix, f.name)
  {
    match f
    case Group(name, fields) =>
      var q := FieldPath(prefix, name);
      var r := FieldsPaths(fields, q);
      assert forall i :: 0 <= i < |r| ==> |r[i]| >= |q| && r[i][..|q|] == q by {
        forall i | 0 <= i < |r| ensures |r[i]| >= |q| && r[i][..|q|] == q {
          if q != "" {
            assert r[i][..|q|] == r[i][..|q| + 1][..|q|];
          }
        }
      }
      r
    case _ => [FieldPath(prefix, f.name)]
  }

  /** The paths of sibling fields, one field after the other; under a non-empty prefix every one
      of them is the prefix, a dot and more. */
  function FieldsPaths(fs: seq<Field>, prefix: string): (r: seq<string>)
    ensures prefix != "" ==> forall i :: 0 <= i < |r| ==> |r[i]| > |prefix| && r[i][..|prefix| + 1] == prefix + "."
  {
    if fs == [] then []
    else
      var a := FieldPaths(fs[0], prefix);
      var b := FieldsPaths(fs[1..], prefix);
      assert prefix != "" ==> forall i :: 0 <= i < |a| ==> |a[i]| > |prefix| && a[i][..|prefix| + 1] == prefix + "." by {
        if prefix != "" {
          var q := FieldPath(prefix, fs[0].name);
          forall i | 0 <= i < |a| ensures |a[i]| > |prefix| && a[i][..|prefix| + 1] == prefix + "." {
            assert a[i][..|prefix| + 1] == a[i][..|q|][..|prefix| + 1];
          }
        }
      }
      assert forall i :: |a| <= i < |a + b| ==> (a + b)[i] == b[i - |a|];
      a + b
  }

  /** The chains of names from a field down to each of its leaves (a group with `fields` is not
      a leaf; a group without them is), in pre-order. */
  function Chains(f: Field): seq<seq<string>>
  {
    match f
    case Group(name, fields) => Prepend(name, ChainsAll(fields))
    case _ => [[f.name]]
  }

  function ChainsAll(fs: seq<Field>): seq<seq<string>>
  {
    if fs == [] then [] else Chains(fs[0]) + ChainsAll(fs[1..])
  }

  function Prepend(name: string, chains: seq<seq<string>>): (r: seq<seq<string>>)
    ensures |r| == |chains| && forall i :: 0 <= i < |r| ==> r[i] == [name] + chains[i]
  {
    if chains == [] then [] else [[name] + chains[0]] + Prepend(name, chains[1..])
  }

  /** The path a chain of names spells under `prefix`. */
  function JoinPath(prefix: string, chain: seq<string>): string
    decreases chain
  {
    if chain == [] then prefix else JoinPath(FieldPath(prefix, chain[0]), chain[1..])
  }

  function JoinAll(prefix: string, chains: seq<seq<string>>): (r: seq<string>)
    ensures |r| == |chains| && forall i :: 0 <= i < |r| ==> r[i] == JoinPath(prefix, chains[i])
  {
    if chains == [] then [] else [JoinPath(prefix, chains[0])] + JoinAll(prefix, chains[1..])
  }

  /** `"." + n` for every name of the chain, concatenated. */
  function DotSuffix(chain: seq<string>): string
  {
    if chain == [] then "" else "." + chain[0] + DotSuffix(chain[1..])
  }

  /** The inputs of a rendered field are keyed by exactly the field's paths, in pre-order,
      whatever the metadata holds. */
  lemma {:induction false} RenderedKeysAreFieldPaths(f: Field, m: Record, prefix: string)
    ensures InputKeys(RenderField(f, m, prefix)) == FieldPaths(f, prefix)
  {
    match f
    case Group(name, fields) => RenderedKeysAreFieldPathsAll(fields, m, FieldPath(prefix, name));
    case _ =>
  }

  lemma {:induction false} RenderedKeysAreFieldPathsAll(fs: seq<Field>, m: Record, prefix: string)
    ensures InputKeysAll(RenderFields(fs, m, prefix)) == FieldsPaths(fs, prefix)
  {
    if fs != [] {
      RenderedKeysAreFieldPaths(fs[0], m, prefix);
      RenderedKeysAreFieldPathsAll(fs[1..], m, prefix);
    }
  }

  lemma {:induction false} JoinAllAppend(prefix: string, a: seq<seq<string>>, b: seq<seq<string>>)
    ensures JoinAll(prefix, a + b) == JoinAll(prefix, a) + JoinAll(prefix, b)
  {
  }

  /** Leaf paths are the ancestor chains of the leaves joined by the path rule, in pre-order: a
      group with `fields` passes its own path down as the prefix of its children. */
  lemma {:induction false} FieldPathsAreJoinedChains(f: Field, prefix: string)
    ensures FieldPaths(f, prefix) == JoinAll(prefix, Chains(f))
  {
    match f
    case Group(name, fields) =>
      FieldsPathsAreJoinedChains(fields, FieldPath(prefix, name));
      var cs := ChainsAll(fields);
      assert JoinAll(prefix, Prepend(name, cs)) == JoinAll(FieldPath(prefix, name), cs);
    case _ =>
      assert JoinAll(prefix, [[f.name]]) == [JoinPath(prefix, [f.name])];
      assert JoinPath(prefix, [f.name]) == JoinPath(FieldPath(prefix, f.name), []);
  }

  lemma {:induction false} FieldsPathsAreJoinedChains(fs: seq<Field>, prefix: string)
    ensures FieldsPaths(fs, prefix) == JoinAll(prefix, ChainsAll(fs))
  {
    if fs != [] {
      FieldPathsAreJoinedChains(fs[0], prefix);
      FieldsPathsAreJoinedChains(fs[1..], prefix);
      JoinAllAppend(prefix, Chains(fs[0]), ChainsAll(fs[1..]));
    }
  }

  /** Under a non-empty prefix, a chain's path is the prefix followed by `.name` for each name. */
  lemma {:induction false} JoinPathUnderPrefix(prefix: string, chain: seq<string>)
    requires prefix != ""
    ensures JoinPath(prefix, chain) == prefix + DotSuffix(chain)
    decreases chain
  {
    if chain != [] {
      JoinPathUnderPrefix(prefix + "." + chain[0], chain[1..]);
    }
  }

  /** A control reads its metadata only at its own path: editing a property that is none of a
      field's paths leaves its whole rendering unchanged. Siblings inside a group are thereby
      isolated from each other's edits. */
  lemma {:induction false} RenderIgnoresOtherPaths(f: Field, m: Record, prefix: string, key: string, v: JsValue)
    requires key !in FieldPaths(f, prefix)
    ensures RenderField(f, Put(m, key, v), prefix) == RenderField(f, m, prefix)
  {
    match f
    case Group(name, fields) => RenderIgnoresOtherPathsAll(fields, m, FieldPath(prefix, name), key, v);
    case _ =>
  }

  lemma {:induction false} RenderIgnoresOtherPathsAll(fs: seq<Field>, m: Record, prefix: string, key: string, v: JsValue)
    requires key !in FieldsPaths(fs, prefix)
    ensures RenderFields(fs, Put(m, key, v), prefix) == RenderFields(fs, m, prefix)
  {
    if fs != [] {
      RenderIgnoresOtherPaths(fs[0], m, prefix, key, v);
      RenderIgnoresOtherPathsAll(fs[1..], m, prefix, key, v);
    }
  }

  /** A path the metadata does not hold (or holds as null or undefined) reads back as blank: a
      number control shows nothing rather than 0, a select shows no choice, a text control "". */
  lemma AbsentReadsBlank(m: Record, path: string)
    requires Get(m, path).Undef? || Get(m, path).Null?
    ensures NumberShownFor(StoredValue(m, path)) == Blank
    ensures SelectShownFor(StoredValue(m, path)) == None
    ensures TextShownFor(StoredValue(m, path)) == ""
  {
  }

  /** A select shows no choice exactly when the stored value is absent, null, undefined or the
      empty string; `0` and `false` show as "0" and "false". */
  lemma SelectNoChoiceIff(m: Record, path: string)
    ensures SelectShownFor(StoredValue(m, path)).None?
        <==> Get(m, path) == Str("") || Get(m, path).Null? || Get(m, path).Undef?
  {
  }

  /** What an edit writes reads back at the same path: typed text shows as typed, a number shows
      as that number (0 included), and a cleared number control shows blank again. */
  lemma EditReadsBack(m: Record, path: string, s: string, n: int)
    ensures TextShownFor(StoredValue(Put(m, path, Str(s)), path)) == s
    ensures NumberShownFor(StoredValue(Put(m, path, Num(n)), path)) == Shown(Finite(n))
    ensures NumberShownFor(StoredValue(Put(m, path, Str("")), path)) == Blank
    ensures SelectShownFor(StoredValue(Put(m, path, Str(s)), path)) == if s == "" then None else Some(s)
  {
  }

  // =============================================================================================
  // The component's state

  class Uploader {
    const categories: seq<Category>
    const templates: seq<Template>
    var selectedCategory: Option<string>
    var uploadedImages: seq<UploadedImage>
    var selectedTemplate: Option<Template>
    var isUploading: bool

    constructor (categories: seq<Category>, templates: seq<Template>)
      ensures this.categories == categories && this.templates == templates
      ensures selectedCategory == None && uploadedImages == [] && selectedTemplate == None
      ensures !isUploading
    {
      this.categories := categories;
      this.templates := templates;
      selectedCategory := None;
      uploadedImages := [];
      selectedTemplate := None;
      isUploading := false;
    }

    /** The category select changed; the template follows the category when it is known. */
    method HandleCategoryChange(categoryId: Option<string>)
      modifies this
      ensures selectedCategory == categoryId
      ensures selectedTemplate
           == TemplateAfterCategoryChange(categories, templates, categoryId, old(selectedTemplate))
      ensures uploadedImages == old(uploadedImages) && isUploading == old(isUploading)
    {
      selectedCategory := categoryId;
      if categoryId.Some? && categoryId.value != "" {
        var category := Find(categories, (c: Category) => c.id == categoryId.value);
        if category.Some? {
          var template := Find(templates, (t: Template) => t.id == category.value.templateId);
          selectedTemplate := template;
        }
      }
    }

    /** Files were dropped: they join the end of the pending list, in order. */
    method HandleDrop(files: seq<File>, previews: seq<string>)
      requires |previews| == |files|
      modifies this
      ensures uploadedImages == old(uploadedImages) + NewUploads(files, previews)
      ensures selectedCategory == old(selectedCategory) && selectedTemplate == old(selectedTemplate)
      ensures isUploading == old(isUploading)
    {
      var newImages := NewUploads(files, previews);
      uploadedImages := uploadedImages + newImages;
    }

    /** A form control of image `imageIndex` wrote `value` at path `field`. */
    method HandleMetadataChange(imageIndex: int, field: string, value: JsValue)
      modifies this
      ensures uploadedImages == WithMetadata(old(uploadedImages), imageIndex, field, value)
      ensures selectedCategory == old(selectedCategory) && selectedTemplate == old(selectedTemplate)
      ensures isUploading == old(isUploading)
    {
      var updated := uploadedImages;
      if 0 <= imageIndex < |updated| {
        var image := updated[imageIndex];
        updated := updated[imageIndex := image.(metadata := Put(image.metadata, field, value))];
        uploadedImages := updated;
      }
    }

    /** The transfer of image `index` reported `progress` percent. */
    method UpdateUploadProgress(index: int, progress: real)
      modifies this
      ensures uploadedImages == WithProgress(old(uploadedImages), index, progress)
      ensures selectedCategory == old(selectedCategory) && selectedTemplate == old(selectedTemplate)
      ensures isUploading == old(isUploading)
    {
      var updated := uploadedImages;
      if 0 <= index < |updated| {
        updated := updated[index := updated[index].(uploadProgress := Some(progress))];
        uploadedImages := updated;
      }
    }

    /** Save all pending images. With no category selected, or one that is not in the list,
        nothing happens. Otherwise one upload per pending image is sent, with `clock[k]` the
        clock reading taken for image `k`, and the transfers' progress reports `events` are
        applied to the list as they arrive. When every upload succeeds the list is emptied and
        the category is reported as completed; otherwise the list is kept, with the progress
        reported so far. Uploading ends either way. */
    method HandleSave(clock: seq<nat>, events: seq<ProgressEvent>, succeeded: bool)
      returns (requests: seq<UploadRequest>, completed: Option<string>)
      requires |clock| == |uploadedImages|
      modifies this
      ensures selectedCategory == old(selectedCategory) && selectedTemplate == old(selectedTemplate)
      ensures SaveTarget(categories, old(selectedCategory)).None? ==>
                && requests == [] && completed == None
                && uploadedImages == old(uploadedImages) && isUploading == old(isUploading)
      ensures SaveTarget(categories, old(selectedCategory)).Some? ==>
                var category := SaveTarget(categories, old(selectedCategory)).value;
                && |requests| == |old(uploadedImages)|
                && (forall k :: 0 <= k < |requests| ==>
                      requests[k] == UploadRequest(StorageBucket,
                                                   ObjectKey(category.name, clock[k], old(uploadedImages)[k].file.name),
                                                   EncodedAttributes(old(uploadedImages)[k].metadata),
                                                   category.id,
                                                   old(uploadedImages)[k].metadata))
                && !isUploading
                && uploadedImages == (if succeeded then [] else AfterProgress(old(uploadedImages), events))
                && completed == (if succeeded then Some(category.id) else None)
    {
      requests, completed := [], None;
      if selectedCategory.None? || selectedCategory.value == "" {
        return;
      }
      var categoryId := selectedCategory.value;
      var found := Find(categories, (c: Category) => c.id == categoryId);
      if found.None? {
        return;
      }
      var category := found.value;
      assert category.id == categoryId;
      isUploading := true;
      var batch := uploadedImages;
      var index := 0;
      while index < |batch|
        invariant 0 <= index <= |batch|
        invariant uploadedImages == batch && isUploading
        invariant selectedCategory == old(selectedCategory) && selectedTemplate == old(selectedTemplate)
        invariant |requests| == index
        invariant forall k :: 0 <= k < index ==>
                    requests[k] == UploadRequest(StorageBucket,
                                                 ObjectKey(category.name, clock[k], batch[k].file.name),
                                                 EncodedAttributes(batch[k].metadata),
                                                 categoryId, batch[k].metadata)
      {
        var img := batch[index];
        var key := ObjectKey(category.name, clock[index], img.file.name);
        var attributes := EncodeMetadata(img.metadata);
        requests := requests + [UploadRequest(StorageBucket, key, attributes, categoryId, img.metadata)];
        index := index + 1;
      }
      var e := 0;
      while e < |events|
        invariant 0 <= e <= |events|
        invariant uploadedImages == AfterProgress(batch, events[..e])
        invariant selectedCategory == old(selectedCategory) && selectedTemplate == old(selectedTemplate)
        invariant isUploading
      {
        assert events[..e + 1][..e] == events[..e];
        var event := events[e];
        if event.totalBytes != 0 {
          UpdateUploadProgress(event.index, Percent(event.transferredBytes, event.totalBytes));
        }
        e := e + 1;
      }
      assert events[..e] == events;
      if succeeded {
        uploadedImages := [];
        completed := Some(categoryId);
      }
      isUploading := false;
    }

    /** `renderMetadataField(field, imageIndex, prefix)`: nothing for an index that names no
        pending image, otherwise the field rendered over that image's metadata. */
    function RenderMetadataField(field: Field, imageIndex: int, prefix: string): (r: Option<Control>)
      reads this
      ensures r.None? <==> !(0 <= imageIndex < |uploadedImages|)
      ensures r.Some? ==> r.value == RenderField(field, uploadedImages[imageIndex].metadata, prefix)
    {
      if 0 <= imageIndex < |uploadedImages| then
        Some(RenderField(field, uploadedImages[imageIndex].metadata, prefix))
      else None
    }
  }
}
