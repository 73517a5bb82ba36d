/**
 * The read side of the console: the gallery of one category. Each image card offers a download
 * whose file name is derived from the object key, and lists one line per top-level field of the
 * category's template, showing the value stored under that field's bare name or "N/A".
 */
module CategoryView {

  import opened Wrappers
  import opened Js
  import opened Types
  import ImageUploader

  // =============================================================================================
  // Download file name

  /** `s.split('/')` kept as the pieces already closed by a slash and the piece still open. */
  function Pieces(s: string): (r: (seq<string>, string))
    ensures forall i :: 0 <= i < |r.0| ==> '/' !in r.0[i]
    ensures '/' !in r.1
    decreases |s|
  {
    if s == [] then ([], "")
    else
      var (closed, open) := Pieces(s[..|s| - 1]);
      var c := s[|s| - 1];
      if c == '/' then (closed + [open], "")
      else (closed, open + [c])
  }

  /** The open piece is the text after the last slash: a suffix of `s` that is all of `s` or
      follows a slash. */
  lemma {:induction false} OpenPieceIsSuffix(s: string)
    ensures |Pieces(s).1| <= |s| && s[|s| - |Pieces(s).1|..] == Pieces(s).1
    ensures |Pieces(s).1| == |s| || s[|s| - |Pieces(s).1| - 1] == '/'
    decreases |s|
  {
    if s != [] {
      var init := s[..|s| - 1];
      var c := s[|s| - 1];
      OpenPieceIsSuffix(init);
      var open := Pieces(init).1;
      assert s == init + [c];
      if c != '/' {
        assert s[|s| - |open| - 1..] == init[|init| - |open|..] + [c];
        assert |open| < |init| ==> s[|s| - |open| - 2] == init[|init| - |open| - 1];
      }
    }
  }

  /** `s.split('/')`: the pieces between the slashes, in order; there is always at least one
      (`"".split('/')` is `[""]`), and no piece contains a slash. */
  function Split(s: string): (r: seq<string>)
    ensures |r| >= 1
    ensures forall i :: 0 <= i < |r| ==> '/' !in r[i]
  {
    Pieces(s).0 + [Pieces(s).1]
  }

  /** `parts.join('/')` */
  function Join(parts: seq<string>): string
  {
    if parts == [] then ""
    else if |parts| == 1 then parts[0]
    else Join(parts[..|parts| - 1]) + "/" + parts[|parts| - 1]
  }

  /** Splitting at the slashes loses nothing: joining the pieces gives the key back. */
  lemma {:induction false} SplitJoinRoundTrip(s: string)
    ensures Join(Split(s)) == s
    decreases |s|
  {
    if s != [] {
      var init := s[..|s| - 1];
      var c := s[|s| - 1];
      var (closed, open) := Pieces(init);
      SplitJoinRoundTrip(init);
      assert Join(closed + [open]) == init;
      assert s == init + [c];
      if c == '/' {
        var parts := closed + [open] + [""];
        assert parts[..|parts| - 1] == closed + [open];
        assert Join(parts) == Join(closed + [open]) + "/" + "";
      } else {
        var parts := closed + [open + [c]];
        if closed == [] {
          assert Join(parts) == open + [c];
        } else {
          assert parts[..|parts| - 1] == closed;
          assert (closed + [open])[..|closed|] == closed;
          assert Join(parts) == Join(closed) + "/" + open + [c];
        }
      }
    }
  }

  /** A slash closes the open piece: the pieces of `a + "/" + b` are those of `a`, all closed,
      followed by those of `b`. */
  lemma {:induction false} PiecesAppend(a: string, b: string)
    ensures Pieces(a + "/" + b) == (Split(a) + Pieces(b).0, Pieces(b).1)
    decreases |b|
  {
    var s := a + "/" + b;
    if b == [] {
      assert s[..|s| - 1] == a;
      assert Pieces(b) == ([], "");
      assert Split(a) + Pieces(b).0 == Split(a);
    } else {
      var b' := b[..|b| - 1];
      var c := b[|b| - 1];
      assert s[..|s| - 1] == a + "/" + b';
      assert s[|s| - 1] == c;
      PiecesAppend(a, b');
      var (closed, open) := Pieces(b');
      if c == '/' {
        assert Pieces(b) == (closed + [open], "");
        assert Pieces(s) == (Split(a) + closed + [open], "");
        AppendAssociates(Split(a), closed, [open]);
      } else {
        assert Pieces(b) == (closed, open + [c]);
      }
    }
  }

  /** A slash separates: the pieces of `a + "/" + b` are those of `a` followed by those of `b`. */
  lemma SplitAppend(a: string, b: string)
    ensures Split(a + "/" + b) == Split(a) + Split(b)
  {
    PiecesAppend(a, b);
    AppendAssociates(Split(a), Pieces(b).0, [Pieces(b).1]);
  }

  // Associativity of `+`, stated apart so that the two proofs above need not rediscover it
  // among the many sequence terms in their context.
  lemma AppendAssociates(x: seq<string>, y: seq<string>, z: seq<string>)
    ensures x + y + z == x + (y + z)
  {
  }

  /** A key without slashes is a single piece. */
  lemma {:induction false} SplitWithoutSlash(b: string)
    requires '/' !in b
    ensures Pieces(b) == ([], b)
    ensures Split(b) == [b]
    decreases |b|
  {
    if b != [] {
      var b' := b[..|b| - 1];
      assert '/' !in b' by {
        assert forall x :: x in b' ==> x in b;
      }
      SplitWithoutSlash(b');
      assert b' + [b[|b| - 1]] == b;
    }
  }

  /** `s.split('/').pop()`: the last piece, which is the part of the key after its last slash,
      or the whole key when it has none: a slash-free suffix that is the whole key or is
      preceded by a slash. */
  function LastSegment(s: string): (r: string)
    ensures '/' !in r
    ensures |r| <= |s| && s[|s| - |r|..] == r
    ensures |r| == |s| || s[|s| - |r| - 1] == '/'
  {
    OpenPieceIsSuffix(s);
    var parts := Split(s);
    parts[|parts| - 1]
  }

  /** The name a downloaded image is saved under: `s3Key.split('/').pop() || 'image'`. */
  function DownloadName(s3Key: string): (r: string)
    ensures '/' !in r
    ensures r != ""
  {
    var last := LastSegment(s3Key);
    if last == "" then "image" else last
  }

  /** A key ending in a slash (and the empty key) has an empty last piece, so the download is
      named "image". */
  lemma DownloadNameAfterTrailingSlash(s3Key: string)
    requires s3Key == "" || s3Key[|s3Key| - 1] == '/'
    ensures DownloadName(s3Key) == "image"
  {
    if s3Key != "" {
      assert s3Key == s3Key[..|s3Key| - 1] + [s3Key[|s3Key| - 1]];
    }
  }

  /** A key without slashes is downloaded under its own name. */
  lemma DownloadNameWithoutSlash(s3Key: string)
    requires s3Key != "" && '/' !in s3Key
    ensures DownloadName(s3Key) == s3Key
  {
    SplitWithoutSlash(s3Key);
  }

  /** An image stored by the uploader under `media-files/<category>/<time>-<file>` downloads as
      `<time>-<file>` whenever the file's own name has no slash, whatever the category's name. */
  lemma DownloadNameOfUpload(categoryName: string, now: nat, fileName: string)
    requires '/' !in fileName
    ensures DownloadName(ImageUploader.ObjectKey(categoryName, now, fileName)) == NatToDecimal(now) + "-" + fileName
  {
    var stem := NatToDecimal(now) + "-" + fileName;
    var a := "media-files/" + categoryName;
    assert ImageUploader.ObjectKey(categoryName, now, fileName) == a + "/" + stem;
    assert '/' !in stem by {
      forall i | 0 <= i < |stem| ensures stem[i] != '/' {
        if i < |NatToDecimal(now)| {
          assert IsDigit(NatToDecimal(now)[i]);
        } else if i > |NatToDecimal(now)| {
          assert stem[i] == fileName[i - |NatToDecimal(now)| - 1];
        }
      }
    }
    SplitAppend(a, stem);
    SplitWithoutSlash(stem);
  }

  // =============================================================================================
  // Field lines

  /** What parsing an image's stored metadata text yields: an object (its entries), `null`, some
      other JSON value (a string, number or boolean), or a syntax error. */
  datatype Parsed = Object(entries: Record) | NullValue | Scalar | Malformed

  /** One line of a card: the field's name and the text shown after it. */
  datatype DisplayLine = DisplayLine(caption: string, text: string)

  /** The text React renders for a value: strings as they are, numbers in decimal, and nothing
      for booleans, `null` and `undefined`. */
  function ReactText(v: JsValue): (r: string)
    ensures v.Str? ==> r == v.s
    ensures v.Num? ==> r == IntToDecimal(v.n) && r != "N/A"
    ensures r == "" <==> v == Str("") || v.Bool? || Nullish(v)
  {
    assert v.Num? ==> IntToDecimal(v.n) != "N/A" by {
      if v.Num? {
        var d := IntToDecimal(v.n);
        if v.n < 0 {
          assert d[0] == '-';
        } else {
          assert IsDigit(NatToDecimal(v.n)[0]);
        }
      }
    }
    match v
    case Str(s) => s
    case Num(n) => IntToDecimal(n)
    case _ => ""
  }

  /** `metadata[name] || 'N/A'`, rendered: "N/A" exactly when the value under the bare name is
      falsy (absent, `""`, 0, `false`, `null`, `undefined`) or is the text "N/A" itself; any
      other string shows as it is, any other number in decimal. */
  function DisplayValue(m: Record, name: string): (r: string)
    ensures r == "N/A" <==> Falsy(Get(m, name)) || Get(m, name) == Str("N/A")
    ensures Get(m, name).Str? && Get(m, name).s != "" ==> r == Get(m, name).s
    ensures Get(m, name).Num? && Get(m, name).n != 0 ==> r == IntToDecimal(Get(m, name).n)
  {
    ReactText(Or(Get(m, name), Str("N/A")))
  }

  /** The lines of one card: none without a template; otherwise one per top-level field of the
      template. The metadata is parsed once per field, so with no fields it is never read; with
      fields, `null` metadata fails at the lookup and malformed text fails at the parse. */
  function DisplayLines(template: Option<Template>, metadata: Parsed): (r: Result<seq<DisplayLine>, string>)
    ensures template.None? ==> r == Ok([])
    ensures r.Err? <==> template.Some? && template.value.fields != [] && (metadata.NullValue? || metadata.Malformed?)
    ensures r.Ok? && template.Some? ==> |r.value| == |template.value.fields|
    ensures r.Ok? && template.Some? && metadata.Object? ==>
              forall i :: 0 <= i < |r.value| ==>
                r.value[i] == DisplayLine(template.value.fields[i].name,
                                          DisplayValue(metadata.entries, template.value.fields[i].name))
    ensures r.Ok? && template.Some? && metadata.Scalar? ==>
              forall i :: 0 <= i < |r.value| ==> r.value[i] == DisplayLine(template.value.fields[i].name, "N/A")
  {
    if template.None? || template.value.fields == [] then Ok([])
    else
      match metadata
      case NullValue => Err("TypeError: Cannot read properties of null")
      case Malformed => Err("SyntaxError: metadata is not valid JSON")
      case Object(m) => Ok(FieldLines(template.value.fields, m))
      case Scalar => Ok(FieldLines(template.value.fields, []))
  }

  function FieldLines(fields: seq<Field>, m: Record): (r: seq<DisplayLine>)
    ensures |r| == |fields|
    ensures forall i :: 0 <= i < |r| ==> r[i] == DisplayLine(fields[i].name, DisplayValue(m, fields[i].name))
  {
    if fields == [] then [] else [DisplayLine(fields[0].name, DisplayValue(m, fields[0].name))] + FieldLines(fields[1..], m)
  }

  /** Lines look only at the top-level names: a property stored under any other key (a dotted
      group path, say) changes no line. */
  lemma {:induction false} LinesIgnoreOtherKeys(fields: seq<Field>, m: Record, key: string, v: JsValue)
    requires forall i :: 0 <= i < |fields| ==> fields[i].name != key
    ensures FieldLines(fields, Put(m, key, v)) == FieldLines(fields, m)
  {
    var a := FieldLines(fields, Put(m, key, v));
    var b := FieldLines(fields, m);
    assert forall i :: 0 <= i < |a| ==> a[i] == b[i];
  }

  /** A dot-free name that no top-level leaf carries is none of the paths the form writes, as
      long as every top-level field is named: a group's paths all hold a dot after its name. */
  lemma {:induction false} NameIsNoWrittenPath(fields: seq<Field>, a: string)
    requires '.' !in a
    requires forall j :: 0 <= j < |fields| ==> fields[j].name != ""
    requires forall j :: 0 <= j < |fields| && fields[j].name == a ==> fields[j].Group?
    ensures a !in ImageUploader.FieldsPaths(fields, "")
  {
    if fields != [] {
      NameIsNoWrittenPath(fields[1..], a);
      var f := fields[0];
      assert ImageUploader.FieldsPaths(fields, "")
          == ImageUploader.FieldPaths(f, "") + ImageUploader.FieldsPaths(fields[1..], "");
      if f.Group? {
        forall p | p in ImageUploader.FieldPaths(f, "") ensures '.' in p {
          assert p[..|f.name| + 1][|f.name|] == '.';
        }
      } else {
        assert ImageUploader.FieldPaths(f, "") == [f.name];
      }
    }
  }

  /** The uploader writes group values under dotted paths, which these lines never look up: when
      the metadata holds only what the form writes, a group shows "N/A" however much of it is
      filled in, provided its name has no dot, no top-level leaf shares it and every top-level
      field is named. */
  lemma GroupShowsNotAvailable(fields: seq<Field>, i: nat, m: Record)
    requires i < |fields| && fields[i].Group? && '.' !in fields[i].name
    requires forall j :: 0 <= j < |fields| ==> fields[j].name != ""
    requires forall j :: 0 <= j < |fields| && fields[j].name == fields[i].name ==> fields[j].Group?
    requires forall k :: k in Keys(m) ==> k in ImageUploader.FieldsPaths(fields, "")
    ensures FieldLines(fields, m)[i] == DisplayLine(fields[i].name, "N/A")
  {
    NameIsNoWrittenPath(fields, fields[i].name);
    GetAbsent(m, fields[i].name);
  }

  /** A filled-in group: the colour stored under "specs.color" is not shown. */
  lemma GroupExample()
    ensures DisplayLines(Some(Template("t", "Product", [Group("specs", [Text("color")])])),
                         Object([("specs.color", Str("red"))]))
            == Ok([DisplayLine("specs", "N/A")])
  {
    var m: Record := [("specs.color", Str("red"))];
    var fields := [Group("specs", [Text("color")])];
    assert Get(m, "specs") == Undef by {
      assert "specs.color" != "specs";
      assert Get(m[1..], "specs") == Undef;
    }
    assert DisplayValue(m, "specs") == "N/A";
    assert FieldLines(fields, m) == [DisplayLine("specs", "N/A")];
  }
}
