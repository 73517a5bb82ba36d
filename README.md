# S3 metadata management console — Dafny model

The console lets a team keep images in an object-store bucket and describe each image with
metadata whose shape a *template* fixes. A template is a tree of fields: text, number, date,
select (with options) and groups that nest further fields. Each *category* names the template
its images follow. This project models the logic the console runs around those records:

- **Upload form** (`ImageUploader`, module `ImageUploader`). It covers:
  - the category → template selection;
  - the list of pending uploads with its copy-and-replace-at-index updates;
  - the form generated from the field tree, where leaf paths are dot-joined ancestor names and read-back defaults come from `metadata[path] ?? ''`;
  - the save, which builds one object key and one attribute map per image;
  - the attribute encoder, which lower-cases keys, turns every UTF-16 code unit outside `[a-z0-9]` into `-` and stores every value as `String(value || '')`;
  - the transfer progress reports applied to the pending list during a save.
- **Gallery view** (`CategoryView`, module `CategoryView`). It covers:
  - the download file name, `s3Key.split('/').pop() || 'image'`;
  - the card lines, one per top-level template field, showing `metadata[field.name] || 'N/A'`.
- **User session** (`useUserSession`, module `UserSession`). It covers:
  - the Cognito group claim filtered to its strings;
  - the display name, `nickname || name || email.split('@')[0]`;
  - `hasGroup` / `hasAnyGroup` / `hasAllGroups`;
  - the `userInfo` / `isLoading` state across a load that succeeds or fails.
- **Permissions** (`usePermissions`, module `Permissions`): the three flags built on `hasGroup('ADMINS')`.
- **Image analysis** (`openai`, module `OpenAI`). It covers:
  - the module-level client handle;
  - the prompt's field description;
  - the extraction of JSON text from the model's reply: a ```` ```json ```` fenced block first, then the bare braces from the first `{` to the last `}`;
  - the call's error messages.

Two helper modules are shared:
- `Js` models the slice of JavaScript the code relies on: truthiness for `||` and `??`, `String(v)`, `Number(v)` on integers, ASCII `toLowerCase`, the `\s` class, objects as their ordered entry lists, and `Array.find`.
- `Types` holds the field tree, templates and categories.

Some of the code's behaviour is easy to misread. The model follows the code in each case:
- The encoder writes `String(value || '')`, not `String(value ?? '')`, so `0` and `false` are sent as `""` (`ImageUploader.AttributeValue`).
- `"Weight (kg)"` sanitises to `"weight--kg-"`, so it does not collide with `"Weight-kg"`. The pair `"Weight-kg"` / `"weight_kg"` does collide (`ImageUploader.SanitizeCollision`, `ImageUploader.SanitizeSpacesAndParentheses`).
- The key pattern has no `u` flag, so a character outside the Basic Multilingual Plane, such as an emoji, is two code units and becomes `--` (`ImageUploader.SanitizeAstralCharacter`).
- The gallery looks up only top-level field names. Values the form stores under dotted group paths such as `specs.color` are never shown, and a group field shows `N/A` (`CategoryView.GroupShowsNotAvailable`, `CategoryView.GroupExample`).
- The gallery does not fall back to empty metadata when it cannot parse it. Parsing or reading `null` metadata throws as soon as the template has a field (`CategoryView.DisplayLines`).
- Clearing a number control stores what the control reports, `''`, not `null`. It reads back as blank (`ImageUploader.EditReadsBack`).

Inputs the code gets from the browser or from vendors are parameters of the model:
- the object URLs of dropped files;
- the clock reading per uploaded image;
- whether the batch upload succeeded;
- what the identity calls returned;
- the chat model's reply;
- a `JSON.parse` stand-in.

## Model

| member | source | states |
|---|---|---|
| ImageUploader.SanitizeKey | src/components/images/ImageUploader.tsx:97 | the sanitised key has one character per UTF-16 code unit of the key, all in `[a-z0-9-]`; inside the Basic Multilingual Plane it is the character-by-character image below |
| ImageUploader.SanitizeBmp | src/components/images/ImageUploader.tsx:97 | for a key of single code units the result keeps the key's length and positions: a character that is a lower-case letter or digit after lower-casing stays (lower-cased), every other becomes `-` |
| ImageUploader.SanitizeChar | src/components/images/ImageUploader.tsx:97 | one character becomes as many characters as it has UTF-16 code units, all in `[a-z0-9-]` |
| ImageUploader.SanitizeAppend | src/components/images/ImageUploader.tsx:97 | sanitising works piecewise: the key of a concatenation is the concatenation of the keys |
| ImageUploader.SanitizeKeepsAttributeKeys | src/components/images/ImageUploader.tsx:97 | a key already made of `[a-z0-9-]` is left unchanged |
| ImageUploader.SanitizeIdempotent | src/components/images/ImageUploader.tsx:97 | sanitising an already sanitised key changes nothing |
| ImageUploader.SanitizeMergesKeys | src/components/images/ImageUploader.tsx:97 | sanitising is not injective: replacing a character by any other character that sanitises alike gives the same key |
| ImageUploader.SanitizeCollision | src/components/images/ImageUploader.tsx:97 | `"Weight-kg"` and `"weight_kg"` both become `"weight-kg"` |
| ImageUploader.SanitizeGroupPath | src/components/images/ImageUploader.tsx:97 | the group path `"specs.color"` becomes `"specs-color"` |
| ImageUploader.SanitizeSpacesAndParentheses | src/components/images/ImageUploader.tsx:97 | `"Weight (kg)"` becomes `"weight--kg-"` |
| ImageUploader.SanitizeAstralCharacter | src/components/images/ImageUploader.tsx:97 | an emoji becomes two hyphens: `"a😀"` and `"a--"` both sanitise to `"a--"` |
| ImageUploader.AttributeValue | src/components/images/ImageUploader.tsx:99 | an attribute value is `""` exactly for falsy values (`0`, `false`, `null`, `undefined`, `""`), and `String(value)` otherwise |
| ImageUploader.EncodedAttributes | src/components/images/ImageUploader.tsx:94-100 | every attribute name of the encoded map is in `[a-z0-9-]` |
| ImageUploader.EncodedSize | src/components/images/ImageUploader.tsx:94-100 | there is at most one attribute per metadata entry, fewer when keys collide |
| ImageUploader.EncodeMetadata | src/components/images/ImageUploader.tsx:94-100 | the loop over the entries builds exactly the attribute map of the metadata (each entry written under its sanitised key, in entry order) |
| ImageUploader.EncodedKeys | src/components/images/ImageUploader.tsx:94-100 | the attribute names are exactly the sanitised metadata keys: each sanitised key is present and each name comes from some entry |
| ImageUploader.EncodedLastWins | src/components/images/ImageUploader.tsx:94-100 | on a collision the later entry wins: the value under a name is that of the last entry sanitising to it |
| ImageUploader.EncodedPairCollision | src/components/images/ImageUploader.tsx:94-100 | two entries whose keys sanitise alike leave a single attribute, holding the later entry's value |
| ImageUploader.EncodedCollision | src/components/images/ImageUploader.tsx:94-100 | `{Weight-kg: 5, weight_kg: 7}` is sent as the single attribute `weight-kg -> "7"` |
| ImageUploader.EncodedProductExample | src/components/images/ImageUploader.tsx:94-100 | `{weight: 12, "specs.color": "red"}` is sent as `weight -> "12"`, `specs-color -> "red"` |
| ImageUploader.NewUploads | src/components/images/ImageUploader.tsx:43-48 | a drop adds one entry per file, in order, with the file's preview URL, empty metadata and no progress |
| ImageUploader.WithMetadata | src/components/images/ImageUploader.tsx:52-66 | an out-of-range index leaves the list as it was; otherwise the length is kept, other images are untouched, and within the image only `metadata[field]` changes, to `value` (file, preview, progress and other keys unchanged) |
| ImageUploader.WithProgress | src/components/images/ImageUploader.tsx:68-79 | an out-of-range index leaves the list as it was; otherwise only that image's `uploadProgress` changes |
| ImageUploader.Percent | src/components/images/ImageUploader.tsx:111 | the progress percentage is never negative and at most 100 while the transferred bytes do not exceed the total |
| ImageUploader.AfterProgress | src/components/images/ImageUploader.tsx:109-113 | the reports of a save keep the list's length and every image's file, preview and metadata; an image that no report with a known total names is unchanged (reports with `!totalBytes` are ignored) |
| ImageUploader.AfterProgressLastWins | src/components/images/ImageUploader.tsx:109-113 | an image's progress is the percentage of the last report with a known total that names it |
| ImageUploader.MetadataEditIsolated | src/components/images/ImageUploader.tsx:52-66 | after an edit, every (image, property) pair other than the edited one reads as before |
| ImageUploader.TemplateAfterCategoryChange | src/components/images/ImageUploader.tsx:32-41 | no id, the empty id or an unknown id keeps the selected template; a known id selects a template whose id is the category's `templateId`, and none exactly when no template has that id |
| ImageUploader.ObjectKey | src/components/images/ImageUploader.tsx:91 | the object key lies in the folder `media-files/<category name>/` and ends with `-` followed by the file name |
| ImageUploader.SaveTarget | src/components/images/ImageUploader.tsx:82-85 | a save targets the selected category when its id is non-empty and names a category, and nothing otherwise |
| ImageUploader.FieldPath | src/components/images/ImageUploader.tsx:153 | at the top level a field's path is its name; below, it is the prefix, a dot, then the name |
| ImageUploader.StoredValue | src/components/images/ImageUploader.tsx:155 | the value read for a path is never `null` or `undefined`: a nullish or absent value reads as `''`, any other as stored (so `0`, `false` and `''` are kept) |
| ImageUploader.NumberShownFor | src/components/images/ImageUploader.tsx:180 | a number control is blank exactly for `''`, and otherwise shows `Number(value)` |
| ImageUploader.SelectShownFor | src/components/images/ImageUploader.tsx:190 | a select has no choice exactly for `''`, and otherwise chooses the value's non-empty text |
| ImageUploader.TextShownFor | src/components/images/ImageUploader.tsx:199 | a text control is empty exactly for `''`, and shows a string as it is |
| ImageUploader.RenderField | src/components/images/ImageUploader.tsx:150-203 | a field renders one control keyed by its path and captioned with its name: a container exactly for a group with `fields`, holding its nested fields rendered under the group's path, a number input for a number, a select over the options for a select and a text input otherwise, each leaf showing the value stored at its path |
| ImageUploader.RenderFields | src/components/images/ImageUploader.tsx:168 | sibling fields render one control each, in order, under the same prefix |
| ImageUploader.FieldPaths | src/components/images/ImageUploader.tsx:153-168 | a leaf's only path is its own; every path of a field begins with the field's own path |
| ImageUploader.FieldsPaths | src/components/images/ImageUploader.tsx:168 | under a non-empty prefix every path of the sibling fields begins with the prefix and a dot |
| ImageUploader.RenderedKeysAreFieldPaths | src/components/images/ImageUploader.tsx:153-172 | the inputs a field renders are keyed by exactly its metadata paths, in pre-order |
| ImageUploader.RenderedKeysAreFieldPathsAll | src/components/images/ImageUploader.tsx:168 | the same for a list of sibling fields |
| ImageUploader.FieldPathsAreJoinedChains | src/components/images/ImageUploader.tsx:153-172 | leaf paths are the ancestor-name chains of the leaves joined by the path rule (`name` under an empty prefix, `prefix.name` otherwise), a group without `fields` being a leaf |
| ImageUploader.FieldsPathsAreJoinedChains | src/components/images/ImageUploader.tsx:168 | the same for a list of sibling fields, whose chains follow one another in order |
| ImageUploader.JoinPathUnderPrefix | src/components/images/ImageUploader.tsx:153 | under a non-empty prefix a chain's path is the prefix followed by `.name` for each name |
| ImageUploader.RenderIgnoresOtherPaths | src/components/images/ImageUploader.tsx:155 | writing a property that is none of a field's paths leaves its whole rendering unchanged (sibling isolation) |
| ImageUploader.RenderIgnoresOtherPathsAll | src/components/images/ImageUploader.tsx:168 | the same for a list of sibling fields |
| ImageUploader.AbsentReadsBlank | src/components/images/ImageUploader.tsx:155-202 | an absent, `null` or `undefined` value shows as an empty number control (not 0), no select choice and empty text |
| ImageUploader.SelectNoChoiceIff | src/components/images/ImageUploader.tsx:190 | a select shows no choice exactly when the stored value is absent, `null`, `undefined` or `""` |
| ImageUploader.EditReadsBack | src/components/images/ImageUploader.tsx:175-202 | an edit reads back at its path: typed text as typed, a number as that number (0 included), a cleared number control as blank |
| ImageUploader.Uploader.constructor | src/components/images/ImageUploader.tsx:27-30 | the form starts with no category, no pending images, no template and not uploading |
| ImageUploader.Uploader.HandleCategoryChange | src/components/images/ImageUploader.tsx:32-41 | the selected category becomes the argument and the template follows the category lookup; the pending list and the upload flag are untouched |
| ImageUploader.Uploader.HandleDrop | src/components/images/ImageUploader.tsx:43-50 | the pending list becomes the old list followed by the new entries |
| ImageUploader.Uploader.HandleMetadataChange | src/components/images/ImageUploader.tsx:52-66 | the pending list becomes the edited list; nothing else changes |
| ImageUploader.Uploader.UpdateUploadProgress | src/components/images/ImageUploader.tsx:68-79 | the pending list becomes the list with that image's progress set; nothing else changes |
| ImageUploader.Uploader.HandleSave | src/components/images/ImageUploader.tsx:81-148 | with no usable category nothing happens; otherwise one request per pending image, in order, to the fixed bucket, under `media-files/<category>/<time>-<file>`, with the image's encoded attributes and metadata; on success the list is emptied and the category reported, on failure the list is kept with the progress reported during the save applied; uploading ends either way |
| ImageUploader.Uploader.RenderMetadataField | src/components/images/ImageUploader.tsx:150-155 | nothing for an index naming no pending image, otherwise the field rendered over that image's metadata |
| Js.Or | src/components/images/ImageUploader.tsx:99 | `a || b` is one of its operands, falsy exactly when both are, and `a` whenever `a` is truthy |
| Js.Coalesce | src/components/images/ImageUploader.tsx:155 | `a ?? b` is one of its operands, nullish exactly when both are, and `a` whenever `a` is not nullish |
| Js.OrVersusCoalesce | src/components/images/ImageUploader.tsx:99 | `||` and `??` differ exactly when the left operand is `""`, `0` or `false` and differs from the right one |
| Js.NatToDecimal | src/components/images/ImageUploader.tsx:91 | the decimal spelling of a clock reading is non-empty, all digits, with no leading zero unless it is 0 |
| Js.IntToDecimal | src/components/images/CategoryView.tsx:82 | an integer is spelled non-empty, with a leading `-` exactly when it is negative |
| Js.DecimalRoundTrip | src/components/images/ImageUploader.tsx:91 | reading back the decimal spelling of a natural number gives the number |
| Js.ToJsString | src/components/images/ImageUploader.tsx:99 | `String(v)` is empty exactly for the empty string and is the string itself for strings |
| Js.DecimalSpelling | src/components/images/ImageUploader.tsx:180 | an integer's decimal spelling has no white space to trim and is an unsigned digit run with the integer's value, or `-` and the digits of its magnitude |
| Js.StringToNumber | src/components/images/ImageUploader.tsx:180 | `Number("")` is 0, and `Number(String(n)) == n` for every integer |
| Js.ToNumber | src/components/images/ImageUploader.tsx:180 | `Number(v)` is `v` for a number, 0 for `""`, `null` and `false`, NaN for `undefined`, and `n` for the decimal spelling of an integer `n` |
| Js.Put | src/components/images/ImageUploader.tsx:59-62 | `{...m, [k]: v}` reads `v` at `k` and as before elsewhere; its keys are the old ones plus `k`; a new key goes last and an existing one keeps the length |
| Js.PutKeepsPlaces | src/components/images/ImageUploader.tsx:59-62 | spreading moves no entry: names keep their places and entries of other names keep their values |
| Js.PutKeepsDistinct | src/components/images/ImageUploader.tsx:59-62 | the result still has distinct property names |
| Js.Get | src/components/images/ImageUploader.tsx:155 | `m[k]` is `undefined` when no entry is named `k`, and the value of the first entry named `k` otherwise |
| Js.GetAbsent | src/components/images/ImageUploader.tsx:155 | a name that is not an own property reads as `undefined` |
| Js.Find | src/components/images/ImageUploader.tsx:35 | `find` gives nothing exactly when no element satisfies the test, and otherwise the first element that does |
| CategoryView.Pieces | src/components/images/CategoryView.tsx:30 | the pieces closed by a slash and the piece still open are all slash-free |
| CategoryView.OpenPieceIsSuffix | src/components/images/CategoryView.tsx:30 | the open piece is a suffix of the key that is the whole key or follows a slash |
| CategoryView.Split | src/components/images/CategoryView.tsx:30 | `split('/')` gives at least one piece and no piece holds a slash |
| CategoryView.SplitJoinRoundTrip | src/components/images/CategoryView.tsx:30 | joining the pieces with `/` gives the key back |
| CategoryView.PiecesAppend | src/components/images/CategoryView.tsx:30 | in `a/b` all pieces of `a` are closed and are followed by the pieces of `b` |
| CategoryView.SplitAppend | src/components/images/CategoryView.tsx:30 | the pieces of `a/b` are those of `a` followed by those of `b` |
| CategoryView.SplitWithoutSlash | src/components/images/CategoryView.tsx:30 | a key without slashes is one piece |
| CategoryView.LastSegment | src/components/images/CategoryView.tsx:30 | `pop()` gives the text after the last `/`: a slash-free suffix of the key that is the whole key or is preceded by a slash |
| CategoryView.DownloadName | src/components/images/CategoryView.tsx:30 | the download name never contains `/` and is never empty |
| CategoryView.DownloadNameAfterTrailingSlash | src/components/images/CategoryView.tsx:30 | a key ending in `/` (or empty) downloads as `"image"` |
| CategoryView.DownloadNameWithoutSlash | src/components/images/CategoryView.tsx:30 | a non-empty key without `/` downloads under its own name |
| CategoryView.DownloadNameOfUpload | src/components/images/CategoryView.tsx:30 | an uploaded image downloads as `<time>-<file>` whenever the file name has no `/`, whatever the category name |
| CategoryView.DisplayLines | src/components/images/CategoryView.tsx:76-85 | no template gives no lines; otherwise one line per top-level field, in order, captioned with its name; with at least one field, `null` or malformed metadata fails, an object shows its values and any other JSON value shows `N/A` throughout |
| CategoryView.FieldLines | src/components/images/CategoryView.tsx:78-85 | one line per field, in order, with the field's name and its displayed value |
| CategoryView.ReactText | src/components/images/CategoryView.tsx:82 | React shows a string as itself and a number in decimal (never as `N/A`); it shows nothing exactly for `""`, booleans, `null` and `undefined` |
| CategoryView.DisplayValue | src/components/images/CategoryView.tsx:82 | a line shows `N/A` exactly when the value under the bare name is falsy or is the text `N/A`; other strings show as they are, other numbers in decimal |
| CategoryView.LinesIgnoreOtherKeys | src/components/images/CategoryView.tsx:82 | a property under any key that is no top-level field name, such as a dotted group path, changes no line |
| CategoryView.NameIsNoWrittenPath | src/components/images/ImageUploader.tsx:153-168 | a dot-free name carried by no top-level leaf is none of the paths the form writes, provided every top-level field is named |
| CategoryView.GroupShowsNotAvailable | src/components/images/CategoryView.tsx:82 | on metadata written by the form, a dot-free group field that no top-level leaf shares its name with shows `N/A`, however much of the group is filled in |
| CategoryView.GroupExample | src/components/images/CategoryView.tsx:82 | a group `specs` whose `color` is stored under `specs.color` shows `specs: N/A` |
| UserSession.StringItems | src/hooks/useUserSession.ts:39 | the filtered claim holds exactly the claim's string entries and is no longer than the claim |
| UserSession.StringItemsAppend | src/hooks/useUserSession.ts:39 | filtering keeps order: the filter of a concatenation is the concatenation of the filters |
| UserSession.StringItemsOfStrings | src/hooks/useUserSession.ts:39 | a claim made only of strings is kept whole, in order |
| UserSession.TokenGroups | src/hooks/useUserSession.ts:33-41 | no access token or a claim that is not an array gives no groups; an array claim gives exactly its string entries |
| UserSession.BeforeFirstAt | src/hooks/useUserSession.ts:45 | `email.split('@')[0]` is the `@`-free prefix that is the whole email or stops at its first `@` |
| UserSession.DisplayName | src/hooks/useUserSession.ts:45 | the nickname if non-empty, else the name if non-empty, else the part of the email before the first `@` |
| UserSession.NameFromEmail | src/hooks/useUserSession.ts:44-45 | without nickname or name the display name is an `@`-free prefix of the email: the whole email when it has no `@`, and `""` for no email |
| UserSession.LoadedInfo | src/hooks/useUserSession.ts:44-51 | a successful load stores the email (or `""`), the token's groups and the display name |
| UserSession.HasGroup | src/hooks/useUserSession.ts:59 | `hasGroup(g)` holds exactly when `g` is among the groups |
| UserSession.InGroups | src/hooks/useUserSession.ts:59 | `includes` holds exactly when some position holds the group |
| UserSession.HasAnyGroup | src/hooks/useUserSession.ts:60 | `hasAnyGroup(gs)` holds exactly when some element of `gs` is among the groups (so false for no groups) |
| UserSession.HasAllGroups | src/hooks/useUserSession.ts:61 | `hasAllGroups(gs)` holds exactly when every element of `gs` is among the groups (so true for no groups) |
| UserSession.AllImpliesAny | src/hooks/useUserSession.ts:60-61 | for a non-empty list, `hasAllGroups` implies `hasAnyGroup` |
| UserSession.InitialBelongsNowhere | src/hooks/useUserSession.ts:12-16 | in the initial state `hasGroup` and `hasAnyGroup` are false for everything and `hasAllGroups` holds only for the empty list |
| UserSession.Session.constructor | src/hooks/useUserSession.ts:12-18 | the hook starts with empty email and name, no groups, and loading |
| UserSession.Session.LoadUserInfo | src/hooks/useUserSession.ts:24-57 | a failed load leaves the user information unchanged; a successful one stores what was fetched; loading ends false on both paths |
| Permissions.CanManageTemplates | src/hooks/usePermissions.ts:7 | holds exactly when `"ADMINS"` is among the groups |
| Permissions.CanManageCategories | src/hooks/usePermissions.ts:8 | holds exactly when `"ADMINS"` is among the groups |
| Permissions.CanManageImages | src/hooks/usePermissions.ts:9 | always holds |
| Permissions.CategoriesFollowTemplates | src/hooks/usePermissions.ts:7-8 | category management always equals template management |
| Permissions.MatchingIsExact | src/hooks/usePermissions.ts:7 | a user whose groups hold no exact `"ADMINS"` (however close, e.g. `"admins"`) may manage only images |
| Permissions.InitialPermissions | src/hooks/usePermissions.ts:7-9 | before the user information loads, only images may be managed |
| Permissions.AdminClaimGrants | src/hooks/usePermissions.ts:7 | a load whose token claim lists `"ADMINS"` (among any other entries) grants template and category management |
| OpenAI.Message | src/lib/openai.ts:16-72 | a rethrown call error keeps its message; the parse-failure message ends with the whole reply content |
| OpenAI.MessageIdentifiesFailure | src/lib/openai.ts:16-72 | apart from a rethrown call error, equal messages mean the same failure, and a message starts with `Failed to parse OpenAI response: ` exactly when the reply could not be parsed |
| OpenAI.Describe | src/lib/openai.ts:25-27 | no fields give `""`, one field gives `name (type)` |
| OpenAI.DescribeAppend | src/lib/openai.ts:25-27 | the description of two lists is their descriptions joined by `", "`, so entries appear in field order |
| OpenAI.DescribeMentions | src/lib/openai.ts:25-27 | every field's `name (type)` appears in the description |
| OpenAI.Prompt | src/lib/openai.ts:37 | the instruction starts with the fixed lead and ends with the fixed request for a JSON object |
| OpenAI.PromptMentions | src/lib/openai.ts:25-37 | every field handed to the analysis appears in the instruction as `name (type)` |
| OpenAI.SkipWhitespace | src/lib/openai.ts:57 | a greedy `\s*` stops at the first character that is not white space |
| OpenAI.ClosesFenceIff | src/lib/openai.ts:57 | the greedy test at a `}` (white space then the closing fence) agrees with the existence of any white space run reaching the fence |
| OpenAI.LastFenceClose | src/lib/openai.ts:57 | the greedy `[\s\S]*` picks the last `}` after the `{` from which the closing fence is reached, and none when there is no such `}` |
| OpenAI.FenceOpen | src/lib/openai.ts:57 | an opening is ```` ```json ````, then white space only, then `{`; there is none exactly when the position does not start ```` ```json ```` or no `{` follows it after white space only |
| OpenAI.FenceAt | src/lib/openai.ts:57 | a fenced match at a position has its `{` after the opening and a later `}` that reaches the closing fence; there is none exactly when there is no opening or no `}` after its `{` reaches a closing fence |
| OpenAI.FirstFence | src/lib/openai.ts:57 | the fenced match taken is the leftmost one; positions before it match nothing |
| OpenAI.FirstIndex | src/lib/openai.ts:58 | the first occurrence of a character, or none when it does not occur |
| OpenAI.LastIndex | src/lib/openai.ts:58 | the last occurrence of a character, or none when it does not occur |
| OpenAI.BareBraces | src/lib/openai.ts:58 | the bare match runs from the first `{` to the last `}`, and there is none exactly when no `{` precedes a `}` |
| OpenAI.ExtractJson | src/lib/openai.ts:57-64 | the extracted text starts with `{` and ends with `}`, and nothing is extracted exactly when no `{` precedes a `}` |
| OpenAI.BareWhenUnfenced | src/lib/openai.ts:58-64 | without a fenced block the text runs from the first `{` to the last `}` |
| OpenAI.FencedWins | src/lib/openai.ts:57-64 | a fenced block takes precedence: its captured group is used, the fence and surrounding white space excluded, and its `}` is the last that reaches a closing fence |
| OpenAI.FencedInsideBracesMatch | src/lib/openai.ts:57 | in ```` {```json {}```} ```` the fenced match starts at 1 and captures positions 9 to 10 |
| OpenAI.FencedInsideBracesExtract | src/lib/openai.ts:57-64 | for that reply the bare pattern would take the whole text, but `{}` is extracted |
| OpenAI.ClientState.constructor | src/lib/openai.ts:3 | the module starts without a client |
| OpenAI.ClientState.InitializeOpenAI | src/lib/openai.ts:5-10 | after initialisation the client is set, for the given key |
| OpenAI.ClientState.AnalyzeImage | src/lib/openai.ts:12-76 | without a client it fails with "OpenAI client not initialized" and sends nothing; otherwise it sends the prompt with the image to `gpt-4o-mini` with 300 tokens; a failed call rethrows; missing or empty content fails with "No response from OpenAI"; no extractable JSON fails with "No JSON found in OpenAI response"; unparsable JSON fails with the message carrying the whole content; otherwise the parsed object is returned |

## Left out

- Vendor calls are not modelled: `uploadData`, `client.models.Image.create`, `getUrl`, `fetchAuthSession`, `fetchUserAttributes`, `decodeJWT` and the chat-completion call. Their outcomes are inputs: the `succeeded` flag of a save, a `FetchResult`, and a `Reply`.
- The download itself (`handleDownload`: signed URL, link element, notifications) is I/O. Only the file name is modelled.
- Notifications, console logging, JSX rendering and styling are out of scope.
- ImageUploader.Uploader.HandleSave: the uploads run concurrently under `Promise.all`. The model issues every request in order and takes one success flag for the whole batch, so partial success is not represented: some images stored, others not, and the list kept.
- ImageUploader.Percent: the progress percentage `transferredBytes / totalBytes * 100` is floating point in the code. The model computes it exactly, as a `real`, so rounding is not represented.
- ImageUploader.Uploader.HandleSave: the progress reports are taken as one list, applied in arrival order while uploading is on. Reports that arrive after a failed batch has settled are later `UpdateUploadProgress` calls, not part of the save.
- `Date.now()` in the object key is a parameter: one clock reading per image. `URL.createObjectURL` is a parameter too: one preview per file.
- `JSON.parse` and `JSON.stringify` are not modelled. A template's fields are held already parsed. The gallery receives the parse outcome of an image's metadata as a `Parsed` value. The analysis takes the parser as a function argument.
- `fileToBase64` / `FileReader` is not modelled. The analysis receives the data URL, and the conversion failure ("Failed to convert file to base64") is not modelled.
- ImageUploader.SanitizeKey, ImageUploader.SanitizeChar, ImageUploader.SanitizeBmp: `toLowerCase` is ASCII only in this model. Some other characters lower-case to ASCII letters: the Kelvin sign becomes `k`, and U+0130 becomes `i` followed by a combining dot. The code keeps those letters, but the model turns such characters into `-`, and the key's length can then differ too.
- Numbers are integers. `Number(s)` accepts only optionally signed decimal digits around white space, and any other spelling (fractions, exponents, hexadecimal, `Infinity`) is NaN here. `String(n)` is defined for integers only.
- JavaScript objects are modelled as their ordered own entries. The engine's ordering of integer-like keys before other keys is not modelled. Neither are inherited properties (`metadata["constructor"]`), which the model reads as `undefined`.
- CategoryView.DisplayLines: a token stands for the `Err` text, not the exact `TypeError` or `SyntaxError` message. A JSON string, number or boolean has no properties in the model, although a string's `length` and index names do resolve in JavaScript.
- A field whose `type` tag has none of the known values renders like a text field, as in the code. The model folds such fields into `Text`.
- The hook's initial load (`useEffect`) and `refreshUserInfo` are both the same `LoadUserInfo` call. When React re-renders is not modelled.
- The chat request keeps only the model name, the prompt, the image URL and the token limit. The message envelope and the client's browser flag are not modelled.
