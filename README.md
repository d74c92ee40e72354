# GameDistribution page-source extractor, modelled in Dafny

This project models `extract_from_html_source`, the engine of a small desktop
tool. The user pastes the HTML source of a GameDistribution game page, and
the tool turns it into a ten-field game record. The steps are:

- find the first `<script id="__NEXT_DATA__">` element;
- read its text as JSON;
- walk `props -> pageProps -> game`, where an absent key gives an empty dict;
- build the record from the game object:
  - `objectID` and `title` are copied;
  - `description` and `instruction` are stripped of surrounding whitespace;
  - `width` and `height` are converted with `str()`;
  - `categories` and `tags` are joined with `", "`;
  - `thumb` comes from the first dict asset whose `name` contains `512x512`, behind the image host prefix;
  - `url` is derived from the id.

Files:

- `wrappers.dfy`: `Option` and `Result`, usable with `:-`.
- `json.dfy`: the value tree `json.loads` returns, and dictionary lookup. A dict built from JSON keeps the last binding of a repeated key, and iterating over it yields each key once, in first-occurrence order.
- `text.dfy`: the Python string operations the extractor uses:
  - `str.strip()` over Python's own whitespace set;
  - `', '.join`;
  - the substring `in` test;
  - `str()` of an integer.

  Each comes with the property that pins it down: maximal trim, split/join round trip, decimal round trip.
- `extractor.dfy`: the extraction itself. `Extract` is the whole call as a function. `ExtractFromHtmlSource` is the same call statement by statement, with the asset loop written as a loop and proved equal to `Extract`.
- `properties.dfy`: what the call guarantees about its result.

Python's dynamic typing is followed wherever it decides the outcome:

- A present key is never defaulted: `.get(key, default)` falls back only when the key is absent.
- Where Python raises, the model returns `WrongType(key)`. Examples are a `description` that is `null`, so `.strip()` is missing, or a `categories` list that holds a number, so `join` raises TypeError.
- Where Python returns something this model does not compute, the model returns `OutsideModel(key)`. Examples are a non-string id, or `str()` of a float, list or dict.
- The fields run in source order. The first error that raises decides the call. If none raises, the first `OutsideModel` decides.

## Model

| member | source | states |
|---|---|---|
| Json.Get | app.py:93-102 | `dict.get` finds a value exactly when the key is present |
| Json.GetIsLastBinding | app.py:92-93 | the value found is that of the last member with the key, as in the dict `json.loads` builds |
| Json.GetOr | app.py:93-102 | `dict.get(key, default)`: the default only when the key is absent, the stored value otherwise |
| Json.DictKeys | app.py:101-102 | iterating over a dict yields exactly its keys, each once |
| Json.FirstIndex | app.py:101-102 | the position where a key first occurs: it holds the key and no earlier member does |
| Json.DictKeysInFirstOccurrenceOrder | app.py:101-102 | the keys come in the order of their first occurrence, the order in which `', '.join` meets them |
| Text.TrimStart | app.py:97-98 | what is left does not begin with whitespace |
| Text.TrimStartIsSuffix | app.py:97-98 | the result is a suffix of the input and what was dropped is all whitespace |
| Text.TrimEnd | app.py:97-98 | what is left does not end with whitespace and keeps the first character |
| Text.TrimEndIsPrefix | app.py:97-98 | the result is a prefix of the input and what was dropped is all whitespace |
| Text.Strip | app.py:97-98 | `str.strip()`: no longer than the input; a non-empty result neither begins nor ends with whitespace |
| Text.StripIsMaximalTrim | app.py:97-98 | the result is a contiguous piece of the input with only whitespace on either side |
| Text.StripIdempotent | app.py:97-98 | stripping a stripped string changes nothing |
| Text.StripAllSpace | app.py:97-98 | an all-whitespace string strips to the empty string |
| Text.Join | app.py:101-102 | `', '.join`: no parts give `""`, one part gives that part unchanged |
| Text.JoinSnoc | app.py:101-102 | one more part appends the separator and that part |
| Text.FirstSep | app.py:101-102 | the first separator position at or after a start, or the end when there is none |
| Text.Split | app.py:101-102 | splitting on the separator yields at least one piece |
| Text.SplitJoin | app.py:101-102 | for a non-empty list of parts none of which holds the separator, splitting their join gives back the parts in order (an empty list is excluded: `"".split(", ")` is `[""]`) |
| Text.DigitChar | app.py:99-100 | the character of a decimal digit has that digit's value |
| Text.NatToDecimal | app.py:99-100 | `str(n)`: non-empty decimal digits without a leading zero |
| Text.NatDecimalRoundTrip | app.py:99-100 | reading the digits back gives the number again |
| Text.IntToDecimal | app.py:99-100 | `str(i)` starts with a minus sign exactly when `i` is negative, and has no leading zero and no `-0`: it starts with `0` only when it is `"0"` |
| Text.IntDecimalRoundTrip | app.py:99-100 | `str(i)` is a well-formed integer literal that denotes `i` |
| Extractor.FindNextData | app.py:88 | `soup.find`: the first script with id `__NEXT_DATA__`, or none when no script has it |
| Extractor.Payload | app.py:88-90 | fails only with NotFound; otherwise the non-empty text of the first script with the id |
| Extractor.Decode | app.py:92 | a parser failure becomes Malformed with the parser's message; a success passes the value through |
| Extractor.Navigate | app.py:93 | a payload that is not a dict, or a present `props`, `pageProps` or `game` that is not a dict while the levels above it are, raises for that level; it is never read as an empty dict |
| Extractor.CopiedField | app.py:95-96 | a present string is copied unchanged; any other present value is outside the model; never raises; an absent key gives `""` |
| Extractor.StrippedField | app.py:97-98 | a present string gives its `Strip`; it fails, with the AttributeError for that key, exactly when the value is not a string; an absent key gives `""` |
| Extractor.PyStr | app.py:99-100 | `str()` of a string is the string, of an int its decimal text, of null `"None"`, of a bool `"True"`/`"False"`; it never raises, and only float, list and dict are left out |
| Extractor.CoercedField | app.py:99-100 | a present value gives its `str()` as PyStr states it; never raises; an absent key gives `""` |
| Extractor.StringsOf | app.py:101-102 | the texts of a list of strings, element by element |
| Extractor.Iterate | app.py:101-105 | a list yields its items, a string its one-character strings in order, a dict its keys in DictKeys order; anything else raises TypeError for that key |
| Extractor.JoinedField | app.py:101-102 | a present list of strings gives their join; a list holding a non-string raises TypeError for that key; a string joins its characters and a dict its keys in DictKeys order; any other present value raises TypeError for that key; an absent key gives `""` |
| Text.Contains | app.py:106 | Python's substring test `pat in s`: `pat` occurs in `s` at some position |
| Extractor.Qualifies | app.py:106 | the test of the asset loop: a dict whose `name` is a string containing `512x512` |
| Extractor.Inspect | app.py:106 | an asset is taken exactly when it is a dict whose string `name` contains `512x512`, and then with that name; a non-dict is skipped; a dict whose present `name` is not a string, list or dict raises TypeError for `name`; a list or dict name holding the marker is outside the model and is otherwise skipped |
| Extractor.SelectThumb | app.py:104-108 | the thumbnail is `""` or the image prefix followed by a name holding the marker; with no dict among the assets it is `""`; any error is a field error |
| Extractor.ScanAssets | app.py:104-108 | the loop with `break` leaves exactly the thumbnail SelectThumb describes |
| Extractor.AssetList | app.py:105 | iterating fails, with TypeError for `assets`, exactly when `assets` is present and not a list, string or dict; a list yields its items, a string or dict only strings, an absent key nothing |
| Extractor.ThumbField | app.py:104-108 | for an `assets` list it is SelectThumb of that list; a string or dict `assets` gives `""`; any other present `assets` raises TypeError; absent `assets` gives `""`; the thumbnail shape as SelectThumb |
| Extractor.GameUrl | app.py:110 | the URL is empty exactly when the id is; otherwise the id reads back out of it |
| Extractor.FieldOutcomes | app.py:95-108 | nine outcomes in source order, each a value or one of the two field errors |
| Extractor.Settle | app.py:95-108 | succeeds exactly when every field does, keeping every value in order |
| Extractor.SettleErrorIsAnOutcome | app.py:95-108 | the error of the call is the error of one of the fields |
| Extractor.SettleFirstRaise | app.py:95-108 | the first field that raises ends the call with its error, whatever follows |
| Extractor.SettleFirstFailure | app.py:95-108 | when nothing raises, the first failing field decides |
| Extractor.Assemble | app.py:110-123 | succeeds exactly when every field does; each key holds its own statement's value and `url` derives from the id |
| Extractor.Fields | app.py:95-123 | the record built from a game object; on success its url derives from the id and its thumb is the asset loop's result |
| Extractor.Extract | app.py:82-123 | the whole call as a function, the subject of every lemma in ExtractorProperties; a missing payload gives NotFound, and a record's url derives from its id |
| Extractor.ExtractFromHtmlSource | app.py:82-123 | the statement-by-statement call returns exactly what Extract describes |
| Extractor.ToDict | app.py:112-123 | the output dict has the ten keys in insertion order, and the record reads back from it |
| ExtractorProperties.PayloadFailsIffMissing | app.py:88-90 | the payload lookup fails exactly when the first script with the id is absent, or its text is absent or empty |
| ExtractorProperties.NotFoundIffPayloadMissing | app.py:88-90 | the call fails with 'JSON data not found' exactly in that situation |
| ExtractorProperties.MalformedPayloadFails | app.py:92 | a payload the parser rejects ends the call with the parser's error |
| ExtractorProperties.FirstScriptDecides | app.py:88 | scripts after the first one with the id, including later ones with the same id, do not change the result |
| ExtractorProperties.AssembleKeepsFieldErrors | app.py:95-123 | field outcomes can only make the record fail with a field error |
| ExtractorProperties.FieldErrors | app.py:95-123 | every error from the game object is WrongType or OutsideModel |
| ExtractorProperties.EmptyGameIsBlank | app.py:95-110 | an empty game object gives the record with every field empty |
| ExtractorProperties.MissingGameIsBlank | app.py:93 | an absent `props`, `pageProps` or `game` gives the blank record and no error |
| ExtractorProperties.WalkErrorDecides | app.py:93 | when the walk to the game object raises, that error is the call's |
| ExtractorProperties.NonDictPropsRaises | app.py:93 | a present `props` that is not a dict, null for one, makes the call raise for `props` |
| ExtractorProperties.GameIsFound | app.py:93 | when `props`, `pageProps` and `game` are all dicts, the call's result is the record built from that `game` dict |
| ExtractorProperties.FieldValues | app.py:95-123 | each record field holds the value of its own statement |
| ExtractorProperties.AbsentIdAndTitle | app.py:95-110 | absent `objectID` gives empty id and url; absent `title` gives empty title |
| ExtractorProperties.AbsentTexts | app.py:97-98 | absent `description` / `instruction` give empty fields |
| ExtractorProperties.AbsentSizes | app.py:99-100 | absent `width` / `height` give empty fields |
| ExtractorProperties.AbsentListsAndAssets | app.py:101-105 | absent `categories`, `tags` or `assets` give empty fields |
| ExtractorProperties.FirstRaiseDecides | app.py:95-108 | the first raising field decides the record's error |
| ExtractorProperties.NullDescriptionRaises | app.py:97 | a null `description` is not defaulted: `.strip()` raises and is the call's error |
| ExtractorProperties.DescriptionRaisesFirst | app.py:95-97 | a description that cannot be stripped is the error, since id and title never raise |
| ExtractorProperties.NullCategoriesFail | app.py:101 | a null `categories` is not read as an empty list: the call fails, and its error is the join's TypeError for `categories` or an earlier AttributeError for `description` or `instruction` |
| ExtractorProperties.CategoriesRaise | app.py:95-101 | whenever joining the categories raises, the call's error is for `description`, `instruction` or `categories` |
| ExtractorProperties.InstructionRaisesNext | app.py:95-98 | with the description stripped, instructions that cannot be stripped are the call's error |
| ExtractorProperties.CategoriesRaiseNext | app.py:95-101 | with both texts stripped, categories that cannot be joined are the call's error, since width and height never raise |
| ExtractorProperties.FirstRaise | app.py:95-108 | if some field raises, there is a first one that does |
| ExtractorProperties.AnyRaiseDecides | app.py:95-108 | whenever some field of a game object raises, the call fails with the error of the first raising field, which comes no later |
| ExtractorProperties.RecordShape | app.py:104-110 | url is empty exactly when id is, otherwise prefix + id + `/`; thumb is empty or prefix + a name holding `512x512`; the dict starts with `id` |
| ExtractorProperties.StrippedFieldIsStripped | app.py:97-98 | a stripped field has no surrounding whitespace and is unchanged by stripping again |
| ExtractorProperties.StrippedTexts | app.py:97-98 | description and instructions of any record are stripped text |
| ExtractorProperties.CopiedFields | app.py:95-110 | string id and title are copied unchanged, and the url is built from that id |
| ExtractorProperties.JoinedFieldSplits | app.py:101-102 | for a list of names none of which holds the separator `", "`, the field is their join, `""` when the list is empty, and a non-empty list splits back into the same names in order |
| ExtractorProperties.CategoriesRoundTrip | app.py:101 | `category` is the join of the category names, and they come back from it, all and in order |
| ExtractorProperties.TagsRoundTrip | app.py:102 | `tags` is the join of the tag names, and they come back from it, all and in order |
| ExtractorProperties.StrippedFieldTrims | app.py:97-98 | a stripped field of string text is its strip: the piece of the text with only whitespace around it |
| ExtractorProperties.TextsAreStrippedText | app.py:97-98 | string description and instruction texts are stored in the record as their strips |
| ExtractorProperties.SizesReadBack | app.py:99-100 | integer width and height are stored as their decimal text, which reads back to the same integers |
| ExtractorProperties.ThumbIsFirstMatch | app.py:104-108 | the first qualifying dict asset decides the thumbnail; earlier non-qualifying assets with string names are passed over and later assets are never looked at |
| ExtractorProperties.CompletedScanFindsQualifying | app.py:104-108 | whenever the loop completes, the thumbnail is non-empty exactly when some asset qualifies |
| ExtractorProperties.RecordThumb | app.py:104-108 | the record's thumb is the loop's result over the game's asset list, non-empty exactly when some asset qualifies |
| ExtractorProperties.ThumbIffQualifying | app.py:104-108 | with string names the loop never fails, and the thumbnail is non-empty exactly when some dict asset's name holds the marker |

## Left out

- HTML parsing by BeautifulSoup: the page is given as the list of its `<script>` elements, each with an optional `id` and an optional text. A bs4 Tag is always truthy, so "no tag" is the only falsy case.
- The RuntimeError raised when bs4 is not installed: this depends on the environment, not on the input.
- `json.loads` is a parameter of the model. It returns a value tree or an error message. Its limits are not modelled, for example the maximum number of digits in an integer literal.
- `str()` of a float, list or dict, and a non-string `objectID` or `title`. Python succeeds on these, but the model does not produce the text; it returns `OutsideModel` instead. The same holds for a list or dict asset `name` that matches the marker.
- The tkinter user interface, clipboard, file saving, browser opening, thumbnail download and image rendering, and `json.dumps` of the result: these are I/O and foreign serialisers.
