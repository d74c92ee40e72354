/**
  What `extract_from_html_source` guarantees about its result, stated over the
  model in module Extractor and proved from its definitions.
 */
module ExtractorProperties {
  import opened Wrappers
  import opened Json
  import opened Text
  import opened Extractor

  // ---------------------------------------------------------------------
  // Failure points
  // ---------------------------------------------------------------------

  /** The payload lookup fails exactly when the first script carrying the id
      is missing or has no text. */
  lemma PayloadFailsIffMissing(page: seq<Script>)
    ensures Payload(page).Failure? <==> PayloadMissing(page)
  {
    match FindNextData(page)
    case None =>
    case Some(k) =>
      if PayloadMissing(page) {
        assert !(exists j :: 0 <= j < k && IsNextData(page[j]));
      } else {
        var i :| 0 <= i < |page| && IsNextData(page[i]) &&
                 !((exists j :: 0 <= j < i && IsNextData(page[j])) || page[i].text == None || page[i].text == Some(""));
        assert i == k;
      }
  }

  /** If every outcome is a field outcome, so is every error of the record. */
  lemma AssembleKeepsFieldErrors(outs: seq<Result<string, Error>>)
    requires |outs| == 9
    requires forall i :: 0 <= i < 9 ==> FieldOutcome(outs[i])
    ensures Assemble(outs).Failure? ==> Assemble(outs).error.WrongType? || Assemble(outs).error.OutsideModel?
  {
    SettleErrorIsAnOutcome(outs);
  }

  /** Every error the field statements produce is one of the two field errors. */
  lemma FieldErrors(game: seq<(string, Json)>)
    ensures Fields(game).Failure? ==> Fields(game).error.WrongType? || Fields(game).error.OutsideModel?
  {
    AssembleKeepsFieldErrors(FieldOutcomes(game, ThumbField(game)));
  }

  /** The call fails with 'JSON data not found' exactly when there is no
      script with id `__NEXT_DATA__`, or the first one has absent or empty
      text; then no record is returned. */
  lemma NotFoundIffPayloadMissing(page: seq<Script>, parse: string -> Result<Json, string>)
    ensures Extract(page, parse) == Failure(NotFound) <==> PayloadMissing(page)
  {
    PayloadFailsIffMissing(page);
    if Payload(page).Success? {
      var data := Decode(parse, Payload(page).value);
      if data.Success? && Navigate(data.value).Success? {
        FieldErrors(Navigate(data.value).value);
      }
    }
  }

  /** A payload the parser rejects ends the call with the parser's message. */
  lemma MalformedPayloadFails(page: seq<Script>, parse: string -> Result<Json, string>)
    requires Payload(page).Success?
    requires parse(Payload(page).value).Failure?
    ensures Extract(page, parse) == Failure(Malformed(parse(Payload(page).value).error))
  {
  }

  /** Only the first script carrying the id counts: whatever follows it,
      including further scripts with the same id, has no effect. */
  lemma {:induction false} FirstScriptDecides(pre: seq<Script>, s: Script, post: seq<Script>,
                                              parse: string -> Result<Json, string>)
    requires IsNextData(s)
    requires forall j :: 0 <= j < |pre| ==> !IsNextData(pre[j])
    ensures Extract(pre + [s] + post, parse) == Extract([s], parse)
  {
    var page := pre + [s] + post;
    assert page[|pre|] == s;
    assert forall j :: 0 <= j < |pre| ==> page[j] == pre[j];
    var k := FindNextData(page);
    assert k == Some(|pre|);
    assert FindNextData([s]) == Some(0);
    assert Payload(page) == Payload([s]);
  }

  // ---------------------------------------------------------------------
  // Defaulting
  // ---------------------------------------------------------------------

  /** An empty game object gives the record all of whose fields are empty. */
  lemma EmptyGameIsBlank()
    ensures Fields([]) == Success(Blank)
  {
    var e: Result<string, Error> := Success("");
    assert ThumbField([]) == e;
    EmptyGameOutcomes();
    assert Assemble([e, e, e, e, e, e, e, e, e]) == Success(Blank);
  }

  /** With no keys at all, every field statement gives the empty string. */
  lemma EmptyGameOutcomes()
    ensures FieldOutcomes([], Success("")) == [Success(""), Success(""), Success(""), Success(""), Success(""),
                                               Success(""), Success(""), Success(""), Success("")]
  {
  }

  /** When `props`, `pageProps` or `game` is absent, the game object is the
      empty dict and the record is blank, with no error. */
  lemma MissingGameIsBlank(page: seq<Script>, parse: string -> Result<Json, string>)
    requires Payload(page).Success?
    requires parse(Payload(page).value).Success?
    requires GameAbsent(parse(Payload(page).value).value)
    ensures Extract(page, parse) == Success(Blank)
  {
    var data := parse(Payload(page).value).value;
    assert Navigate(data) == Success([]);
    EmptyGameIsBlank();
  }

  /** When `props`, `pageProps` and `game` are all dicts, the record is
      built from the game dict found at the end of that walk. */
  lemma GameIsFound(page: seq<Script>, parse: string -> Result<Json, string>,
                    data: seq<(string, Json)>, p: seq<(string, Json)>, pp: seq<(string, Json)>, g: seq<(string, Json)>)
    requires Payload(page).Success?
    requires parse(Payload(page).value) == Success(JObject(data))
    requires Get(data, "props") == Some(JObject(p))
    requires Get(p, "pageProps") == Some(JObject(pp))
    requires Get(pp, "game") == Some(JObject(g))
    ensures Navigate(JObject(data)) == Success(g)
    ensures Extract(page, parse) == Fields(g)
  {
  }

  /** A record the game object yields holds the value of each field
      statement, in the record's own order. */
  /** An error of the walk to the game object is the error of the call: no
      field is computed from a level that is present but not a dict. */
  lemma WalkErrorDecides(page: seq<Script>, parse: string -> Result<Json, string>, data: Json)
    requires Payload(page).Success?
    requires parse(Payload(page).value) == Success(data)
    requires Navigate(data).Failure?
    ensures Extract(page, parse) == Failure(Navigate(data).error)
  {
  }

  /** A `props` that is present but not a dict, null for one, has no `.get`:
      the call raises for it instead of reading it as an empty dict. */
  lemma NonDictPropsRaises(page: seq<Script>, parse: string -> Result<Json, string>, data: seq<(string, Json)>)
    requires Payload(page).Success?
    requires parse(Payload(page).value) == Success(JObject(data))
    requires HasKey(data, "props") && !Get(data, "props").value.JObject?
    ensures Extract(page, parse) == Failure(WrongType("props"))
  {
    WalkErrorDecides(page, parse, JObject(data));
  }

  lemma FieldValues(game: seq<(string, Json)>, rec: GameRecord)
    requires Fields(game) == Success(rec)
    ensures CopiedField(game, "objectID") == Success(rec.id)
    ensures CopiedField(game, "title") == Success(rec.title)
    ensures StrippedField(game, "description") == Success(rec.description)
    ensures StrippedField(game, "instruction") == Success(rec.instructions)
    ensures CoercedField(game, "width") == Success(rec.width)
    ensures CoercedField(game, "height") == Success(rec.height)
    ensures JoinedField(game, "categories") == Success(rec.category)
    ensures JoinedField(game, "tags") == Success(rec.tags)
    ensures ThumbField(game) == Success(rec.thumb)
    ensures rec.url == GameUrl(rec.id)
  {
    var outs := FieldOutcomes(game, ThumbField(game));
    assert Assemble(outs) == Success(rec);
  }

  /** A key absent from the game object gives the empty string for its
      field, with no error: stated here and below, group by group. */
  lemma AbsentIdAndTitle(game: seq<(string, Json)>, rec: GameRecord)
    requires Fields(game) == Success(rec)
    ensures !HasKey(game, "objectID") ==> rec.id == "" && rec.url == ""
    ensures !HasKey(game, "title") ==> rec.title == ""
  {
    FieldValues(game, rec);
  }

  lemma AbsentTexts(game: seq<(string, Json)>, rec: GameRecord)
    requires Fields(game) == Success(rec)
    ensures !HasKey(game, "description") ==> rec.description == ""
    ensures !HasKey(game, "instruction") ==> rec.instructions == ""
  {
    FieldValues(game, rec);
  }

  lemma AbsentSizes(game: seq<(string, Json)>, rec: GameRecord)
    requires Fields(game) == Success(rec)
    ensures !HasKey(game, "width") ==> rec.width == ""
    ensures !HasKey(game, "height") ==> rec.height == ""
  {
    FieldValues(game, rec);
  }

  lemma AbsentListsAndAssets(game: seq<(string, Json)>, rec: GameRecord)
    requires Fields(game) == Success(rec)
    ensures !HasKey(game, "categories") ==> rec.category == ""
    ensures !HasKey(game, "tags") ==> rec.tags == ""
    ensures !HasKey(game, "assets") ==> rec.thumb == ""
  {
    FieldValues(game, rec);
  }

  /** The first outcome that raises decides the result. */
  lemma FirstRaiseDecides(outs: seq<Result<string, Error>>, k: nat)
    requires |outs| == 9 && k < 9
    requires Raises(outs[k]) && forall j :: 0 <= j < k ==> !Raises(outs[j])
    ensures Assemble(outs) == Failure(outs[k].error)
  {
    SettleFirstRaise(outs, k);
  }

  /** A key that is present is never defaulted: a `description` that is null
      makes `.strip()` raise, and nothing before it can raise first. */
  lemma NullDescriptionRaises(game: seq<(string, Json)>)
    requires Get(game, "description") == Some(JNull)
    ensures Fields(game) == Failure(WrongType("description"))
  {
    assert StrippedField(game, "description").Failure?;
    DescriptionRaisesFirst(game, ThumbField(game));
  }

  /** When the description cannot be stripped, that is the error of the
      call: the id and the title before it never raise. */
  lemma DescriptionRaisesFirst(game: seq<(string, Json)>, thumb: Result<string, Error>)
    requires StrippedField(game, "description").Failure?
    ensures Assemble(FieldOutcomes(game, thumb)) == Failure(WrongType("description"))
  {
    var outs := FieldOutcomes(game, thumb);
    assert !Raises(outs[0]) && !Raises(outs[1]);
    FirstRaiseDecides(outs, 2);
  }

  /** A null list of categories makes the join raise unless an earlier field
      already has; it is never read as an empty list. */
  lemma NullCategoriesFail(game: seq<(string, Json)>)
    requires Get(game, "categories") == Some(JNull)
    ensures Fields(game).Failure?
    ensures Fields(game).error in {WrongType("description"), WrongType("instruction"), WrongType("categories")}
  {
    assert JoinedField(game, "categories") == Failure(WrongType("categories"));
    CategoriesRaise(game, ThumbField(game));
  }

  /** When joining the categories raises, the call fails with that error or
      with one raised earlier by the description or the instructions; the
      id, title, width and height before it never raise. */
  lemma CategoriesRaise(game: seq<(string, Json)>, thumb: Result<string, Error>)
    requires JoinedField(game, "categories").Failure?
    ensures Assemble(FieldOutcomes(game, thumb)).Failure?
    ensures Assemble(FieldOutcomes(game, thumb)).error
              in {WrongType("description"), WrongType("instruction"), WrongType("categories")}
  {
    if StrippedField(game, "description").Failure? {
      DescriptionRaisesFirst(game, thumb);
    } else if StrippedField(game, "instruction").Failure? {
      InstructionRaisesNext(game, thumb);
    } else {
      CategoriesRaiseNext(game, thumb);
    }
  }

  /** With the description stripped, instructions that cannot be stripped
      are the error of the call. */
  lemma InstructionRaisesNext(game: seq<(string, Json)>, thumb: Result<string, Error>)
    requires StrippedField(game, "description").Success?
    requires StrippedField(game, "instruction").Failure?
    ensures Assemble(FieldOutcomes(game, thumb)) == Failure(WrongType("instruction"))
  {
    var outs := FieldOutcomes(game, thumb);
    assert !Raises(outs[0]) && !Raises(outs[1]) && !Raises(outs[2]);
    FirstRaiseDecides(outs, 3);
  }

  /** With both texts stripped, categories that cannot be joined are the
      error of the call: width and height never raise. */
  lemma CategoriesRaiseNext(game: seq<(string, Json)>, thumb: Result<string, Error>)
    requires StrippedField(game, "description").Success?
    requires StrippedField(game, "instruction").Success?
    requires JoinedField(game, "categories").Failure?
    ensures Assemble(FieldOutcomes(game, thumb)) == Failure(WrongType("categories"))
  {
    var outs := FieldOutcomes(game, thumb);
    assert outs[2].Success? && outs[3].Success?;
    assert !Raises(outs[0]) && !Raises(outs[1]) && !Raises(outs[4]) && !Raises(outs[5]);
    FirstRaiseDecides(outs, 6);
  }

  /** Some raising outcome is the first raising one. */
  lemma {:induction false} FirstRaise(outs: seq<Result<string, Error>>, m: nat)
    requires m < |outs| && Raises(outs[m])
    ensures exists k :: 0 <= k <= m && Raises(outs[k]) && forall j :: 0 <= j < k ==> !Raises(outs[j])
  {
    if exists j :: 0 <= j < m && Raises(outs[j]) {
      var j :| 0 <= j < m && Raises(outs[j]);
      FirstRaise(outs, j);
    }
  }

  /** Fail-fast for the record: whenever some field raises, the call fails
      with the error of a raising field no later than it, the first one. */
  lemma AnyRaiseDecides(game: seq<(string, Json)>, m: nat)
    requires m < 9 && Raises(FieldOutcomes(game, ThumbField(game))[m])
    ensures var outs := FieldOutcomes(game, ThumbField(game));
            exists k :: 0 <= k <= m && Raises(outs[k]) && (forall j :: 0 <= j < k ==> !Raises(outs[j]))
                        && Fields(game) == Failure(outs[k].error)
  {
    var outs := FieldOutcomes(game, ThumbField(game));
    FirstRaise(outs, m);
    var k :| 0 <= k <= m && Raises(outs[k]) && forall j :: 0 <= j < k ==> !Raises(outs[j]);
    FirstRaiseDecides(outs, k);
  }

  // ---------------------------------------------------------------------
  // The record
  // ---------------------------------------------------------------------

  /** What every record the game object yields looks like: the URL derives
      from the id alone, and the thumbnail is empty or the image prefix
      followed by a name holding the marker. */
  lemma RecordShape(game: seq<(string, Json)>, rec: GameRecord)
    requires Fields(game) == Success(rec)
    ensures rec.url == GameUrl(rec.id)
    ensures rec.url != "" <==> rec.id != ""
    ensures rec.id != "" ==> rec.url == GameUrlPrefix + rec.id + "/"
    ensures rec.thumb != "" ==> |rec.thumb| > |ThumbUrlPrefix| && rec.thumb[..|ThumbUrlPrefix|] == ThumbUrlPrefix
                                && Contains(rec.thumb[|ThumbUrlPrefix|..], ThumbMarker)
    ensures ToDict(rec)[0] == ("id", rec.id)
  {
    FieldValues(game, rec);
  }

  /** What a stripped field holds is already stripped: it neither begins nor
      ends with whitespace, and stripping it again changes nothing. */
  lemma StrippedFieldIsStripped(game: seq<(string, Json)>, key: string)
    ensures StrippedField(game, key).Success? ==>
              var v := StrippedField(game, key).value;
              Strip(v) == v && (v != "" ==> !IsSpace(v[0]) && !IsSpace(v[|v| - 1]))
  {
    match GetOr(game, key, JString(""))
    case JString(s) => StripIdempotent(s);
    case _ =>
  }

  /** The description and the instructions of a record are stripped text. */
  lemma StrippedTexts(game: seq<(string, Json)>, rec: GameRecord)
    requires Fields(game) == Success(rec)
    ensures Strip(rec.description) == rec.description && Strip(rec.instructions) == rec.instructions
    ensures rec.description != "" ==> !IsSpace(rec.description[0]) && !IsSpace(rec.description[|rec.description| - 1])
    ensures rec.instructions != "" ==> !IsSpace(rec.instructions[0]) && !IsSpace(rec.instructions[|rec.instructions| - 1])
  {
    FieldValues(game, rec);
    StrippedFieldIsStripped(game, "description");
    StrippedFieldIsStripped(game, "instruction");
  }

  /** The id and title are the strings under `objectID` and `title`, and the
      page URL is built from that id. */
  lemma CopiedFields(game: seq<(string, Json)>, rec: GameRecord, id: string, title: string)
    requires Fields(game) == Success(rec)
    requires Get(game, "objectID") == Some(JString(id))
    requires Get(game, "title") == Some(JString(title))
    ensures rec.id == id && rec.title == title
    ensures rec.url == if id == "" then "" else GameUrlPrefix + id + "/"
  {
    FieldValues(game, rec);
  }

  /** The JSON list of the given strings. */
  function StringList(names: seq<string>): (items: seq<Json>)
    ensures AllStrings(items) && StringsOf(items) == names
  {
    seq(|names|, i requires 0 <= i < |names| => JString(names[i]))
  }

  /** A joined field gives back its list of names: all of them, in their
      order, when none contains the separator; an empty list gives `""`. */
  lemma JoinedFieldSplits(game: seq<(string, Json)>, key: string, names: seq<string>)
    requires Get(game, key) == Some(JArray(StringList(names)))
    requires forall i, j :: 0 <= i < |names| && 0 <= j ==> !SepAt(names[i], j)
    ensures JoinedField(game, key) == Success(Join(names))
    ensures names == [] ==> JoinedField(game, key) == Success("")
    ensures names != [] ==> Split(JoinedField(game, key).value) == names
  {
    if names != [] {
      SplitJoin(names);
    }
  }

  /** The category names come back out of the record's `category` field. */
  lemma CategoriesRoundTrip(game: seq<(string, Json)>, rec: GameRecord, names: seq<string>)
    requires Fields(game) == Success(rec)
    requires Get(game, "categories") == Some(JArray(StringList(names)))
    requires forall i, j :: 0 <= i < |names| && 0 <= j ==> !SepAt(names[i], j)
    ensures rec.category == Join(names)
    ensures names != [] ==> Split(rec.category) == names
  {
    FieldValues(game, rec);
    JoinedFieldSplits(game, "categories", names);
  }

  /** The tag names come back out of the record's `tags` field. */
  lemma TagsRoundTrip(game: seq<(string, Json)>, rec: GameRecord, names: seq<string>)
    requires Fields(game) == Success(rec)
    requires Get(game, "tags") == Some(JArray(StringList(names)))
    requires forall i, j :: 0 <= i < |names| && 0 <= j ==> !SepAt(names[i], j)
    ensures rec.tags == Join(names)
    ensures names != [] ==> Split(rec.tags) == names
  {
    FieldValues(game, rec);
    JoinedFieldSplits(game, "tags", names);
  }

  /** A stripped field of string text is that text with the whitespace at
      its two ends removed, and nothing else. */
  lemma StrippedFieldTrims(game: seq<(string, Json)>, key: string, text: string)
    requires Get(game, key) == Some(JString(text))
    ensures StrippedField(game, key) == Success(Strip(text))
    ensures exists i :: 0 <= i <= |text| - |Strip(text)| && Strip(text) == text[i..i + |Strip(text)|]
                        && AllSpace(text[..i]) && AllSpace(text[i + |Strip(text)|..])
  {
    StripIsMaximalTrim(text);
  }

  /** A string description or instruction text is stored as its strip. */
  lemma TextsAreStrippedText(game: seq<(string, Json)>, rec: GameRecord, d: string, ins: string)
    requires Fields(game) == Success(rec)
    requires Get(game, "description") == Some(JString(d))
    requires Get(game, "instruction") == Some(JString(ins))
    ensures rec.description == Strip(d) && rec.instructions == Strip(ins)
  {
    FieldValues(game, rec);
  }

  /** An integer width or height is written in decimal and reads back as
      the same integer. */
  lemma SizesReadBack(game: seq<(string, Json)>, rec: GameRecord, w: int, h: int)
    requires Fields(game) == Success(rec)
    requires Get(game, "width") == Some(JInt(w)) && Get(game, "height") == Some(JInt(h))
    ensures rec.width == IntToDecimal(w) && rec.height == IntToDecimal(h)
    ensures IsIntLiteral(rec.width) && DecimalToInt(rec.width) == w
    ensures IsIntLiteral(rec.height) && DecimalToInt(rec.height) == h
  {
    FieldValues(game, rec);
    IntDecimalRoundTrip(w);
    IntDecimalRoundTrip(h);
  }

  // ---------------------------------------------------------------------
  // The thumbnail
  // ---------------------------------------------------------------------

  /** Every dict asset has a string `name`, or none. */
  predicate NamesAreStrings(assets: seq<Json>)
  {
    forall j :: 0 <= j < |assets| && assets[j].JObject? ==> GetOr(assets[j].members, "name", JString("")).JString?
  }

  /** The name of a dict asset, as `asset['name']` reads it. */
  function AssetName(a: Json): string
    requires Qualifies(a)
  {
    GetOr(a.members, "name", JString("")).s
  }

  /** The first qualifying asset decides the thumbnail: non-dict assets and
      dicts whose name lacks the marker before it are passed over, and the
      assets after it are never looked at, even ones that would raise. */
  lemma {:induction false} ThumbIsFirstMatch(pre: seq<Json>, a: Json, post: seq<Json>)
    requires NamesAreStrings(pre)
    requires forall j :: 0 <= j < |pre| ==> !Qualifies(pre[j])
    requires Qualifies(a)
    ensures SelectThumb(pre + [a] + post) == Success(ThumbUrlPrefix + AssetName(a))
  {
    if pre != [] {
      assert Inspect(pre[0]).Skip?;
      assert (pre + [a] + post)[1..] == pre[1..] + [a] + post;
      ThumbIsFirstMatch(pre[1..], a, post);
    }
  }

  /** Whenever the loop completes, it leaves a thumbnail exactly when some
      asset qualifies, whatever the types of the other names. */
  lemma {:induction false} CompletedScanFindsQualifying(assets: seq<Json>)
    requires SelectThumb(assets).Success?
    ensures SelectThumb(assets).value != "" <==> exists j :: 0 <= j < |assets| && Qualifies(assets[j])
  {
    if assets != [] {
      var rest := assets[1..];
      assert forall j :: 0 <= j < |rest| ==> rest[j] == assets[j + 1];
      if Inspect(assets[0]).Skip? {
        CompletedScanFindsQualifying(rest);
        assert !Qualifies(assets[0]);
        if exists j :: 0 <= j < |assets| && Qualifies(assets[j]) {
          var j :| 0 <= j < |assets| && Qualifies(assets[j]);
          assert rest[j - 1] == assets[j];
        }
      } else {
        assert Qualifies(assets[0]);
      }
    }
  }

  /** The record's thumbnail is the loop's result over the game's asset
      list, and it is non-empty exactly when some asset qualifies. */
  lemma RecordThumb(game: seq<(string, Json)>, rec: GameRecord, items: seq<Json>)
    requires Fields(game) == Success(rec)
    requires Get(game, "assets") == Some(JArray(items))
    ensures SelectThumb(items) == Success(rec.thumb)
    ensures rec.thumb != "" <==> exists j :: 0 <= j < |items| && Qualifies(items[j])
  {
    FieldValues(game, rec);
    CompletedScanFindsQualifying(items);
  }

  /** With string names, the loop never fails, and the thumbnail is non-empty
      exactly when some asset qualifies. */
  lemma {:induction false} ThumbIffQualifying(assets: seq<Json>)
    requires NamesAreStrings(assets)
    ensures SelectThumb(assets).Success?
    ensures SelectThumb(assets).value != "" <==> exists j :: 0 <= j < |assets| && Qualifies(assets[j])
  {
    if assets != [] {
      var rest := assets[1..];
      assert forall j :: 0 <= j < |rest| ==> rest[j] == assets[j + 1];
      ThumbIffQualifying(rest);
      if Inspect(assets[0]).Take? {
        assert Qualifies(assets[0]);
      } else {
        assert !Qualifies(assets[0]);
        if exists j :: 0 <= j < |assets| && Qualifies(assets[j]) {
          var j :| 0 <= j < |assets| && Qualifies(assets[j]);
          assert rest[j - 1] == assets[j];
        }
      }
    }
  }
}
