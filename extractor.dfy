/**
  The extraction engine of the GameDistribution page-source parser: from the
  `<script>` elements of a pasted page, find the `__NEXT_DATA__` payload, walk
  `props -> pageProps -> game`, and build the ten-field game record.

  Python's dynamic typing is followed where it decides the outcome. A value of
  the wrong type for the operation applied to it makes Python raise
  (AttributeError or TypeError); the model returns `WrongType`. A few inputs
  make Python produce something this model does not compute (a non-string id
  or title copied through, `str()` of a float, list or dict); the model then
  returns `OutsideModel`, which means "no prediction", never a Python error.
 */
module Extractor {
  import opened Wrappers
  import opened Json
  import opened Text

  /** The `id` attribute that marks the embedded payload. */
  const NextDataId: string := "__NEXT_DATA__"
  /** Prefix of the playable page URL; the game id and a `/` follow it. */
  const GameUrlPrefix: string := "https://html5.gamedistribution.com/"
  /** Prefix of the thumbnail URL; the asset name follows it. */
  const ThumbUrlPrefix: string := "https://img.gamedistribution.com/"
  /** The marker an asset name must contain to be the thumbnail. */
  const ThumbMarker: string := "512x512"

  /** One `<script>` element of the parsed page: its `id` attribute and its
      text content (`.string`), each possibly absent. */
  datatype Script = Script(id: Option<string>, text: Option<string>)

  datatype Error =
    /** ValueError 'JSON data not found in the page source.' */
    | NotFound
    /** json.loads rejected the payload; the parser's message. */
    | Malformed(detail: string)
    /** Python raises: the named value has the wrong type for what is done with it. */
    | WrongType(key: string)
    /** Python returns a record this model does not compute (see the module comment). */
    | OutsideModel(key: string)

  /** The output dictionary, one field per key, in the order of the keys. */
  datatype GameRecord = GameRecord(
    id: string,
    title: string,
    description: string,
    instructions: string,
    url: string,
    category: string,
    tags: string,
    thumb: string,
    width: string,
    height: string)

  /** The record every field of which is empty. */
  const Blank: GameRecord := GameRecord("", "", "", "", "", "", "", "", "", "")

  /** The keys of the output dictionary, in insertion order. */
  const OutputKeys: seq<string> :=
    ["id", "title", "description", "instructions", "url", "category", "tags", "thumb", "width", "height"]

  // ---------------------------------------------------------------------
  // Locating the payload
  // ---------------------------------------------------------------------

  predicate IsNextData(s: Script)
  {
    s.id == Some(NextDataId)
  }

  /** `soup.find('script', id='__NEXT_DATA__')`: the position of the first
      script carrying the id, in document order. */
  function FindNextData(page: seq<Script>): (r: Option<nat>)
    ensures r.Some? ==> r.value < |page| && IsNextData(page[r.value])
                        && forall j :: 0 <= j < r.value ==> !IsNextData(page[j])
    ensures r.None? ==> forall j :: 0 <= j < |page| ==> !IsNextData(page[j])
  {
    if page == [] then None
    else if IsNextData(page[0]) then Some(0)
    else match FindNextData(page[1..])
      case None => None
      case Some(k) => Some(k + 1)
  }

  /** The text of the payload script, failing with NotFound when there is no
      such script or its text is absent or empty. */
  function Payload(page: seq<Script>): (r: Result<string, Error>)
    ensures r.Failure? ==> r.error == NotFound
    ensures r.Success? ==> r.value != ""
    ensures r.Success? ==> exists i :: 0 <= i < |page| && IsNextData(page[i]) && page[i].text == Some(r.value)
                                       && forall j :: 0 <= j < i ==> !IsNextData(page[j])
  {
    match FindNextData(page)
    case None => Failure(NotFound)
    case Some(k) =>
      match page[k].text
      case None => Failure(NotFound)
      case Some(t) => if t == "" then Failure(NotFound) else Success(t)
  }

  /** No script is both the first one carrying the id and one with non-empty
      text: the situation in which the source raises 'JSON data not found'. */
  predicate PayloadMissing(page: seq<Script>)
  {
    forall i :: 0 <= i < |page| && IsNextData(page[i]) ==>
      (exists j :: 0 <= j < i && IsNextData(page[j])) || page[i].text == None || page[i].text == Some("")
  }

  /** `json.loads(text)`, with the parser supplied by the caller. */
  function Decode(parse: string -> Result<Json, string>, text: string): (r: Result<Json, Error>)
    ensures r.Failure? <==> parse(text).Failure?
    ensures r.Failure? ==> r.error == Malformed(parse(text).error)
    ensures r.Success? ==> r.value == parse(text).value
  {
    match parse(text)
    case Success(v) => Success(v)
    case Failure(d) => Failure(Malformed(d))
  }

  /** `data.get('props', {}).get('pageProps', {}).get('game', {})`: an absent
      key gives an empty dict; a present value that is not a dict has no `.get`
      and raises. */
  function Navigate(data: Json): (r: Result<seq<(string, Json)>, Error>)
    ensures r.Failure? ==> r.error.WrongType?
    ensures !data.JObject? ==> r == Failure(WrongType("data"))
    ensures data.JObject? && HasKey(data.members, "props") && !Get(data.members, "props").value.JObject? ==>
              r == Failure(WrongType("props"))
    ensures data.JObject? && HasKey(data.members, "props") && Get(data.members, "props").value.JObject? ==>
              var props := Get(data.members, "props").value.members;
              HasKey(props, "pageProps") && !Get(props, "pageProps").value.JObject? ==>
                r == Failure(WrongType("pageProps"))
    ensures data.JObject? && HasKey(data.members, "props") && Get(data.members, "props").value.JObject? ==>
              var props := Get(data.members, "props").value.members;
              HasKey(props, "pageProps") && Get(props, "pageProps").value.JObject? ==>
                var pageProps := Get(props, "pageProps").value.members;
                HasKey(pageProps, "game") && !Get(pageProps, "game").value.JObject? ==>
                  r == Failure(WrongType("game"))
  {
    if !data.JObject? then Failure(WrongType("data"))
    else
      var props := GetOr(data.members, "props", JObject([]));
      if !props.JObject? then Failure(WrongType("props"))
      else
        var pageProps := GetOr(props.members, "pageProps", JObject([]));
        if !pageProps.JObject? then Failure(WrongType("pageProps"))
        else
          var game := GetOr(pageProps.members, "game", JObject([]));
          if !game.JObject? then Failure(WrongType("game"))
          else Success(game.members)
  }

  /** The payload is a dict, and one of `props`, `pageProps`, `game` is absent
      while every level above it is a dict. */
  predicate GameAbsent(data: Json)
  {
    data.JObject? &&
    (!HasKey(data.members, "props") ||
      var props := GetOr(data.members, "props", JObject([]));
      props.JObject? &&
      (!HasKey(props.members, "pageProps") ||
        var pageProps := GetOr(props.members, "pageProps", JObject([]));
        pageProps.JObject? && !HasKey(pageProps.members, "game")))
  }

  // ---------------------------------------------------------------------
  // The fields
  // ---------------------------------------------------------------------

  /** An error Python would raise, as opposed to "outside the model". */
  predicate Raises(o: Result<string, Error>)
  {
    o.Failure? && !o.error.OutsideModel?
  }

  /** An outcome of one field's expression: a value, or one of the two field errors. */
  predicate FieldOutcome(o: Result<string, Error>)
  {
    o.Failure? ==> o.error.WrongType? || o.error.OutsideModel?
  }

  /** `game.get(key, '')` copied into the record as is (`objectID`, `title`). */
  function CopiedField(game: seq<(string, Json)>, key: string): (r: Result<string, Error>)
    ensures HasKey(game, key) && Get(game, key).value.JString? ==> r == Success(Get(game, key).value.s)
    ensures HasKey(game, key) && !Get(game, key).value.JString? ==> r == Failure(OutsideModel(key))
    ensures !Raises(r)
    ensures r.Failure? ==> r.error == OutsideModel(key)
    ensures !HasKey(game, key) ==> r == Success("")
    ensures FieldOutcome(r)
  {
    match GetOr(game, key, JString(""))
    case JString(s) => Success(s)
    case _ => Failure(OutsideModel(key))
  }

  /** `game.get(key, '').strip()`: only a string has `.strip`. */
  function StrippedField(game: seq<(string, Json)>, key: string): (r: Result<string, Error>)
    ensures HasKey(game, key) && Get(game, key).value.JString? ==> r == Success(Strip(Get(game, key).value.s))
    ensures r.Failure? <==> !GetOr(game, key, JString("")).JString?
    ensures r.Failure? ==> r.error == WrongType(key)
    ensures !HasKey(game, key) ==> r == Success("")
    ensures FieldOutcome(r)
  {
    match GetOr(game, key, JString(""))
    case JString(s) => Success(Strip(s))
    case _ => Failure(WrongType(key))
  }

  /** `str(v)` for the values whose text the model computes. */
  function PyStr(v: Json, key: string): (r: Result<string, Error>)
    ensures v.JString? ==> r == Success(v.s)
    ensures v.JInt? ==> r == Success(IntToDecimal(v.i))
    ensures v.JNull? ==> r == Success("None")
    ensures v.JBool? ==> r == Success(if v.b then "True" else "False")
    ensures r.Failure? <==> v.JFloat? || v.JArray? || v.JObject?
    ensures !Raises(r)
    ensures r.Failure? ==> r.error == OutsideModel(key)
  {
    match v
    case JString(s) => Success(s)
    case JInt(i) => Success(IntToDecimal(i))
    case JNull => Success("None")
    case JBool(b) => Success(if b then "True" else "False")
    case _ => Failure(OutsideModel(key))
  }

  /** `str(game.get(key, ''))` (`width`, `height`). */
  function CoercedField(game: seq<(string, Json)>, key: string): (r: Result<string, Error>)
    ensures HasKey(game, key) ==> r == PyStr(Get(game, key).value, key)
    ensures !Raises(r)
    ensures r.Failure? ==> r.error == OutsideModel(key)
    ensures !HasKey(game, key) ==> r == Success("")
    ensures FieldOutcome(r)
  {
    PyStr(GetOr(game, key, JString("")), key)
  }

  predicate AllStrings(items: seq<Json>)
  {
    forall i :: 0 <= i < |items| ==> items[i].JString?
  }

  function StringsOf(items: seq<Json>): (r: seq<string>)
    requires AllStrings(items)
    ensures |r| == |items| && forall i :: 0 <= i < |items| ==> items[i] == JString(r[i])
  {
    seq(|items|, i requires 0 <= i < |items| => items[i].s)
  }

  /** The elements iterating over a value yields (`for x in v`), or the
      TypeError a value that is not iterable raises. */
  function Iterate(v: Json, key: string): (r: Result<seq<Json>, Error>)
    ensures r.Failure? <==> !(v.JArray? || v.JString? || v.JObject?)
    ensures r.Failure? ==> r.error == WrongType(key)
    ensures v.JArray? ==> r == Success(v.items)
    ensures v.JString? ==> |r.value| == |v.s| && forall i :: 0 <= i < |v.s| ==> r.value[i] == JString([v.s[i]])
    ensures v.JObject? ==>
              var ks := DictKeys(v.members);
              |r.value| == |ks| && forall i :: 0 <= i < |ks| ==> r.value[i] == JString(ks[i])
  {
    match v
    case JArray(items) => Success(items)
    case JString(s) => Success(seq(|s|, i requires 0 <= i < |s| => JString([s[i]])))
    case JObject(ms) => var ks := DictKeys(ms); Success(seq(|ks|, i requires 0 <= i < |ks| => JString(ks[i])))
    case _ => Failure(WrongType(key))
  }

  /** `', '.join(game.get(key, []))` (`categories`, `tags`): every element
      iterated over must be a string. */
  function JoinedField(game: seq<(string, Json)>, key: string): (r: Result<string, Error>)
    ensures HasKey(game, key) && Get(game, key).value.JArray? ==>
              if AllStrings(Get(game, key).value.items)
              then r == Success(Join(StringsOf(Get(game, key).value.items)))
              else r == Failure(WrongType(key))
    ensures HasKey(game, key) && Get(game, key).value.JString? ==>
              var s := Get(game, key).value.s;
              r == Success(Join(seq(|s|, i requires 0 <= i < |s| => [s[i]])))
    ensures HasKey(game, key) && Get(game, key).value.JObject? ==>
              r == Success(Join(DictKeys(Get(game, key).value.members)))
    ensures HasKey(game, key) && !(Get(game, key).value.JArray? || Get(game, key).value.JString? || Get(game, key).value.JObject?) ==>
              r == Failure(WrongType(key))
    ensures r.Failure? ==> r.error == WrongType(key)
    ensures !HasKey(game, key) ==> r == Success("")
    ensures FieldOutcome(r)
  {
    match Iterate(GetOr(game, key, JArray([])), key)
    case Failure(e) => Failure(e)
    case Success(items) =>
      var v := GetOr(game, key, JArray([]));
      if AllStrings(items) then
        assert v.JString? ==> StringsOf(items) == seq(|v.s|, i requires 0 <= i < |v.s| => [v.s[i]]);
        assert v.JObject? ==> StringsOf(items) == DictKeys(v.members);
        Success(Join(StringsOf(items)))
      else Failure(WrongType(key))
  }

  // ---------------------------------------------------------------------
  // The thumbnail
  // ---------------------------------------------------------------------

  /** What one pass of the asset loop does with an element. */
  datatype Verdict =
    | Skip                  // not a dict, or its name does not contain the marker
    | Take(name: string)    // the thumbnail: the loop assigns it and breaks
    | Halt(error: Error)    // the loop ends without a modelled thumbnail

  /** An asset is a thumbnail candidate: a dict whose `name` is a string
      containing the marker. */
  predicate Qualifies(a: Json)
  {
    a.JObject? && GetOr(a.members, "name", JString("")).JString?
    && Contains(GetOr(a.members, "name", JString("")).s, ThumbMarker)
  }

  /** `isinstance(asset, dict) and '512x512' in asset.get('name', '')`. A
      string name is searched for the marker as a substring; a list or dict
      name is tested for membership, and a match would put its Python `str()`
      into the URL; any other name is not iterable and the test raises. */
  function Inspect(asset: Json): (v: Verdict)
    ensures v.Take? <==> Qualifies(asset)
    ensures v.Take? ==> v.name == GetOr(asset.members, "name", JString("")).s
    ensures !asset.JObject? ==> v.Skip?
    ensures v.Halt? ==> v.error in {WrongType("name"), OutsideModel("name")}
    ensures asset.JObject? && HasKey(asset.members, "name") ==>
              var name := Get(asset.members, "name").value;
              (!(name.JString? || name.JArray? || name.JObject?) ==> v == Halt(WrongType("name")))
              && (name.JArray? ==> v == if JString(ThumbMarker) in name.items then Halt(OutsideModel("name")) else Skip)
              && (name.JObject? ==> v == if HasKey(name.members, ThumbMarker) then Halt(OutsideModel("name")) else Skip)
  {
    match asset
    case JObject(ms) =>
      (match GetOr(ms, "name", JString(""))
       case JString(n) => if Contains(n, ThumbMarker) then Take(n) else Skip
       case JArray(xs) => if JString(ThumbMarker) in xs then Halt(OutsideModel("name")) else Skip
       case JObject(ks) => if HasKey(ks, ThumbMarker) then Halt(OutsideModel("name")) else Skip
       case _ => Halt(WrongType("name")))
    case _ => Skip
  }

  /** The thumbnail URL the asset loop leaves behind: the first asset taken,
      behind the image prefix, or the empty string when none is. */
  function SelectThumb(assets: seq<Json>): (r: Result<string, Error>)
    ensures FieldOutcome(r)
    ensures (forall i :: 0 <= i < |assets| ==> !assets[i].JObject?) ==> r == Success("")
    ensures r.Success? && r.value != "" ==>
              |r.value| > |ThumbUrlPrefix| && r.value[..|ThumbUrlPrefix|] == ThumbUrlPrefix
              && Contains(r.value[|ThumbUrlPrefix|..], ThumbMarker)
  {
    if assets == [] then Success("")
    else match Inspect(assets[0])
      case Skip => SelectThumb(assets[1..])
      case Take(name) =>
        assert (ThumbUrlPrefix + name)[|ThumbUrlPrefix|..] == name;
        assert |name| > 0 by {
          var i :| 0 <= i <= |name| && OccursAt(name, ThumbMarker, i);
        }
        Success(ThumbUrlPrefix + name)
      case Halt(e) => Failure(e)
  }

  /** The loop of the source over `game.get('assets', [])`: the thumbnail is
      the one SelectThumb describes. */
  method ScanAssets(assets: seq<Json>) returns (thumb: Result<string, Error>)
    ensures thumb == SelectThumb(assets)
  {
    thumb := Success("");
    for i := 0 to |assets|
      invariant SelectThumb(assets[i..]) == SelectThumb(assets)
      invariant thumb == Success("")
    {
      assert assets[i..][1..] == assets[i + 1..];
      match Inspect(assets[i]) {
        case Skip =>
        case Take(name) =>
          thumb := Success(ThumbUrlPrefix + name);
          break;
        case Halt(e) =>
          thumb := Failure(e);
          break;
      }
    }
  }

  /** A value a `for` loop can iterate over: a list, a string or a dict. */
  predicate AssetsIterable(v: Json)
  {
    v.JArray? || v.JString? || v.JObject?
  }

  /** `game.get('assets', [])` as the loop iterates it. */
  function AssetList(game: seq<(string, Json)>): (r: Result<seq<Json>, Error>)
    ensures r.Failure? <==> HasKey(game, "assets") && !AssetsIterable(Get(game, "assets").value)
    ensures r.Failure? ==> r.error == WrongType("assets")
    ensures !HasKey(game, "assets") ==> r == Success([])
    ensures HasKey(game, "assets") && Get(game, "assets").value.JArray? ==> r == Success(Get(game, "assets").value.items)
    ensures HasKey(game, "assets") && (Get(game, "assets").value.JString? || Get(game, "assets").value.JObject?) ==>
              r.Success? && forall i :: 0 <= i < |r.value| ==> r.value[i].JString?
  {
    Iterate(GetOr(game, "assets", JArray([])), "assets")
  }

  /** The outcome of the thumbnail loop for a game object. */
  function ThumbField(game: seq<(string, Json)>): (r: Result<string, Error>)
    ensures FieldOutcome(r)
    ensures !HasKey(game, "assets") ==> r == Success("")
    ensures HasKey(game, "assets") && Get(game, "assets").value.JArray? ==>
              r == SelectThumb(Get(game, "assets").value.items)
    ensures HasKey(game, "assets") && (Get(game, "assets").value.JString? || Get(game, "assets").value.JObject?) ==>
              r == Success("")
    ensures HasKey(game, "assets") && !AssetsIterable(Get(game, "assets").value) ==>
              r == Failure(WrongType("assets"))
    ensures r.Success? && r.value != "" ==>
              |r.value| > |ThumbUrlPrefix| && r.value[..|ThumbUrlPrefix|] == ThumbUrlPrefix
              && Contains(r.value[|ThumbUrlPrefix|..], ThumbMarker)
  {
    match AssetList(game)
    case Failure(e) => Failure(e)
    case Success(assets) => SelectThumb(assets)
  }

  // ---------------------------------------------------------------------
  // The record
  // ---------------------------------------------------------------------

  /** The page URL for a game id: empty exactly when the id is. */
  function GameUrl(id: string): (r: string)
    ensures r == "" <==> id == ""
    ensures id != "" ==> IdOfGameUrl(r) == Some(id)
  {
    if id != "" then
      var r := GameUrlPrefix + id + "/";
      assert r[|GameUrlPrefix|..|r| - 1] == id;
      r
    else ""
  }

  /** Reads the game id back out of a page URL. */
  function IdOfGameUrl(url: string): Option<string>
  {
    if |url| > |GameUrlPrefix| + 1 && url[..|GameUrlPrefix|] == GameUrlPrefix && url[|url| - 1] == '/'
    then Some(url[|GameUrlPrefix|..|url| - 1])
    else None
  }

  /** The outcome of the source's field statements, in the order they run. */
  function FieldOutcomes(game: seq<(string, Json)>, thumb: Result<string, Error>): (outs: seq<Result<string, Error>>)
    ensures |outs| == 9
    ensures FieldOutcome(thumb) ==> forall i :: 0 <= i < 9 ==> FieldOutcome(outs[i])
  {
    [CopiedField(game, "objectID"),
     CopiedField(game, "title"),
     StrippedField(game, "description"),
     StrippedField(game, "instruction"),
     CoercedField(game, "width"),
     CoercedField(game, "height"),
     JoinedField(game, "categories"),
     JoinedField(game, "tags"),
     thumb]
  }

  /** Combines field outcomes computed in source order. The first error Python
      raises ends the call; if none raises, the first field outside the model
      decides; otherwise every value is kept. */
  function Settle(outs: seq<Result<string, Error>>): (r: Result<seq<string>, Error>)
    ensures r.Success? <==> forall i :: 0 <= i < |outs| ==> outs[i].Success?
    ensures r.Success? ==> |r.value| == |outs| && forall i :: 0 <= i < |outs| ==> r.value[i] == outs[i].value
  {
    if outs == [] then Success([])
    else
      var rest := Settle(outs[1..]);
      assert forall j :: 0 <= j < |outs| - 1 ==> outs[1..][j] == outs[j + 1];
      match outs[0]
      case Success(v) =>
        (match rest
         case Success(vs) => Success([v] + vs)
         case Failure(e) => Failure(e))
      case Failure(e) =>
        if Raises(outs[0]) || rest.Success? || rest.error.OutsideModel? then Failure(e)
        else rest
  }

  /** Settle invents no error: a failure carries the error of some outcome. */
  lemma {:induction false} SettleErrorIsAnOutcome(outs: seq<Result<string, Error>>)
    ensures Settle(outs).Failure? ==> exists i :: 0 <= i < |outs| && outs[i] == Failure(Settle(outs).error)
  {
    if outs != [] {
      var r := Settle(outs);
      var rest := Settle(outs[1..]);
      SettleErrorIsAnOutcome(outs[1..]);
      if r.Failure? && outs[0] != Failure(r.error) {
        assert rest == Failure(r.error);
        var i :| 0 <= i < |outs| - 1 && outs[1..][i] == Failure(rest.error);
        assert outs[i + 1] == outs[1..][i];
      }
    }
  }

  /** The first outcome that raises decides the result, whatever follows it. */
  lemma {:induction false} SettleFirstRaise(outs: seq<Result<string, Error>>, k: nat)
    requires k < |outs| && Raises(outs[k])
    requires forall j :: 0 <= j < k ==> !Raises(outs[j])
    ensures Settle(outs) == Failure(outs[k].error)
  {
    if k > 0 {
      assert forall j :: 0 <= j < k - 1 ==> outs[1..][j] == outs[j + 1];
      assert outs[1..][k - 1] == outs[k];
      SettleFirstRaise(outs[1..], k - 1);
    }
  }

  /** When no outcome raises, the first failing one decides the result. */
  lemma {:induction false} SettleFirstFailure(outs: seq<Result<string, Error>>, k: nat)
    requires forall j :: 0 <= j < |outs| ==> !Raises(outs[j])
    requires k < |outs| && outs[k].Failure?
    requires forall j :: 0 <= j < k ==> outs[j].Success?
    ensures Settle(outs) == Failure(outs[k].error)
  {
    assert forall j :: 0 <= j < |outs| - 1 ==> outs[1..][j] == outs[j + 1];
    if k > 0 {
      assert outs[1..][k - 1] == outs[k];
      SettleFirstFailure(outs[1..], k - 1);
    } else {
      SettleErrorIsAnOutcome(outs[1..]);
    }
  }

  /** The record of the source's `return` statement, from the outcomes of
      the field statements in source order. Each key receives the value of
      its own statement, and the URL is derived from the id alone. */
  function Assemble(outs: seq<Result<string, Error>>): (r: Result<GameRecord, Error>)
    requires |outs| == 9
    ensures r.Success? <==> forall i :: 0 <= i < 9 ==> outs[i].Success?
    ensures r.Success? ==>
              outs[0] == Success(r.value.id) && outs[1] == Success(r.value.title) &&
              outs[2] == Success(r.value.description) && outs[3] == Success(r.value.instructions) &&
              outs[4] == Success(r.value.width) && outs[5] == Success(r.value.height) &&
              outs[6] == Success(r.value.category) && outs[7] == Success(r.value.tags) &&
              outs[8] == Success(r.value.thumb) && r.value.url == GameUrl(r.value.id)
    ensures r.Failure? ==> Settle(outs) == Failure(r.error)
  {
    match Settle(outs)
    case Failure(e) => Failure(e)
    case Success(v) =>
      Success(GameRecord(v[0], v[1], v[2], v[3], GameUrl(v[0]), v[6], v[7], v[8], v[4], v[5]))
  }

  /** The record built from a game object. */
  function Fields(game: seq<(string, Json)>): (r: Result<GameRecord, Error>)
    ensures r.Success? ==> r.value.url == GameUrl(r.value.id)
    ensures r.Success? ==> ThumbField(game) == Success(r.value.thumb)
  {
    Assemble(FieldOutcomes(game, ThumbField(game)))
  }

  /** `extract_from_html_source` as a function of the page's script elements
      and of the JSON parser. */
  function Extract(page: seq<Script>, parse: string -> Result<Json, string>): (r: Result<GameRecord, Error>)
    ensures Payload(page).Failure? ==> r == Failure(NotFound)
    ensures r.Success? ==> r.value.url == GameUrl(r.value.id)
  {
    var text :- Payload(page);
    var data :- Decode(parse, text);
    var game :- Navigate(data);
    Fields(game)
  }

  /** `extract_from_html_source` statement by statement, with the asset loop
      run as a loop. */
  method ExtractFromHtmlSource(page: seq<Script>, parse: string -> Result<Json, string>)
    returns (r: Result<GameRecord, Error>)
    ensures r == Extract(page, parse)
  {
    var text :- Payload(page);
    var data :- Decode(parse, text);
    var game :- Navigate(data);
    var thumb: Result<string, Error>;
    var assets := AssetList(game);
    if assets.Failure? {
      thumb := Failure(assets.error);
    } else {
      thumb := ScanAssets(assets.value);
    }
    r := Assemble(FieldOutcomes(game, thumb));
  }

  /** The output dictionary as key/value pairs in insertion order. */
  function ToDict(rec: GameRecord): (d: seq<(string, string)>)
    ensures |d| == |OutputKeys| && forall i :: 0 <= i < |d| ==> d[i].0 == OutputKeys[i]
    ensures FromDict(d) == Some(rec)
  {
    [("id", rec.id), ("title", rec.title), ("description", rec.description),
     ("instructions", rec.instructions), ("url", rec.url), ("category", rec.category),
     ("tags", rec.tags), ("thumb", rec.thumb), ("width", rec.width), ("height", rec.height)]
  }

  /** Reads a record back from its dictionary, if it has exactly the output keys in order. */
  function FromDict(d: seq<(string, string)>): Option<GameRecord>
  {
    if |d| == |OutputKeys| && forall i :: 0 <= i < |d| ==> d[i].0 == OutputKeys[i] then
      Some(GameRecord(d[0].1, d[1].1, d[2].1, d[3].1, d[4].1, d[5].1, d[6].1, d[7].1, d[8].1, d[9].1))
    else None
  }
}
