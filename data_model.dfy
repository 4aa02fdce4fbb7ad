/** The listing ("game") record of src/models/Data.js: its paths, the default of
    `played`, the required paths and the URL validator on `image` and `iframeUrl`. */
module DataModel {
  import opened Common

  /** `Number(x)` applied to a form value. The conversion itself is not modelled:
      the stored number is identified by the text it came from. */
  datatype Numeric = NumberOf(raw: Option<string>)

  /** A listing document. The schema paths come first; `model`, `engine` and
      `topSpeed` are the paths the catalog service writes although the schema
      does not declare them. A path the writer left unset is `None`. */
  datatype Listing = Listing(
    id: Id,
    name: Option<string>,
    manufacturer: Option<string>,
    genre: Option<string>,
    views: Option<int>,
    played: int,
    image: Option<string>,
    iframeUrl: Option<string>,
    description: Option<string>,
    likes: seq<string>,
    owner: Id,
    model: Option<string>,
    engine: Option<string>,
    topSpeed: Numeric,
    version: nat)

  /** The request-body fields the catalog service reads on create and update. */
  datatype ListingInput = ListingInput(
    model: Option<string>,
    manufacturer: Option<string>,
    engine: Option<string>,
    topSpeed: Option<string>,
    image: Option<string>,
    description: Option<string>)

  /** The schema default of `played`. */
  const PlayedDefault: int := 0

  /** The version key Mongoose adds to every saved document, and its first value. */
  const VersionKey: string := "__v"
  const FirstVersion: nat := 0

  /** `new Data({...})` as `create` calls it and saves it: the supplied paths, an
      empty `likes` list, the author as `owner`, the schema default for `played`
      and the first version. */
  function NewListing(id: Id, data: ListingInput, authorId: Id): (l: Listing)
    ensures l.id == id && l.owner == authorId && l.likes == []
    ensures l.played == PlayedDefault && l.version == FirstVersion
    ensures l.name.None? && l.genre.None? && l.views.None? && l.iframeUrl.None?
    ensures l.manufacturer == data.manufacturer && l.image == data.image && l.description == data.description
    ensures l.model == data.model && l.engine == data.engine && l.topSpeed == NumberOf(data.topSpeed)
  {
    Listing(id, None, data.manufacturer, None, None, PlayedDefault, data.image, None,
            data.description, [], authorId, data.model, data.engine, NumberOf(data.topSpeed),
            FirstVersion)
  }

  /** The rest of `s` after the literal `lit`, if `s` begins with it. */
  function AfterLiteral(s: string, lit: string): (r: Option<string>)
    ensures r.Some? <==> lit <= s
    ensures r.Some? ==> s == lit + r.value
  {
    if lit == [] then Some(s)
    else if s == [] || s[0] != lit[0] then None
    else AfterLiteral(s[1..], lit[1..])
  }

  /** The validator regex `^https?://`: the literal `http`, an optional `s`,
      then `://`, at the start of `v`. It accepts exactly the strings that
      begin with `http://` or `https://`. */
  function HttpUrl(v: string): (b: bool)
    ensures b <==> "http://" <= v || "https://" <= v
  {
    match AfterLiteral(v, "http")
    case None => false
    case Some(rest) =>
      AfterHttp(rest);
      AfterLiteral(rest, "://").Some? ||
      (rest != [] && rest[0] == 's' && AfterLiteral(rest[1..], "://").Some?)
  }

  /** What follows the literal `http` decides which of the two prefixes a string has. */
  lemma AfterHttp(rest: string)
    ensures "http://" <= "http" + rest <==> "://" <= rest
    ensures "https://" <= "http" + rest <==> rest != [] && rest[0] == 's' && "://" <= rest[1..]
  {
    var v := "http" + rest;
    assert v[4..] == rest;
    if rest != [] {
      assert v[5..] == rest[1..];
    }
  }

  /** The `image` validator. Mongoose runs custom validators only on set paths. */
  function ImageValid(l: Listing): (b: bool)
    ensures b <==> l.image.None? || "http://" <= l.image.value || "https://" <= l.image.value
  {
    l.image.Some? ==> HttpUrl(l.image.value)
  }

  /** The `iframeUrl` validator, the same prefix rule. */
  function IframeUrlValid(l: Listing): (b: bool)
    ensures b <==> l.iframeUrl.None? || "http://" <= l.iframeUrl.value || "https://" <= l.iframeUrl.value
  {
    l.iframeUrl.Some? ==> HttpUrl(l.iframeUrl.value)
  }

  /** Mongoose's `required` check on a string path: set and not empty. */
  predicate PresentText(v: Option<string>)
  {
    v.Some? && v.value != ""
  }

  /** The paths the schema marks `required: true`. */
  const RequiredPaths: set<string> := {"name", "manufacturer", "genre", "views", "played",
                                       "image", "iframeUrl", "description"}

  /** A value that passes Mongoose's `required` check: set, and not the empty string. */
  predicate Filled(v: Option<Value>)
  {
    v.Some? && (v.value.Text? ==> v.value.text != "")
  }

  /** The required paths are present (`played` always is, through its default):
      reading any required path of the document gives a filled value. */
  function RequiredPresent(l: Listing): (b: bool)
    ensures b <==> forall k :: k in RequiredPaths ==> Filled(PathValue(l, k))
  {
    assert Filled(PathValue(l, "name")) <==> PresentText(l.name);
    assert Filled(PathValue(l, "manufacturer")) <==> PresentText(l.manufacturer);
    assert Filled(PathValue(l, "genre")) <==> PresentText(l.genre);
    assert Filled(PathValue(l, "views")) <==> l.views.Some?;
    assert Filled(PathValue(l, "image")) <==> PresentText(l.image);
    assert Filled(PathValue(l, "iframeUrl")) <==> PresentText(l.iframeUrl);
    assert Filled(PathValue(l, "description")) <==> PresentText(l.description);
    assert Filled(PathValue(l, "played"));
    && PresentText(l.name)
    && PresentText(l.manufacturer)
    && PresentText(l.genre)
    && l.views.Some?
    && PresentText(l.image)
    && PresentText(l.iframeUrl)
    && PresentText(l.description)
  }

  /** A document that the schema's validation accepts: every required path
      filled, and `image` and `iframeUrl` beginning with `http://` or `https://`. */
  function Conforms(l: Listing): (b: bool)
    ensures b <==> && RequiredPresent(l)
                   && l.image.Some? && ("http://" <= l.image.value || "https://" <= l.image.value)
                   && l.iframeUrl.Some? && ("http://" <= l.iframeUrl.value || "https://" <= l.iframeUrl.value)
  {
    RequiredPresent(l) && ImageValid(l) && IframeUrlValid(l)
  }

  /** The document `create` builds never sets `name`, `genre`, `views` or
      `iframeUrl`, so it never has all required paths, whatever the input. */
  lemma NewListingLacksRequiredPaths(id: Id, data: ListingInput, authorId: Id)
    ensures !RequiredPresent(NewListing(id, data, authorId))
    ensures !Conforms(NewListing(id, data, authorId))
  {
  }

  /** A value read back from one path of a listing. */
  datatype Value = Text(text: string) | Number(number: int) | Refs(refs: seq<string>)
                 | Ref(ref: Id) | Converted(numeric: Numeric)

  /** A set path as a value. */
  function TextValue(v: Option<string>): Option<Value>
  {
    match v
    case None => None
    case Some(s) => Some(Text(s))
  }

  /** `doc[key]` on a listing: the value of the path named `key`, or `None` when
      the path is unset or is not a path of the document. */
  function PathValue(l: Listing, key: string): (r: Option<Value>)
    ensures key == "_id" ==> r == Some(Ref(l.id))
    ensures key == "owner" ==> r == Some(Ref(l.owner))
    ensures key == "likes" ==> r == Some(Refs(l.likes))
    ensures key == "played" ==> r == Some(Number(l.played))
    ensures key == VersionKey ==> r == Some(Number(l.version))
    ensures key == "views" ==> (r.Some? <==> l.views.Some?) && (r.Some? ==> r == Some(Number(l.views.value)))
    ensures key == "topSpeed" ==> r == Some(Converted(l.topSpeed))
    ensures key == "name" ==> r == TextValue(l.name)
    ensures key == "manufacturer" ==> r == TextValue(l.manufacturer)
    ensures key == "genre" ==> r == TextValue(l.genre)
    ensures key == "image" ==> r == TextValue(l.image)
    ensures key == "iframeUrl" ==> r == TextValue(l.iframeUrl)
    ensures key == "description" ==> r == TextValue(l.description)
    ensures key == "model" ==> r == TextValue(l.model)
    ensures key == "engine" ==> r == TextValue(l.engine)
    ensures key !in PathNames ==> r.None?
  {
    if key == "_id" then Some(Ref(l.id))
    else if key == "name" then TextValue(l.name)
    else if key == "manufacturer" then TextValue(l.manufacturer)
    else if key == "genre" then TextValue(l.genre)
    else if key == "views" then (if l.views.Some? then Some(Number(l.views.value)) else None)
    else if key == "played" then Some(Number(l.played))
    else if key == "image" then TextValue(l.image)
    else if key == "iframeUrl" then TextValue(l.iframeUrl)
    else if key == "description" then TextValue(l.description)
    else if key == "likes" then Some(Refs(l.likes))
    else if key == "owner" then Some(Ref(l.owner))
    else if key == "model" then TextValue(l.model)
    else if key == "engine" then TextValue(l.engine)
    else if key == "topSpeed" then Some(Converted(l.topSpeed))
    else if key == VersionKey then Some(Number(l.version))
    else None
  }

  /** The names of the paths a listing document can hold. */
  const PathNames: set<string> := {"_id", "name", "manufacturer", "genre", "views", "played",
                                   "image", "iframeUrl", "description", "likes", "owner",
                                   "model", "engine", "topSpeed", VersionKey}
}
