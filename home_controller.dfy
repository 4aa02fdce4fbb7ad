/** The catalog routes of src/controllers/home.js: the values the details and
    profile handlers derive from a listing and the current user, and the create,
    edit, delete and interact handlers that drive the catalog service. The route
    guards run before these handlers and are not part of this model. */
module HomeController {
  import opened Common
  import opened DataModel
  import opened DataService
  import opened UserModel
  import UserService

  /** `req.user`: the fields of the signed-in user the handlers read. */
  datatype SessionUser = SessionUser(id: Id, firstName: string, email: string)

  /** `items.join(sep)`: empty for no items, the item itself for one, and
      otherwise text that starts with the first item. */
  function Join(items: seq<string>, sep: string): (r: string)
    ensures items == [] ==> r == ""
    ensures |items| == 1 ==> r == items[0]
    ensures items != [] ==> items[0] <= r
  {
    if items == [] then ""
    else if |items| == 1 then items[0]
    else items[0] + sep + Join(items[1..], sep)
  }

  /** Joining is associative with appending: one more item adds the separator and the item. */
  lemma {:induction false} JoinAppend(items: seq<string>, item: string, sep: string)
    ensures Join(items + [item], sep) == if items == [] then item else Join(items, sep) + sep + item
  {
    if |items| > 1 {
      assert (items + [item])[1..] == items[1..] + [item];
      JoinAppend(items[1..], item, sep);
    } else if |items| == 1 {
      assert items + [item] == [items[0], item];
    }
  }

  /** `s.filter(keep)`: the entries that pass `keep`, in their original order,
      each as often as it occurs in `s`. */
  function Filter(s: seq<Listing>, keep: Listing -> bool): (r: seq<Listing>)
    ensures |r| <= |s|
    ensures forall x :: x in r <==> x in s && keep(x)
    ensures forall x {:trigger multiset(r)[x]} :: multiset(r)[x] == if keep(x) then multiset(s)[x] else 0
  {
    if s == [] then []
    else
      var head := if keep(s[0]) then [s[0]] else [];
      var rest := Filter(s[1..], keep);
      assert s == [s[0]] + s[1..];
      assert multiset(head + rest) == multiset(head) + multiset(rest);
      head + rest
  }

  /** Filtering keeps the order of the list: it distributes over concatenation. */
  lemma {:induction false} FilterAppend(a: seq<Listing>, b: seq<Listing>, keep: Listing -> bool)
    ensures Filter(a + b, keep) == Filter(a, keep) + Filter(b, keep)
  {
    if a != [] {
      assert (a + b)[1..] == a[1..] + b;
      FilterAppend(a[1..], b, keep);
    } else {
      assert a + b == b;
    }
  }

  /** `likes.find(id => id.toString() == key)`: the first entry equal to `key`. */
  function FindEqual(likes: seq<string>, key: string): (r: Option<string>)
    ensures r.Some? <==> key in likes
    ensures r.Some? ==> r.value == key
  {
    if likes == [] then None
    else if likes[0] == key then Some(likes[0])
    else FindEqual(likes[1..], key)
  }

  /** `Boolean(v)` of what `find` returned: missing values and the empty string are false. */
  function Truthy(v: Option<string>): bool
  {
    v.Some? && v.value != ""
  }

  /** `hasInteracted` in `GET /catalog/:id`: some entry of `likes` equals the
      current user's email (and the email, being the value `find` returns, is not empty). */
  function HasInteracted(likes: seq<string>, user: Option<SessionUser>): (b: bool)
    ensures b <==> user.Some? && user.value.email != "" && user.value.email in likes
  {
    match user
    case None => false
    case Some(u) => Truthy(FindEqual(likes, u.email))
  }

  /** `isAuthor`: a user is signed in and their id is the listing's owner. */
  function IsAuthor(post: Listing, user: Option<SessionUser>): (b: bool)
    ensures b <==> user.Some? && user.value.id == post.owner
  {
    match user
    case None => false
    case Some(u) => u.id == post.owner
  }

  /** The JSON reply of a read route. */
  datatype Reply<T> = Json(body: T) | NotFound | ServerError

  /** The body `GET /catalog/:id` sends. */
  datatype Details = Details(
    post: Listing,
    username: string,
    interactionCount: nat,
    isLoggedIn: bool,
    isAuthor: bool,
    hasInteracted: bool,
    interactorsNames: string,
    title: string)

  /** The title template `Details ${post.name}`; an unset name prints as `undefined`. */
  function DetailsTitle(name: Option<string>): string
  {
    "Details " + match name
                 case None => "undefined"
                 case Some(n) => n
  }

  /** `GET /catalog/:id`: 404 when there is no such listing, a server error when its
      owner is not a stored user (reading `firstName` of `null` throws), otherwise
      the listing with its counts and the flags for the current user. */
  function CatalogDetails(records: seq<Listing>, users: seq<User>, id: Id, user: Option<SessionUser>): (r: Reply<Details>)
    ensures r.NotFound? <==> GetById(records, id).None?
    ensures r.ServerError? <==>
              GetById(records, id).Some? && UserService.GetUserById(users, GetById(records, id).value.owner).None?
    ensures r.Json? ==> r.body.post == GetById(records, id).value
    ensures r.Json? ==> r.body.interactionCount == |r.body.post.likes|
    ensures r.Json? ==> r.body.interactorsNames == Join(r.body.post.likes, ", ")
    ensures r.Json? ==> (r.body.isLoggedIn <==> user.Some?)
    ensures r.Json? ==> (r.body.isAuthor <==> user.Some? && user.value.id == r.body.post.owner)
    ensures r.Json? ==> (r.body.hasInteracted <==>
                         user.Some? && user.value.email != "" && user.value.email in r.body.post.likes)
    ensures r.Json? ==> exists u :: u in users && u.id == r.body.post.owner && r.body.username == u.firstName
  {
    match GetById(records, id)
    case None => NotFound
    case Some(post) =>
      match UserService.GetUserById(users, post.owner)
      case None => ServerError
      case Some(owner) =>
        Json(Details(post, owner.firstName, |post.likes|, user.Some?, IsAuthor(post, user),
                     HasInteracted(post.likes, user), Join(post.likes, ", "), DetailsTitle(post.name)))
  }

  /** `GET /id/:id`: the listing, or 404 when there is none. */
  function GameById(records: seq<Listing>, id: Id): (r: Reply<Listing>)
    ensures r.NotFound? <==> GetById(records, id).None?
    ensures !r.ServerError?
    ensures r.Json? ==> r.body in records && r.body.id == id
  {
    match GetById(records, id)
    case None => NotFound
    case Some(game) => Json(game)
  }

  /** `ownerTo`: the listings whose owner is the user, each as often as it is stored. */
  function OwnerTo(posts: seq<Listing>, userId: Id): (r: seq<Listing>)
    ensures forall p :: p in r <==> p in posts && p.owner == userId
    ensures forall p :: multiset(r)[p] == if p.owner == userId then multiset(posts)[p] else 0
  {
    Filter(posts, (p: Listing) => p.owner == userId)
  }

  /** `interactedWith` as written: the listings whose likes contain `firstName`,
      each as often as it is stored. */
  function InteractedWith(posts: seq<Listing>, firstName: string): (r: seq<Listing>)
    ensures forall p :: p in r <==> p in posts && firstName in p.likes
    ensures forall p :: multiset(r)[p] == if firstName in p.likes then multiset(posts)[p] else 0
  {
    Filter(posts, (p: Listing) => firstName in p.likes)
  }

  /** `list.length > 0 ? list : null`. */
  function NullIfEmpty(list: seq<Listing>): (r: Option<seq<Listing>>)
    ensures r.None? <==> list == []
    ensures r.Some? ==> r.value == list
  {
    if |list| > 0 then Some(list) else None
  }

  /** The values `GET /profile` renders. */
  datatype Profile = Profile(
    id: Id,
    firstName: string,
    email: string,
    ownerToResult: Option<seq<Listing>>,
    ownerToCount: nat,
    interactedWithResult: Option<seq<Listing>>,
    inteactedWithCount: nat)

  /** `GET /profile`: the user's own listings and the listings whose likes hold
      the user's first name, each with its count, `null` when there is none. */
  function ProfileOf(user: SessionUser, posts: seq<Listing>): (v: Profile)
    ensures v.id == user.id && v.firstName == user.firstName && v.email == user.email
    ensures v.ownerToResult.None? <==> forall p :: p in posts ==> p.owner != user.id
    ensures v.ownerToResult.Some? ==> forall p :: p in v.ownerToResult.value <==> p in posts && p.owner == user.id
    ensures v.ownerToCount == if v.ownerToResult.None? then 0 else |v.ownerToResult.value|
    ensures v.interactedWithResult.None? <==> forall p :: p in posts ==> user.firstName !in p.likes
    ensures v.interactedWithResult.Some? ==>
              forall p :: p in v.interactedWithResult.value <==> p in posts && user.firstName in p.likes
    ensures v.inteactedWithCount == if v.interactedWithResult.None? then 0 else |v.interactedWithResult.value|
    ensures v.ownerToResult == NullIfEmpty(OwnerTo(posts, user.id)) && v.ownerToCount == |OwnerTo(posts, user.id)|
    ensures v.interactedWithResult == NullIfEmpty(InteractedWith(posts, user.firstName))
    ensures v.inteactedWithCount == |InteractedWith(posts, user.firstName)|
  {
    var ownerTo := OwnerTo(posts, user.id);
    var interactedWith := InteractedWith(posts, user.firstName);
    assert ownerTo == [] <==> forall p :: p in posts ==> p.owner != user.id by {
      if ownerTo != [] { assert ownerTo[0] in ownerTo; }
    }
    assert interactedWith == [] <==> forall p :: p in posts ==> user.firstName !in p.likes by {
      if interactedWith != [] { assert interactedWith[0] in interactedWith; }
    }
    Profile(user.id, user.firstName, user.email,
            NullIfEmpty(ownerTo), |ownerTo|, NullIfEmpty(interactedWith), |interactedWith|)
  }

  /** The handlers compare different keys: `interact` is called with the user's email
      and `hasInteracted` looks for the email, but `/profile` looks for the first name.
      A post the user has just interacted with is therefore not listed on the profile
      whenever the first name differs from the email and is not among the likes. */
  lemma ProfileMissesInteractedPost(user: SessionUser, post: Listing)
    requires user.email != "" && user.firstName != user.email && user.firstName !in post.likes
    ensures HasInteracted(Liked(post, user.email).likes, Some(user))
    ensures ProfileOf(user, [Liked(post, user.email)]).interactedWithResult.None?
  {
    assert Liked(post, user.email).likes == post.likes + [user.email];
  }

  /** The profile's interacted list keyed as `interact` and `hasInteracted` key it. */
  function InteractedWithByEmail(posts: seq<Listing>, user: SessionUser): (r: seq<Listing>)
    ensures user.email != "" ==> forall p :: p in r <==> p in posts && HasInteracted(p.likes, Some(user))
  {
    Filter(posts, (p: Listing) => user.email in p.likes)
  }

  /** With the email as key, a post the user interacted with is listed on the profile. */
  lemma InteractedPostListedByEmail(user: SessionUser, before: seq<Listing>, post: Listing, after: seq<Listing>)
    requires user.email != ""
    ensures Liked(post, user.email) in InteractedWithByEmail(before + [Liked(post, user.email)] + after, user)
  {
    var posts := before + [Liked(post, user.email)] + after;
    assert posts[|before|] == Liked(post, user.email);
  }

  /** The views the form handlers render, and where they redirect. */
  datatype FormErrors = ValidationErrors(messages: seq<string>) | ServiceError(error: DataError)
  datatype Location = CatalogPage | DetailsPage(id: Id)
  datatype Response =
    | Redirect(to: Location)
    | RenderCreate(data: ListingInput, errors: FormErrors)
    | RenderEdit(post: Option<Listing>, errors: FormErrors)
    | RenderNotFound

  /** `POST /create`: with validation errors the form is shown again and `create`
      is not called; otherwise the listing is created with the signed-in user as
      author and the client is sent to the catalog. */
  method CreatePost(catalog: Catalog, validationErrors: seq<string>, user: SessionUser, body: ListingInput)
    returns (resp: Response)
    requires catalog.Valid()
    modifies catalog
    ensures catalog.Valid()
    ensures validationErrors != [] ==>
              resp == RenderCreate(body, ValidationErrors(validationErrors)) &&
              catalog.records == old(catalog.records) && catalog.nextId == old(catalog.nextId)
    ensures validationErrors == [] ==>
              resp == Redirect(CatalogPage) &&
              catalog.records == old(catalog.records) + [NewListing(old(catalog.nextId), body, user.id)]
  {
    if validationErrors != [] {
      return RenderCreate(body, ValidationErrors(validationErrors));
    }
    var authorId := user.id;
    var _ := catalog.Create(body, authorId);
    return Redirect(CatalogPage);
  }

  /** `POST /catalog/:id/edit`: the listing is read first; validation errors show
      the form again, a missing listing shows 404, a refused update shows the form
      with the service's error, and a successful one redirects to the details page. */
  method EditPost(catalog: Catalog, id: Id, validationErrors: seq<string>, user: SessionUser, body: ListingInput)
    returns (resp: Response)
    requires catalog.Valid()
    modifies catalog
    ensures catalog.Valid() && catalog.nextId == old(catalog.nextId)
    ensures validationErrors != [] ==>
              resp == RenderEdit(GetById(old(catalog.records), id), ValidationErrors(validationErrors)) &&
              catalog.records == old(catalog.records)
    ensures validationErrors == [] && GetById(old(catalog.records), id).None? ==>
              resp == RenderNotFound && catalog.records == old(catalog.records)
    ensures validationErrors == [] && GetById(old(catalog.records), id).Some? ==>
              var post := GetById(old(catalog.records), id).value;
              var i := IndexOf(old(catalog.records), id).value;
              if post.owner != user.id then
                resp == RenderEdit(Some(post), ServiceError(AccessDenied)) && catalog.records == old(catalog.records)
              else
                resp == Redirect(DetailsPage(id)) &&
                catalog.records == old(catalog.records)[i := Revised(post, body)]
  {
    var post := GetById(catalog.records, id);
    if validationErrors != [] {
      return RenderEdit(post, ValidationErrors(validationErrors));
    }
    if post.None? {
      return RenderNotFound;
    }
    var r := catalog.Update(id, user.id, body);
    if r.Failure? {
      return RenderEdit(post, ServiceError(r.error));
    }
    return Redirect(DetailsPage(id));
  }

  /** `GET /catalog/:id/delete`: the owner's request removes the listing and goes
      to the catalog; any refusal shows 404 and changes nothing. */
  method DeletePost(catalog: Catalog, id: Id, user: SessionUser) returns (resp: Response)
    requires catalog.Valid()
    modifies catalog
    ensures catalog.Valid() && catalog.nextId == old(catalog.nextId)
    ensures resp == Redirect(CatalogPage) || resp == RenderNotFound
    ensures resp == RenderNotFound <==>
              GetById(old(catalog.records), id).None? || GetById(old(catalog.records), id).value.owner != user.id
    ensures resp == RenderNotFound ==> catalog.records == old(catalog.records)
    ensures resp == Redirect(CatalogPage) ==>
              catalog.records == RemoveAt(old(catalog.records), IndexOf(old(catalog.records), id).value)
  {
    var r := catalog.DeleteById(id, user.id);
    if r.Fail? {
      return RenderNotFound;
    }
    return Redirect(CatalogPage);
  }

  /** `GET /catalog/:id/interact`: the user's email is appended to the listing's
      likes and the client goes back to the details page; a missing listing shows 404. */
  method InteractPost(catalog: Catalog, id: Id, user: SessionUser) returns (resp: Response)
    requires catalog.Valid()
    modifies catalog
    ensures catalog.Valid() && catalog.nextId == old(catalog.nextId)
    ensures GetById(old(catalog.records), id).None? ==>
              resp == RenderNotFound && catalog.records == old(catalog.records)
    ensures GetById(old(catalog.records), id).Some? ==>
              var i := IndexOf(old(catalog.records), id).value;
              resp == Redirect(DetailsPage(id)) &&
              catalog.records == old(catalog.records)[i := Liked(old(catalog.records)[i], user.email)]
  {
    var r := catalog.Interact(id, user.email, LikesPath);
    if r.Failure? {
      return RenderNotFound;
    }
    return Redirect(DetailsPage(id));
  }
}
