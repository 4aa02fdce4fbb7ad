/** The user record of src/models/User.js: its paths and defaults, the required
    paths, and the unique `email` path under the schema's case-insensitive collation. */
module UserModel {
  import opened Common
  import opened Bcrypt

  /** A user document. `password` holds the bcrypt digest. */
  datatype User = User(
    id: Id,
    firstName: string,
    lastName: string,
    email: string,
    password: Digest,
    picture: string,
    pictureId: string,
    lastPlayed: Option<Id>,
    myGames: seq<Id>)

  /** The schema default of `picture`. */
  const DefaultPicture: string :=
    "https://spng.pngfind.com/pngs/s/16-168087_wikipedia-user-icon-bynightsight-user-image-icon-png.png"

  /** `new User({...})` as `register` calls it: the four supplied paths and the
      schema defaults for the others. */
  function NewUser(id: Id, firstName: string, lastName: string, email: string, password: Digest): (u: User)
    ensures u.id == id && u.firstName == firstName && u.lastName == lastName
    ensures u.email == email && u.password == password
    ensures u.picture == DefaultPicture && u.pictureId == ""
    ensures u.lastPlayed.None? && u.myGames == []
  {
    User(id, firstName, lastName, email, password, DefaultPicture, "", None, [])
  }

  /** The required paths `firstName`, `lastName` and `email` are non-empty
      strings; `password` always holds a digest. */
  function RequiredPresent(u: User): (b: bool)
    ensures b <==> "" !in [u.firstName, u.lastName, u.email]
  {
    u.firstName != "" && u.lastName != "" && u.email != ""
  }

  /** Upper-case ASCII letters mapped to lower case, everything else kept. */
  function FoldChar(c: char): char
  {
    if 'A' <= c <= 'Z' then (c as int - 'A' as int + 'a' as int) as char else c
  }

  /** The comparison key of a string under the collation `{locale: 'en', strength: 2}`. */
  function Fold(s: string): (r: string)
    ensures |r| == |s|
    ensures forall i :: 0 <= i < |s| ==> r[i] == FoldChar(s[i])
  {
    if s == [] then [] else [FoldChar(s[0])] + Fold(s[1..])
  }

  /** Two emails the collation treats as equal: every email equals itself, and
      only emails of one length are equal (`SameEmailIff` gives the full rule). */
  function SameEmail(a: string, b: string): (same: bool)
    ensures a == b ==> same
    ensures same ==> |a| == |b|
  {
    Fold(a) == Fold(b)
  }

  /** Two characters that are equal or are the upper- and lower-case forms of one letter. */
  predicate SameLetter(x: char, y: char)
  {
    x == y || ('A' <= x <= 'Z' && y as int == x as int + 32) || ('A' <= y <= 'Z' && x as int == y as int + 32)
  }

  /** Strings of one length whose characters differ at most in letter case. */
  predicate EqualIgnoringCase(a: string, b: string)
  {
    |a| == |b| && forall i :: 0 <= i < |a| ==> SameLetter(a[i], b[i])
  }

  lemma FoldCharIff(x: char, y: char)
    ensures FoldChar(x) == FoldChar(y) <==> SameLetter(x, y)
  {
  }

  /** The collation ignores letter case and nothing else. */
  lemma SameEmailIff(a: string, b: string)
    ensures SameEmail(a, b) <==> EqualIgnoringCase(a, b)
  {
    if SameEmail(a, b) {
      forall i | 0 <= i < |a| ensures SameLetter(a[i], b[i]) {
        FoldCharIff(a[i], b[i]);
        assert Fold(a)[i] == Fold(b)[i];
      }
    }
    if EqualIgnoringCase(a, b) {
      forall i | 0 <= i < |a| ensures Fold(a)[i] == Fold(b)[i] {
        FoldCharIff(a[i], b[i]);
      }
    }
  }

  /** The unique index on `email`: no two stored users share an email under the
      collation, whichever of the two is stored first. */
  ghost function EmailsUnique(users: seq<User>): (b: bool)
    ensures b <==> forall i, j :: 0 <= i < |users| && 0 <= j < |users| && i != j ==>
                                    !SameEmail(users[i].email, users[j].email)
  {
    forall i, j :: 0 <= i < j < |users| ==> !SameEmail(users[i].email, users[j].email)
  }

  /** No two stored users share an `_id`. */
  ghost predicate UserIdsUnique(users: seq<User>)
  {
    forall i, j :: 0 <= i < j < |users| ==> users[i].id != users[j].id
  }
}
