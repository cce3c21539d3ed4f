/**
 * Reading a folder: which of its study sets a viewer may see, and when the
 * request is refused.
 */
module Folders {
  import opened Common

  type UserId = string

  /** A set's visibility; `Other` stands for any further value of the enumeration. */
  datatype Visibility = Public | Unlisted | Private | Other(name: string)

  /** A user record; `email` stands for the fields the response does not pass on. */
  datatype User = User(id: UserId, username: string, image: Option<string>, verified: bool, email: Option<string>)

  /** The public face of a user in a response. */
  datatype UserView = UserView(id: UserId, username: string, image: Option<string>, verified: bool)

  datatype StudySet = StudySet(id: string, title: string, user: User, visibility: Visibility, termCount: nat)

  datatype StudySetView = StudySetView(id: string, title: string, user: UserView, visibility: Visibility, termCount: nat)

  datatype Folder = Folder(userId: UserId, title: string, description: string, studySets: seq<StudySet>)

  datatype FolderView = FolderView(title: string, description: string, user: UserView, sets: seq<StudySetView>)

  datatype FolderError = NotFound | Forbidden(message: string)

  const ForbiddenMessage := "No study sets in this folder are visible to you"

  /** Whether the viewer may see set `s` in a folder; `isMyFolder` says the viewer owns the folder. */
  predicate CanSee(s: StudySet, viewerId: UserId, isMyFolder: bool)
  {
    match s.visibility
    case Public => true
    case Unlisted => s.user.id == viewerId || isMyFolder
    case Private => s.user.id == viewerId
    case Other(_) => false
  }

  /** The sets of the folder the viewer may see, in folder order. */
  function VisibleSets(sets: seq<StudySet>, viewerId: UserId, isMyFolder: bool): (r: seq<StudySet>)
    ensures IsSubsequence(r, sets)
    ensures forall k :: 0 <= k < |r| ==> CanSee(r[k], viewerId, isMyFolder)
    ensures forall s :: s in sets ==> (s in r <==> CanSee(s, viewerId, isMyFolder))
  {
    Filter(sets, s => CanSee(s, viewerId, isMyFolder))
  }

  function UserViewOf(u: User): UserView
  {
    UserView(u.id, u.username, u.image, u.verified)
  }

  function SetViewOf(s: StudySet): StudySetView
  {
    StudySetView(s.id, s.title, UserViewOf(s.user), s.visibility, s.termCount)
  }

  /**
   * The `get` query, given what the two lookups found: the owner by user
   * name and the folder by owner and slug.
   */
  function GetFolder(owner: Option<User>, folder: Option<Folder>, viewerId: UserId): (r: Result<FolderView, FolderError>)
    ensures owner.None? || folder.None? <==> r == Err(NotFound)
    ensures owner.Some? && folder.Some? ==>
      var f := folder.value;
      var visible := VisibleSets(f.studySets, viewerId, f.userId == viewerId);
      && (r.Err? <==> |f.studySets| > 0 && forall k :: 0 <= k < |f.studySets| ==> !CanSee(f.studySets[k], viewerId, f.userId == viewerId))
      && (r.Err? ==> r.error == Forbidden(ForbiddenMessage))
      && (r.Ok? ==>
            && r.value.title == f.title && r.value.description == f.description
            && r.value.user == UserViewOf(owner.value)
            && |r.value.sets| == |visible|
            && forall k :: 0 <= k < |visible| ==> r.value.sets[k] == SetViewOf(visible[k]))
  {
    if owner.None? || folder.None? then Err(NotFound)
    else
      var f := folder.value;
      var visible := VisibleSets(f.studySets, viewerId, f.userId == viewerId);
      if |f.studySets| > 0 && |visible| == 0 then Err(Forbidden(ForbiddenMessage))
      else
        Ok(FolderView(f.title, f.description, UserViewOf(owner.value),
                      seq(|visible|, k requires 0 <= k < |visible| => SetViewOf(visible[k]))))
  }

  // ---------------------------------------------------------------------------
  // Properties.

  /** Visibility rule by rule: who may see a set of each kind. */
  lemma VisibilityRules(s: StudySet, viewerId: UserId, isMyFolder: bool)
    ensures s.visibility == Public ==> CanSee(s, viewerId, isMyFolder)
    ensures s.visibility == Unlisted ==> (CanSee(s, viewerId, isMyFolder) <==> s.user.id == viewerId || isMyFolder)
    ensures s.visibility == Private ==> (CanSee(s, viewerId, isMyFolder) <==> s.user.id == viewerId)
    ensures s.visibility.Other? ==> !CanSee(s, viewerId, isMyFolder)
  {
  }

  /** Owning the folder never reveals someone else's private set. */
  lemma FolderOwnerCannotSeeOthersPrivate(f: Folder, viewerId: UserId, s: StudySet)
    requires f.userId == viewerId && s.visibility == Private && s.user.id != viewerId
    ensures s !in VisibleSets(f.studySets, viewerId, true)
  {
  }

  lemma {:induction false} SubsequenceBothCons<T>(a: seq<T>, b: seq<T>, x: T)
    requires IsSubsequence(a, b)
    ensures IsSubsequence([x] + a, [x] + b)
  {
    assert ([x] + a)[1..] == a;
    assert ([x] + b)[1..] == b;
  }

  /**
   * Owning the folder only adds sets: what a viewer sees in someone else's
   * folder is an order-preserving part of what they would see in their own.
   */
  lemma {:induction false} OwningOnlyWidens(sets: seq<StudySet>, viewerId: UserId)
    ensures IsSubsequence(VisibleSets(sets, viewerId, false), VisibleSets(sets, viewerId, true))
  {
    if sets != [] {
      OwningOnlyWidens(sets[1..], viewerId);
      var narrow := VisibleSets(sets[1..], viewerId, false);
      var wide := VisibleSets(sets[1..], viewerId, true);
      if CanSee(sets[0], viewerId, false) {
        SubsequenceBothCons(narrow, wide, sets[0]);
      } else if CanSee(sets[0], viewerId, true) {
        SubsequenceOfTail(narrow, sets[0], wide);
      }
    }
  }

  /** An empty folder is never refused. */
  lemma EmptyFolderIsVisible(owner: User, f: Folder, viewerId: UserId)
    requires f.studySets == []
    ensures GetFolder(Some(owner), Some(f), viewerId) ==
      Ok(FolderView(f.title, f.description, UserViewOf(owner), []))
  {
  }

  /** A folder holding a public set is never refused, whoever asks. */
  lemma {:induction false} PublicSetPreventsRefusal(owner: User, f: Folder, viewerId: UserId, k: nat)
    requires k < |f.studySets| && f.studySets[k].visibility == Public
    ensures GetFolder(Some(owner), Some(f), viewerId).Ok?
  {
    assert CanSee(f.studySets[k], viewerId, f.userId == viewerId);
  }
}
