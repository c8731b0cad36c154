/** The object permission for recipes (backend/core/permissions.py) and the
    view-level rule it is paired with on the recipe endpoints. */
module Permissions {
  import opened Common

  /** `IsAuthorOrReadOnly.has_object_permission`: safe methods for everyone;
      any other method only when the requester is the object's author (an
      anonymous requester never equals an author). */
  function HasObjectPermission(m: HttpMethod, author: UserId, requester: Requester): (b: bool)
    ensures IsSafe(m) ==> b
    ensures !IsSafe(m) ==> (b <==> requester.User? && requester.id == author)
  {
    if IsSafe(m) then true else requester == User(author)
  }

  /** `IsAuthenticatedOrReadOnly.has_permission`, the view-level check listed
      first on the recipe endpoints. */
  predicate IsAuthenticatedOrReadOnly(m: HttpMethod, requester: Requester) {
    IsSafe(m) || requester.User?
  }

  /** On an existing recipe, both checks together admit a read from anyone
      and a write exactly from its author: the author may use every method,
      and anyone else, anonymous included, is refused every unsafe one. */
  lemma RecipeObjectAccess(m: HttpMethod, author: UserId, requester: Requester)
    ensures IsAuthenticatedOrReadOnly(m, requester) && HasObjectPermission(m, author, requester)
            <==> IsSafe(m) || requester == User(author)
  {
  }
}
