/** The permission classes of backend/permissions.py. */
module Permissions {
  import opened Wrappers

  /** `request.user`: an authenticated user by primary key, or Django's
      `AnonymousUser`, which like any object without `__bool__` is truthy. */
  datatype RequestUser = User(id: nat) | Anonymous

  /** `verb` is the HTTP method; `user` is `None` only when no user is
      attached to the request (the framework's unauthenticated user is
      configured to `None`). */
  datatype Request = Request(verb: string, user: Option<RequestUser>)

  /** Any row with an owning `user` foreign key. */
  datatype Owned = Owned(id: nat, user: nat)

  /** Whether the request comes from the owner of `obj`. */
  predicate IsOwnerOf(request: Request, obj: Owned)
  {
    request.user == Some(User(obj.user))
  }

  /** `IsOwnerOrReadOnly.has_object_permission`: reads are open, everything
      else is for the owner. */
  function HasObjectPermission(request: Request, obj: Owned): (r: bool)
    ensures request.verb == "GET" ==> r
    ensures request.verb != "GET" ==> (r <==> request.user.Some? && request.user.value.User?
                                                && request.user.value.id == obj.user)
  {
    if request.verb == "GET" then true
    else IsOwnerOf(request, obj)
  }

  /** The decision reads nothing but the HTTP method, the request's user and the
      object's owner. */
  lemma ObjectPermissionDependsOnOwnerOnly(r1: Request, r2: Request, o1: Owned, o2: Owned)
    requires r1.verb == r2.verb && r1.user == r2.user && o1.user == o2.user
    ensures HasObjectPermission(r1, o1) == HasObjectPermission(r2, o2)
  {
  }

  /** An anonymous or unauthenticated request may only read. */
  lemma AnonymousOnlyReads(request: Request, obj: Owned)
    requires request.user.None? || request.user == Some(Anonymous)
    ensures HasObjectPermission(request, obj) <==> request.verb == "GET"
  {
  }

  /** `IsOwner.has_permission` as written: it returns `request.user` itself,
      so the decision is that object's truthiness. */
  function HasPermission(request: Request): (r: bool)
    ensures r <==> request.user.Some?
  {
    match request.user
    case None => false
    case Some(_) => true
  }

  /** An anonymous request passes the as-written check, although the class
      promises access to authenticated users only. */
  lemma AnonymousPassesHasPermission()
    ensures HasPermission(Request("POST", Some(Anonymous)))
    ensures !HasPermissionAuthenticated(Request("POST", Some(Anonymous)))
  {
  }

  /** `IsOwner.has_permission` as evidently intended: only an authenticated user passes. */
  function HasPermissionAuthenticated(request: Request): (r: bool)
    ensures r <==> exists id :: request.user == Some(User(id))
  {
    match request.user
    case Some(User(id)) => assert request.user == Some(User(id)); true
    case _ => false
  }

  /** The two checks differ on the anonymous user and nowhere else. */
  lemma HasPermissionDiffersOnlyOnAnonymous(request: Request)
    ensures HasPermission(request) != HasPermissionAuthenticated(request) <==> request.user == Some(Anonymous)
  {
  }
}
