/** Permission predicates over the request's attributes and the decorator
    that refuses a view with Forbidden when the check fails. */
module Permissions {
  import opened Wrappers
  import opened Json
  import opened Exceptions

  /** The attributes the checks read: `auth_token` (None when the request
      has no such attribute, `Some(Null)` when it is set to None),
      `user_role` and `user_id` (Null when absent). */
  datatype Request = Request(authToken: Option<Value>, userRole: Value, userId: Value)

  /** The role constant of the administrator. */
  const RoleAdmin := "admin"

  /** The permission classes. */
  datatype Permission = Base | IsAuthenticated | IsAdmin | IsOwner

  /** `permission.check(request, obj)`, with `obj` None or a dict. */
  function Check(p: Permission, req: Request, obj: Option<map<string, Value>>): (r: bool)
    ensures p == Base ==> r
    ensures p == IsAuthenticated ==> (r <==> req.authToken.Some? && req.authToken.value != Null)
    ensures p == IsAdmin ==> (r <==> req.userRole == Str(RoleAdmin))
    ensures p == IsOwner ==>
      (r <==> obj.Some? && obj.value != map[]
              && (PyEq(Get(obj.value, "userId"), req.userId) || PyEq(Get(obj.value, "user_id"), req.userId)))
  {
    match p
    case Base => true
    case IsAuthenticated => req.authToken.Some? && req.authToken.value != Null
    case IsAdmin => PyEq(req.userRole, Str(RoleAdmin))
    case IsOwner =>
      if obj.None? || Falsy(Obj(obj.value)) then false
      else
        var o := obj.value;
        PyEq(Get(o, "userId"), req.userId) || PyEq(Get(o, "user_id"), req.userId)
  }

  /** An object whose `userId` is the request's `user_id` is owned, and one
      whose two owner keys both hold other values is not, whatever else it
      holds. */
  lemma {:induction false} OwnerByEitherKey(req: Request, o: map<string, Value>, other: Value)
    requires "userId" in o && o["userId"] == req.userId
    requires !PyEq(other, req.userId)
    ensures Check(IsOwner, req, Some(o))
    ensures !Check(IsOwner, req, Some(o["userId" := other]["user_id" := other]))
  {
    assert "userId" in o;
    assert PyEq(o["userId"], req.userId);
  }

  /** A non-empty object with neither owner key belongs to every request
      without a `user_id`: both sides of the comparison are None. */
  lemma {:induction false} OwnerWithoutIds(req: Request, o: map<string, Value>)
    requires o != map[] && "userId" !in o && "user_id" !in o && req.userId == Null
    ensures Check(IsOwner, req, Some(o))
  {
    assert !Falsy(Obj(o));
  }

  /** `require_permission(p)(view)` applied to a request: the view's result
      when `check(request)` holds (no object is passed), otherwise
      Forbidden with status 403. */
  function RequirePermission<R>(p: Permission, req: Request, view: Request -> R): (r: Result<R, AppError>)
    ensures r.Ok? <==> Check(p, req, None)
    ensures r.Ok? ==> r.value == view(req)
    ensures r.Err? ==> r.error.kind == Forbidden && r.error.status == 403
                       && r.error.message == "You don't have permission to access this resource"
  {
    if Check(p, req, None) then Ok(view(req))
    else Err(Raise(Forbidden, "You don't have permission to access this resource"))
  }

  /** Since the decorator passes no object, `IsOwner` through it refuses
      every request, while `Permission` admits every request. */
  lemma {:induction false} DecoratorOutcomes<R>(req: Request, view: Request -> R)
    ensures RequirePermission(IsOwner, req, view).Err?
    ensures RequirePermission(Base, req, view) == Ok(view(req))
  {
  }

  /** A request whose `auth_token` was set from a token passes
      `IsAuthenticated`. */
  lemma {:induction false} TokenAuthenticates(req: Request, token: string)
    ensures Check(IsAuthenticated, req.(authToken := Some(Str(token))), None)
  {
  }
}
