/** The client-side guard of `app/components/ProtectedRoute.tsx`: a component
    with two state flags, `loading` and `hasAccess`, that checks the signed-in
    user against the early-access list once when it mounts and renders a
    spinner, nothing, or its children. The auth provider and the database are
    inputs; `router.push` calls are recorded in `pushed`. */
module ProtectedRoute {
  import opened Wrappers
  import opened Http
  import EdgeGate

  /** What the component renders. */
  datatype View = Spinner | Nothing | Children

  /** The whitelist query returns a row: the provider returned a user with an
      email and the lookup returned a list holding that email. */
  predicate Granted(user: Call<Option<EdgeGate.User>>, grants: Call<set<string>>)
  {
    && user.Returned? && user.value.Some? && user.value.value.email.Some?
    && grants.Returned? && user.value.value.email.value in grants.value
  }

  class Guard {
    var loading: bool
    var hasAccess: bool
    /** The paths handed to `router.push`, oldest first. */
    var pushed: seq<string>

    /** The initial state: `useState(true)` and `useState(false)`. */
    constructor ()
      ensures loading && !hasAccess && pushed == []
    {
      loading := true;
      hasAccess := false;
      pushed := [];
    }

    /** `checkAccess`: the try block with its early return, the catch that
        redirects, and the finally that always clears `loading`. */
    method CheckAccess(user: Call<Option<EdgeGate.User>>, grants: Call<set<string>>)
      modifies this
      ensures !loading
      ensures hasAccess == (old(hasAccess) || Granted(user, grants))
      ensures pushed == old(pushed) + (if Granted(user, grants) then [] else [ComingSoon])
    {
      if user.Threw? {
        pushed := pushed + [ComingSoon];          // catch
      } else if user.value.None? {
        pushed := pushed + [ComingSoon];          // no user: early return
      } else if grants.Threw? {
        pushed := pushed + [ComingSoon];          // catch
      } else {
        var email := user.value.value.email;
        var whitelist := email.Some? && email.value in grants.value;
        if whitelist {
          hasAccess := true;
        } else {
          pushed := pushed + [ComingSoon];
        }
      }
      loading := false;                           // finally
    }

    /** The render rule: spinner while loading, nothing without access,
        the children otherwise. */
    function Render(): (v: View)
      reads this
      ensures v == Spinner <==> loading
      ensures v == Children <==> !loading && hasAccess
      ensures v == Nothing <==> !loading && !hasAccess
    {
      if loading then Spinner
      else if !hasAccess then Nothing
      else Children
    }
  }

  /** A freshly mounted guard after its check has run: the children are
      shown exactly when the whitelist query returned a row, the spinner
      never remains, and every other outcome redirects once to the holding
      page while rendering nothing. */
  method Mount(user: Call<Option<EdgeGate.User>>, grants: Call<set<string>>)
    returns (view: View, redirects: seq<string>)
    ensures view == Children <==> Granted(user, grants)
    ensures view != Spinner
    ensures view == Nothing <==> redirects == [ComingSoon]
    ensures view == Children ==> redirects == []
  {
    var guard := new Guard();
    guard.CheckAccess(user, grants);
    view := guard.Render();
    redirects := guard.pushed;
  }
}
