/** The `adminOnly` middleware: a gate in front of the admin routes that looks up the
    user named by the `id` query parameter and lets only admins through. */
module Auth {
  import opened Wrappers
  import opened Users

  const LoginFirst := "Please Login First to Access This Request"
  const InvalidId := "Invalid ID"
  const NotAdmin := "You are not an Admin"

  /** The gate's decision: call `next()` with no error, or `next(error)`. */
  datatype Gate = Pass | Reject(error: ApiError)

  /** The three checks in order: an id is given, it names a stored user, that user is an
      admin.  The user store is only read. */
  function AdminOnly(id: Option<string>, users: map<string, UserDoc>): (g: Gate)
    ensures !TruthyString(id) ==> g == Reject(ApiError(LoginFirst, 401))
    ensures TruthyString(id) && id.value !in users ==> g == Reject(ApiError(InvalidId, 401))
    ensures (TruthyString(id) && id.value in users && users[id.value].role != AdminRole) ==>
              g == Reject(ApiError(NotAdmin, 401))
    ensures g.Pass? <==> TruthyString(id) && id.value in users && users[id.value].role == AdminRole
  {
    if !TruthyString(id) then Reject(ApiError(LoginFirst, 401))
    else if id.value !in users then Reject(ApiError(InvalidId, 401))
    else if users[id.value].role != AdminRole then Reject(ApiError(NotAdmin, 401))
    else Pass
  }

  /** Every rejection carries status 401 and one of the three messages. */
  lemma RejectionsAre401(id: Option<string>, users: map<string, UserDoc>)
    ensures AdminOnly(id, users).Reject? ==>
              AdminOnly(id, users).error.statusCode == 401 &&
              AdminOnly(id, users).error.message in {LoginFirst, InvalidId, NotAdmin}
  {
  }

  /** Without an id the store is never consulted: the decision is the same for any store. */
  lemma MissingIdSkipsLookup(id: Option<string>, users1: map<string, UserDoc>, users2: map<string, UserDoc>)
    requires !TruthyString(id)
    ensures AdminOnly(id, users1) == AdminOnly(id, users2)
  {
  }

  /** Only the looked-up user's entry matters: stores that agree on it decide alike. */
  lemma OnlyTheNamedUserMatters(id: string, users1: map<string, UserDoc>, users2: map<string, UserDoc>)
    requires (id in users1) == (id in users2)
    requires id in users1 ==> users1[id].role == users2[id].role
    ensures AdminOnly(Some(id), users1) == AdminOnly(Some(id), users2)
  {
  }
}
