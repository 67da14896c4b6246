/**
 * The `GET` handler that lists the verified users: it keeps the users whose
 * e-mail is verified, projects each to `{ uid, email, displayName }` with the
 * display name of its first provider profile (`"-"` when that is null or
 * undefined), and turns any failure into status 500. The user listing of the
 * identity provider is an input: `None` when the call failed.
 */
module VerifiedUsers {
  import opened Wrappers

  /** One element of a user's `providerData`; a null or undefined displayName is None. */
  datatype ProviderInfo = ProviderInfo(displayName: Option<string>)

  /** A user as the identity provider lists it, with the fields the handler reads; email may be undefined. */
  datatype UserRecord = UserRecord(
    uid: string,
    email: Option<string>,
    emailVerified: bool,
    providerData: seq<ProviderInfo>)

  /** One element of the `verifiedUsers` array of the response. */
  datatype VerifiedUser = VerifiedUser(uid: string, email: Option<string>, displayName: string)

  datatype Response =
      /** status 200 with body `{ verifiedUsers }` */
    | Users(verifiedUsers: seq<VerifiedUser>)
      /** status `status` with body `{ error }` */
    | Failure(status: int, error: string)

  const FailureMessage := "Failed to retrieve users"

  /** `.filter((user) => user.emailVerified)` */
  function FilterVerified(users: seq<UserRecord>): (r: seq<UserRecord>)
    ensures |r| <= |users|
    ensures forall i :: 0 <= i < |r| ==> r[i].emailVerified && r[i] in users
    ensures forall i :: 0 <= i < |users| && users[i].emailVerified ==> users[i] in r
  {
    if users == [] then []
    else if users[0].emailVerified then [users[0]] + FilterVerified(users[1..])
    else FilterVerified(users[1..])
  }

  /** `displayName ?? '-'`: only null and undefined are replaced; an empty name is kept. */
  function NameOrDash(displayName: Option<string>): string {
    match displayName
    case Some(name) => name
    case None => "-"
  }

  /**
   * The `.map` callback on one user. None is the TypeError thrown by reading
   * `displayName` of `userProfiles[0]` when `providerData` is empty.
   */
  function ToVerifiedUser(u: UserRecord): (r: Option<VerifiedUser>)
    ensures r.Some? <==> u.providerData != []
  {
    if u.providerData == [] then None
    else Some(VerifiedUser(u.uid, u.email, NameOrDash(u.providerData[0].displayName)))
  }

  /** `.map(...)` over the verified users: one throwing callback fails the whole call. */
  function MapToVerified(vs: seq<UserRecord>): (r: Option<seq<VerifiedUser>>)
    ensures r.Some? <==> forall i :: 0 <= i < |vs| ==> vs[i].providerData != []
    ensures r.Some? ==> |r.value| == |vs|
    ensures r.Some? ==> forall i :: 0 <= i < |vs| ==> ToVerifiedUser(vs[i]) == Some(r.value[i])
  {
    if vs == [] then Some([])
    else
      var head, tail := ToVerifiedUser(vs[0]), MapToVerified(vs[1..]);
      if head.Some? && tail.Some? then Some([head.value] + tail.value) else None
  }

  /** `GET`: the verified users, or 500 with `"Failed to retrieve users"` on any failure. */
  function Get(listing: Option<seq<UserRecord>>): (r: Response)
    ensures r.Failure? ==> r.status == 500 && r.error == FailureMessage
    ensures listing.None? ==> r.Failure?
  {
    if listing.None? then Failure(500, FailureMessage)
    else
      match MapToVerified(FilterVerified(listing.value))
      case Some(vs) => Users(vs)
      case None => Failure(500, FailureMessage)
  }

  /** What one projected record holds: uid and email copied, the first profile's name or "-". */
  lemma ToVerifiedUserFields(u: UserRecord)
    requires u.providerData != []
    ensures ToVerifiedUser(u).Some?
    ensures ToVerifiedUser(u).value.uid == u.uid && ToVerifiedUser(u).value.email == u.email
    ensures u.providerData[0].displayName.None? ==> ToVerifiedUser(u).value.displayName == "-"
    ensures u.providerData[0].displayName.Some? ==>
      ToVerifiedUser(u).value.displayName == u.providerData[0].displayName.value
  {
  }

  /** Filtering distributes over concatenation: the kept users stay in input order. */
  lemma {:induction false} FilterVerifiedAppend(a: seq<UserRecord>, b: seq<UserRecord>)
    ensures FilterVerified(a + b) == FilterVerified(a) + FilterVerified(b)
  {
    if a == [] {
      assert a + b == b;
    } else {
      assert (a + b)[0] == a[0] && (a + b)[1..] == a[1..] + b;
      FilterVerifiedAppend(a[1..], b);
    }
  }

  /** The response fails, always with 500 and the fixed message, exactly when the listing failed or a verified user has no provider profile. */
  lemma GetFails(listing: Option<seq<UserRecord>>)
    ensures Get(listing).Failure? ==> Get(listing) == Failure(500, "Failed to retrieve users")
    ensures Get(listing).Failure? <==>
      listing.None? ||
      exists i :: 0 <= i < |listing.value| && listing.value[i].emailVerified && listing.value[i].providerData == []
  {
    if listing.Some? {
      var users := listing.value;
      var vs := FilterVerified(users);
      if MapToVerified(vs).None? {
        var j :| 0 <= j < |vs| && vs[j].providerData == [];
        assert vs[j] in users;
      }
    }
  }

  /** Every returned record comes from a verified input user; every verified input user is returned. */
  lemma GetSoundAndComplete(users: seq<UserRecord>)
    requires Get(Some(users)).Users?
    ensures |Get(Some(users)).verifiedUsers| <= |users|
    ensures forall v :: v in Get(Some(users)).verifiedUsers ==>
      exists u :: u in users && u.emailVerified && ToVerifiedUser(u) == Some(v)
    ensures forall u :: u in users && u.emailVerified ==>
      ToVerifiedUser(u).Some? && ToVerifiedUser(u).value in Get(Some(users)).verifiedUsers
  {
    var vs := FilterVerified(users);
    var out := Get(Some(users)).verifiedUsers;
    forall v | v in out
      ensures exists u :: u in users && u.emailVerified && ToVerifiedUser(u) == Some(v)
    {
      var i :| 0 <= i < |out| && out[i] == v;
      assert vs[i] in users && vs[i].emailVerified;
    }
    forall u | u in users && u.emailVerified
      ensures ToVerifiedUser(u).Some? && ToVerifiedUser(u).value in out
    {
      var i :| 0 <= i < |vs| && vs[i] == u;
      assert ToVerifiedUser(vs[i]) == Some(out[i]);
    }
  }
}
