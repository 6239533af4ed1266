/** What `UsersComponent` adds to the shared list controller: the role badge
    and the row identity used to track table rows. */
module Users {
  import opened Wrappers
  import opened Http
  import opened Text
  import RemoteList

  const BadgeAdmin: string := "badge-admin"
  const BadgeModerator: string := "badge-moderator"
  const BadgeUser: string := "badge-user"

  /** `getRoleBadgeClass`: `admin` and `moderator`, in any case, get their own
      badge; every other role, and a missing one, gets the user badge. */
  function RoleBadge(role: Option<string>): (r: string)
    ensures r == BadgeAdmin <==> role.Some? && EqualsIgnoringCase(role.value, "admin")
    ensures r == BadgeModerator <==> role.Some? && EqualsIgnoringCase(role.value, "moderator")
    ensures r == BadgeUser <==>
      role.None? || (!EqualsIgnoringCase(role.value, "admin") && !EqualsIgnoringCase(role.value, "moderator"))
  {
    match role
    case None => BadgeUser
    case Some(name) =>
      MatchesLowerCaseWord(name, "admin");
      MatchesLowerCaseWord(name, "moderator");
      var lowered := Lower(name);
      if lowered == "admin" then BadgeAdmin
      else if lowered == "moderator" then BadgeModerator
      else BadgeUser
  }

  /** Changing the case of a role never changes its badge. */
  lemma RoleBadgeIgnoresCase(a: string, b: string)
    requires EqualsIgnoringCase(a, b)
    ensures RoleBadge(Some(a)) == RoleBadge(Some(b))
  {
  }

  /** `trackByUserId`: a row's key is its id, whatever its position. */
  function TrackById<A>(index: int, row: RemoteList.Row<A>): (key: int)
    ensures key == row.id
  {
    row.id
  }

  /** After a delete, no position of the table tracks the deleted id, and
      every remaining key was tracked before. */
  lemma TrackedKeysAfterDelete<A>(rows: seq<RemoteList.Row<A>>, id: int)
    ensures var r := RemoteList.Without(rows, id);
      forall i :: 0 <= i < |r| ==>
        TrackById(i, r[i]) != id && exists j :: 0 <= j < |rows| && TrackById(j, rows[j]) == TrackById(i, r[i])
  {
  }

  /** A users load: loading stops; success replaces the rows and leaves the
      paging alone, failure shows the users message and keeps the rows. */
  lemma LoadTransitions<A>(s: RemoteList.ListState<A>, reply: Reply<RemoteList.PagedResponse<A>>)
    requires RemoteList.Valid(s) && s.kind.UsersScreen?
    ensures var r := RemoteList.Load(s, reply);
      && !r.loading && r.page == None && r.paginator == s.paginator
      && (reply.Ok? ==> r.rows == reply.value.data && r.error == None)
      && (reply.Err? ==> r.rows == s.rows && r.error == Some("Failed to load users. Please try again."))
  {
  }

  /** Filtering the users table sends an attached paginator to the first
      page, whatever page it was on. */
  lemma FilterResetsFirstPage<A>(s: RemoteList.ListState<A>, input: string, index: nat)
    requires s.kind.UsersScreen? && s.paginator.Some?
    ensures RemoteList.ApplyFilter(RemoteList.PageChanged(s, index), input).paginator == Some(0)
    ensures RemoteList.ApplyFilter(s, input).filter == Normalize(input)
  {
  }

  /** Deleting a user: a confirmed, successful request leaves no row with the
      id and keeps the others in order; anything else changes nothing. */
  lemma DeleteTransitions<A>(s: RemoteList.ListState<A>, id: int, confirmed: bool, reply: Reply<()>)
    requires s.kind.UsersScreen?
    ensures var r := RemoteList.Delete(s, id, confirmed, reply);
      && (confirmed && reply.Ok? ==>
            (forall i :: 0 <= i < |r.rows| ==> r.rows[i].id != id)
            && forall k :: 0 <= k <= |s.rows| ==>
                 r.rows == RemoteList.Without(s.rows[..k], id) + RemoteList.Without(s.rows[k..], id))
      && (!confirmed || reply.Err? ==> r == s)
  {
    if confirmed && reply.Ok? {
      forall k | 0 <= k <= |s.rows|
        ensures RemoteList.Without(s.rows, id) == RemoteList.Without(s.rows[..k], id) + RemoteList.Without(s.rows[k..], id)
      {
        assert s.rows == s.rows[..k] + s.rows[k..];
        RemoteList.WithoutConcat(s.rows[..k], s.rows[k..], id);
      }
    }
  }
}
