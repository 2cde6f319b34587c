/**
 * The user pickers of `components/new-chat-dialog.tsx` and
 * `components/group-participant.tsx` share one set of list transforms:
 * a search result list, a selection that holds each user id at most once,
 * removal by id, and the exclusion of users who already take part.
 */
module Selection {
  import opened Wrappers
  import opened Events

  /** A user as the search returns it. */
  datatype User = User(id: UserId, username: string, email: string, avatarUrl: Option<string>)

  /** What `searchUsers` answered (its users, or its refusal message), or that it threw. */
  datatype SearchOutcome = Found(users: seq<User>) | SearchRefused(message: Option<string>) | SearchThrew

  /** `message || fallback`: an absent or empty message gives way to the fallback. */
  function ErrorText(message: Option<string>, fallback: string): (r: string)
    ensures message.Some? && message.value != "" ==> r == message.value
    ensures message.None? || message.value == "" ==> r == fallback
  {
    if message.Some? && message.value != "" then message.value else fallback
  }

  /** Some entry of `users` has id `id` (`users.some(u => u.id === id)`). */
  predicate HasUser(users: seq<User>, id: UserId) {
    exists i :: 0 <= i < |users| && users[i].id == id
  }

  /** No id occurs twice. */
  predicate UniqueUserIds(users: seq<User>) {
    forall i, j :: 0 <= i < j < |users| ==> users[i].id != users[j].id
  }

  /** The ids in list order (`users.map(u => u.id)`). */
  function Ids(users: seq<User>): (r: seq<UserId>)
    ensures |r| == |users|
    ensures forall i :: 0 <= i < |users| ==> r[i] == users[i].id
  {
    if users == [] then [] else [users[0].id] + Ids(users[1..])
  }

  /** `handleSelectUser`: appends `u` unless a selected user already has its id. */
  function SelectUser(selected: seq<User>, u: User): (r: seq<User>)
    ensures HasUser(selected, u.id) ==> r == selected
    ensures !HasUser(selected, u.id) ==> r == selected + [u]
  {
    if HasUser(selected, u.id) then selected else selected + [u]
  }

  /** Selecting keeps the ids unique and always leaves `u`'s id selected. */
  lemma SelectKeepsUnique(selected: seq<User>, u: User)
    requires UniqueUserIds(selected)
    ensures UniqueUserIds(SelectUser(selected, u))
    ensures HasUser(SelectUser(selected, u), u.id)
  {
    var r := SelectUser(selected, u);
    if !HasUser(selected, u.id) {
      assert r[|selected|] == u;
    }
  }

  /** Selecting the same user twice is the same as selecting it once. */
  lemma SelectIdempotent(selected: seq<User>, u: User)
    ensures SelectUser(SelectUser(selected, u), u) == SelectUser(selected, u)
  {
    if !HasUser(selected, u.id) {
      assert (selected + [u])[|selected|] == u;
    }
  }

  /** `handleRemoveUser` / `handleRemoveSelectedUser`: drops the entries with id `id`, in order. */
  function RemoveById(users: seq<User>, id: UserId): (r: seq<User>)
    ensures forall v :: v in r <==> v in users && v.id != id
    ensures !HasUser(r, id)
    ensures |r| <= |users|
  {
    if users == [] then []
    else (if users[0].id == id then [] else [users[0]]) + RemoveById(users[1..], id)
  }

  /** Removing an id that is not there keeps the list as it is. */
  lemma {:induction false} RemoveAbsentIsIdentity(users: seq<User>, id: UserId)
    requires !HasUser(users, id)
    ensures RemoveById(users, id) == users
  {
    if users != [] {
      assert users[0].id != id;
      assert !HasUser(users[1..], id) by {
        forall i | 0 <= i < |users[1..]| ensures users[1..][i].id != id {
          assert users[1..][i] == users[i + 1];
        }
      }
      RemoveAbsentIsIdentity(users[1..], id);
      assert [users[0]] + users[1..] == users;
    }
  }

  /** Removal keeps the order of the kept entries: it distributes over concatenation. */
  lemma {:induction false} RemoveDistributes(a: seq<User>, b: seq<User>, id: UserId)
    ensures RemoveById(a + b, id) == RemoveById(a, id) + RemoveById(b, id)
  {
    if a == [] {
      assert a + b == b;
    } else {
      assert (a + b)[1..] == a[1..] + b;
      RemoveDistributes(a[1..], b, id);
    }
  }

  /** Removing a freshly selected user undoes the selection. */
  lemma RemoveUndoesSelect(selected: seq<User>, u: User)
    requires !HasUser(selected, u.id)
    ensures RemoveById(SelectUser(selected, u), u.id) == selected
  {
    RemoveDistributes(selected, [u], u.id);
    RemoveAbsentIsIdentity(selected, u.id);
    assert RemoveById([u], u.id) == [] by {
      assert [u][1..] == [];
    }
  }

  /** Removal keeps the ids unique. */
  lemma {:induction false} RemoveKeepsUnique(users: seq<User>, id: UserId)
    requires UniqueUserIds(users)
    ensures UniqueUserIds(RemoveById(users, id))
    decreases |users|
  {
    if users != [] {
      RemoveKeepsUnique(users[1..], id);
      var rest := RemoveById(users[1..], id);
      assert forall v :: v in rest ==> v.id != users[0].id by {
        forall v | v in rest ensures v.id != users[0].id {
          var k :| 0 <= k < |users[1..]| && users[1..][k] == v;
          assert users[k + 1] == v;
        }
      }
    }
  }

  /** The search hits that are not yet participants (`handleSearch`'s filter), in order. */
  function ExcludeParticipants(found: seq<User>, participants: seq<UserId>): (r: seq<User>)
    ensures forall v :: v in r <==> v in found && v.id !in participants
    ensures |r| <= |found|
  {
    if found == [] then []
    else (if found[0].id in participants then [] else [found[0]]) + ExcludeParticipants(found[1..], participants)
  }

  /** The filter keeps the hits' order: it distributes over concatenation. */
  lemma {:induction false} ExcludeDistributes(a: seq<User>, b: seq<User>, participants: seq<UserId>)
    ensures ExcludeParticipants(a + b, participants) == ExcludeParticipants(a, participants) + ExcludeParticipants(b, participants)
  {
    if a == [] {
      assert a + b == b;
    } else {
      assert (a + b)[0] == a[0];
      assert (a + b)[1..] == a[1..] + b;
      ExcludeDistributes(a[1..], b, participants);
    }
  }

  /** One hit is kept exactly when it is no participant. */
  lemma ExcludeSingle(u: User, participants: seq<UserId>)
    ensures ExcludeParticipants([u], participants) == if u.id in participants then [] else [u]
  {
    assert [u][1..] == [];
  }
}
