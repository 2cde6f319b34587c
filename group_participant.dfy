/**
 * The participant manager of a group chat, `components/group-participant.tsx`:
 * a search that hides users who already take part, a selection of users to
 * add, the add and remove requests with their outcomes, and which controls
 * are shown. The server actions' answers are parameters of the step that
 * receives them.
 */
module GroupParticipant {
  import opened Wrappers
  import opened Text
  import opened Events
  import opened Selection

  /** What an add or remove action answered, or that it threw. */
  datatype ActionOutcome = Done | ActionRefused(message: Option<string>) | ActionThrew

  /** The search button is enabled, and `handleSearch` proceeds, only for a trimmed query of 2 or more characters. */
  predicate SearchEnabled(query: string) {
    |Trim(query)| >= 2
  }

  /**
   * The participants that get a remove control: none when the chat is not a
   * group (the component renders nothing), else every participant but the
   * current user, in list order.
   */
  function RemoveControls(participants: seq<User>, currentUserId: UserId, isGroup: bool): (r: seq<UserId>)
    ensures forall id :: id in r <==> isGroup && id in Ids(participants) && id != currentUserId
    ensures !isGroup ==> r == []
  {
    if !isGroup || participants == [] then []
    else
      (if participants[0].id != currentUserId then [participants[0].id] else [])
      + RemoveControls(participants[1..], currentUserId, isGroup)
  }

  /** In a group, every participant other than the current user can be removed, and the current user cannot. */
  lemma {:induction false} RemoveControlsExceptSelf(participants: seq<User>, currentUserId: UserId)
    ensures |RemoveControls(participants, currentUserId, true)| ==
      |participants| - CountId(participants, currentUserId)
  {
    if participants != [] {
      RemoveControlsExceptSelf(participants[1..], currentUserId);
    }
  }

  /** How many participants carry id `id`. */
  function CountId(users: seq<User>, id: UserId): nat {
    if users == [] then 0 else (if users[0].id == id then 1 else 0) + CountId(users[1..], id)
  }

  class Manager {
    const chatId: ChatId
    const participants: seq<User>
    const currentUserId: UserId
    const isGroup: bool
    var open: bool
    var searchQuery: string
    var searchResults: seq<User>
    var selectedUsers: seq<User>
    var isLoading: bool

    /** The selection holds each id once, and no result is a participant already. */
    ghost predicate Valid()
      reads this
    {
      && UniqueUserIds(selectedUsers)
      && forall v :: v in searchResults ==> v.id !in Ids(participants)
    }

    constructor (chatId: ChatId, participants: seq<User>, currentUserId: UserId, isGroup: bool)
      ensures Valid()
      ensures this.chatId == chatId && this.participants == participants
      ensures this.currentUserId == currentUserId && this.isGroup == isGroup
      ensures !open && searchQuery == "" && searchResults == [] && selectedUsers == [] && !isLoading
    {
      this.chatId := chatId;
      this.participants := participants;
      this.currentUserId := currentUserId;
      this.isGroup := isGroup;
      open := false;
      searchQuery := "";
      searchResults := [];
      selectedUsers := [];
      isLoading := false;
    }

    /**
     * `handleSearch`: nothing happens for a short query. Otherwise the hits
     * minus the current participants; a refusal empties the results and shows
     * its message; a throw shows the generic error and keeps the results.
     */
    method HandleSearch(outcome: SearchOutcome) returns (searched: bool, toast: Option<string>)
      requires Valid()
      modifies this`searchResults
      ensures Valid()
      ensures searched <==> SearchEnabled(searchQuery)
      ensures !searched ==> searchResults == old(searchResults) && toast.None?
      ensures searched && outcome.Found? ==>
        searchResults == ExcludeParticipants(outcome.users, Ids(participants)) && toast.None?
      ensures searched && outcome.SearchRefused? ==>
        searchResults == [] && toast == Some(ErrorText(outcome.message, "Failed to search users"))
      ensures searched && outcome.SearchThrew? ==>
        searchResults == old(searchResults) && toast == Some("An unexpected error occurred")
    {
      searched := SearchEnabled(searchQuery);
      toast := None;
      if searched {
        match outcome {
          case Found(users) =>
            searchResults := ExcludeParticipants(users, Ids(participants));
          case SearchRefused(message) =>
            searchResults := [];
            toast := Some(ErrorText(message, "Failed to search users"));
          case SearchThrew =>
            toast := Some("An unexpected error occurred");
        }
      }
    }

    /** `handleSelectUser`: add the user if its id is new, then clear the query and the results. */
    method HandleSelectUser(u: User)
      requires Valid()
      modifies this`selectedUsers, this`searchQuery, this`searchResults
      ensures Valid()
      ensures selectedUsers == SelectUser(old(selectedUsers), u)
      ensures searchQuery == "" && searchResults == []
    {
      SelectKeepsUnique(selectedUsers, u);
      selectedUsers := SelectUser(selectedUsers, u);
      searchQuery := "";
      searchResults := [];
    }

    /** `handleRemoveSelectedUser`: drop the user with that id from the selection. */
    method HandleRemoveSelectedUser(id: UserId)
      requires Valid()
      modifies this`selectedUsers
      ensures Valid()
      ensures selectedUsers == RemoveById(old(selectedUsers), id)
    {
      RemoveKeepsUnique(selectedUsers, id);
      selectedUsers := RemoveById(selectedUsers, id);
    }

    /** `handleAddUsers` up to the server call: nothing with an empty selection, else the selected ids. */
    method BeginAddUsers() returns (request: Option<seq<UserId>>)
      modifies this`isLoading
      ensures selectedUsers == [] ==> request.None? && isLoading == old(isLoading)
      ensures selectedUsers != [] ==> request == Some(Ids(selectedUsers)) && isLoading
    {
      if selectedUsers == [] {
        request := None;
      } else {
        isLoading := true;
        request := Some(Ids(selectedUsers));
      }
    }

    /** The add action answered: success clears the selection and closes; otherwise the selection stays. */
    method CompleteAddUsers(outcome: ActionOutcome) returns (toast: string)
      requires Valid()
      modifies this`open, this`selectedUsers, this`isLoading
      ensures Valid()
      ensures !isLoading
      ensures outcome.Done? ==> !open && selectedUsers == [] && toast == "Users added to the group"
      ensures outcome.ActionRefused? ==>
        open == old(open) && selectedUsers == old(selectedUsers)
        && toast == ErrorText(outcome.message, "Failed to add users")
      ensures outcome.ActionThrew? ==>
        open == old(open) && selectedUsers == old(selectedUsers) && toast == "An unexpected error occurred"
    {
      match outcome {
        case Done =>
          toast := "Users added to the group";
          open := false;
          selectedUsers := [];
        case ActionRefused(message) =>
          toast := ErrorText(message, "Failed to add users");
        case ActionThrew =>
          toast := "An unexpected error occurred";
      }
      isLoading := false;
    }

    /** `handleRemoveUser` up to the server call. */
    method BeginRemoveUser(userId: UserId) returns (request: UserId)
      modifies this`isLoading
      ensures isLoading && request == userId
    {
      isLoading := true;
      request := userId;
    }

    /** The remove action answered: only the toast differs; loading ends. */
    method CompleteRemoveUser(outcome: ActionOutcome) returns (toast: string)
      modifies this`isLoading
      ensures !isLoading
      ensures outcome.Done? ==> toast == "User removed from the group"
      ensures outcome.ActionRefused? ==> toast == ErrorText(outcome.message, "Failed to remove user")
      ensures outcome.ActionThrew? ==> toast == "An unexpected error occurred"
    {
      match outcome {
        case Done => toast := "User removed from the group";
        case ActionRefused(message) => toast := ErrorText(message, "Failed to remove user");
        case ActionThrew => toast := "An unexpected error occurred";
      }
      isLoading := false;
    }
  }
}
