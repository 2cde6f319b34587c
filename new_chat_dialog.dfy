/**
 * The "New Chat" dialog of `components/new-chat-dialog.tsx`: the debounced
 * user search, the group selection, the validation and payload of group
 * creation, the outcome of any create action, and the reset on close.
 * The search and create server actions are not called here: their answers
 * are parameters of the step that receives them.
 */
module NewChatDialog {
  import opened Wrappers
  import opened Text
  import opened Events
  import opened Selection

  /** The three tabs (`"direct"`, `"group"`, `"self"`). */
  datatype Tab = Direct | Group | Self

  /** A search runs only for a query whose trimmed length is at least 2. */
  predicate SearchFires(query: string) {
    |Trim(query)| >= 2
  }

  /** What a create action answered (`success`, `chatId`, `message`), or that it threw. */
  datatype CreateOutcome = Created(chatId: ChatId) | CreateRefused(message: Option<string>) | CreateThrew

  /** The form `handleCreateGroupChat` sends: `name`, `isGroup` and `participantIds`. */
  datatype GroupRequest = GroupRequest(name: string, isGroup: string, participantIds: string)

  /** The outcome of group validation: a toast text, or the request to send. */
  datatype GroupCheck = Invalid(toast: string) | Send(request: GroupRequest)

  /**
   * The checks of `handleCreateGroupChat`, in order: an empty selection,
   * then a blank name; otherwise the form with the selected ids joined by ",".
   */
  function ValidateGroup(selected: seq<User>, groupName: string): (r: GroupCheck)
    ensures |selected| == 0 ==> r == Invalid("Please select at least one user")
    ensures |selected| > 0 && IsBlank(groupName) ==> r == Invalid("Please enter a group name")
    ensures r.Send? <==> |selected| > 0 && !IsBlank(groupName)
    ensures r.Send? ==> r.request.name == groupName && r.request.isGroup == "true"
    ensures r.Send? && (forall i :: 0 <= i < |selected| ==> ',' !in selected[i].id) ==>
      Split(r.request.participantIds, ',') == Ids(selected)
  {
    if |selected| == 0 then Invalid("Please select at least one user")
    else if Trim(groupName) == "" then Invalid("Please enter a group name")
    else
      PayloadRoundTrip(selected);
      Send(GroupRequest(groupName, "true", Join(Ids(selected), ',')))
  }

  /** Splitting the joined ids of a non-empty selection on "," gives the ids back when none holds a comma. */
  lemma PayloadRoundTrip(selected: seq<User>)
    requires |selected| >= 1
    ensures (forall i :: 0 <= i < |selected| ==> ',' !in selected[i].id) ==>
      Split(Join(Ids(selected), ','), ',') == Ids(selected)
  {
    if forall i :: 0 <= i < |selected| ==> ',' !in selected[i].id {
      SplitJoin(Ids(selected), ',');
    }
  }

  /** The Create Group button is disabled while loading, without a selection, or with a blank name. */
  predicate CreateGroupDisabled(isLoading: bool, selected: seq<User>, groupName: string) {
    isLoading || |selected| == 0 || Trim(groupName) == ""
  }

  /** An enabled button always passes validation; a disabled one that is not loading never does. */
  lemma EnabledButtonPassesValidation(isLoading: bool, selected: seq<User>, groupName: string)
    ensures !CreateGroupDisabled(isLoading, selected, groupName) ==> ValidateGroup(selected, groupName).Send?
    ensures CreateGroupDisabled(isLoading, selected, groupName) && !isLoading ==>
      ValidateGroup(selected, groupName).Invalid?
  {
  }

  class Dialog {
    var open: bool
    var activeTab: Tab
    var searchQuery: string
    var searchResults: seq<User>
    var selectedUsers: seq<User>
    var groupName: string
    var isLoading: bool

    /** The selection never holds a user id twice. */
    ghost predicate Valid()
      reads this
    {
      UniqueUserIds(selectedUsers)
    }

    constructor ()
      ensures Valid()
      ensures !open && activeTab == Direct && searchQuery == "" && searchResults == []
      ensures selectedUsers == [] && groupName == "" && !isLoading
    {
      open := false;
      activeTab := Direct;
      searchQuery := "";
      searchResults := [];
      selectedUsers := [];
      groupName := "";
      isLoading := false;
    }

    /**
     * The search timer fired for the current query. A short query empties the
     * results without a search; otherwise the search's users, or nothing on a
     * refusal; a thrown search leaves the results as they were.
     */
    method SearchTimerFired(outcome: SearchOutcome) returns (searched: bool)
      modifies this`searchResults
      ensures searched <==> SearchFires(searchQuery)
      ensures !searched ==> searchResults == []
      ensures searched && outcome.Found? ==> searchResults == outcome.users
      ensures searched && outcome.SearchRefused? ==> searchResults == []
      ensures searched && outcome.SearchThrew? ==> searchResults == old(searchResults)
    {
      searched := SearchFires(searchQuery);
      if !searched {
        searchResults := [];
      } else if outcome.Found? {
        searchResults := outcome.users;
      } else if outcome.SearchRefused? {
        searchResults := [];
      }
    }

    /** `handleSelectUser`: add the user if its id is new; the query is cleared either way. */
    method HandleSelectUser(u: User)
      requires Valid()
      modifies this`selectedUsers, this`searchQuery
      ensures Valid()
      ensures selectedUsers == SelectUser(old(selectedUsers), u)
      ensures HasUser(selectedUsers, u.id)
      ensures searchQuery == ""
    {
      SelectKeepsUnique(selectedUsers, u);
      selectedUsers := SelectUser(selectedUsers, u);
      searchQuery := "";
    }

    /** `handleRemoveUser`: drop the user with that id from the selection. */
    method HandleRemoveUser(id: UserId)
      requires Valid()
      modifies this`selectedUsers
      ensures Valid()
      ensures selectedUsers == RemoveById(old(selectedUsers), id)
      ensures !HasUser(selectedUsers, id)
    {
      RemoveKeepsUnique(selectedUsers, id);
      selectedUsers := RemoveById(selectedUsers, id);
    }

    /**
     * `handleCreateGroupChat` up to the server call: a failed check gives its
     * toast and sends nothing; otherwise loading starts and the form is sent.
     */
    method BeginCreateGroupChat() returns (toast: Option<string>, request: Option<GroupRequest>)
      modifies this`isLoading
      ensures ValidateGroup(selectedUsers, groupName).Invalid? ==>
        toast == Some(ValidateGroup(selectedUsers, groupName).toast) && request.None? && isLoading == old(isLoading)
      ensures ValidateGroup(selectedUsers, groupName).Send? ==>
        toast.None? && request == Some(ValidateGroup(selectedUsers, groupName).request) && isLoading
    {
      var check := ValidateGroup(selectedUsers, groupName);
      if check.Invalid? {
        toast, request := Some(check.toast), None;
      } else {
        isLoading := true;
        toast, request := None, Some(check.request);
      }
    }

    /** `handleCreateDirectChat` and `handleCreateSelfChat` up to the server call. */
    method BeginCreate()
      modifies this`isLoading
      ensures isLoading
    {
      isLoading := true;
    }

    /**
     * The answer of a create action arrived. Success closes the dialog and
     * navigates to the new chat; a refusal shows its message or `fallback`;
     * a throw shows the generic error. Loading ends in every case.
     */
    method CompleteCreate(outcome: CreateOutcome, fallback: string) returns (toast: Option<string>, navigate: Option<string>)
      modifies this`open, this`isLoading
      ensures !isLoading
      ensures outcome.Created? ==> !open && toast.None? && navigate == Some("/chat?id=" + outcome.chatId)
      ensures outcome.CreateRefused? ==>
        open == old(open) && toast == Some(ErrorText(outcome.message, fallback)) && navigate.None?
      ensures outcome.CreateThrew? ==>
        open == old(open) && toast == Some("An unexpected error occurred") && navigate.None?
    {
      match outcome {
        case Created(chatId) =>
          open := false;
          toast, navigate := None, Some("/chat?id=" + chatId);
        case CreateRefused(message) =>
          toast, navigate := Some(ErrorText(message, fallback)), None;
        case CreateThrew =>
          toast, navigate := Some("An unexpected error occurred"), None;
      }
      isLoading := false;
    }

    /** `handleOpenChange`: closing resets the query, results, selection, name and tab. */
    method HandleOpenChange(newOpen: bool)
      requires Valid()
      modifies this`open, this`searchQuery, this`searchResults, this`selectedUsers, this`groupName, this`activeTab
      ensures Valid()
      ensures open == newOpen
      ensures !newOpen ==>
        && searchQuery == "" && searchResults == [] && selectedUsers == []
        && groupName == "" && activeTab == Direct
      ensures newOpen ==>
        && searchQuery == old(searchQuery) && searchResults == old(searchResults)
        && selectedUsers == old(selectedUsers) && groupName == old(groupName) && activeTab == old(activeTab)
    {
      open := newOpen;
      if !newOpen {
        searchQuery := "";
        searchResults := [];
        selectedUsers := [];
        groupName := "";
        activeTab := Direct;
      }
    }
  }
}
