/** The admin message pages: src/pages/admin/Messages.tsx (search, status
    filter and the local status change) and
    src/pages/admin/manage-messages.tsx (the chat with a selected guide). */
module MessagePages {
  import opened Wrappers
  import opened Text
  import opened ListOps

  // ------------------------------------------------------------ Messages.tsx

  datatype Message = Message(id: int, sender: string, recipient: string, subject: string, content: string,
                             status: string)

  /** The search test: sender, recipient, subject or content contains the
      term, ignoring case. */
  predicate MessageMatches(m: Message, term: string) {
    MatchesIgnoringCase(m.sender, term) || MatchesIgnoringCase(m.recipient, term)
    || MatchesIgnoringCase(m.subject, term) || MatchesIgnoringCase(m.content, term)
  }

  function MessageSearch(term: string): Message -> bool {
    m => MessageMatches(m, term)
  }

  function MessageStatus(statusFilter: string): Message -> bool {
    (m: Message) => m.status == statusFilter
  }

  /** The filter effect: search when the term is non-empty, then keep exact
      status matches unless the filter is 'all'. */
  function FilterMessages(messages: seq<Message>, term: string, statusFilter: string): (r: seq<Message>)
    ensures multiset(r) <= multiset(messages)
  {
    Staged(messages, term != "", MessageSearch(term), statusFilter != "all", MessageStatus(statusFilter))
  }

  /** A message is listed exactly when it is in the list, matches a non-empty
      term and has the filtered status (unless 'all'); the order is kept. */
  lemma FilterMessagesOutcomes(messages: seq<Message>, term: string, statusFilter: string, m: Message)
    ensures m in FilterMessages(messages, term, statusFilter) <==>
      m in messages && (term == "" || MessageMatches(m, term)) && (statusFilter == "all" || m.status == statusFilter)
    ensures SubsequenceOf(FilterMessages(messages, term, statusFilter), messages)
    ensures term == "" && statusFilter == "all" ==> FilterMessages(messages, term, statusFilter) == messages
  {
    StagedOutcomes(messages, term != "", MessageSearch(term), statusFilter != "all", MessageStatus(statusFilter), m);
  }

  /** `messages.map(m => m.id === id ? {...m, status} : m)`. */
  function SetMessageStatus(messages: seq<Message>, id: int, status: string): (r: seq<Message>)
    ensures |r| == |messages|
    ensures forall k :: 0 <= k < |r| && messages[k].id == id ==> r[k] == messages[k].(status := status)
    ensures forall k :: 0 <= k < |r| && messages[k].id != id ==> r[k] == messages[k]
  {
    MapWhere(messages, (m: Message) => m.id == id, (m: Message) => m.(status := status))
  }

  /** How the PATCH request came back. */
  datatype StatusReply = StatusOk | StatusNotOk | StatusThrew(message: string)

  class MessagesPage {
    var messages: seq<Message>
    var filteredMessages: seq<Message>
    var searchTerm: string
    var statusFilter: string
    var error: Option<string>

    constructor ()
      ensures messages == [] && filteredMessages == [] && searchTerm == "" && statusFilter == "all"
      ensures error.None?
    {
      messages := [];
      filteredMessages := [];
      searchTerm := "";
      statusFilter := "all";
      error := None;
    }

    /** The filter effect. */
    method ApplyFilters()
      modifies this
      ensures filteredMessages == FilterMessages(messages, searchTerm, statusFilter)
      ensures messages == old(messages) && searchTerm == old(searchTerm) && statusFilter == old(statusFilter)
      ensures error == old(error)
    {
      filteredMessages := FilterMessages(messages, searchTerm, statusFilter);
    }

    /** `handleStatusChange(id, status)`: on success only that message's
        status changes; a failure leaves the list and sets the error. */
    method HandleStatusChange(messageId: int, newStatus: string, reply: StatusReply)
      modifies this
      ensures reply.StatusOk? ==> messages == SetMessageStatus(old(messages), messageId, newStatus) && error == old(error)
      ensures reply.StatusNotOk? ==> messages == old(messages) && error == Some("Failed to update message status")
      ensures reply.StatusThrew? ==> messages == old(messages) && error == Some(reply.message)
      ensures filteredMessages == old(filteredMessages) && searchTerm == old(searchTerm)
      ensures statusFilter == old(statusFilter)
    {
      match reply {
        case StatusOk =>
          messages := SetMessageStatus(messages, messageId, newStatus);
        case StatusNotOk =>
          error := Some("Failed to update message status");
        case StatusThrew(m) =>
          error := Some(m);
      }
    }
  }

  // ------------------------------------------------------ manage-messages.tsx

  datatype ChatMessage = ChatMessage(id: int, sender: string, content: string, timestamp: string)

  datatype GuideEntry = GuideEntry(id: int, name: string, email: string, status: string)

  /** The fixed guide list the page loads on mount. */
  const DummyGuides: seq<GuideEntry> := [
    GuideEntry(1, "John Doe", "john@example.com", "Active"),
    GuideEntry(2, "Jane Smith", "jane@example.com", "Active"),
    GuideEntry(3, "Mike Johnson", "mike@example.com", "Inactive")]

  /** The fixed conversation loaded whenever a guide is selected. */
  const DummyMessages: seq<ChatMessage> := [
    ChatMessage(1, "admin", "Hello Guide!", "2024-04-06 10:30"),
    ChatMessage(2, "guide", "Hi Admin!", "2024-04-06 10:32"),
    ChatMessage(3, "admin", "How are you today?", "2024-04-06 10:33"),
    ChatMessage(4, "guide", "I'm doing well, thank you!", "2024-04-06 10:35")]

  /** Message ids are their 1-based positions. */
  predicate IdsArePositions(messages: seq<ChatMessage>) {
    forall k :: 0 <= k < |messages| ==> messages[k].id == k + 1
  }

  lemma DummyIdsArePositions()
    ensures IdsArePositions(DummyMessages)
  {
  }

  class ManageMessagesPage {
    var selectedGuide: Option<GuideEntry>
    var message: string
    var messages: seq<ChatMessage>
    var guides: seq<GuideEntry>

    /** After the mount effect: the guide list is loaded, nothing selected. */
    constructor ()
      ensures selectedGuide.None? && message == "" && messages == [] && guides == DummyGuides
    {
      selectedGuide := None;
      message := "";
      messages := [];
      guides := DummyGuides;
    }

    /** Selecting a guide. The effect keyed on `selectedGuide` runs only when
        the selection changes, and then replaces the conversation by the fixed
        list; selecting the guide already selected keeps the conversation,
        including messages sent since. The guide entries are the list's own
        objects, so a change of value is a change of reference. */
    method SelectGuide(g: GuideEntry)
      modifies this
      ensures selectedGuide == Some(g)
      ensures old(selectedGuide) != Some(g) ==> messages == DummyMessages
      ensures old(selectedGuide) == Some(g) ==> messages == old(messages)
      ensures message == old(message) && guides == old(guides)
    {
      if selectedGuide != Some(g) {
        selectedGuide := Some(g);
        messages := DummyMessages;
      }
    }

    /** The text box. */
    method SetMessage(text: string)
      modifies this
      ensures message == text
      ensures selectedGuide == old(selectedGuide) && messages == old(messages) && guides == old(guides)
    {
      message := text;
    }

    /** `handleSendMessage`, with `now` the local time string: a non-blank
        text with a guide selected is appended, untrimmed, as message
        number `|messages| + 1` from 'admin', and the box is cleared;
        otherwise nothing changes. */
    method HandleSendMessage(now: string)
      modifies this
      ensures JsTrim(old(message)) != "" && old(selectedGuide).Some? ==>
        messages == old(messages) + [ChatMessage(|old(messages)| + 1, "admin", old(message), now)] && message == ""
      ensures !(JsTrim(old(message)) != "" && old(selectedGuide).Some?) ==>
        messages == old(messages) && message == old(message)
      ensures selectedGuide == old(selectedGuide) && guides == old(guides)
      ensures IdsArePositions(old(messages)) ==> IdsArePositions(messages)
    {
      if JsTrim(message) != "" && selectedGuide.Some? {
        messages := messages + [ChatMessage(|messages| + 1, "admin", message, now)];
        message := "";
      }
    }
  }

  /** Only white space, or no guide, sends nothing. */
  lemma BlankIsNotSent(text: string)
    ensures JsTrim(text) != "" <==> !IsBlank(text)
  {
    TrimEmptyIffBlank(text);
  }

  /** No two messages share an id. */
  predicate DistinctIds(messages: seq<ChatMessage>) {
    forall i, j :: 0 <= i < j < |messages| ==> messages[i].id != messages[j].id
  }

  /** Ids that are positions are distinct, so every conversation the page
      builds from the fixed list by sending has distinct ids. */
  lemma PositionsAreDistinct(messages: seq<ChatMessage>)
    requires IdsArePositions(messages)
    ensures DistinctIds(messages)
  {
  }
}
