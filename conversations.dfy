/**
 * The conversation controller: the list of conversations, the one being shown,
 * and the four operations the sidebar and the chat pane call on them.
 */
module Conversations {
  import opened Wrappers
  import opened ChatTypes

  /** The title of a conversation with no usable first message. */
  const Placeholder: string := "New Chat"

  /** How many characters of the first message a title keeps. */
  const TitleLength: nat := 50

  /**
   * The title an update gives: the first message's content cut to its first
   * 50 characters when there is a first message with non-empty content,
   * otherwise the placeholder.
   */
  function Title(messages: seq<Message>): (title: string)
    ensures |title| <= TitleLength
    ensures messages == [] || messages[0].content == [] ==> title == Placeholder
    ensures messages != [] && messages[0].content != [] ==>
      && title != []
      && title <= messages[0].content
      && (|messages[0].content| <= TitleLength ==> title == messages[0].content)
      && (|messages[0].content| > TitleLength ==> |title| == TitleLength)
  {
    if |messages| > 0 && messages[0].content != [] then
      var content := messages[0].content;
      content[..if |content| < TitleLength then |content| else TitleLength]
    else
      Placeholder
  }

  /** The first conversation with the given id, if any. */
  function FindById(convs: seq<Conversation>, id: string): (r: Option<Conversation>)
    ensures r.None? <==> forall i :: 0 <= i < |convs| ==> convs[i].id != id
    ensures r.Some? ==>
      exists k :: 0 <= k < |convs| && convs[k] == r.value && r.value.id == id
        && forall j :: 0 <= j < k ==> convs[j].id != id
  {
    if convs == [] then None
    else if convs[0].id == id then Some(convs[0])
    else
      var r := FindById(convs[1..], id);
      assert r.Some? ==> (exists k :: 1 <= k < |convs| && convs[k] == r.value && r.value.id == id
                                   && forall j :: 0 <= j < k ==> convs[j].id != id) by {
        if r.Some? {
          var k :| 0 <= k < |convs[1..]| && convs[1..][k] == r.value && r.value.id == id
            && forall j :: 0 <= j < k ==> convs[1..][j].id != id;
          assert convs[k + 1] == r.value;
          assert forall j :: 0 <= j < k + 1 ==> convs[j].id != id by {
            forall j | 0 <= j < k + 1
              ensures convs[j].id != id
            {
              if j > 0 {
                assert convs[j] == convs[1..][j - 1];
              }
            }
          }
        }
      }
      r
  }

  /** Every conversation whose id is that of `updated` becomes `updated`; the others stay. */
  function ReplaceById(convs: seq<Conversation>, updated: Conversation): (r: seq<Conversation>)
    ensures |r| == |convs|
    ensures forall i :: 0 <= i < |convs| && convs[i].id == updated.id ==> r[i] == updated
    ensures forall i :: 0 <= i < |convs| && convs[i].id != updated.id ==> r[i] == convs[i]
  {
    seq(|convs|, i requires 0 <= i < |convs| => if convs[i].id == updated.id then updated else convs[i])
  }

  /** The conversations whose id is not `id`, in their order. */
  function RemoveById(convs: seq<Conversation>, id: string): (r: seq<Conversation>)
    ensures |r| <= |convs|
    ensures forall c :: c in r <==> c in convs && c.id != id
  {
    if convs == [] then []
    else if convs[0].id != id then [convs[0]] + RemoveById(convs[1..], id)
    else RemoveById(convs[1..], id)
  }

  /** Removal works piece by piece, so it keeps the order of what it keeps. */
  lemma {:induction false} RemoveByIdAppend(a: seq<Conversation>, b: seq<Conversation>, id: string)
    ensures RemoveById(a + b, id) == RemoveById(a, id) + RemoveById(b, id)
    decreases |a|
  {
    if a == [] {
      assert a + b == b;
    } else {
      assert (a + b)[1..] == a[1..] + b;
      RemoveByIdAppend(a[1..], b, id);
    }
  }

  /** Removing an id that no conversation has changes nothing. */
  lemma {:induction false} RemoveAbsent(convs: seq<Conversation>, id: string)
    requires FindById(convs, id) == None
    ensures RemoveById(convs, id) == convs
    decreases |convs|
  {
    if convs != [] {
      assert convs[0].id != id;
      RemoveAbsent(convs[1..], id);
      assert convs == [convs[0]] + convs[1..];
    }
  }

  /** Removal is idempotent. */
  lemma RemoveTwice(convs: seq<Conversation>, id: string)
    ensures RemoveById(RemoveById(convs, id), id) == RemoveById(convs, id)
  {
    RemoveAbsent(RemoveById(convs, id), id);
  }

  /** Looking up any other id after a removal finds what it found before. */
  lemma {:induction false} RemoveFind(convs: seq<Conversation>, id: string, other: string)
    requires other != id
    ensures FindById(RemoveById(convs, id), other) == FindById(convs, other)
    decreases |convs|
  {
    if convs != [] {
      RemoveFind(convs[1..], id, other);
      if convs[0].id != id {
        assert ([convs[0]] + RemoveById(convs[1..], id))[1..] == RemoveById(convs[1..], id);
      }
    }
  }

  /** After a replacement, looking up the replaced id finds the new value; other ids find what they found. */
  lemma {:induction false} ReplaceFind(convs: seq<Conversation>, updated: Conversation, id: string)
    ensures FindById(ReplaceById(convs, updated), id) ==
      if id != updated.id then FindById(convs, id)
      else if FindById(convs, id).Some? then Some(updated) else None
    decreases |convs|
  {
    if convs != [] {
      assert ReplaceById(convs, updated)[1..] == ReplaceById(convs[1..], updated);
      ReplaceFind(convs[1..], updated, id);
    }
  }

  /** A replacement of a conversation that is in the list puts the new value in the list. */
  lemma ReplaceKeepsCurrent(convs: seq<Conversation>, current: Conversation, updated: Conversation)
    requires current in convs && current.id == updated.id
    ensures updated in ReplaceById(convs, updated)
  {
    var i :| 0 <= i < |convs| && convs[i] == current;
    assert ReplaceById(convs, updated)[i] == updated;
  }

  /**
   * The page's state: every conversation of the session, newest first, and the
   * one the chat pane shows.
   */
  class Home {
    var conversations: seq<Conversation>
    var currentConversation: Option<Conversation>

    /**
     * The conversation shown is one of the list's, and the first one with its
     * id: looking its id up in the list finds it.
     */
    ghost predicate Valid()
      reads this
    {
      currentConversation.Some? ==>
        && currentConversation.value in conversations
        && FindById(conversations, currentConversation.value.id) == currentConversation
    }

    /** The page before it mounts: no conversations, none shown. */
    constructor ()
      ensures conversations == [] && currentConversation == None
      ensures Valid()
    {
      conversations := [];
      currentConversation := None;
    }

    /** A new, empty conversation with the placeholder title goes first in the list and is shown. */
    method CreateNewConversation(id: string)
      modifies this
      ensures currentConversation == Some(Conversation(id, Placeholder, []))
      ensures conversations == [Conversation(id, Placeholder, [])] + old(conversations)
      ensures Valid()
    {
      var created := Conversation(id, Placeholder, []);
      currentConversation := Some(created);
      conversations := [created] + conversations;
    }

    /** Shows the first conversation with the id; an unknown id changes nothing. */
    method SelectConversation(id: string)
      requires Valid()
      modifies this
      ensures conversations == old(conversations)
      ensures currentConversation == if FindById(conversations, id).Some? then FindById(conversations, id)
                                     else old(currentConversation)
      ensures old(currentConversation).Some? && id == old(currentConversation).value.id ==>
        currentConversation == old(currentConversation)
      ensures Valid()
    {
      var found := FindById(conversations, id);
      if found.Some? {
        currentConversation := found;
      }
    }

    /**
     * Stores the messages of the conversation shown and recomputes its title;
     * in the list, every entry with its id becomes the new value. With no
     * conversation shown this changes nothing.
     */
    method UpdateConversation(messages: seq<Message>)
      requires Valid()
      modifies this
      ensures old(currentConversation).None? ==>
        conversations == old(conversations) && currentConversation == None
      ensures old(currentConversation).Some? ==>
        var updated := Conversation(old(currentConversation).value.id, Title(messages), messages);
        && currentConversation == Some(updated)
        && conversations == ReplaceById(old(conversations), updated)
      ensures Valid()
    {
      if currentConversation.None? {
        return;
      }
      var updated := currentConversation.value.(messages := messages, title := Title(messages));
      ReplaceKeepsCurrent(conversations, currentConversation.value, updated);
      ReplaceFind(conversations, updated, updated.id);
      currentConversation := Some(updated);
      conversations := ReplaceById(conversations, updated);
    }

    /**
     * Drops every conversation with the id. The one shown is cleared exactly
     * when it has that id; no other conversation is selected in its place.
     */
    method DeleteConversation(id: string)
      requires Valid()
      modifies this
      ensures conversations == RemoveById(old(conversations), id)
      ensures currentConversation ==
        if old(currentConversation).Some? && old(currentConversation).value.id == id then None
        else old(currentConversation)
      ensures Valid()
    {
      if currentConversation.Some? && currentConversation.value.id != id {
        RemoveFind(conversations, id, currentConversation.value.id);
      }
      conversations := RemoveById(conversations, id);
      if currentConversation.Some? && currentConversation.value.id == id {
        currentConversation := None;
      }
    }

    /** At mount an empty list gets one new conversation, which is shown; otherwise nothing changes. */
    method Mount(id: string)
      requires Valid()
      modifies this
      ensures old(conversations) == [] ==>
        && conversations == [Conversation(id, Placeholder, [])]
        && currentConversation == Some(Conversation(id, Placeholder, []))
      ensures old(conversations) != [] ==>
        conversations == old(conversations) && currentConversation == old(currentConversation)
      ensures Valid()
    {
      if |conversations| == 0 {
        CreateNewConversation(id);
      }
    }
  }
}
