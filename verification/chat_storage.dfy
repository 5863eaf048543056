/**
 * The in-memory chat store of server/replit_integrations/chat/storage.ts: two
 * id counters starting at 1, conversations kept newest-first, messages kept in
 * creation order. `new Date()` becomes the parameter `now`.
 */
module ChatStorage {
  import opened Wrappers
  import opened Seqs
  import opened Sorting
  import opened Schema

  function ConversationIdIs(id: int): Conversation -> bool {
    (c: Conversation) => c.id == id
  }

  function InConversation(conversationId: int): Message -> bool {
    (m: Message) => m.conversationId == conversationId
  }

  function NotInConversation(conversationId: int): Message -> bool {
    (m: Message) => m.conversationId != conversationId
  }

  /** Sort key of the comparator `b.createdAt - a.createdAt`: newest first. */
  function ConversationRecency(c: Conversation): int {
    -(c.createdAt as int)
  }

  /** Sort key of the comparator `a.createdAt - b.createdAt`: oldest first. */
  function MessageAge(m: Message): int {
    m.createdAt
  }

  /** Conversation ids strictly decrease from the front, as `unshift` of counter values leaves them. */
  predicate IdsDecreasing(cs: seq<Conversation>) {
    forall i, j :: 0 <= i < j < |cs| ==> cs[i].id > cs[j].id
  }

  /** Message ids strictly increase, as `push` of counter values leaves them. */
  predicate IdsIncreasing(ms: seq<Message>) {
    forall i, j :: 0 <= i < j < |ms| ==> ms[i].id < ms[j].id
  }

  class ChatStore {
    var conversationIdCounter: int
    var messageIdCounter: int
    var conversationStore: seq<Conversation>
    var messageStore: seq<Message>

    /** Ids already handed out are below their counter, and each store is ordered by id. */
    ghost predicate Valid()
      reads this
    {
      && 1 <= conversationIdCounter && 1 <= messageIdCounter
      && IdsDecreasing(conversationStore)
      && IdsIncreasing(messageStore)
      && (forall i :: 0 <= i < |conversationStore| ==> 1 <= conversationStore[i].id < conversationIdCounter)
      && (forall i :: 0 <= i < |messageStore| ==> 1 <= messageStore[i].id < messageIdCounter)
    }

    constructor ()
      ensures Valid()
      ensures conversationIdCounter == 1 && messageIdCounter == 1
      ensures conversationStore == [] && messageStore == []
    {
      conversationIdCounter, messageIdCounter := 1, 1;
      conversationStore, messageStore := [], [];
    }

    /** getConversation: the conversation with this id, if any. */
    function GetConversation(id: int): (r: Option<Conversation>)
      reads this
      ensures r == None <==> forall i :: 0 <= i < |conversationStore| ==> conversationStore[i].id != id
      ensures r.Some? ==> r.value.id == id && r.value in conversationStore
    {
      Find(conversationStore, ConversationIdIs(id))
    }

    /** getAllConversations: a copy of the store, newest first. */
    function GetAllConversations(): (r: seq<Conversation>)
      reads this
      ensures multiset(r) == multiset(conversationStore)
      ensures forall i, j :: 0 <= i < j < |r| ==> r[i].createdAt >= r[j].createdAt
    {
      SortBy(conversationStore, ConversationRecency)
    }

    /** getMessagesByConversation: the messages of one conversation, oldest first. */
    function GetMessagesByConversation(conversationId: int): (r: seq<Message>)
      reads this
      ensures multiset(r) == multiset(Filter(messageStore, InConversation(conversationId)))
      ensures forall i, j :: 0 <= i < j < |r| ==> r[i].createdAt <= r[j].createdAt
    {
      SortBy(Filter(messageStore, InConversation(conversationId)), MessageAge)
    }

    /** createConversation: takes the next conversation id and puts the conversation first. */
    method CreateConversation(title: string, now: nat) returns (c: Conversation)
      requires Valid()
      modifies this
      ensures Valid()
      ensures c == Conversation(old(conversationIdCounter), title, now)
      ensures conversationIdCounter == old(conversationIdCounter) + 1
      ensures conversationStore == [c] + old(conversationStore)
      ensures messageIdCounter == old(messageIdCounter) && messageStore == old(messageStore)
    {
      c := Conversation(conversationIdCounter, title, now);
      conversationIdCounter := conversationIdCounter + 1;
      conversationStore := [c] + conversationStore;
    }

    /** createMessage: takes the next message id and puts the message last. */
    method CreateMessage(conversationId: int, role: string, content: string, now: nat) returns (m: Message)
      requires Valid()
      modifies this
      ensures Valid()
      ensures m == Message(old(messageIdCounter), conversationId, role, content, now)
      ensures messageIdCounter == old(messageIdCounter) + 1
      ensures messageStore == old(messageStore) + [m]
      ensures conversationIdCounter == old(conversationIdCounter) && conversationStore == old(conversationStore)
    {
      m := Message(messageIdCounter, conversationId, role, content, now);
      messageIdCounter := messageIdCounter + 1;
      messageStore := messageStore + [m];
    }

    /**
     * deleteConversation: removes the conversation with this id, if present,
     * then every message of it.
     */
    method DeleteConversation(id: int)
      requires Valid()
      modifies this
      ensures Valid()
      ensures var i := FindIndex(old(conversationStore), ConversationIdIs(id));
        conversationStore == if i == -1 then old(conversationStore) else RemoveAt(old(conversationStore), i)
      ensures messageStore == Filter(old(messageStore), NotInConversation(id))
      ensures conversationIdCounter == old(conversationIdCounter) && messageIdCounter == old(messageIdCounter)
    {
      var index := FindIndex(conversationStore, ConversationIdIs(id));
      if index != -1 {
        RemovalKeepsConversations(conversationStore, index, conversationIdCounter);
        conversationStore := RemoveAt(conversationStore, index);
      }
      ghost var kept := messageStore;
      RemoveMessagesOf(id);
      DeletionKeepsMessages(kept, id, messageIdCounter);
    }

    /** The backward loop of deleteConversation: splices out every message of conversation `id`. */
    method RemoveMessagesOf(id: int)
      modifies this
      ensures messageStore == Filter(old(messageStore), NotInConversation(id))
      ensures conversationIdCounter == old(conversationIdCounter) && messageIdCounter == old(messageIdCounter)
      ensures conversationStore == old(conversationStore)
    {
      ghost var original := messageStore;
      var i := |messageStore| - 1;
      while i >= 0
        invariant -1 <= i < |messageStore| && i + 1 <= |original|
        invariant conversationIdCounter == old(conversationIdCounter) && messageIdCounter == old(messageIdCounter)
        invariant conversationStore == old(conversationStore)
        invariant messageStore == original[..i + 1] + Filter(original[i + 1..], NotInConversation(id))
      {
        BackwardStep(original, i, NotInConversation(id));
        if messageStore[i].conversationId == id {
          messageStore := RemoveAt(messageStore, i);
        }
        i := i - 1;
      }
      assert original[..0] == [] && original[0..] == original;
    }
  }

  // ----- properties -----

  /** Filtering a store ordered by increasing id leaves it ordered so. */
  lemma {:induction false} FilterKeepsIncreasing(ms: seq<Message>, p: Message -> bool)
    requires IdsIncreasing(ms)
    ensures IdsIncreasing(Filter(ms, p))
  {
    if ms != [] {
      var rest := ms[1..];
      assert ms == [ms[0]] + rest;
      FilterKeepsIncreasing(rest, p);
      FilterCons(ms[0], rest, p);
      var kept := Filter(rest, p);
      forall k | 0 <= k < |kept|
        ensures ms[0].id < kept[k].id
      {
        FilterMembers(rest, p);
        assert kept[k] in rest;
        var j :| 0 <= j < |rest| && rest[j] == kept[k];
        assert ms[j + 1] == rest[j];
      }
      if p(ms[0]) {
        IncreasingCons(ms[0], kept);
      }
    }
  }

  /** A message with a smaller id than all of an increasing sequence may go in front of it. */
  lemma IncreasingCons(m: Message, ms: seq<Message>)
    requires IdsIncreasing(ms)
    requires forall k :: 0 <= k < |ms| ==> m.id < ms[k].id
    ensures IdsIncreasing([m] + ms)
  {
    var r := [m] + ms;
    forall i, j | 0 <= i < j < |r|
      ensures r[i].id < r[j].id
    {
      assert r[j] == ms[j - 1];
      if i > 0 {
        assert r[i] == ms[i - 1];
      }
    }
  }

  /** Removing one conversation keeps the rest ordered by id and below the counter. */
  lemma RemovalKeepsConversations(cs: seq<Conversation>, i: nat, counter: int)
    requires i < |cs| && IdsDecreasing(cs)
    requires forall j :: 0 <= j < |cs| ==> 1 <= cs[j].id < counter
    ensures IdsDecreasing(RemoveAt(cs, i))
    ensures forall j :: 0 <= j < |RemoveAt(cs, i)| ==> 1 <= RemoveAt(cs, i)[j].id < counter
  {
    var r := RemoveAt(cs, i);
    forall a, b | 0 <= a < b < |r|
      ensures r[a].id > r[b].id
    {
      var a' := if a < i then a else a + 1;
      var b' := if b < i then b else b + 1;
      assert r[a] == cs[a'] && r[b] == cs[b'];
    }
    forall j | 0 <= j < |r|
      ensures 1 <= r[j].id < counter
    {
      assert r[j] == cs[if j < i then j else j + 1];
    }
  }

  /** Dropping the messages of one conversation keeps the rest ordered by id and below the counter. */
  lemma DeletionKeepsMessages(ms: seq<Message>, id: int, counter: int)
    requires IdsIncreasing(ms)
    requires forall j :: 0 <= j < |ms| ==> 1 <= ms[j].id < counter
    ensures IdsIncreasing(Filter(ms, NotInConversation(id)))
    ensures forall j :: 0 <= j < |Filter(ms, NotInConversation(id))| ==> 1 <= Filter(ms, NotInConversation(id))[j].id < counter
  {
    FilterMembers(ms, NotInConversation(id));
    FilterKeepsIncreasing(ms, NotInConversation(id));
  }

  /** One step of a backward splice loop: position `i` is kept when it satisfies `p` and spliced out otherwise. */
  lemma BackwardStep<T>(original: seq<T>, i: nat, p: T -> bool)
    requires i < |original|
    ensures var before := original[..i + 1] + Filter(original[i + 1..], p);
      var after := original[..i] + Filter(original[i..], p);
      && before[i] == original[i]
      && (p(original[i]) ==> after == before)
      && (!p(original[i]) ==> after == RemoveAt(before, i))
  {
    assert original[i..] == [original[i]] + original[i + 1..];
    FilterCons(original[i], original[i + 1..], p);
    assert original[..i + 1] == original[..i] + [original[i]];
  }

  /**
   * In a valid store conversation ids are distinct, so removing the first
   * conversation with an id removes every conversation with it.
   */
  lemma DeleteLeavesNoConversation(cs: seq<Conversation>, id: int)
    requires IdsDecreasing(cs)
    ensures var i := FindIndex(cs, ConversationIdIs(id));
      var rest := if i == -1 then cs else RemoveAt(cs, i);
      forall k :: 0 <= k < |rest| ==> rest[k].id != id
  {
    var i := FindIndex(cs, ConversationIdIs(id));
    if i == -1 {
      assert forall k :: 0 <= k < |cs| ==> !ConversationIdIs(id)(cs[k]);
    } else {
      assert cs[i].id == id;
    }
  }

  /** Messages of other conversations survive a delete, in their order; none of the deleted one does. */
  lemma DeleteKeepsOtherMessages(ms: seq<Message>, id: int, other: int)
    requires other != id
    ensures Filter(Filter(ms, NotInConversation(id)), InConversation(other)) == Filter(ms, InConversation(other))
    ensures Filter(Filter(ms, NotInConversation(id)), InConversation(id)) == []
  {
    FilterOfFilter(ms, id, other);
    FilterMembers(ms, NotInConversation(id));
    FilterNone(Filter(ms, NotInConversation(id)), InConversation(id));
  }

  lemma {:induction false} FilterOfFilter(ms: seq<Message>, id: int, other: int)
    requires other != id
    ensures Filter(Filter(ms, NotInConversation(id)), InConversation(other)) == Filter(ms, InConversation(other))
  {
    if ms != [] {
      var x, rest := ms[0], ms[1..];
      assert ms == [x] + rest;
      FilterOfFilter(rest, id, other);
      FilterCons(x, rest, NotInConversation(id));
      FilterCons(x, rest, InConversation(other));
      if x.conversationId == id {
        assert Filter(ms, NotInConversation(id)) == Filter(rest, NotInConversation(id));
        assert Filter(ms, InConversation(other)) == Filter(rest, InConversation(other));
      } else {
        assert Filter(ms, NotInConversation(id)) == [x] + Filter(rest, NotInConversation(id));
        FilterCons(x, Filter(rest, NotInConversation(id)), InConversation(other));
      }
    }
  }

  /** getMessagesByConversation keeps messages created at the same time in creation order. */
  lemma MessagesStable(store: ChatStore, conversationId: int, createdAt: nat)
    ensures Filter(store.GetMessagesByConversation(conversationId), KeyIs(MessageAge, createdAt))
            == Filter(Filter(store.messageStore, InConversation(conversationId)), KeyIs(MessageAge, createdAt))
  {
    SortStable(Filter(store.messageStore, InConversation(conversationId)), MessageAge, createdAt);
  }

  /**
   * Conversation and message ids come from separate counters: three
   * conversations get 1, 2, 3 whatever messages are created between them.
   */
  method CounterScenario() returns (a: Conversation, m: Message, b: Conversation, c: Conversation)
    ensures a.id == 1 && b.id == 2 && c.id == 3 && m.id == 1
  {
    var store := new ChatStore();
    a := store.CreateConversation("first", 0);
    m := store.CreateMessage(a.id, "user", "hello", 1);
    b := store.CreateConversation("second", 2);
    c := store.CreateConversation("third", 3);
  }
}
