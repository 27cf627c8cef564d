/** The message store (messages.json) and its two read routes in
    server/server.js: the thread between two users and the conversation list of
    one user. The store is the sequence `ms` in append order. */
module Messages {
  import opened Wrappers
  import opened Seqs
  import Accounts

  /** A stored message. `id` comes from `Date.now()` and is not assumed unique;
      `read` is written `false` and never changed. */
  datatype Message = Message(
    id: int, senderId: int, receiverId: int, message: string, timestamp: string, read: bool)

  /** `m` is a message between `u` and `o`, in either direction. */
  predicate Between(m: Message, u: int, o: int) {
    (m.senderId == u && m.receiverId == o) || (m.senderId == o && m.receiverId == u)
  }

  function InPair(u: int, o: int): Message -> bool {
    (m: Message) => Between(m, u, o)
  }

  /** GET /api/messages/:userId/:otherUserId: every message between the two
      users, as often as stored, in store order, and nothing else. */
  function PairQuery(ms: seq<Message>, u: int, o: int): (r: seq<Message>)
    ensures IsSubsequence(r, ms)
    ensures forall m :: m in r <==> m in ms && Between(m, u, o)
    ensures forall m :: multiset(r)[m] == if Between(m, u, o) then multiset(ms)[m] else 0
  {
    FilterSpec(ms, InPair(u, o));
    Filter(ms, InPair(u, o))
  }

  /** The thread is the same whichever of the two users asks. */
  lemma PairQuerySymmetric(ms: seq<Message>, u: int, o: int)
    ensures PairQuery(ms, u, o) == PairQuery(ms, o, u)
  {
    FilterCongruent(ms, InPair(u, o), InPair(o, u));
  }

  /** Appending to the store extends a thread by the new message exactly when
      the message belongs to it. */
  lemma PairQueryAppend(ms: seq<Message>, m: Message, u: int, o: int)
    ensures PairQuery(ms + [m], u, o) == PairQuery(ms, u, o) + (if Between(m, u, o) then [m] else [])
  {
    FilterSnoc(ms, m, InPair(u, o));
  }

  /** The index of the first message between `u` and `x` in the store, or
      `|ms|` when they never exchanged one. */
  function FirstContact(ms: seq<Message>, u: int, x: int): (k: nat)
    ensures k <= |ms|
    ensures k < |ms| ==> Between(ms[k], u, x)
    ensures forall j :: 0 <= j < k && j < |ms| ==> !Between(ms[j], u, x)
  {
    if ms == [] then 0
    else
      var k := FirstContact(ms[..|ms| - 1], u, x);
      if k < |ms| - 1 then k
      else if Between(ms[|ms| - 1], u, x) then |ms| - 1
      else |ms|
  }

  /** `set.add(x)` on an insertion-ordered set. */
  function AddSeen(ids: seq<int>, x: int): seq<int> {
    if x in ids then ids else ids + [x]
  }

  /** One step of the `forEach` at server/server.js:387-390. */
  function CounterpartStep(ids: seq<int>, m: Message, u: int): seq<int> {
    var afterSender := if m.senderId == u then AddSeen(ids, m.receiverId) else ids;
    if m.receiverId == u then AddSeen(afterSender, m.senderId) else afterSender
  }

  /** The other party of `m`, seen from `u`. */
  function Counterpart(m: Message, u: int): Option<int> {
    if m.senderId == u then Some(m.receiverId)
    else if m.receiverId == u then Some(m.senderId)
    else None
  }

  /** A step adds the other party of the message, if it is new, and nothing else. */
  lemma StepAddsCounterpart(ids: seq<int>, m: Message, u: int)
    ensures Counterpart(m, u).None? ==> CounterpartStep(ids, m, u) == ids
    ensures Counterpart(m, u).Some? ==> CounterpartStep(ids, m, u) == AddSeen(ids, Counterpart(m, u).value)
    ensures forall x :: Between(m, u, x) <==> Counterpart(m, u) == Some(x)
  {
  }

  /** The ids in the conversation set after scanning the store: every user `u`
      exchanged a message with, once. */
  function Counterparts(ms: seq<Message>, u: int): (r: seq<int>)
    ensures NoDuplicates(r)
    ensures forall x :: x in r <==> FirstContact(ms, u, x) < |ms|
  {
    if ms == [] then []
    else
      var prev := Counterparts(ms[..|ms| - 1], u);
      StepAddsCounterpart(prev, ms[|ms| - 1], u);
      CounterpartStep(prev, ms[|ms| - 1], u)
  }

  /** The counterparts come in the order of each one's first message with `u`,
      not by recency. */
  lemma {:induction false} CounterpartsInFirstContactOrder(ms: seq<Message>, u: int)
    ensures forall i, j :: 0 <= i < j < |Counterparts(ms, u)| ==>
      FirstContact(ms, u, Counterparts(ms, u)[i]) < FirstContact(ms, u, Counterparts(ms, u)[j])
  {
    if ms != [] {
      var p, m := ms[..|ms| - 1], ms[|ms| - 1];
      var d, r := Counterparts(p, u), Counterparts(ms, u);
      CounterpartsInFirstContactOrder(p, u);
      StepAddsCounterpart(d, m, u);
      assert ms[..|ms| - 1] == p;
      forall x | x in d ensures FirstContact(ms, u, x) == FirstContact(p, u, x) < |p| {
      }
      assert forall i :: 0 <= i < |d| ==> r[i] == d[i];
      if |r| > |d| {
        var c := r[|d|];
        assert c !in d && Between(m, u, c);
        assert FirstContact(ms, u, c) == |p|;
      }
    }
  }

  /** Scanning one more message is one more step. */
  lemma CounterpartsExtend(ms: seq<Message>, i: nat, u: int)
    requires i < |ms|
    ensures Counterparts(ms[..i + 1], u) == CounterpartStep(Counterparts(ms[..i], u), ms[i], u)
  {
    assert ms[..i + 1][..i] == ms[..i];
  }

  /** The body of the `forEach` at server/server.js:387-390 on the set built so far. */
  method AddCounterpart(ids: seq<int>, m: Message, u: int) returns (ids': seq<int>)
    ensures ids' == CounterpartStep(ids, m, u)
  {
    ids' := ids;
    if m.senderId == u && m.receiverId !in ids' {
      ids' := ids' + [m.receiverId];
    }
    if m.receiverId == u && m.senderId !in ids' {
      ids' := ids' + [m.senderId];
    }
  }

  /** The JavaScript loop: builds the conversation set by scanning the store. */
  method CollectCounterparts(ms: seq<Message>, u: int) returns (ids: seq<int>)
    ensures ids == Counterparts(ms, u)
  {
    ids := [];
    var i := 0;
    while i < |ms|
      invariant 0 <= i <= |ms|
      invariant ids == Counterparts(ms[..i], u)
    {
      CounterpartsExtend(ms, i, u);
      ids := AddCounterpart(ids, ms[i], u);
      i := i + 1;
    }
    assert ms[..|ms|] == ms;
  }

  /** An entry of GET /api/conversations/:userId. `None` is `undefined`. */
  datatype Summary = Summary(
    userId: int, userName: Option<string>, userAvatar: Option<string>,
    lastMessage: Option<string>, timestamp: Option<string>)

  /** The summary for one counterpart: directory entry and last pair message. */
  function Summarize(ms: seq<Message>, users: seq<Accounts.User>, u: int, other: int): Summary {
    var found := FindFirst(users, (usr: Accounts.User) => usr.id == other);
    var thread := PairQuery(ms, u, other);
    Summary(
      other,
      if found.Some? then Some(users[found.value].name) else None,
      if found.Some? then Some(users[found.value].avatar) else None,
      if thread != [] then Some(thread[|thread| - 1].message) else None,
      if thread != [] then Some(thread[|thread| - 1].timestamp) else None)
  }

  /** GET /api/conversations/:userId: one summary per counterpart, in
      counterpart order. */
  function Conversations(ms: seq<Message>, users: seq<Accounts.User>, u: int): (r: seq<Summary>)
    ensures |r| == |Counterparts(ms, u)|
    ensures forall i :: 0 <= i < |r| ==> r[i].userId == Counterparts(ms, u)[i]
  {
    var ids := Counterparts(ms, u);
    seq(|ids|, i requires 0 <= i < |ids| => Summarize(ms, users, u, ids[i]))
  }

  /** The route handler: the scanning loop, then one summary per id. */
  method ConversationsFor(ms: seq<Message>, users: seq<Accounts.User>, u: int) returns (r: seq<Summary>)
    ensures r == Conversations(ms, users, u)
  {
    var ids := CollectCounterparts(ms, u);
    r := seq(|ids|, i requires 0 <= i < |ids| => Summarize(ms, users, u, ids[i]));
  }

  /** One summary per user `u` has exchanged a message with, no user twice,
      ordered by first contact. */
  lemma ConversationsOnePerCounterpart(ms: seq<Message>, users: seq<Accounts.User>, u: int)
    ensures forall i, j :: 0 <= i < j < |Conversations(ms, users, u)| ==>
      Conversations(ms, users, u)[i].userId != Conversations(ms, users, u)[j].userId
    ensures forall x :: (exists i :: 0 <= i < |Conversations(ms, users, u)| && Conversations(ms, users, u)[i].userId == x)
                        <==> FirstContact(ms, u, x) < |ms|
    ensures forall i, j :: 0 <= i < j < |Conversations(ms, users, u)| ==>
      FirstContact(ms, u, Conversations(ms, users, u)[i].userId)
      < FirstContact(ms, u, Conversations(ms, users, u)[j].userId)
  {
    var ids := Counterparts(ms, u);
    CounterpartsInFirstContactOrder(ms, u);
    forall x | FirstContact(ms, u, x) < |ms|
      ensures exists i :: 0 <= i < |Conversations(ms, users, u)| && Conversations(ms, users, u)[i].userId == x
    {
      var i :| 0 <= i < |ids| && ids[i] == x;
      assert Conversations(ms, users, u)[i].userId == x;
    }
  }

  /** Each summary carries the text and timestamp of the last message between
      the two users in store order; every summary has one. */
  lemma ConversationLastMessage(ms: seq<Message>, users: seq<Accounts.User>, u: int, i: nat)
    requires i < |Conversations(ms, users, u)|
    ensures var s := Conversations(ms, users, u)[i];
      exists k :: && 0 <= k < |ms|
                  && Between(ms[k], u, s.userId)
                  && (forall j :: k < j < |ms| ==> !Between(ms[j], u, s.userId))
                  && s.lastMessage == Some(ms[k].message)
                  && s.timestamp == Some(ms[k].timestamp)
  {
    var x := Counterparts(ms, u)[i];
    var thread := PairQuery(ms, u, x);
    FilterLast(ms, InPair(u, x));
    var k := LastIndexWhere(ms, InPair(u, x));
    assert FirstContact(ms, u, x) < |ms|;
    assert k >= 0;
    assert thread[|thread| - 1] == ms[k];
  }

  /** Name and avatar come from the first directory entry with the counterpart's
      id; an unknown counterpart gets neither. */
  lemma ConversationDirectoryLookup(ms: seq<Message>, users: seq<Accounts.User>, u: int, i: nat)
    requires i < |Conversations(ms, users, u)|
    ensures var s := Conversations(ms, users, u)[i];
      && ((forall j :: 0 <= j < |users| ==> users[j].id != s.userId) ==>
            s.userName.None? && s.userAvatar.None?)
      && (forall j :: 0 <= j < |users| && users[j].id == s.userId &&
                      (forall j' :: 0 <= j' < j ==> users[j'].id != s.userId) ==>
            s.userName == Some(users[j].name) && s.userAvatar == Some(users[j].avatar))
  {
    var x := Counterparts(ms, u)[i];
    var found := FindFirst(users, (usr: Accounts.User) => usr.id == x);
    assert Conversations(ms, users, u)[i] == Summarize(ms, users, u, x);
  }
}
