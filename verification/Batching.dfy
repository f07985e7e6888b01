/** The outgoing messages of the AJAX client: while a post is under way messages are queued, and
    when it completes a batch of them is posted. */
module Batching {
  import opened Wrappers

  /** A message object; id is its identity. text stands for destination, message and type. */
  datatype Item = Item(id: nat, text: string, headers: Option<string>)

  datatype Post = Post(items: seq<Item>, headers: Option<string>)

  /** posts is everything handed to the adapter and sent everything the client was asked to send. */
  datatype Batch = Batch(queue: seq<Item>, inProgress: bool, posts: seq<Post>, sent: seq<Item>)

  datatype Event = Send(text: string, headers: Option<string>) | StartBatch | EndBatch

  /** The items that have headers, or those that have none, in order. */
  function Only(q: seq<Item>, headed: bool): seq<Item> {
    if q == [] then []
    else
      var last := q[|q| - 1];
      Only(q[..|q| - 1], headed) + (if last.headers.Some? == headed then [last] else [])
  }

  /** A queued message with headers goes alone, and only from the front of the queue; otherwise all
      messages without headers go together. */
  function NextPost(q: seq<Item>): Post
    requires q != []
  {
    if q[0].headers.Some? then Post([q[0]], q[0].headers) else Post(Only(q, false), None)
  }

  function Remaining(q: seq<Item>): seq<Item>
    requires q != []
  {
    if q[0].headers.Some? then q[1..] else Only(q, true)
  }

  function Step(b: Batch, e: Event): Batch {
    match e
    case Send(text, headers) =>
      var item := Item(|b.sent|, text, headers);
      if b.inProgress then b.(queue := b.queue + [item], sent := b.sent + [item])
      else b.(inProgress := true, posts := b.posts + [Post([item], headers)], sent := b.sent + [item])
    case StartBatch => b.(inProgress := true)
    case EndBatch =>
      if b.queue == [] then b.(inProgress := false)
      else b.(inProgress := true, posts := b.posts + [NextPost(b.queue)], queue := Remaining(b.queue))
  }

  function Run(b: Batch, es: seq<Event>): Batch {
    if es == [] then b else Step(Run(b, es[..|es| - 1]), es[|es| - 1])
  }

  const Idle: Batch := Batch([], false, [], [])

  // ---- the client object -----------------------------------------------------------------------

  class Amq {
    var messageQueue: seq<Item>
    var batchInProgress: bool
    var created: nat
    var posts: seq<Post>
    ghost var sent: seq<Item>

    ghost function State(): Batch
      reads this
    {
      Batch(messageQueue, batchInProgress, posts, sent)
    }

    ghost predicate Valid()
      reads this
    {
      created == |sent|
    }

    constructor ()
      ensures Valid() && State() == Idle
    {
      messageQueue, batchInProgress, created, posts, sent := [], false, 0, [], [];
    }

    method SendJmsMessage(text: string, headers: Option<string>)
      requires Valid()
      modifies this
      ensures Valid() && State() == Step(old(State()), Send(text, headers))
      ensures !old(batchInProgress) ==> batchInProgress && messageQueue == old(messageQueue)
                                        && posts == old(posts) + [Post([Item(old(created), text, headers)], headers)]
    {
      var message := Item(created, text, headers);
      created, sent := created + 1, sent + [message];
      if batchInProgress {
        messageQueue := messageQueue + [message];
      } else {
        Start();
        posts := posts + [Post([message], headers)];
      }
    }

    method Start()
      modifies this`batchInProgress
      ensures State() == Step(old(State()), StartBatch)
    {
      batchInProgress := true;
    }

    method End()
      requires Valid()
      modifies this
      ensures Valid() && State() == Step(old(State()), EndBatch)
      ensures old(messageQueue) == [] ==> !batchInProgress && posts == old(posts) && messageQueue == []
    {
      if |messageQueue| > 0 {
        var messagesToSend, messagesToQueue, outgoingHeaders := Partition(messageQueue);
        messageQueue := messagesToQueue;
        Start();
        posts := posts + [Post(messagesToSend, outgoingHeaders)];
      } else {
        batchInProgress := false;
      }
    }
  }

  /** The loop of endBatch. */
  method Partition(queue: seq<Item>) returns (toSend: seq<Item>, toQueue: seq<Item>, outgoing: Option<string>)
    requires queue != []
    ensures Post(toSend, outgoing) == NextPost(queue) && toQueue == Remaining(queue)
  {
    toSend, toQueue, outgoing := [], [], None;
    for i := 0 to |queue|
      invariant i == 0 ==> toSend == [] && toQueue == [] && outgoing == None
      invariant i > 0 && queue[0].headers.Some? ==>
        toSend == [queue[0]] && toQueue == queue[1..i] && outgoing == queue[0].headers
      invariant i > 0 && queue[0].headers.None? ==>
        toSend == Only(queue[..i], false) && toQueue == Only(queue[..i], true) && outgoing == None && toSend != []
    {
      OnlyNext(queue, i, false);
      OnlyNext(queue, i, true);
      if queue[i].headers.Some? && |toSend| == 0 {
        toSend := toSend + [queue[i]];
        outgoing := queue[i].headers;
      } else if queue[i].headers.None? && outgoing.None? {
        toSend := toSend + [queue[i]];
      } else {
        toQueue := toQueue + [queue[i]];
      }
    }
    assert queue[..|queue|] == queue;
  }

  lemma OnlyNext(q: seq<Item>, i: nat, headed: bool)
    requires i < |q|
    ensures Only(q[..i + 1], headed) == Only(q[..i], headed) + (if q[i].headers.Some? == headed then [q[i]] else [])
  {
    assert q[..i + 1][..i] == q[..i];
  }

  // ---- facts about the two kinds ---------------------------------------------------------------

  lemma {:induction false} OnlyConcat(x: seq<Item>, y: seq<Item>, headed: bool)
    ensures Only(x + y, headed) == Only(x, headed) + Only(y, headed)
  {
    if y == [] {
      assert x + y == x;
    } else {
      assert (x + y)[..|x + y| - 1] == x + y[..|y| - 1];
      OnlyConcat(x, y[..|y| - 1], headed);
    }
  }

  lemma OnlySnoc(q: seq<Item>, x: Item, headed: bool)
    ensures Only(q + [x], headed) == if x.headers.Some? == headed then Only(q, headed) + [x] else Only(q, headed)
  {
    assert (q + [x])[..|q|] == q;
  }

  lemma {:induction false} OnlyTwice(q: seq<Item>, headed: bool)
    ensures Only(Only(q, headed), headed) == Only(q, headed)
  {
    if q != [] {
      var front, last := q[..|q| - 1], q[|q| - 1];
      OnlyTwice(front, headed);
      OnlySnoc(Only(front, headed), last, headed);
    }
  }

  lemma {:induction false} OnlyOther(q: seq<Item>, headed: bool)
    ensures Only(Only(q, headed), !headed) == []
  {
    if q != [] {
      var front, last := q[..|q| - 1], q[|q| - 1];
      assert q == front + [last];
      OnlySnoc(front, last, headed);
      OnlyOther(front, headed);
      OnlySnoc(Only(front, headed), last, !headed);
    }
  }

  lemma {:induction false} OnlyMembers(q: seq<Item>, headed: bool)
    ensures forall x :: x in Only(q, headed) <==> x in q && x.headers.Some? == headed
  {
    if q != [] {
      var front, last := q[..|q| - 1], q[|q| - 1];
      OnlyMembers(front, headed);
      assert q == front + [last];
    }
  }

  lemma {:induction false} OnlySplits(q: seq<Item>)
    ensures multiset(q) == multiset(Only(q, true)) + multiset(Only(q, false))
  {
    if q != [] {
      assert q == q[..|q| - 1] + [q[|q| - 1]];
      OnlySplits(q[..|q| - 1]);
    }
  }

  function Posted(posts: seq<Post>): seq<Item> {
    if posts == [] then [] else Posted(posts[..|posts| - 1]) + posts[|posts| - 1].items
  }

  lemma PostedSnoc(posts: seq<Post>, p: Post)
    ensures Posted(posts + [p]) == Posted(posts) + p.items
  {
    assert (posts + [p])[..|posts|] == posts;
  }

  // ---- order -------------------------------------------------------------------------------------

  /** Of each kind, what was posted followed by what is queued is what was sent. */
  ghost predicate InOrder(b: Batch, headed: bool) {
    Only(Posted(b.posts) + b.queue, headed) == Only(b.sent, headed)
  }

  /** Sorting a queue by kind does not change the order within each kind. */
  lemma SortedByKind(q: seq<Item>, headed: bool)
    ensures Only(Only(q, false) + Only(q, true), headed) == Only(q, headed)
  {
    OnlyConcat(Only(q, false), Only(q, true), headed);
    OnlyTwice(q, headed);
    OnlyOther(q, !headed);
    if headed {
      assert Only(Only(q, false), headed) == [];
    } else {
      assert Only(Only(q, true), headed) == [];
    }
  }

  lemma EndKeepsOrder(done: seq<Item>, q: seq<Item>, headed: bool)
    requires q != []
    ensures Only(done + NextPost(q).items + Remaining(q), headed) == Only(done + q, headed)
  {
    if q[0].headers.Some? {
      assert done + [q[0]] + q[1..] == done + q;
    } else {
      assert done + Only(q, false) + Only(q, true) == done + (Only(q, false) + Only(q, true));
      OnlyConcat(done, Only(q, false) + Only(q, true), headed);
      OnlyConcat(done, q, headed);
      SortedByKind(q, headed);
    }
  }

  lemma SendKeepsOrder(b: Batch, text: string, headers: Option<string>, headed: bool)
    requires InOrder(b, headed) && (!b.inProgress ==> b.queue == [])
    ensures InOrder(Step(b, Send(text, headers)), headed)
  {
    var b' := Step(b, Send(text, headers));
    var item := Item(|b.sent|, text, headers);
    PostedSnoc(b.posts, Post([item], headers));
    assert Posted(b'.posts) + b'.queue == (Posted(b.posts) + b.queue) + [item];
    OnlySnoc(Posted(b.posts) + b.queue, item, headed);
    OnlySnoc(b.sent, item, headed);
  }

  lemma StepKeepsOrder(b: Batch, e: Event, headed: bool)
    requires InOrder(b, headed) && (!b.inProgress ==> b.queue == [])
    ensures InOrder(Step(b, e), headed)
  {
    if e.Send? {
      SendKeepsOrder(b, e.text, e.headers, headed);
    } else if e.EndBatch? && b.queue != [] {
      PostedSnoc(b.posts, NextPost(b.queue));
      EndKeepsOrder(Posted(b.posts), b.queue, headed);
    }
  }

  /** Nothing is lost and nothing is posted twice. */
  lemma Conserved(b: Batch)
    requires InOrder(b, true) && InOrder(b, false)
    ensures multiset(Posted(b.posts)) + multiset(b.queue) == multiset(b.sent)
    ensures forall x :: x in b.sent <==> x in Posted(b.posts) || x in b.queue
  {
    OnlySplits(Posted(b.posts) + b.queue);
    OnlySplits(b.sent);
    assert multiset(Posted(b.posts) + b.queue) == multiset(b.sent);
    forall x | x in b.sent || x in Posted(b.posts) + b.queue ensures x in b.sent && x in Posted(b.posts) + b.queue {
      assert x in multiset(b.sent);
    }
  }

  // ---- no overtaking -----------------------------------------------------------------------------

  ghost predicate Numbered(sent: seq<Item>) {
    forall i :: 0 <= i < |sent| ==> sent[i].id == i
  }

  /** A post carries one message and its headers, or any number of messages without headers. */
  ghost predicate GoodPost(p: Post) {
    || (|p.items| == 1 && p.items[0].headers == p.headers)
    || (p.items != [] && p.headers == None && forall x :: x in p.items ==> x.headers == None)
  }

  ghost predicate GoodPosts(posts: seq<Post>) {
    forall i :: 0 <= i < |posts| ==> GoodPost(posts[i])
  }

  /** Whatever was sent before a queued message was posted, or is queued in front of it. */
  ghost predicate Behind(b: Batch) {
    forall i, y :: 0 <= i < |b.queue| && y in b.sent && y.id < b.queue[i].id ==>
      y in Posted(b.posts) || y in b.queue[..i]
  }

  /** Whatever was sent before message x was posted before post number p. */
  ghost predicate After(b: Batch, p: nat, x: Item)
    requires p <= |b.posts|
  {
    forall y :: y in b.sent && y.id < x.id ==> y in Posted(b.posts[..p])
  }

  ghost predicate NoOvertaking(b: Batch) {
    forall p, x :: 0 <= p < |b.posts| && x in b.posts[p].items && x.headers.Some? ==> After(b, p, x)
  }

  lemma {:induction false} OnlyIndex(q: seq<Item>, headed: bool, j: nat) returns (i: nat)
    requires j < |Only(q, headed)|
    ensures i < |q| && q[i] == Only(q, headed)[j] && Only(q, headed)[..j] == Only(q[..i], headed)
  {
    var front := q[..|q| - 1];
    if j < |Only(front, headed)| {
      i := OnlyIndex(front, headed, j);
      assert front[..i] == q[..i];
    } else {
      i := |q| - 1;
    }
  }

  /** Nothing is numbered like a message that is yet to be sent. */
  lemma SentBefore(b: Batch, x: Item, y: Item, next: Item)
    requires Numbered(b.sent) && next.id == |b.sent| && (x in b.sent || x == next)
    requires y in b.sent + [next] && y.id < x.id
    ensures y in b.sent && y != next
  {
  }

  lemma StepKeepsBehind(b: Batch, e: Event)
    requires Invariant(b)
    ensures Behind(Step(b, e))
  {
    var b' := Step(b, e);
    Conserved(b);
    match e
    case Send(text, headers) =>
      if b.inProgress {
        forall i, y | 0 <= i < |b'.queue| && y in b'.sent && y.id < b'.queue[i].id
          ensures y in Posted(b'.posts) || y in b'.queue[..i]
        {
          SentBefore(b, b'.queue[i], y, b'.sent[|b.sent|]);
          assert b'.queue[..i] == b.queue[..i];
        }
      }
    case StartBatch =>
    case EndBatch =>
      if b.queue != [] {
        PostedSnoc(b.posts, NextPost(b.queue));
        forall j, y | 0 <= j < |b'.queue| && y in b.sent && y.id < b'.queue[j].id
          ensures y in Posted(b'.posts) || y in b'.queue[..j]
        {
          EndKeepsBehind(b, j, y);
        }
      }
  }

  /** What was in front of a message that stays queued is posted or still in front of it. */
  lemma FrontOfTail(q: seq<Item>, j: nat, y: Item)
    requires j + 1 < |q| && y in q[..j + 1]
    ensures y == q[0] || y in q[1..][..j]
  {
    assert q[..j + 1] == [q[0]] + q[1..][..j];
  }

  lemma FrontOfHeaded(q: seq<Item>, j: nat) returns (i: nat)
    requires j < |Only(q, true)|
    ensures i < |q| && q[i] == Only(q, true)[j]
    ensures forall y :: y in q[..i] ==> y in Only(q, false) || y in Only(q, true)[..j]
  {
    i := OnlyIndex(q, true, j);
    OnlyMembers(q[..i], true);
    OnlyMembers(q, false);
    assert forall x :: x in q[..i] ==> x in q;
  }

  lemma EndKeepsBehind(b: Batch, j: nat, y: Item)
    requires Behind(b) && b.queue != [] && j < |Remaining(b.queue)|
    requires y in b.sent && y.id < Remaining(b.queue)[j].id
    ensures y in Posted(b.posts) || y in NextPost(b.queue).items || y in Remaining(b.queue)[..j]
  {
    if b.queue[0].headers.Some? {
      assert b.queue[1..][j] == b.queue[j + 1];
      if y in b.queue[..j + 1] {
        FrontOfTail(b.queue, j, y);
      }
    } else {
      var i := FrontOfHeaded(b.queue, j);
    }
  }

  // ---- the whole invariant -----------------------------------------------------------------------

  ghost predicate Invariant(b: Batch) {
    && (!b.inProgress ==> b.queue == [])
    && InOrder(b, true) && InOrder(b, false)
    && Numbered(b.sent) && Behind(b) && NoOvertaking(b) && GoodPosts(b.posts)
  }

  lemma EarlierStays(b: Batch, e: Event, p: nat, x: Item)
    requires Numbered(b.sent) && p < |b.posts| && After(b, p, x) && x in b.sent
    ensures After(Step(b, e), p, x)
  {
    var b' := Step(b, e);
    assert b'.posts[..p] == b.posts[..p];
    forall y | y in b'.sent && y.id < x.id ensures y in b.sent {
      if e.Send? {
        SentBefore(b, x, y, b'.sent[|b.sent|]);
      }
    }
  }

  lemma StepKeepsOvertaking(b: Batch, e: Event)
    requires Invariant(b)
    ensures NoOvertaking(Step(b, e))
  {
    var b' := Step(b, e);
    Conserved(b);
    forall p, x | 0 <= p < |b'.posts| && x in b'.posts[p].items && x.headers.Some? ensures After(b', p, x) {
      if p < |b.posts| {
        InPost(b.posts, p, x);
        EarlierStays(b, e, p, x);
      } else {
        assert b'.posts[..p] == b.posts;
        if e.EndBatch? {
          NextHeaded(b, x);
        }
      }
    }
  }

  lemma {:induction false} InPost(posts: seq<Post>, p: nat, x: Item)
    requires p < |posts| && x in posts[p].items
    ensures x in Posted(posts)
  {
    if p < |posts| - 1 {
      InPost(posts[..|posts| - 1], p, x);
    }
  }

  /** A message with headers is only posted from the front of the queue. */
  lemma NextHeaded(b: Batch, x: Item)
    requires Behind(b) && b.queue != [] && x in NextPost(b.queue).items && x.headers.Some?
    ensures x == b.queue[0] && forall y :: y in b.sent && y.id < x.id ==> y in Posted(b.posts)
  {
    OnlyMembers(b.queue, false);
    assert b.queue[..0] == [];
  }

  lemma NextIsGood(q: seq<Item>)
    requires q != []
    ensures GoodPost(NextPost(q))
  {
    OnlyMembers(q, false);
    if q[0].headers.None? {
      assert q[0] in Only(q, false);
    }
  }

  lemma StepKeepsPosts(b: Batch, e: Event)
    requires Numbered(b.sent) && GoodPosts(b.posts) && (!b.inProgress ==> b.queue == [])
    ensures var b' := Step(b, e); Numbered(b'.sent) && GoodPosts(b'.posts) && (!b'.inProgress ==> b'.queue == [])
  {
    if e.EndBatch? && b.queue != [] {
      NextIsGood(b.queue);
    }
  }

  lemma StepKeepsInvariant(b: Batch, e: Event)
    requires Invariant(b)
    ensures Invariant(Step(b, e))
  {
    StepKeepsOrder(b, e, true);
    StepKeepsOrder(b, e, false);
    StepKeepsBehind(b, e);
    StepKeepsOvertaking(b, e);
    StepKeepsPosts(b, e);
  }

  /** Over every run of sends and batches: nothing waits while nothing is under way; both kinds of
      messages keep their order; every post is one message with its headers or messages without
      any; and a message with headers is never posted before a message that was sent earlier. */
  lemma {:induction false} EveryRun(es: seq<Event>)
    ensures Invariant(Run(Idle, es))
  {
    if es != [] {
      EveryRun(es[..|es| - 1]);
      StepKeepsInvariant(Run(Idle, es[..|es| - 1]), es[|es| - 1]);
    }
  }

  /** Over every run, what was posted and what is queued is exactly what was sent, and no message
      is posted twice. */
  lemma EveryRunConserves(es: seq<Event>)
    ensures PostedOnce(Run(Idle, es))
  {
    EveryRun(es);
    Conserved(Run(Idle, es));
    OnceEach(Run(Idle, es).sent);
  }

  ghost predicate PostedOnce(b: Batch) {
    && multiset(Posted(b.posts)) + multiset(b.queue) == multiset(b.sent)
    && forall x :: multiset(b.sent)[x] <= 1
  }

  lemma {:induction false} OnceEach(sent: seq<Item>)
    requires Numbered(sent)
    ensures forall x :: multiset(sent)[x] <= 1
  {
    if sent != [] {
      var front, last := sent[..|sent| - 1], sent[|sent| - 1];
      OnceEach(front);
      assert sent == front + [last];
      assert last !in front;
      assert multiset(front)[last] == 0;
    }
  }

  // ---- how long a message waits ------------------------------------------------------------------

  /** How many messages with headers stand in front of the first one without. */
  function Leading(q: seq<Item>): nat {
    if q == [] || q[0].headers.None? then 0 else 1 + Leading(q[1..])
  }

  /** Which endBatch from now on posts message i: one with headers waits for those with headers in
      front of it, and for one batch of the others if there are any in front of it; one without
      headers goes with the first of its kind. */
  function Rounds(q: seq<Item>, i: nat): nat
    requires i < |q|
  {
    if q[i].headers.Some? then |Only(q[..i + 1], true)| + (if Only(q[..i], false) != [] then 1 else 0)
    else 1 + Leading(q)
  }

  lemma {:induction false} LeadingBound(q: seq<Item>, i: nat)
    requires i < |q| && q[i].headers.None?
    ensures Leading(q) <= i
    ensures forall y :: Leading(q + [y]) == Leading(q)
  {
    forall y ensures Leading(q + [y]) == Leading(q) {
      if q[0].headers.Some? {
        LeadingBound(q[1..], i - 1);
        assert (q + [y])[1..] == q[1..] + [y];
      }
    }
    if q[0].headers.Some? {
      LeadingBound(q[1..], i - 1);
    }
  }

  lemma {:induction false} OnlyLengths(q: seq<Item>)
    ensures |Only(q, true)| + |Only(q, false)| == |q|
  {
    if q != [] {
      OnlyLengths(q[..|q| - 1]);
    }
  }

  /** The wait is at most one batch for each place in the queue. */
  lemma RoundsBound(q: seq<Item>, i: nat)
    requires i < |q|
    ensures 1 <= Rounds(q, i) <= i + 1
  {
    OnlyNext(q, i, true);
    OnlyLengths(q[..i]);
    if q[i].headers.None? {
      LeadingBound(q, i);
    }
  }

  /** New messages do not delay those that are waiting. */
  lemma SendKeepsRounds(q: seq<Item>, i: nat, y: Item)
    requires i < |q|
    ensures Rounds(q + [y], i) == Rounds(q, i)
  {
    assert (q + [y])[..i + 1] == q[..i + 1] && (q + [y])[..i] == q[..i];
    if q[i].headers.None? {
      LeadingBound(q, i);
    }
  }

  lemma OnlyOne(x: Item, headed: bool)
    ensures Only([x], headed) == if x.headers.Some? == headed then [x] else []
  {
    assert [x] == [] + [x];
    OnlySnoc([], x, headed);
  }

  /** The front of the queue had headers and is gone. */
  lemma RoundsBehindHeaded(q: seq<Item>, i: nat)
    requires 0 < i < |q| && q[0].headers.Some?
    ensures Rounds(q, i) == 1 + Rounds(q[1..], i - 1)
  {
    if q[i].headers.Some? {
      assert q[..i + 1] == [q[0]] + q[1..][..i] && q[..i] == [q[0]] + q[1..][..i - 1];
      OnlyConcat([q[0]], q[1..][..i], true);
      OnlyConcat([q[0]], q[1..][..i - 1], false);
      OnlyOne(q[0], true);
      OnlyOne(q[0], false);
    }
  }

  /** Where a message ends up when only its kind remains. */
  lemma {:induction false} OnlyPlace(q: seq<Item>, i: nat, headed: bool)
    requires i < |q| && q[i].headers.Some? == headed
    ensures var j := |Only(q[..i], headed)|; j < |Only(q, headed)| && Only(q, headed)[j] == q[i]
  {
    var front := q[..|q| - 1];
    if i == |q| - 1 {
      assert q[..i] == front;
    } else {
      assert front[..i] == q[..i];
      OnlyPlace(front, i, headed);
    }
  }

  lemma {:induction false} AllHeaded(q: seq<Item>, j: nat)
    requires j < |q| && forall x :: x in q ==> x.headers.Some?
    ensures Rounds(q, j) == j + 1
  {
    assert q[j] in q;
    HeadedOnly(q[..j + 1]);
    HeadedOnly(q[..j]);
  }

  lemma {:induction false} HeadedOnly(q: seq<Item>)
    requires forall x :: x in q ==> x.headers.Some?
    ensures Only(q, true) == q && Only(q, false) == []
  {
    if q != [] {
      var front, last := q[..|q| - 1], q[|q| - 1];
      assert q == front + [last] && last in q;
      HeadedOnly(front);
    }
  }

  /** The front of the queue had no headers, and all of its kind are gone. */
  lemma RoundsBehindPlain(q: seq<Item>, i: nat) returns (j: nat)
    requires i < |q| && q[0].headers.None? && q[i].headers.Some?
    ensures j < |Only(q, true)| && Only(q, true)[j] == q[i] && Rounds(q, i) == 1 + Rounds(Only(q, true), j)
  {
    j := |Only(q[..i], true)|;
    OnlyPlace(q, i, true);
    OnlyMembers(q, true);
    AllHeaded(Only(q, true), j);
    OnlyNext(q, i, true);
    OnlyMembers(q[..i], false);
    assert q[0] in q[..i];
  }

  ghost predicate Waiting(q: seq<Item>, x: Item, k: nat) {
    exists j :: 0 <= j < |q| && q[j] == x && Rounds(q, j) == k
  }

  /** One batch: a message whose round has come is posted, every other is one round nearer. */
  lemma EndServes(q: seq<Item>, i: nat)
    requires i < |q|
    ensures if Rounds(q, i) == 1 then q[i] in NextPost(q).items else Waiting(Remaining(q), q[i], Rounds(q, i) - 1)
  {
    RoundsBound(q, i);
    if q[0].headers.Some? {
      if i == 0 {
        assert q[..1] == [q[0]];
        OnlyOne(q[0], true);
      } else {
        RoundsBehindHeaded(q, i);
        RoundsBound(q[1..], i - 1);
        assert q[1..][i - 1] == q[i];
      }
    } else if q[i].headers.None? {
      OnlyMembers(q, false);
    } else {
      var j := RoundsBehindPlain(q, i);
      RoundsBound(Only(q, true), j);
    }
  }

  function Ends(es: seq<Event>): nat {
    if es == [] then 0 else Ends(es[..|es| - 1]) + (if es[|es| - 1].EndBatch? then 1 else 0)
  }

  lemma StepServes(b: Batch, x: Item, k: nat, e: Event)
    requires Invariant(b) && Waiting(b.queue, x, k)
    ensures var b' := Step(b, e);
            if !e.EndBatch? then Waiting(b'.queue, x, k)
            else if k == 1 then x in Posted(b'.posts)
            else Waiting(b'.queue, x, k - 1)
  {
    var j :| 0 <= j < |b.queue| && b.queue[j] == x && Rounds(b.queue, j) == k;
    RoundsBound(b.queue, j);
    match e
    case Send(text, headers) =>
      var item := Item(|b.sent|, text, headers);
      SendKeepsRounds(b.queue, j, item);
      assert (b.queue + [item])[j] == x;
    case StartBatch =>
    case EndBatch =>
      EndServes(b.queue, j);
      PostedSnoc(b.posts, NextPost(b.queue));
  }

  lemma StepKeepsPosted(b: Batch, x: Item, e: Event)
    requires x in Posted(b.posts)
    ensures x in Posted(Step(b, e).posts)
  {
    if Step(b, e).posts != b.posts {
      PostedSnoc(b.posts, Step(b, e).posts[|b.posts|]);
    }
  }

  /** A queued message is posted by exactly the endBatch call that its round says, counted from
      now, whatever is sent in the meantime. */
  lemma {:induction false} WaitIsExact(b: Batch, i: nat, es: seq<Event>)
    requires Invariant(b) && i < |b.queue|
    ensures Invariant(Run(b, es))
    ensures var b', x, k := Run(b, es), b.queue[i], Rounds(b.queue, i);
            if Ends(es) < k then Waiting(b'.queue, x, k - Ends(es)) else x in Posted(b'.posts)
  {
    if es != [] {
      var front, last := es[..|es| - 1], es[|es| - 1];
      WaitIsExact(b, i, front);
      StepKeepsInvariant(Run(b, front), last);
      if Ends(front) < Rounds(b.queue, i) {
        StepServes(Run(b, front), b.queue[i], Rounds(b.queue, i) - Ends(front), last);
      } else {
        StepKeepsPosted(Run(b, front), b.queue[i], last);
      }
    }
  }

  /** In particular it has been posted after i + 1 calls, and not before its round. */
  lemma WaitIsBounded(b: Batch, i: nat, es: seq<Event>)
    requires Invariant(b) && i < |b.queue|
    ensures b.queue[i] in Posted(Run(b, es).posts) <==> Ends(es) >= Rounds(b.queue, i)
    ensures Ends(es) >= i + 1 ==> b.queue[i] in Posted(Run(b, es).posts)
  {
    WaitIsExact(b, i, es);
    RoundsBound(b.queue, i);
    var b' := Run(b, es);
    Conserved(b');
    OnceEach(b'.sent);
    if Ends(es) < Rounds(b.queue, i) {
      NotYetPosted(b', b.queue[i]);
    }
  }

  lemma NotYetPosted(b: Batch, x: Item)
    requires PostedOnce(b) && x in b.queue
    ensures x !in Posted(b.posts)
  {
    assert multiset(b.queue)[x] >= 1;
    assert multiset(b.sent)[x] <= 1;
    assert multiset(b.sent)[x] == multiset(Posted(b.posts))[x] + multiset(b.queue)[x];
  }

  // ---- going idle ----------------------------------------------------------------------------------

  /** When a post completes and nothing is queued the client is idle, and the next message is posted
      at once. */
  lemma IdleSendsAtOnce(b: Batch, text: string, headers: Option<string>)
    requires b.queue == []
    ensures var idle := Step(b, EndBatch);
            var next := Step(idle, Send(text, headers));
            && !idle.inProgress && idle.queue == [] && idle.posts == b.posts
            && next.inProgress && next.queue == [] && |next.posts| == |b.posts| + 1
            && var p := next.posts[|b.posts|];
            |p.items| == 1 && p.items[0].text == text && p.items[0].headers == headers == p.headers
  {
  }

  /** The messages that the events ask for. */
  function Sends(es: seq<Event>): seq<Event> {
    if es == [] then [] else Sends(es[..|es| - 1]) + (if es[|es| - 1].Send? then [es[|es| - 1]] else [])
  }

  /** Every send makes one message, with its text and its headers, in order. */
  lemma {:induction false} SentAre(es: seq<Event>)
    ensures var sent := Run(Idle, es).sent;
            && |sent| == |Sends(es)|
            && forall i :: 0 <= i < |sent| ==> Sends(es)[i] == Send(sent[i].text, sent[i].headers)
  {
    if es != [] {
      SentAre(es[..|es| - 1]);
    }
  }

  /** endBatch is only called when a post completes, and nobody calls startBatch from outside. */
  ghost predicate Paced(es: seq<Event>) {
    forall i :: 0 <= i < |es| ==>
      es[i] != StartBatch && (es[i] == EndBatch ==> Ends(es[..i]) < |Run(Idle, es[..i]).posts|)
  }

  lemma PacedFront(es: seq<Event>)
    requires Paced(es) && es != []
    ensures Paced(es[..|es| - 1])
  {
    var front := es[..|es| - 1];
    forall i | 0 <= i < |front| ensures front[i] == es[i] && front[..i] == es[..i] {
    }
  }

  /** In such runs the client is in progress exactly while one post is outstanding, and there is never
      more than one. */
  lemma {:induction false} OneOutstanding(es: seq<Event>)
    requires Paced(es)
    ensures var b := Run(Idle, es); |b.posts| == Ends(es) + if b.inProgress then 1 else 0
  {
    if es != [] {
      PacedFront(es);
      OneOutstanding(es[..|es| - 1]);
    }
  }

  /** Once every post has completed, every message was posted, exactly once. */
  lemma AllPosted(es: seq<Event>)
    requires Paced(es) && |Run(Idle, es).posts| == Ends(es)
    ensures var b := Run(Idle, es); b.queue == [] && multiset(Posted(b.posts)) == multiset(b.sent)
  {
    OneOutstanding(es);
    EveryRun(es);
    EveryRunConserves(es);
  }

  function Completions(n: nat): seq<Event> {
    seq(n, i => EndBatch)
  }

  lemma {:induction false} RemainingIsShorter(q: seq<Item>)
    requires q != []
    ensures |Remaining(q)| < |q|
  {
    if q[0].headers.None? {
      OnlyLengths(q);
      OnlyMembers(q, false);
      assert q[0] in Only(q, false);
    }
  }

  lemma {:induction false} QueueShrinks(b: Batch, n: nat)
    requires n <= |b.queue|
    ensures |Run(b, Completions(n)).queue| <= |b.queue| - n
  {
    if n > 0 {
      assert Completions(n)[..n - 1] == Completions(n - 1);
      QueueShrinks(b, n - 1);
      var before := Run(b, Completions(n - 1));
      if before.queue != [] {
        RemainingIsShorter(before.queue);
      }
    }
  }

  /** If nothing is sent in the meantime, the client is idle after as many completed posts as there were
      messages queued, and one more. */
  lemma Drains(b: Batch)
    ensures var b' := Run(b, Completions(|b.queue| + 1)); b'.queue == [] && !b'.inProgress
  {
    var n := |b.queue|;
    QueueShrinks(b, n);
    assert Completions(n + 1)[..n] == Completions(n);
  }
}
