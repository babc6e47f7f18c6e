/**
 verl/checkpoint_engine/nixl_checkpoint_engine.py, NixlAgent: waiting for the next message, and for the next
 notification, of one remote agent. What the socket delivers and what the polls of the NIXL agent return are
 inputs; when they run out the coroutine is still waiting. NixlChain has one FIFO queue of each kind for a link.
 */
module NixlAgent {
  import opened Wrappers

  /** Items of one remote agent. */
  datatype Batch<T> = Batch(from: string, items: seq<T>)

  /** What get_new_notifs returned: agents with their new notifications, in iteration order. */
  type Poll<T> = seq<Batch<T>>

  /** The state in which a call returns or is left waiting; `rest` is the input that it has not looked at. */
  datatype Outcome<T, Input> =
    | Waiting(queues: map<string, seq<T>>)
    | Got(from: string, item: T, queues: map<string, seq<T>>, rest: seq<Input>)

  /** `queues[name]` of a defaultdict(deque) */
  function Queue<T>(queues: map<string, seq<T>>, name: string): seq<T> {
    if name in queues then queues[name] else []
  }

  function Extended<T>(queues: map<string, seq<T>>, b: Batch<T>): map<string, seq<T>> {
    queues[b.from := Queue(queues, b.from) + b.items]
  }

  function Popped<T, Input>(queues: map<string, seq<T>>, name: string, rest: seq<Input>): Outcome<T, Input>
    requires Queue(queues, name) != []
  {
    Got(name, Queue(queues, name)[0], queues[name := Queue(queues, name)[1..]], rest)
  }

  // ---------------------------------------------------------------- get_notification

  function Absorbed<T>(queues: map<string, seq<T>>, poll: Poll<T>): map<string, seq<T>> {
    if poll == [] then queues else Extended(Absorbed(queues, poll[..|poll| - 1]), poll[|poll| - 1])
  }

  /** The loop over the poll assigns its argument: the name waited for is that of the last agent listed. */
  function LastListed<T>(poll: Poll<T>, name: string): string {
    if poll == [] then name else poll[|poll| - 1].from
  }

  function AwaitNotification<T>(queues: map<string, seq<T>>, name: string, polls: seq<Poll<T>>): Outcome<T, Poll<T>>
    decreases |polls|
  {
    if Queue(queues, name) != [] then Popped(queues, name, polls)
    else if polls == [] then Waiting(queues)
    else AwaitNotification(Absorbed(queues, polls[0]), LastListed(polls[0], name), polls[1..])
  }

  lemma NextListed<T>(queues: map<string, seq<T>>, name: string, poll: Poll<T>, i: nat)
    requires i < |poll|
    ensures Absorbed(queues, poll[..i + 1]) == Extended(Absorbed(queues, poll[..i]), poll[i])
    ensures LastListed(poll[..i + 1], name) == poll[i].from
  {
    assert poll[..i + 1][..i] == poll[..i];
  }

  lemma NextPoll<T>(queues: map<string, seq<T>>, name: string, polls: seq<Poll<T>>, k: nat)
    requires k < |polls| && Queue(queues, name) == []
    ensures AwaitNotification(queues, name, polls[k..]) ==
            AwaitNotification(Absorbed(queues, polls[k]), LastListed(polls[k], name), polls[k + 1..])
  {
    assert polls[k..][1..] == polls[k + 1..];
  }

  // ---------------------------------------------------------------- read_message

  function AwaitMessage<T>(queues: map<string, seq<T>>, name: string, arrivals: seq<Batch<T>>): Outcome<T, Batch<T>>
    decreases |arrivals|
  {
    if Queue(queues, name) != [] then Popped(queues, name, arrivals)
    else if arrivals == [] then Waiting(queues)
    else AwaitMessage(Extended(queues, arrivals[0]), name, arrivals[1..])
  }

  class NixlAgent<Notification, Message> {
    var notifications: map<string, seq<Notification>>
    var messages: map<string, seq<Message>>

    constructor ()
      ensures notifications == map[] && messages == map[]
    {
      notifications, messages := map[], map[];
    }

    method GetNotification(remoteName: string, polls: seq<Poll<Notification>>) returns (r: Option<Notification>)
      modifies this`notifications
      ensures match AwaitNotification(old(notifications), remoteName, polls)
              case Waiting(queues) => r == None && notifications == queues
              case Got(_, item, queues, _) => r == Some(item) && notifications == queues
    {
      var name, k := remoteName, 0;
      while |Queue(notifications, name)| == 0
        invariant k <= |polls|
        invariant AwaitNotification(notifications, name, polls[k..]) ==
                  AwaitNotification(old(notifications), remoteName, polls)
        decreases |polls| - k
      {
        if k == |polls| { return None; }
        var notifs := polls[k];
        ghost var before, asked := notifications, name;
        for i := 0 to |notifs|
          invariant notifications == Absorbed(before, notifs[..i]) && name == LastListed(notifs[..i], asked)
        {
          NextListed(before, asked, notifs, i);
          name := notifs[i].from;
          notifications := Extended(notifications, notifs[i]);
        }
        assert notifs[..|notifs|] == notifs;
        NextPoll(before, asked, polls, k);
        k := k + 1;
      }
      var queue := Queue(notifications, name);
      notifications := notifications[name := queue[1..]];
      return Some(queue[0]);
    }

    method ReadMessage(agentName: string, arrivals: seq<Batch<Message>>) returns (r: Option<Message>)
      requires forall i :: 0 <= i < |arrivals| ==> |arrivals[i].items| == 1
      modifies this`messages
      ensures match AwaitMessage(old(messages), agentName, arrivals)
              case Waiting(queues) => r == None && messages == queues
              case Got(_, item, queues, _) => r == Some(item) && messages == queues
      ensures var sent := Queue(old(messages), agentName) + From(arrivals, agentName);
              r == if sent == [] then None else Some(sent[0])
    {
      ghost var outcome := AwaitMessage(messages, agentName, arrivals);
      MessageIsTheOldest(messages, agentName, arrivals);
      var k := 0;
      while |Queue(messages, agentName)| == 0
        invariant k <= |arrivals|
        invariant AwaitMessage(messages, agentName, arrivals[k..]) == outcome
        decreases |arrivals| - k
      {
        if k == |arrivals| { return None; }
        messages := Extended(messages, arrivals[k]);
        assert arrivals[k..][1..] == arrivals[k + 1..];
        k := k + 1;
      }
      var queue := Queue(messages, agentName);
      assert outcome == Popped(messages, agentName, arrivals[k..]);
      messages := messages[agentName := queue[1..]];
      return Some(queue[0]);
    }
  }

  // ---------------------------------------------------------------- nothing is lost

  /** All items of one agent among some batches, in order. */
  function From<T>(batches: seq<Batch<T>>, name: string): seq<T> {
    if batches == [] then []
    else (if batches[0].from == name then batches[0].items else []) + From(batches[1..], name)
  }

  function Heard<T>(polls: seq<Poll<T>>, name: string): seq<T> {
    if polls == [] then [] else From(polls[0], name) + Heard(polls[1..], name)
  }

  lemma {:induction false} FromAppend<T>(a: seq<Batch<T>>, b: seq<Batch<T>>, name: string)
    ensures From(a + b, name) == From(a, name) + From(b, name)
  {
    if a == [] {
      assert a + b == b;
    } else {
      assert (a + b)[1..] == a[1..] + b;
      FromAppend(a[1..], b, name);
    }
  }

  lemma FromOne<T>(b: Batch<T>, name: string)
    ensures From([b], name) == if b.from == name then b.items else []
  {
    assert From([b][1..], name) == [];
  }

  lemma {:induction false} AbsorbedQueue<T>(queues: map<string, seq<T>>, poll: Poll<T>, name: string)
    ensures Queue(Absorbed(queues, poll), name) == Queue(queues, name) + From(poll, name)
  {
    if poll != [] {
      var m := |poll| - 1;
      AbsorbedQueue(queues, poll[..m], name);
      assert poll == poll[..m] + [poll[m]];
      FromAppend(poll[..m], [poll[m]], name);
      FromOne(poll[m], name);
      Associate(Queue(queues, name), From(poll[..m], name), From([poll[m]], name));
    }
  }

  lemma Associate<T>(a: seq<T>, b: seq<T>, c: seq<T>)
    ensures (a + b) + c == a + (b + c)
  {
  }

  /** The items of one agent that a call returned, left queued, and has not seen yet. */
  function Remaining<T, Input>(outcome: Outcome<T, Input>, name: string, heard: seq<Input> -> seq<T>): seq<T> {
    match outcome
    case Waiting(after) => Queue(after, name)
    case Got(from, item, after, rest) => (if from == name then [item] else []) + (Queue(after, name) + heard(rest))
  }

  lemma PoppedRemains<T, Input>(queues: map<string, seq<T>>, asked: string, rest: seq<Input>, name: string,
                                heard: seq<Input> -> seq<T>)
    requires Queue(queues, asked) != []
    ensures Remaining(Popped(queues, asked, rest), name, heard) == Queue(queues, name) + heard(rest)
  {
    if asked == name {
      var queue := Queue(queues, name);
      assert queue == [queue[0]] + queue[1..];
      Associate([queue[0]], queue[1..], heard(rest));
    } else {
      assert [] + (Queue(queues, name) + heard(rest)) == Queue(queues, name) + heard(rest);
    }
  }

  /** Whoever it returns a notification of, a call takes that agent's oldest one, and none of any agent is lost. */
  lemma {:induction false} NotificationsAreKept<T>(queues: map<string, seq<T>>, asked: string, polls: seq<Poll<T>>,
                                                   name: string)
    ensures Remaining(AwaitNotification(queues, asked, polls), name, rest => Heard(rest, name)) ==
            Queue(queues, name) + Heard(polls, name)
    decreases |polls|
  {
    if Queue(queues, asked) != [] {
      PoppedRemains(queues, asked, polls, name, rest => Heard(rest, name));
    } else if polls == [] {
      assert Queue(queues, name) + [] == Queue(queues, name);
    } else {
      NotificationsAreKept(Absorbed(queues, polls[0]), LastListed(polls[0], asked), polls[1..], name);
      AbsorbedQueue(queues, polls[0], name);
      Associate(Queue(queues, name), From(polls[0], name), Heard(polls[1..], name));
    }
  }

  lemma ArrivalIsQueued<T>(queues: map<string, seq<T>>, arrivals: seq<Batch<T>>, name: string)
    requires arrivals != []
    ensures Queue(Extended(queues, arrivals[0]), name) + From(arrivals[1..], name) ==
            Queue(queues, name) + From(arrivals, name)
  {
    var items := if arrivals[0].from == name then arrivals[0].items else [];
    assert Queue(Extended(queues, arrivals[0]), name) == Queue(queues, name) + items;
    Associate(Queue(queues, name), items, From(arrivals[1..], name));
  }

  /** A message is always one of the agent that was asked for, its oldest, and none of any agent is lost. */
  lemma {:induction false} MessagesAreKept<T>(queues: map<string, seq<T>>, asked: string, arrivals: seq<Batch<T>>,
                                              name: string)
    ensures AwaitMessage(queues, asked, arrivals).Got? ==> AwaitMessage(queues, asked, arrivals).from == asked
    ensures Remaining(AwaitMessage(queues, asked, arrivals), name, rest => From(rest, name)) ==
            Queue(queues, name) + From(arrivals, name)
    decreases |arrivals|
  {
    if Queue(queues, asked) != [] {
      PoppedRemains(queues, asked, arrivals, name, rest => From(rest, name));
    } else if arrivals == [] {
      assert Queue(queues, name) + [] == Queue(queues, name);
    } else {
      MessagesAreKept(Extended(queues, arrivals[0]), asked, arrivals[1..], name);
      ArrivalIsQueued(queues, arrivals, name);
    }
  }

  // ---------------------------------------------------------------- when a message is returned

  /** A call returns exactly when a message of the agent that was asked for is queued or arrives, and it looks at no
      arrival after the one that settles this. */
  lemma {:induction false} MessageReturnsIff<T>(queues: map<string, seq<T>>, asked: string, arrivals: seq<Batch<T>>)
    ensures AwaitMessage(queues, asked, arrivals).Got? <==> Queue(queues, asked) + From(arrivals, asked) != []
    ensures AwaitMessage(queues, asked, arrivals).Got? ==>
              var rest := AwaitMessage(queues, asked, arrivals).rest;
              && |rest| <= |arrivals| && rest == arrivals[|arrivals| - |rest|..]
              && (Queue(queues, asked) != [] ==> rest == arrivals)
              && forall k :: 0 <= k < |arrivals| - |rest| ==>
                   Queue(queues, asked) == [] && From(arrivals[..k], asked) == []
    decreases |arrivals|
  {
    if Queue(queues, asked) == [] && arrivals != [] {
      var queues' := Extended(queues, arrivals[0]);
      MessageReturnsIff(queues', asked, arrivals[1..]);
      ArrivalIsQueued(queues, arrivals, asked);
      var outcome := AwaitMessage(queues', asked, arrivals[1..]);
      if outcome.Got? {
        forall k | 0 <= k < |arrivals| - |outcome.rest| ensures From(arrivals[..k], asked) == [] {
          if k > 0 {
            assert arrivals[..k] == [arrivals[0]] + arrivals[1..][..k - 1];
            FromAppend([arrivals[0]], arrivals[1..][..k - 1], asked);
            FromOne(arrivals[0], asked);
          }
        }
      }
    }
  }

  /** The message returned is the first that the agent sent and that has not been read yet. */
  lemma MessageIsTheOldest<T>(queues: map<string, seq<T>>, asked: string, arrivals: seq<Batch<T>>)
    ensures var outcome, sent := AwaitMessage(queues, asked, arrivals), Queue(queues, asked) + From(arrivals, asked);
            if sent == [] then outcome.Waiting? else outcome.Got? && outcome.item == sent[0]
  {
    MessageReturnsIff(queues, asked, arrivals);
    MessagesAreKept(queues, asked, arrivals, asked);
  }

  /** The results of n reads for one agent, one after the other; None if one of them is left waiting. */
  function Reads<T>(queues: map<string, seq<T>>, name: string, arrivals: seq<Batch<T>>, n: nat): Option<seq<T>>
    decreases n
  {
    if n == 0 then Some([])
    else
      match AwaitMessage(queues, name, arrivals)
      case Waiting(_) => None
      case Got(_, item, after, rest) => Prepend(item, Reads(after, name, rest, n - 1))
  }

  /** Whoever else sends, n reads return exactly when the agent has sent n messages, and then the first n, in order. */
  lemma {:induction false} MessagesAreFifo<T>(queues: map<string, seq<T>>, name: string, arrivals: seq<Batch<T>>,
                                              n: nat)
    ensures Reads(queues, name, arrivals, n) == FirstOf(Queue(queues, name) + From(arrivals, name), n)
    decreases n
  {
    if n > 0 {
      MessageReturnsIff(queues, name, arrivals);
      MessagesAreKept(queues, name, arrivals, name);
      match AwaitMessage(queues, name, arrivals)
      case Waiting(_) =>
      case Got(_, item, after, rest) =>
        MessagesAreFifo(after, name, rest, n - 1);
        OneMore(item, Queue(after, name) + From(rest, name), n - 1);
    }
  }

  // ---------------------------------------------------------------- whose notification is returned

  /** An agent is listed in a poll with at least one notification. */
  ghost predicate Listed<T>(polls: seq<Poll<T>>) {
    forall k, i :: 0 <= k < |polls| && 0 <= i < |polls[k]| ==> polls[k][i].items != []
  }

  /** How many polls return nothing before one returns something. */
  function Quiet<T>(polls: seq<Poll<T>>): nat {
    if polls == [] || polls[0] != [] then 0 else 1 + Quiet(polls[1..])
  }

  /** When the poll lists an agent, the queue of the last one listed is not empty. */
  lemma LastIsQueued<T>(queues: map<string, seq<T>>, poll: Poll<T>, name: string)
    requires poll != [] && poll[|poll| - 1].items != []
    ensures Queue(Absorbed(queues, poll), LastListed(poll, name)) != []
  {
  }

  /** A call for an agent returns one of its notifications when one was queued. Otherwise it returns after the first
      poll that lists anybody, with a notification of the agent listed last: that of the agent that was asked for
      exactly if it is this one. */
  lemma {:induction false} AnswersTheRequestIff<T>(queues: map<string, seq<T>>, name: string, polls: seq<Poll<T>>)
    requires Listed(polls)
    ensures Quiet(polls) <= |polls|
    ensures var outcome := AwaitNotification(queues, name, polls);
            && (outcome.Got? <==> Queue(queues, name) != [] || Quiet(polls) < |polls|)
            && (outcome.Got? ==>
                  if Queue(queues, name) != [] then outcome.from == name && outcome.rest == polls
                  else
                    var heard := polls[Quiet(polls)];
                    heard != [] && outcome.from == heard[|heard| - 1].from && outcome.rest == polls[Quiet(polls) + 1..])
    decreases |polls|
  {
    if Queue(queues, name) == [] && polls != [] {
      if polls[0] == [] {
        assert Absorbed(queues, polls[0]) == queues;
      } else {
        LastIsQueued(queues, polls[0], name);
      }
    }
    if polls != [] {
      assert forall k :: 0 <= k < |polls| - 1 ==> polls[1..][k] == polls[k + 1];
      AnswersTheRequestIff(queues, name, polls[1..]);
    }
  }

  /** Two agents notify at once: the call for the first returns what the second one sent. */
  lemma SecondAgentAnswers<T>(x: T, y: T)
    ensures var polls := [[Batch("a", [x]), Batch("b", [y])]];
            && AwaitNotification(map[], "a", polls).Got?
            && AwaitNotification(map[], "a", polls).from == "b" && AwaitNotification(map[], "a", polls).item == y
  {
    var poll := [Batch("a", [x]), Batch("b", [y])];
    assert poll[..1] == [Batch("a", [x])];
    assert Absorbed(map[], poll[..1]) == Extended(Absorbed(map[], poll[..1][..0]), Batch("a", [x]));
    assert Queue(Absorbed(map[], poll), "b") == [y] by {
      AbsorbedQueue<T>(map[], poll, "b");
      assert From(poll, "b") == [] + From(poll[1..], "b") && From(poll[1..], "b") == [y] + From(poll[1..][1..], "b");
    }
  }

  // ---------------------------------------------------------------- one agent that notifies

  ghost predicate OnlyFrom<T>(polls: seq<Poll<T>>, name: string) {
    forall k, i :: 0 <= k < |polls| && 0 <= i < |polls[k]| ==> polls[k][i].from == name
  }

  lemma {:induction false} OneNotifier<T>(queues: map<string, seq<T>>, name: string, polls: seq<Poll<T>>)
    requires OnlyFrom(polls, name)
    ensures match AwaitNotification(queues, name, polls)
            case Waiting(after) => Queue(after, name) == []
            case Got(from, _, _, rest) => from == name && OnlyFrom(rest, name)
    decreases |polls|
  {
    if Queue(queues, name) == [] && polls != [] {
      assert forall k :: 0 <= k < |polls| - 1 ==> polls[1..][k] == polls[k + 1];
      OneNotifier(Absorbed(queues, polls[0]), name, polls[1..]);
    }
  }

  /** The results of n calls for one agent, one after the other; None if one of them is left waiting. */
  function Calls<T>(queues: map<string, seq<T>>, name: string, polls: seq<Poll<T>>, n: nat): Option<seq<T>>
    decreases n
  {
    if n == 0 then Some([])
    else
      match AwaitNotification(queues, name, polls)
      case Waiting(_) => None
      case Got(_, item, after, rest) => Prepend(item, Calls(after, name, rest, n - 1))
  }

  function Prepend<T>(item: T, items: Option<seq<T>>): Option<seq<T>> {
    if items.None? then None else Some([item] + items.value)
  }

  function FirstOf<T>(sent: seq<T>, n: nat): Option<seq<T>> {
    if n <= |sent| then Some(sent[..n]) else None
  }

  lemma OneMore<T>(item: T, left: seq<T>, n: nat)
    ensures Prepend(item, FirstOf(left, n)) == FirstOf([item] + left, n + 1)
  {
    if n <= |left| { assert ([item] + left)[..n + 1] == [item] + left[..n]; }
  }

  lemma FirstCall<T>(queues: map<string, seq<T>>, name: string, polls: seq<Poll<T>>)
    requires OnlyFrom(polls, name)
    ensures var sent := Queue(queues, name) + Heard(polls, name);
            match AwaitNotification(queues, name, polls)
            case Waiting(_) => sent == []
            case Got(_, item, after, rest) =>
              OnlyFrom(rest, name) && sent == [item] + (Queue(after, name) + Heard(rest, name))
  {
    OneNotifier(queues, name, polls);
    NotificationsAreKept(queues, name, polls, name);
  }

  /** When only that agent notifies, as in the chain, its notifications come out of one FIFO queue: n calls return
      exactly when it sent n notifications, and then they return the first n, in order. */
  lemma {:induction false} OneNotifierIsFifo<T>(queues: map<string, seq<T>>, name: string, polls: seq<Poll<T>>, n: nat)
    requires OnlyFrom(polls, name)
    ensures Calls(queues, name, polls, n) == FirstOf(Queue(queues, name) + Heard(polls, name), n)
    decreases n
  {
    if n > 0 {
      FirstCall(queues, name, polls);
      match AwaitNotification(queues, name, polls)
      case Waiting(_) =>
      case Got(_, item, after, rest) =>
        OneNotifierIsFifo(after, name, rest, n - 1);
        OneMore(item, Queue(after, name) + Heard(rest, name), n - 1);
    }
  }
}
