/**
 * `loadHangouts` of grapher.py: the conversations of a Hangouts export,
 * stably sorted by their number of events, flattened into messages with
 * the sender resolved and the microsecond timestamp turned into seconds.
 */
module Hangouts {
  import opened Wrappers
  import opened Records
  import opened Grapher
  import Seqs

  /** One event: `conversation_id.id` and `int(timestamp)` in microseconds. */
  datatype Event = Event(conversationId: Id, timestampMicros: int)

  /** One entry of `conversation_state`, reduced to its event list. */
  datatype Conversation = Conversation(events: seq<Event>)

  /** The conversations of `cs` with exactly `n` events, in their order in `cs`. */
  function OfLength(cs: seq<Conversation>, n: nat): seq<Conversation> {
    if cs == [] then []
    else OfLength(cs[..|cs| - 1], n) + (if |cs[|cs| - 1].events| == n then [cs[|cs| - 1]] else [])
  }

  predicate SortedByLength(cs: seq<Conversation>) {
    forall i, j :: 0 <= i < j < |cs| ==> |cs[i].events| <= |cs[j].events|
  }

  /** `c` placed after the last conversation of `s` with no more events than it. */
  function Insert(c: Conversation, s: seq<Conversation>): (r: seq<Conversation>)
    ensures multiset(r) == multiset(s) + multiset{c}
  {
    if s == [] || |s[|s| - 1].events| <= |c.events| then s + [c]
    else
      assert s == s[..|s| - 1] + [s[|s| - 1]];
      Insert(c, s[..|s| - 1]) + [s[|s| - 1]]
  }

  /** `sorted(conversations, key=len_convo)`: Python's sort is stable. */
  function SortByLength(cs: seq<Conversation>): (r: seq<Conversation>)
    ensures multiset(r) == multiset(cs)
  {
    if cs == [] then []
    else
      var init := cs[..|cs| - 1];
      assert cs == init + [cs[|cs| - 1]];
      Insert(cs[|cs| - 1], SortByLength(init))
  }

  /** Every conversation of `s` has at most `b` events. */
  predicate AtMost(s: seq<Conversation>, b: nat) {
    forall k :: 0 <= k < |s| ==> |s[k].events| <= b
  }

  /** Inserting a conversation of at most `b` events into such a sequence keeps the bound. */
  lemma {:induction false} InsertAtMost(c: Conversation, s: seq<Conversation>, b: nat)
    requires AtMost(s, b) && |c.events| <= b
    ensures AtMost(Insert(c, s), b)
    decreases |s|
  {
    if s != [] && |s[|s| - 1].events| > |c.events| {
      InsertAtMost(c, s[..|s| - 1], b);
    }
  }

  /** A sorted sequence stays sorted when a conversation with at least as many events is appended. */
  lemma AppendSorted(head: seq<Conversation>, last: Conversation)
    requires SortedByLength(head) && AtMost(head, |last.events|)
    ensures SortedByLength(head + [last])
  {
  }

  /** Inserting into a sequence sorted by event count keeps it sorted. */
  lemma {:induction false} InsertSorted(c: Conversation, s: seq<Conversation>)
    requires SortedByLength(s)
    ensures SortedByLength(Insert(c, s))
    decreases |s|
  {
    if s != [] && |s[|s| - 1].events| > |c.events| {
      var init := s[..|s| - 1];
      var last := s[|s| - 1];
      InsertSorted(c, init);
      assert AtMost(init, |last.events|);
      InsertAtMost(c, init, |last.events|);
      AppendSorted(Insert(c, init), last);
    }
  }

  /** Inserting `c` adds it to the end of its own length class and leaves every other class alone. */
  lemma {:induction false} InsertOfLength(c: Conversation, s: seq<Conversation>, n: nat)
    ensures OfLength(Insert(c, s), n) == OfLength(s, n) + (if |c.events| == n then [c] else [])
    decreases |s|
  {
    var mine: seq<Conversation> := if |c.events| == n then [c] else [];
    if s == [] || |s[|s| - 1].events| <= |c.events| {
      assert (s + [c])[..|s|] == s;
    } else {
      var init := s[..|s| - 1];
      var last := s[|s| - 1];
      var theirs: seq<Conversation> := if |last.events| == n then [last] else [];
      InsertOfLength(c, init, n);
      var r := Insert(c, init) + [last];
      assert r[..|r| - 1] == Insert(c, init);
      assert mine == [] || theirs == [];
      Seqs.ConcatAssoc(OfLength(init, n), mine, theirs);
      Seqs.ConcatAssoc(OfLength(init, n), theirs, mine);
      assert mine + theirs == theirs + mine;
    }
  }

  /**
   * The sort orders conversations by ascending event count, is a
   * permutation, and keeps conversations of equal count in their input
   * order: it is stable.
   */
  lemma {:induction false} SortByLengthStable(cs: seq<Conversation>)
    ensures SortedByLength(SortByLength(cs))
    ensures multiset(SortByLength(cs)) == multiset(cs)
    ensures forall n :: OfLength(SortByLength(cs), n) == OfLength(cs, n)
    decreases |cs|
  {
    if cs != [] {
      var init := cs[..|cs| - 1];
      var last := cs[|cs| - 1];
      SortByLengthStable(init);
      InsertSorted(last, SortByLength(init));
      forall n
        ensures OfLength(SortByLength(cs), n) == OfLength(cs, n)
      {
        InsertOfLength(last, SortByLength(init), n);
      }
    }
  }

  /** The number of events over all conversations. */
  function TotalEvents(cs: seq<Conversation>): nat {
    if cs == [] then 0 else TotalEvents(cs[..|cs| - 1]) + |cs[|cs| - 1].events|
  }

  lemma {:induction false} InsertTotal(c: Conversation, s: seq<Conversation>)
    ensures TotalEvents(Insert(c, s)) == TotalEvents(s) + |c.events|
    decreases |s|
  {
    if s == [] || |s[|s| - 1].events| <= |c.events| {
      assert (s + [c])[..|s|] == s;
    } else {
      var init := s[..|s| - 1];
      InsertTotal(c, init);
      var r := Insert(c, init) + [s[|s| - 1]];
      assert r[..|r| - 1] == Insert(c, init);
    }
  }

  /** Sorting does not change the number of events. */
  lemma {:induction false} SortKeepsTotal(cs: seq<Conversation>)
    ensures TotalEvents(SortByLength(cs)) == TotalEvents(cs)
    decreases |cs|
  {
    if cs != [] {
      SortKeepsTotal(cs[..|cs| - 1]);
      InsertTotal(cs[|cs| - 1], SortByLength(cs[..|cs| - 1]));
    }
  }

  /** `int(timestamp) // 1000000`: whole seconds, rounded toward minus infinity as Python's `//` does. */
  function Seconds(micros: int): (s: int)
    ensures s * 1000000 <= micros < s * 1000000 + 1000000
  {
    micros / 1000000
  }

  /** The message of one event; `fromTimestamp` is `datetime.fromtimestamp`, which reads the local clock zone. */
  function EventMessage(e: Event, table: map<Id, string>, fromTimestamp: int -> Date): Message {
    Message(Resolve(table, e.conversationId), Some(fromTimestamp(Seconds(e.timestampMicros))))
  }

  /** The messages of `events`, one per event, in event order. */
  function EventMessages(events: seq<Event>, table: map<Id, string>, fromTimestamp: int -> Date): (ms: seq<Message>)
    ensures |ms| == |events|
    ensures forall k :: 0 <= k < |events| ==> ms[k] == EventMessage(events[k], table, fromTimestamp)
  {
    if events == [] then []
    else EventMessages(events[..|events| - 1], table, fromTimestamp) + [EventMessage(events[|events| - 1], table, fromTimestamp)]
  }

  /** The messages of the conversations `cs`, conversation by conversation. */
  function Emitted(cs: seq<Conversation>, table: map<Id, string>, fromTimestamp: int -> Date): seq<Message> {
    if cs == [] then []
    else Emitted(cs[..|cs| - 1], table, fromTimestamp) + EventMessages(cs[|cs| - 1].events, table, fromTimestamp)
  }

  /** One message per event. */
  lemma {:induction false} EmittedLength(cs: seq<Conversation>, table: map<Id, string>, fromTimestamp: int -> Date)
    ensures |Emitted(cs, table, fromTimestamp)| == TotalEvents(cs)
    decreases |cs|
  {
    if cs != [] {
      EmittedLength(cs[..|cs| - 1], table, fromTimestamp);
    }
  }

  lemma EventMessagesStep(events: seq<Event>, j: nat, table: map<Id, string>, fromTimestamp: int -> Date)
    requires j < |events|
    ensures EventMessages(events[..j + 1], table, fromTimestamp)
      == EventMessages(events[..j], table, fromTimestamp) + [EventMessage(events[j], table, fromTimestamp)]
  {
    assert events[..j + 1][..j] == events[..j];
  }

  lemma EmittedStep(convos: seq<Conversation>, i: nat, table: map<Id, string>, fromTimestamp: int -> Date)
    requires i < |convos|
    ensures Emitted(convos[..i + 1], table, fromTimestamp)
      == Emitted(convos[..i], table, fromTimestamp) + EventMessages(convos[i].events, table, fromTimestamp)
  {
    assert convos[..i + 1][..i] == convos[..i];
  }

  /**
   * `loadHangouts`: the conversations sorted by event count, then one
   * message per event, conversation by conversation, in event order.
   */
  method LoadHangouts(conversations: seq<Conversation>, table: map<Id, string>, fromTimestamp: int -> Date)
    returns (messages: seq<Message>)
    ensures messages == Emitted(SortByLength(conversations), table, fromTimestamp)
    ensures |messages| == TotalEvents(conversations)
  {
    var convos := SortByLength(conversations);
    messages := [];
    var i := 0;
    while i < |convos|
      invariant 0 <= i <= |convos|
      invariant messages == Emitted(convos[..i], table, fromTimestamp)
    {
      var events := convos[i].events;
      ghost var before := messages;
      var j := 0;
      while j < |events|
        invariant 0 <= j <= |events|
        invariant messages == before + EventMessages(events[..j], table, fromTimestamp)
      {
        var e := events[j];
        var person := Resolve(table, e.conversationId);
        var timestamp := fromTimestamp(Seconds(e.timestampMicros));
        EventMessagesStep(events, j, table, fromTimestamp);
        Seqs.ConcatAssoc(before, EventMessages(events[..j], table, fromTimestamp), [Message(person, Some(timestamp))]);
        messages := messages + [Message(person, Some(timestamp))];
        j := j + 1;
      }
      assert events[..j] == events;
      EmittedStep(convos, i, table, fromTimestamp);
      i := i + 1;
    }
    assert convos[..i] == convos;
    EmittedLength(convos, table, fromTimestamp);
    SortKeepsTotal(conversations);
  }
}
