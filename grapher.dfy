/**
 * The normalisation half of grapher.py: resolving sender ids to names,
 * the "Today" date fallback, choosing conversation directories, gathering
 * their saved actions, and turning each action into a `Message`.
 */
module Grapher {
  import opened Wrappers
  import opened Records
  import Decimal

  /** A calendar day; the time of day is never looked at. */
  datatype Date = Date(year: nat, month: nat, day: nat)

  /** Who a message is from: a name from the table, or the raw id when the table lacks it. */
  datatype Who = Named(name: string) | Raw(id: Id)

  /** `Message(person, timestamp)`; the timestamp is `None` when neither parser understood it. */
  datatype Message = Message(person: Who, timestamp: Option<Date>)

  /** The module-level `person` dictionary. */
  const People: map<Id, string> := map[
    IntId(100004255182066) := "Ankit",
    IntId(100001629407080) := "Alison",
    IntId(100000761719884) := "Kevlin",
    IntId(100000403221435) := "Pranay",
    IntId(100003238442927) := "Vivek",
    IntId(100004081027353) := "Rayana",
    IntId(100001128002655) := "Michael You",
    IntId(100004468539961) := "Srijith",
    IntId(100007730717911) := "Philip Cho",
    IntId(100004496133045) := "Matthew Kaufer",
    IntId(1702257415) := "Andrew Huang",
    IntId(100006199622129) := "Anusha",
    IntId(100005386399371) := "Edward 'little shit' Shen",
    IntId(1795540795) := "Sashank",
    IntId(100003272403235) := "Tarun P.",
    IntId(100002452600456) := "Joseph",
    IntId(100000756424022) := "Jonathan",
    IntId(100003296135651) := "Cheryl",
    IntId(100000471096235) := "Josh Learn",
    IntId(100000830703634) := "Kaushik V.",
    IntId(1497942558) := "Avi",
    IntId(100004831269618) := "Tarun K.",
    IntId(100003672744570) := "Matthew S.",
    IntId(100004537931899) := "Rachel",
    IntId(738046326264846) := "Sheptiller",
    IntId(1396634270650233) := "Puzzle Hunt",
    IntId(331888930354309) := "Orgo",
    IntId(836256343110704) := "Dags",
    IntId(943279359048126) := "Dags",
    IntId(484394795045364) := "Dags",
    IntId(1604705696418394) := "Sheptiller",
    IntId(711430812206486) := "Church of Acio",
    IntId(1417642561853941) := "TJ Hunt",
    IntId(550377098381585) := "Derp City",
    IntId(789573971100453) := "Rachel",
    StrId("UgxCAFWks7t61MHbACN4AaABAQ") := "Dilip",
    StrId("Ugy9iByzX24wkgfWXFB4AaABAQ") := "Rachel",
    StrId("Ugye5v649RFv0GFPx-B4AaABAQ") := "Rachel"
  ]

  /**
   * `getPerson(id)` inside `try ... except KeyError: person = id`: the
   * table's name when the id is a key, otherwise the id itself.
   */
  function Resolve(table: map<Id, string>, id: Id): (who: Who)
    ensures who.Named? <==> id in table
    ensures who.Named? ==> who.name == table[id]
    ensures who.Raw? ==> who.id == id
  {
    if id in table then Named(table[id]) else Raw(id)
  }

  /** Several ids share one name, and a numeric id written as a string is not a key. */
  lemma PeopleLookups()
    ensures Resolve(People, IntId(836256343110704)) == Named("Dags")
    ensures Resolve(People, IntId(943279359048126)) == Named("Dags")
    ensures Resolve(People, IntId(484394795045364)) == Named("Dags")
    ensures Resolve(People, StrId("Ugy9iByzX24wkgfWXFB4AaABAQ")) == Resolve(People, IntId(100004537931899))
    ensures Resolve(People, StrId("100004537931899")) == Raw(StrId("100004537931899"))
  {
    assert StrId("100004537931899") !in People by {
      forall k | k in People.Keys
        ensures k != StrId("100004537931899")
      {
      }
    }
  }

  /** A JSON `null` sender is not a key of the table, so `person` becomes `None` itself. */
  lemma NullIdKept()
    ensures Resolve(People, NullId) == Raw(NullId)
  {
    assert NullId !in People by {
      forall k | k in People.Keys
        ensures k != NullId
      {
      }
    }
  }

  /** `timestamp.split(" ")[0]`: the text before the first space, or all of it when there is none. */
  function FirstToken(s: string): (t: string)
    ensures t <= s
    ensures ' ' !in t
    ensures |t| < |s| ==> s[|t|] == ' '
  {
    if s == [] || s[0] == ' ' then [] else [s[0]] + FirstToken(s[1..])
  }

  /** `parseDate`: today when the first token is "Today", otherwise nothing (the function returns None). */
  function ParseDate(s: string, today: Date): Option<Date> {
    if FirstToken(s) == "Today" then Some(today) else None
  }

  /** `parseDate` succeeds exactly on "Today" and on strings starting "Today ", and then gives today. */
  lemma ParseDateToday(s: string, today: Date)
    ensures ParseDate(s, today).Some? <==> s == "Today" || "Today " <= s
    ensures ParseDate(s, today).Some? ==> ParseDate(s, today).value == today
  {
    if s == "Today" {
      TokenOfWord(s, "Today", "");
      assert s == "Today" + "";
    } else if "Today " <= s {
      TokenOfWord(s, "Today", s[5..]);
      assert s == "Today" + s[5..];
    }
  }

  /** The first token of a space-free word followed by a space (or by nothing) is that word. */
  lemma {:induction false} TokenOfWord(s: string, w: string, rest: string)
    requires s == w + rest && ' ' !in w && (rest == [] || rest[0] == ' ')
    ensures FirstToken(s) == w
    decreases |w|
  {
    if w != [] {
      assert s[0] == w[0] && s[1..] == w[1..] + rest;
      TokenOfWord(s[1..], w[1..], rest);
    }
  }

  /** The directory filter of `loadMessages`: skip names starting with '.', '_', 'H' or 'm'. */
  predicate IsConversationDir(name: string)
    requires |name| > 0
  {
    name[0] != '.' && name[0] != '_' && name[0] != 'H' && name[0] != 'm'
  }

  /**
   * The directories the fetch loop creates are named by the conversation id;
   * for a numeric id they are kept, while the Hangouts exports and hidden
   * entries beside them are skipped.
   */
  lemma ConversationDirs(talk: nat)
    ensures IsConversationDir(Decimal.IntToString(talk))
    ensures !IsConversationDir("Hangouts.json") && !IsConversationDir("Hangouts2.json")
    ensures !IsConversationDir(".DS_Store")
  {
    Decimal.IntToStringSign(talk);
  }

  /**
   * One entry of the Messages directory: its name, and the actions of its
   * "0-40000.json" and "0-23000.json" pages when those files exist.
   */
  datatype Entry = Entry(name: string, primary: Option<seq<Action>>, fallback: Option<seq<Action>>)

  /** Every directory name has a first character. */
  predicate NamesGiven(entries: seq<Entry>) {
    forall k :: 0 <= k < |entries| ==> |entries[k].name| > 0
  }

  /**
   * The actions an entry contributes when a directory with neither file is
   * skipped: those of "0-40000.json", else of "0-23000.json", else none.
   */
  function EntryActions(e: Entry): seq<Action>
    requires |e.name| > 0
  {
    if !IsConversationDir(e.name) then []
    else if e.primary.Some? then e.primary.value
    else if e.fallback.Some? then e.fallback.value
    else []
  }

  /** The concatenation, in directory order, of the actions of every entry. */
  function Gathered(entries: seq<Entry>): seq<Action>
    requires NamesGiven(entries)
  {
    if entries == [] then []
    else Gathered(entries[..|entries| - 1]) + EntryActions(entries[|entries| - 1])
  }

  /** The state of the first loop of `loadMessages` as written: the actions so far and the text last read. */
  datatype Gathering = Gathering(actions: seq<Action>, last: Option<seq<Action>>)

  /**
   * The first loop of `loadMessages` as written. A directory with neither
   * file only prints a message and then decodes `encoded_jsons` anyway, which
   * still holds the previous directory's page; before any page was read the
   * name is unbound and the run ends (`None`).
   */
  function GatheredAsWritten(entries: seq<Entry>): Option<Gathering>
    requires NamesGiven(entries)
  {
    if entries == [] then Some(Gathering([], None))
    else
      var before := GatheredAsWritten(entries[..|entries| - 1]);
      var e := entries[|entries| - 1];
      if before.None? || !IsConversationDir(e.name) then before
      else
        var page := if e.primary.Some? then e.primary else e.fallback;
        if page.Some? then Some(Gathering(before.value.actions + page.value, page))
        else if before.value.last.Some? then Some(Gathering(before.value.actions + before.value.last.value, before.value.last))
        else None
  }

  /** A conversation directory holding neither page file. */
  predicate Empty(e: Entry)
    requires |e.name| > 0
  {
    IsConversationDir(e.name) && e.primary.None? && e.fallback.None?
  }

  /** When every conversation directory holds one of the two files, the code as written gathers exactly `Gathered`. */
  lemma {:induction false} AsWrittenAgrees(entries: seq<Entry>)
    requires NamesGiven(entries)
    requires forall k :: 0 <= k < |entries| ==> !Empty(entries[k])
    ensures GatheredAsWritten(entries).Some?
    ensures GatheredAsWritten(entries).value.actions == Gathered(entries)
    decreases |entries|
  {
    if entries != [] {
      var init := entries[..|entries| - 1];
      assert forall k :: 0 <= k < |init| ==> init[k] == entries[k];
      AsWrittenAgrees(init);
    }
  }

  /**
   * A directory with neither file repeats the previous directory's actions,
   * and one that comes first ends the run.
   */
  lemma EmptyDirectoryRepeats(x: Action)
    ensures var entries := [Entry("1", Some([x]), None), Entry("2", None, None)];
      NamesGiven(entries) && GatheredAsWritten(entries) == Some(Gathering([x, x], Some([x]))) && Gathered(entries) == [x]
    ensures var entries := [Entry("2", None, None)];
      NamesGiven(entries) && GatheredAsWritten(entries).None? && Gathered(entries) == []
  {
    var first := [Entry("1", Some([x]), None)];
    var entries := first + [Entry("2", None, None)];
    assert entries[..1] == first && first[..0] == [];
    assert GatheredAsWritten(first[..0]) == Some(Gathering([], None));
    assert [] + [x] == [x] && [x] + [x] == [x, x];
    assert GatheredAsWritten(first) == Some(Gathering([x], Some([x])));
    assert Gathered(first) == [x];
    var single := [Entry("2", None, None)];
    assert single[..0] == [];
  }

  /**
   * The first loop of `loadMessages`, with a directory holding neither file
   * skipped: the result is every conversation directory's actions, in order.
   */
  method GatherActions(entries: seq<Entry>) returns (decoded: seq<Action>)
    requires NamesGiven(entries)
    ensures decoded == Gathered(entries)
  {
    decoded := [];
    var i := 0;
    while i < |entries|
      invariant 0 <= i <= |entries|
      invariant decoded == Gathered(entries[..i])
    {
      var e := entries[i];
      assert entries[..i + 1][..i] == entries[..i];
      if IsConversationDir(e.name) {
        if e.primary.Some? {
          decoded := decoded + e.primary.value;
        } else if e.fallback.Some? {
          decoded := decoded + e.fallback.value;
        }
      }
      i := i + 1;
    }
    assert entries[..i] == entries;
  }

  /**
   * The second loop's body for one action. A missing `other_user_fbid` or
   * `timestamp_datetime` raises an uncaught `KeyError` (`None`). The sender
   * is resolved through the table; the timestamp is `parse` of the field
   * when that succeeds, else `parseDate` of it.
   */
  function Normalize(a: Action, table: map<Id, string>, parse: string -> Option<Date>, today: Date): Option<Message> {
    if a.otherUserFbid.None? || a.timestampDatetime.None? then None
    else
      var s := a.timestampDatetime.value;
      var stamp := if parse(s).Some? then parse(s) else ParseDate(s, today);
      Some(Message(Resolve(table, a.otherUserFbid.value), stamp))
  }

  /** A normalised message lacks a timestamp exactly when both parsers give up on the field. */
  lemma TimestampMissing(a: Action, table: map<Id, string>, parse: string -> Option<Date>, today: Date)
    requires Normalize(a, table, parse, today).Some?
    ensures a.timestampDatetime.Some?
    ensures var s := a.timestampDatetime.value;
      Normalize(a, table, parse, today).value.timestamp.None? <==>
        parse(s).None? && !(s == "Today" || "Today " <= s)
  {
    ParseDateToday(a.timestampDatetime.value, today);
  }

  /**
   * The second loop of `loadMessages`: one message per action, in action
   * order, or the run ends at the first action missing a field.
   */
  method LoadMessages(actions: seq<Action>, table: map<Id, string>, parse: string -> Option<Date>, today: Date)
    returns (r: Option<seq<Message>>)
    ensures r.Some? <==> forall k :: 0 <= k < |actions| ==> Normalize(actions[k], table, parse, today).Some?
    ensures r.Some? ==> |r.value| == |actions|
    ensures r.Some? ==> forall k :: 0 <= k < |actions| ==> r.value[k] == Normalize(actions[k], table, parse, today).value
  {
    var messages: seq<Message> := [];
    var i := 0;
    while i < |actions|
      invariant 0 <= i <= |actions|
      invariant |messages| == i
      invariant forall k :: 0 <= k < i ==> Normalize(actions[k], table, parse, today).Some?
      invariant forall k :: 0 <= k < i ==> messages[k] == Normalize(actions[k], table, parse, today).value
    {
      var a := actions[i];
      if a.otherUserFbid.None? || a.timestampDatetime.None? {
        return None;
      }
      var person := Resolve(table, a.otherUserFbid.value);
      var s := a.timestampDatetime.value;
      var timestamp := parse(s);
      if timestamp.None? {
        timestamp := ParseDate(s, today);
      }
      messages := messages + [Message(person, timestamp)];
      i := i + 1;
    }
    return Some(messages);
  }
}
