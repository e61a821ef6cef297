/**
 * The paginated fetch loop of dumper.py. Each request/response round trip is
 * reduced to the decompressed body the server sent; `json.loads` of the
 * stripped body is a parameter (`loads`). The loop runs over a finite script
 * of bodies: when the script runs out before the end-of-history marker, the
 * run is reported as `ScriptExhausted` (the real program would send another
 * request).
 */
module Dumper {
  import opened Wrappers
  import opened Decimal
  import opened Records
  import Seqs

  /** The end-of-history marker the loop head looks for. */
  const EndMark: string := "\"payload\":{\"end_of_history\""

  /** `messages_data` before the first request. */
  const InitialData: string := "lolno"

  /** Length of the non-JSON prefix in front of every decompressed body. */
  const PrefixLength: nat := 9

  /** Python's `sub in s` on strings, read from the front: `sub` starts here or somewhere further on. */
  predicate Contains(s: string, sub: string)
    decreases |s|
  {
    sub <= s || (|s| > 0 && Contains(s[1..], sub))
  }

  /** `body[9:]`: the body without its first nine characters; empty when the body is shorter. */
  function StripPrefix(body: string): (data: string)
    ensures |data| == if |body| <= PrefixLength then 0 else |body| - PrefixLength
    ensures forall i :: 0 <= i < |data| ==> data[i] == body[i + PrefixLength]
  {
    if |body| <= PrefixLength then [] else body[PrefixLength..]
  }

  /** Name of the page file for the range starting at `offset`: `str(offset) + "-" + str(limit+offset) + ".json"`. */
  function PageName(offset: int, limit: int): string {
    IntToString(offset) + ("-" + (IntToString(offset + limit) + ".json"))
  }

  /** Reads a page file name back into the range `(first, end)` it names. */
  function ParsePageName(name: string): Option<(int, int)> {
    ParseRange(ParseInt(name))
  }

  /** The range named by the text after the first number `lo` of a page name. */
  function ParseRange(lo: Option<Parsed>): Option<(int, int)> {
    if lo.None? || |lo.value.rest| == 0 || lo.value.rest[0] != '-' then None
    else ParseEnd(lo.value.value, ParseInt(lo.value.rest[1..]))
  }

  function ParseEnd(first: int, hi: Option<Parsed>): Option<(int, int)> {
    if hi.None? || hi.value.rest != ".json" then None else Some((first, hi.value.value))
  }

  /** What `json.loads` makes of a stripped body, as far as the loop can tell. */
  datatype Decoded =
    | Unparseable                                 // json.loads raises ValueError
    | JsonNull                                    // the document is `null`
    | NotAnObject                                 // not null, but `json_data['payload']` raises TypeError
    | NoPayload                                   // an object without a "payload" key
    | NullPayload                                 // "payload": null
    | MalformedPayload                            // a non-null payload that is not an object, or "actions"
                                                  // that is not a list: line 95 raises TypeError
    | PayloadObject(actions: Option<seq<Action>>) // a payload; None when it has no "actions" key

  /** The uncaught exception that ends a run. */
  datatype Fault = ValueError | TypeError | KeyError

  /** Responses the loop does not survive. */
  predicate Fatal(d: Decoded) {
    d.Unparseable? || d.NotAnObject? || d.NoPayload? || d.MalformedPayload?
  }

  /** Responses the loop retries at the same offset: `json_data is None` or `json_data['payload'] is None`. */
  predicate Retried(d: Decoded) {
    d.JsonNull? || d.NullPayload?
  }

  function FaultOf(d: Decoded): Fault
    requires Fatal(d)
  {
    match d
    case Unparseable => ValueError
    case NotAnObject => TypeError
    case MalformedPayload => TypeError
    case NoPayload => KeyError
  }

  /** The actions a successful page contributes; a KeyError on "actions" is swallowed and contributes nothing. */
  function ActionsOf(actions: Option<seq<Action>>): seq<Action> {
    match actions
    case None => []
    case Some(a) => a
  }

  /**
   * A page file as one pass of the loop leaves it: the file for the range
   * starting at `offset` is opened for writing (so created empty or truncated)
   * before the body is looked at, and receives the stripped body only when the
   * pass succeeds.
   */
  datatype PageFile = PageFile(offset: int, data: string)

  /** The loop's variables `offset`, `messages`, `messages_data`, and the page files opened so far, in order. */
  datatype FetchState = FetchState(offset: int, messages: seq<Action>, messagesData: string, pages: seq<PageFile>)

  function Initial(start: int): FetchState {
    FetchState(start, [], InitialData, [])
  }

  /** How one pass of the loop body ends. */
  datatype Pass = Next(state: FetchState) | Abort(fault: Fault, state: FetchState)

  /** One pass of the loop body on the decompressed `body`. */
  function OnePass(st: FetchState, limit: int, body: string, loads: string -> Decoded): Pass {
    var data := StripPrefix(body);
    var d := loads(data);
    if Fatal(d) then
      Abort(FaultOf(d), st.(messagesData := data, pages := st.pages + [PageFile(st.offset, "")]))
    else if Retried(d) then
      Next(st.(messagesData := data, pages := st.pages + [PageFile(st.offset, "")]))
    else
      Next(FetchState(st.offset + limit, st.messages + ActionsOf(d.actions), data, st.pages + [PageFile(st.offset, data)]))
  }

  /** What one pass does to the offset, the messages and the page log, whether it goes on or aborts. */
  lemma PassEffect(st: FetchState, limit: int, body: string, loads: string -> Decoded)
    ensures var p := OnePass(st, limit, body, loads);
      && p.state.offset == (if Succeeds(body, loads) then st.offset + limit else st.offset)
      && p.state.messages == st.messages + Gained(body, loads)
      && p.state.pages == st.pages + [PageFile(st.offset, if Succeeds(body, loads) then StripPrefix(body) else "")]
  {
    if !Succeeds(body, loads) {
      assert st.messages + [] == st.messages;
    }
  }

  /**
   * A non-null payload that is not an object, or whose "actions" is not a
   * list, makes line 95 raise TypeError, which the `except KeyError` does
   * not catch: the run ends, its page left empty, its offset unmoved.
   */
  lemma MalformedPayloadAborts(st: FetchState, limit: int, body: string, loads: string -> Decoded)
    requires loads(StripPrefix(body)) == MalformedPayload
    ensures OnePass(st, limit, body, loads)
      == Abort(TypeError, st.(messagesData := StripPrefix(body), pages := st.pages + [PageFile(st.offset, "")]))
    ensures !Succeeds(body, loads) && Gained(body, loads) == []
  {
  }

  /** Why a run stopped. */
  datatype Stop = EndOfHistory | Crashed(fault: Fault) | ScriptExhausted

  /**
   * A finished run: why it stopped, the final loop variables, how many
   * responses it consumed, and what it wrote to complete.json (only on
   * reaching the end of history).
   */
  datatype Run = Run(stop: Stop, state: FetchState, used: nat, complete: Option<seq<Action>>)

  /** The loop, pass by pass, from state `st` over the scripted bodies `bodies`. */
  function RunFrom(st: FetchState, limit: int, bodies: seq<string>, loads: string -> Decoded): Run
    decreases |bodies|
  {
    if Contains(st.messagesData, EndMark) then Run(EndOfHistory, st, 0, Some(st.messages))
    else if bodies == [] then Run(ScriptExhausted, st, 0, None)
    else
      match OnePass(st, limit, bodies[0], loads)
      case Abort(f, next) => Run(Crashed(f), next, 1, None)
      case Next(next) =>
        var r := RunFrom(next, limit, bodies[1..], loads);
        r.(used := r.used + 1)
  }

  /** A response the loop accepts as a page: a non-null payload. */
  predicate Succeeds(body: string, loads: string -> Decoded) {
    loads(StripPrefix(body)).PayloadObject?
  }

  /** The number of successful responses among `bodies`. */
  function Successes(bodies: seq<string>, loads: string -> Decoded): nat {
    if bodies == [] then 0
    else (if Succeeds(bodies[0], loads) then 1 else 0) + Successes(bodies[1..], loads)
  }

  /** The actions one response adds to `messages`. */
  function Gained(body: string, loads: string -> Decoded): seq<Action> {
    var d := loads(StripPrefix(body));
    if d.PayloadObject? then ActionsOf(d.actions) else []
  }

  /** The concatenation, in order, of the actions of the successful responses among `bodies`. */
  function Collected(bodies: seq<string>, loads: string -> Decoded): seq<Action> {
    if bodies == [] then [] else Gained(bodies[0], loads) + Collected(bodies[1..], loads)
  }

  /**
   * The page files that passes over `bodies` open, starting at `offset`: one
   * per response, at the current offset, holding the stripped body when the
   * response succeeds and nothing otherwise.
   */
  function PageLog(offset: int, limit: int, bodies: seq<string>, loads: string -> Decoded): seq<PageFile>
    decreases |bodies|
  {
    if bodies == [] then []
    else if Succeeds(bodies[0], loads) then
      [PageFile(offset, StripPrefix(bodies[0]))] + PageLog(offset + limit, limit, bodies[1..], loads)
    else
      [PageFile(offset, "")] + PageLog(offset, limit, bodies[1..], loads)
  }

  /** The directory after writing the page files of `log` in order over `files`: a later file of the same name replaces an earlier one. */
  function Directory(files: map<string, string>, limit: int, log: seq<PageFile>): map<string, string>
    decreases |log|
  {
    if log == [] then files
    else Directory(files[PageName(log[0].offset, limit) := log[0].data], limit, log[1..])
  }

  /** A response that ends the loop: it crashes it, or its stripped body carries the end marker. */
  predicate Halts(body: string, loads: string -> Decoded) {
    Fatal(loads(StripPrefix(body))) || Contains(StripPrefix(body), EndMark)
  }

  /** The initial `messages_data` does not contain the marker, so the loop body runs at least once. */
  lemma InitialDataLacksEndMark()
    ensures !Contains(InitialData, EndMark)
  {
    assert |EndMark| == 27;
    ShortLacks(InitialData, EndMark);
  }

  /** A string shorter than `sub` does not contain it. */
  lemma {:induction false} ShortLacks(s: string, sub: string)
    requires |s| < |sub|
    ensures !Contains(s, sub)
    decreases |s|
  {
    if |s| > 0 {
      ShortLacks(s[1..], sub);
    }
  }

  /** `Contains` holds exactly when `sub` occurs at some position of `s`, which is what Python's `in` tests. */
  lemma ContainsAt(s: string, sub: string)
    ensures Contains(s, sub) <==> exists i :: 0 <= i <= |s| && sub <= s[i..]
  {
    if Contains(s, sub) {
      var i := FoundAt(s, sub);
    }
    if exists i :: 0 <= i <= |s| && sub <= s[i..] {
      var i :| 0 <= i <= |s| && sub <= s[i..];
      OccursAt(s, sub, i);
    }
  }

  /** A position at which a contained string occurs. */
  lemma {:induction false} FoundAt(s: string, sub: string) returns (i: nat)
    requires Contains(s, sub)
    ensures i <= |s| && sub <= s[i..]
    decreases |s|
  {
    if sub <= s {
      i := 0;
      assert s[0..] == s;
    } else {
      var j := FoundAt(s[1..], sub);
      i := j + 1;
      assert s[1..][j..] == s[i..];
    }
  }

  /** A string occurring at position `i` is contained. */
  lemma {:induction false} OccursAt(s: string, sub: string, i: nat)
    requires i <= |s| && sub <= s[i..]
    ensures Contains(s, sub)
    decreases i
  {
    if i == 0 {
      assert s[0..] == s;
    } else {
      assert s[1..][i - 1..] == s[i..];
      OccursAt(s[1..], sub, i - 1);
    }
  }

  /** The page name names the range `[offset, offset + limit)`, and is read back as such. */
  lemma {:induction false} PageNameRoundTrip(offset: int, limit: int)
    ensures ParsePageName(PageName(offset, limit)) == Some((offset, offset + limit))
  {
    var name := PageName(offset, limit);
    ReadPageName(offset, offset + limit, name);
    assert ParsePageName(name) == Some((offset, offset + limit));
  }

  lemma {:induction false} ReadPageName(lo: int, hi: int, name: string)
    requires name == IntToString(lo) + ("-" + (IntToString(hi) + ".json"))
    ensures ParsePageName(name) == Some((lo, hi))
  {
    var lo' := ParseInt(name);
    var tail := IntToString(hi) + ".json";
    var rest := "-" + tail;
    DashDelimits(tail);
    ParseIntRoundTrip(lo, rest);
    JsonDelimited();
    ParseIntRoundTrip(hi, ".json");
    assert lo' == Some(Parsed(lo, rest));
    assert rest[0] == '-' && rest[1..] == tail;
    assert ParseInt(lo'.value.rest[1..]) == Some(Parsed(hi, ".json"));
  }

  lemma DashDelimits(tail: string)
    ensures Delimited("-" + tail)
  {
    assert ("-" + tail)[0] == '-';
  }

  lemma JsonDelimited()
    ensures Delimited(".json")
  {
    assert ".json"[0] == '.';
  }

  /** Pages for different offsets have different names, whatever the limit. */
  lemma {:induction false} PageNamesDiffer(o1: int, o2: int, limit: int)
    requires o1 != o2
    ensures PageName(o1, limit) != PageName(o2, limit)
  {
    PageNameRoundTrip(o1, limit);
    PageNameRoundTrip(o2, limit);
  }

  /** Over any run, the offset advances by `limit` once per successful response and by nothing else. */
  lemma {:induction false} RunAdvancesOffset(st: FetchState, limit: int, bodies: seq<string>, loads: string -> Decoded)
    ensures RunFrom(st, limit, bodies, loads).used <= |bodies|
    ensures var r := RunFrom(st, limit, bodies, loads);
      r.state.offset == st.offset + Successes(bodies[..r.used], loads) * limit
    decreases |bodies|
  {
    var r := RunFrom(st, limit, bodies, loads);
    if Contains(st.messagesData, EndMark) || bodies == [] {
      assert bodies[..0] == [];
    } else {
      var p := OnePass(st, limit, bodies[0], loads);
      if p.Abort? {
        PrefixStep(bodies, 1, loads);
      } else {
        var rest := RunFrom(p.state, limit, bodies[1..], loads);
        RunAdvancesOffset(p.state, limit, bodies[1..], loads);
        assert r.used == rest.used + 1 && r.state.offset == rest.state.offset;
        PrefixStep(bodies, r.used, loads);
        AdvanceOnce(Successes(bodies[1..][..rest.used], loads), limit);
      }
    }
  }

  lemma {:induction false} AdvanceOnce(n: int, limit: int)
    ensures (1 + n) * limit == limit + n * limit
  {
  }

  /** Over any run, `messages` grows by exactly the successful responses' actions, in order. */
  lemma {:induction false} RunCollectsActions(st: FetchState, limit: int, bodies: seq<string>, loads: string -> Decoded)
    ensures RunFrom(st, limit, bodies, loads).used <= |bodies|
    ensures var r := RunFrom(st, limit, bodies, loads);
      r.state.messages == st.messages + Collected(bodies[..r.used], loads)
    decreases |bodies|
  {
    var r := RunFrom(st, limit, bodies, loads);
    if Contains(st.messagesData, EndMark) || bodies == [] {
      assert bodies[..0] == [];
    } else {
      var p := OnePass(st, limit, bodies[0], loads);
      var gained := Gained(bodies[0], loads);
      if p.Abort? {
        PrefixStep(bodies, 1, loads);
        assert st.messages + Collected(bodies[..1], loads) == st.messages + [];
      } else {
        var rest := RunFrom(p.state, limit, bodies[1..], loads);
        RunCollectsActions(p.state, limit, bodies[1..], loads);
        assert r.used == rest.used + 1 && r.state.messages == rest.state.messages;
        PrefixStep(bodies, r.used, loads);
        var later := Collected(bodies[1..][..rest.used], loads);
        assert p.state.messages == st.messages + gained;
        Seqs.ConcatAssoc(st.messages, gained, later);
      }
    }
  }

  /** Over any run, one page file is opened per consumed response, as `PageLog` says. */
  lemma {:induction false} RunLogsPages(st: FetchState, limit: int, bodies: seq<string>, loads: string -> Decoded)
    ensures RunFrom(st, limit, bodies, loads).used <= |bodies|
    ensures var r := RunFrom(st, limit, bodies, loads);
      r.state.pages == st.pages + PageLog(st.offset, limit, bodies[..r.used], loads)
    decreases |bodies|
  {
    var r := RunFrom(st, limit, bodies, loads);
    if Contains(st.messagesData, EndMark) || bodies == [] {
      assert bodies[..0] == [];
    } else {
      var p := OnePass(st, limit, bodies[0], loads);
      var first := [PageFile(st.offset, if Succeeds(bodies[0], loads) then StripPrefix(bodies[0]) else "")];
      PassEffect(st, limit, bodies[0], loads);
      if p.Abort? {
        PageLogPrefixStep(st.offset, limit, bodies, 1, loads);
        assert bodies[1..][..0] == [];
      } else {
        var rest := RunFrom(p.state, limit, bodies[1..], loads);
        RunLogsPages(p.state, limit, bodies[1..], loads);
        assert r.used == rest.used + 1 && r.state.pages == rest.state.pages;
        PageLogPrefixStep(st.offset, limit, bodies, r.used, loads);
        var later := PageLog(p.state.offset, limit, bodies[1..][..rest.used], loads);
        Seqs.ConcatAssoc(st.pages, first, later);
      }
    }
  }

  /** How the first response of a consumed prefix contributes to `Successes`, `Collected` and `PageLog`. */
  lemma {:induction false} PrefixStep(bodies: seq<string>, k: nat, loads: string -> Decoded)
    requires 0 < k <= |bodies|
    ensures Successes(bodies[..k], loads) == (if Succeeds(bodies[0], loads) then 1 else 0) + Successes(bodies[1..][..k - 1], loads)
    ensures Collected(bodies[..k], loads) == Gained(bodies[0], loads) + Collected(bodies[1..][..k - 1], loads)
    ensures k == 1 ==> bodies[1..][..k - 1] == []
  {
    var taken := bodies[..k];
    assert taken[0] == bodies[0] && taken[1..] == bodies[1..][..k - 1];
    if k == 1 {
      assert bodies[1..][..0] == [];
    }
  }

  /** The page files of a consumed prefix: the first response's, then those of the rest of the prefix. */
  lemma {:induction false} PageLogPrefixStep(offset: int, limit: int, bodies: seq<string>, k: nat, loads: string -> Decoded)
    requires 0 < k <= |bodies|
    ensures PageLog(offset, limit, bodies[..k], loads) ==
      [PageFile(offset, if Succeeds(bodies[0], loads) then StripPrefix(bodies[0]) else "")] +
      PageLog(if Succeeds(bodies[0], loads) then offset + limit else offset, limit, bodies[1..][..k - 1], loads)
  {
    var taken := bodies[..k];
    assert taken[0] == bodies[0] && taken[1..] == bodies[1..][..k - 1];
  }

  /**
   * A run stops at the first response that crashes it or carries the end
   * marker, and only there; that response is itself processed first. If the
   * script runs out, every response was consumed. A loop entered with a
   * marker-free `messages_data` consumes at least one response when there is
   * one. complete.json is written exactly when the end of history is reached.
   */
  lemma {:induction false} RunStopsAtFirstHalt(st: FetchState, limit: int, bodies: seq<string>, loads: string -> Decoded)
    requires !Contains(st.messagesData, EndMark)
    ensures var r := RunFrom(st, limit, bodies, loads);
      r.used <= |bodies| &&
      (r.used == 0 <==> bodies == []) &&
      (forall j :: 0 <= j < r.used - 1 ==> !Halts(bodies[j], loads)) &&
      (r.stop.Crashed? <==> r.used > 0 && Fatal(loads(StripPrefix(bodies[r.used - 1])))) &&
      (r.stop == EndOfHistory <==> r.used > 0 && Halts(bodies[r.used - 1], loads) && !Fatal(loads(StripPrefix(bodies[r.used - 1])))) &&
      (r.stop == ScriptExhausted ==> r.used == |bodies| && (r.used > 0 ==> !Halts(bodies[r.used - 1], loads))) &&
      (r.complete == if r.stop == EndOfHistory then Some(r.state.messages) else None)
    decreases |bodies|
  {
    if bodies != [] {
      match OnePass(st, limit, bodies[0], loads)
      case Abort(f, next) =>
      case Next(next) =>
        var data := StripPrefix(bodies[0]);
        assert next.messagesData == data;
        if !Contains(data, EndMark) {
          RunStopsAtFirstHalt(next, limit, bodies[1..], loads);
        }
    }
  }

  /**
   * The `j`-th page file opened is the one for the range starting at
   * `offset + Successes(bodies[..j]) * limit`, i.e. the offset before that
   * pass advances it; it holds the stripped body exactly when response `j`
   * succeeds.
   */
  lemma {:induction false} PageLogAt(offset: int, limit: int, bodies: seq<string>, loads: string -> Decoded, j: nat)
    requires j < |bodies|
    ensures |PageLog(offset, limit, bodies, loads)| == |bodies|
    ensures PageLog(offset, limit, bodies, loads)[j] ==
      PageFile(offset + Successes(bodies[..j], loads) * limit, if Succeeds(bodies[j], loads) then StripPrefix(bodies[j]) else "")
    decreases j
  {
    var next := if Succeeds(bodies[0], loads) then offset + limit else offset;
    PageLogHead(offset, limit, bodies, loads);
    PageLogLength(next, limit, bodies[1..], loads);
    if j == 0 {
      assert bodies[..0] == [];
    } else {
      PageLogAt(next, limit, bodies[1..], loads, j - 1);
      assert bodies[1..][j - 1] == bodies[j];
      OffsetStep(offset, limit, bodies, loads, j);
    }
  }

  /** The page files of the passes over `bodies`: the first response's, then those of the passes after it. */
  lemma PageLogHead(offset: int, limit: int, bodies: seq<string>, loads: string -> Decoded)
    requires |bodies| > 0
    ensures PageLog(offset, limit, bodies, loads) ==
      [PageFile(offset, if Succeeds(bodies[0], loads) then StripPrefix(bodies[0]) else "")] +
      PageLog(if Succeeds(bodies[0], loads) then offset + limit else offset, limit, bodies[1..], loads)
  {
  }

  /** The offset before pass `j`, seen from the second response on. */
  lemma {:induction false} OffsetStep(offset: int, limit: int, bodies: seq<string>, loads: string -> Decoded, j: nat)
    requires 0 < j <= |bodies|
    ensures var next := if Succeeds(bodies[0], loads) then offset + limit else offset;
      next + Successes(bodies[1..][..j - 1], loads) * limit == offset + Successes(bodies[..j], loads) * limit
  {
    PrefixStep(bodies, j, loads);
    AdvanceOnce(Successes(bodies[1..][..j - 1], loads), limit);
  }

  lemma {:induction false} PageLogLength(offset: int, limit: int, bodies: seq<string>, loads: string -> Decoded)
    ensures |PageLog(offset, limit, bodies, loads)| == |bodies|
    decreases |bodies|
  {
    if bodies != [] {
      PageLogLength(if Succeeds(bodies[0], loads) then offset + limit else offset, limit, bodies[1..], loads);
    }
  }

  /** Writing files whose names all differ from `name` leaves `name` as it was. */
  lemma {:induction false} DirectoryElsewhere(files: map<string, string>, limit: int, log: seq<PageFile>, name: string)
    requires forall k :: 0 <= k < |log| ==> PageName(log[k].offset, limit) != name
    ensures name in Directory(files, limit, log) <==> name in files
    ensures name in files ==> Directory(files, limit, log)[name] == files[name]
    decreases |log|
  {
    if log != [] {
      DirectoryElsewhere(files[PageName(log[0].offset, limit) := log[0].data], limit, log[1..], name);
    }
  }

  /**
   * A page file of `log` whose offset no later file of `log` repeats keeps its
   * data in the directory written from `log`.
   */
  lemma {:induction false} DirectoryKeeps(files: map<string, string>, limit: int, log: seq<PageFile>, j: nat)
    requires j < |log|
    requires forall k :: j < k < |log| ==> log[k].offset != log[j].offset
    ensures var name := PageName(log[j].offset, limit);
      name in Directory(files, limit, log) && Directory(files, limit, log)[name] == log[j].data
    decreases j
  {
    var files' := files[PageName(log[0].offset, limit) := log[0].data];
    if j == 0 {
      var name := PageName(log[0].offset, limit);
      forall k | 0 <= k < |log[1..]|
        ensures PageName(log[1..][k].offset, limit) != name
      {
        assert log[1..][k] == log[k + 1];
        PageNamesDiffer(log[k + 1].offset, log[0].offset, limit);
      }
      DirectoryElsewhere(files', limit, log[1..], name);
    } else {
      forall k | j - 1 < k < |log[1..]|
        ensures log[1..][k].offset != log[1..][j - 1].offset
      {
        assert log[1..][k] == log[k + 1];
      }
      DirectoryKeeps(files', limit, log[1..], j - 1);
      assert log[1..][j - 1] == log[j];
    }
  }

  /** Counting successes distributes over concatenation. */
  lemma {:induction false} SuccessesAppend(a: seq<string>, b: seq<string>, loads: string -> Decoded)
    ensures Successes(a + b, loads) == Successes(a, loads) + Successes(b, loads)
    decreases |a|
  {
    if a != [] {
      assert (a + b)[1..] == a[1..] + b;
      SuccessesAppend(a[1..], b, loads);
    } else {
      assert a + b == b;
    }
  }

  /** A success at `j` counts in every longer prefix. */
  lemma {:induction false} SuccessesGrow(bodies: seq<string>, loads: string -> Decoded, j: nat, k: nat)
    requires j < k <= |bodies| && Succeeds(bodies[j], loads)
    ensures Successes(bodies[..k], loads) > Successes(bodies[..j], loads)
  {
    assert bodies[..k] == bodies[..j] + ([bodies[j]] + bodies[j + 1..k]);
    SuccessesAppend(bodies[..j], [bodies[j]] + bodies[j + 1..k], loads);
    SuccessesAppend([bodies[j]], bodies[j + 1..k], loads);
  }

  /** Scaling by a positive limit keeps order, by a negative one reverses it. */
  lemma {:induction false} ScaleStrict(m: int, n: int, limit: int)
    requires m < n && limit != 0
    ensures limit > 0 ==> m * limit < n * limit
    ensures limit < 0 ==> n * limit < m * limit
  {
    assert n * limit - m * limit == (n - m) * limit;
  }

  /**
   * With a non-zero limit, no later pass reopens the page of a successful
   * response: after the passes over `bodies`, the page of every successful
   * response `j` (at offset `offset + Successes(bodies[..j]) * limit`) holds
   * its stripped body.
   */
  lemma {:induction false} SuccessPagesKept(files: map<string, string>, offset: int, limit: int, bodies: seq<string>, loads: string -> Decoded, j: nat)
    requires limit != 0 && j < |bodies| && Succeeds(bodies[j], loads)
    ensures var dir := Directory(files, limit, PageLog(offset, limit, bodies, loads));
      var name := PageName(offset + Successes(bodies[..j], loads) * limit, limit);
      name in dir && dir[name] == StripPrefix(bodies[j])
  {
    var log := PageLog(offset, limit, bodies, loads);
    PageLogAt(offset, limit, bodies, loads, j);
    LaterPagesElsewhere(offset, limit, bodies, loads, j);
    DirectoryKeeps(files, limit, log, j);
    var dir := Directory(files, limit, log);
    var name := PageName(log[j].offset, limit);
    assert name in dir && dir[name] == log[j].data;
  }

  /**
   * Every page file opened after a successful response is for a later
   * offset when the limit is positive, and for an earlier one when it is
   * negative.
   */
  lemma LaterPagesElsewhere(offset: int, limit: int, bodies: seq<string>, loads: string -> Decoded, j: nat)
    requires limit != 0 && j < |bodies| && Succeeds(bodies[j], loads)
    ensures var log := PageLog(offset, limit, bodies, loads);
      |log| == |bodies| &&
      forall k :: j < k < |log| ==>
        (limit > 0 ==> log[k].offset > log[j].offset) && (limit < 0 ==> log[k].offset < log[j].offset)
  {
    var log := PageLog(offset, limit, bodies, loads);
    PageLogAt(offset, limit, bodies, loads, j);
    forall k | j < k < |log|
      ensures (limit > 0 ==> log[k].offset > log[j].offset) && (limit < 0 ==> log[k].offset < log[j].offset)
    {
      PageLogAt(offset, limit, bodies, loads, k);
      SuccessesGrow(bodies, loads, j, k);
      ScaleStrict(Successes(bodies[..j], loads), Successes(bodies[..k], loads), limit);
    }
  }

  /**
   * The fetch loop of dumper.py, started at `start` with page size `limit`
   * over the scripted decompressed bodies `bodies`.
   */
  method Fetch(start: int, limit: int, bodies: seq<string>, loads: string -> Decoded) returns (run: Run)
    ensures run == RunFrom(Initial(start), limit, bodies, loads)
    ensures run.used <= |bodies|
    ensures |bodies| > 0 ==> run.used > 0
    ensures run.state.offset == start + Successes(bodies[..run.used], loads) * limit
    ensures run.state.messages == Collected(bodies[..run.used], loads)
    ensures run.state.pages == PageLog(start, limit, bodies[..run.used], loads)
    ensures run.complete == if run.stop == EndOfHistory then Some(run.state.messages) else None
  {
    var offset := start;
    var messages: seq<Action> := [];
    var messagesData := InitialData;
    var pages: seq<PageFile> := [];
    var i := 0;
    while !Contains(messagesData, EndMark)
      invariant i <= |bodies|
      invariant var r := RunFrom(FetchState(offset, messages, messagesData, pages), limit, bodies[i..], loads);
        RunFrom(Initial(start), limit, bodies, loads) == r.(used := r.used + i)
      decreases |bodies| - i
    {
      if i == |bodies| {
        run := Run(ScriptExhausted, FetchState(offset, messages, messagesData, pages), i, None);
        Conclude(start, limit, bodies, loads, run);
        return;
      }
      ghost var before := FetchState(offset, messages, messagesData, pages);
      UnfoldRun(before, limit, bodies, i, loads);
      // The page file for [offset, offset + limit) is opened for writing here, before the body is looked at.
      messagesData := StripPrefix(bodies[i]);
      i := i + 1;
      var jsonData := loads(messagesData);
      if Fatal(jsonData) {
        pages := pages + [PageFile(offset, "")];
        run := Run(Crashed(FaultOf(jsonData)), FetchState(offset, messages, messagesData, pages), i, None);
        Conclude(start, limit, bodies, loads, run);
        return;
      }
      if jsonData.JsonNull? || jsonData.NullPayload? {
        pages := pages + [PageFile(offset, "")];
        assert OnePass(before, limit, bodies[i - 1], loads) == Next(FetchState(offset, messages, messagesData, pages));
        continue;
      }
      match jsonData.actions {
        case Some(actions) => messages := messages + actions;
        case None =>  // KeyError on "actions" is caught: nothing is added
      }
      pages := pages + [PageFile(offset, messagesData)];
      offset := offset + limit;
      assert OnePass(before, limit, bodies[i - 1], loads) == Next(FetchState(offset, messages, messagesData, pages));
    }
    run := Run(EndOfHistory, FetchState(offset, messages, messagesData, pages), i, Some(messages));
    Conclude(start, limit, bodies, loads, run);
  }

  /** One pass of the loop, as `RunFrom` takes it, on the script from position `i` on. */
  lemma {:induction false} UnfoldRun(st: FetchState, limit: int, bodies: seq<string>, i: nat, loads: string -> Decoded)
    requires i < |bodies| && !Contains(st.messagesData, EndMark)
    ensures RunFrom(st, limit, bodies[i..], loads) ==
      match OnePass(st, limit, bodies[i], loads)
      case Abort(f, next) => Run(Crashed(f), next, 1, None)
      case Next(next) =>
        var r := RunFrom(next, limit, bodies[i + 1..], loads);
        r.(used := r.used + 1)
  {
    assert bodies[i..][0] == bodies[i] && bodies[i..][1..] == bodies[i + 1..];
  }

  /** The closing facts of `Fetch`, drawn from the lemmas about `RunFrom`. */
  lemma {:induction false} Conclude(start: int, limit: int, bodies: seq<string>, loads: string -> Decoded, run: Run)
    requires run == RunFrom(Initial(start), limit, bodies, loads)
    ensures run.used <= |bodies|
    ensures |bodies| > 0 ==> run.used > 0
    ensures run.state.offset == start + Successes(bodies[..run.used], loads) * limit
    ensures run.state.messages == Collected(bodies[..run.used], loads)
    ensures run.state.pages == PageLog(start, limit, bodies[..run.used], loads)
    ensures run.complete == if run.stop == EndOfHistory then Some(run.state.messages) else None
  {
    InitialDataLacksEndMark();
    RunAdvancesOffset(Initial(start), limit, bodies, loads);
    RunCollectsActions(Initial(start), limit, bodies, loads);
    RunLogsPages(Initial(start), limit, bodies, loads);
    RunStopsAtFirstHalt(Initial(start), limit, bodies, loads);
  }
}
