/**
 * The helpers of the evaluation tests: turning a streamed chat completion into one completion,
 * and reading the judge model's ruling. The chat API itself is not modelled: a streamed reply is
 * the sequence of chunks it yields, and the judge's parsed reply is a parameter.
 */
module EvalUtils {
  import opened Wrappers
  import DocTypes

  /** A tool call of the completed message (its type is always "function"). */
  datatype ToolCall = ToolCall(id: Option<string>, arguments: string, name: string)

  datatype Message = Message(role: string, content: string, toolCalls: Option<seq<ToolCall>>)

  datatype Choice = Choice(index: int, message: Message, finishReason: Option<string>)

  datatype Completion = Completion(
    id: string, created: int, objectType: string, model: string,
    choices: seq<Choice>, systemFingerprint: Option<string>)

  /** The pieces of a streamed chunk; every field the code tests against None is an Option. */
  datatype FunctionDelta = FunctionDelta(arguments: Option<string>, name: Option<string>)

  datatype ToolCallDelta = ToolCallDelta(index: int, id: Option<string>, func: Option<FunctionDelta>)

  datatype Delta = Delta(role: Option<string>, content: Option<string>, toolCalls: Option<seq<ToolCallDelta>>)

  datatype ChoiceDelta = ChoiceDelta(index: int, delta: Option<Delta>, finishReason: Option<string>)

  datatype Chunk = Chunk(
    id: string, model: string, systemFingerprint: Option<string>,
    choices: Option<seq<Option<ChoiceDelta>>>)

  /** The reply of the chat API: a whole completion, or a stream of chunks (some of them None). */
  datatype Response = Complete(completion: Completion) | Stream(chunks: seq<Option<Chunk>>)

  /** Python's `x or ""` on an optional string. */
  function OrEmpty(o: Option<string>): string {
    if o.Some? then o.value else ""
  }

  /** Python truthiness of an optional string: present and not empty. */
  predicate Truthy(o: Option<string>) {
    o.Some? && o.value != ""
  }

  // ---------------------------------------------------------------------------------------
  // The chunks the loop looks at, and the first truthy id, model and fingerprint among them.

  /** The chunks that are not None, in order. */
  function Live(chunks: seq<Option<Chunk>>): (r: seq<Chunk>)
    ensures |r| <= |chunks|
    decreases |chunks|
  {
    if chunks == [] then []
    else
      var rest := Live(chunks[..|chunks| - 1]);
      var c := chunks[|chunks| - 1];
      if c.Some? then rest + [c.value] else rest
  }

  function Ids(cs: seq<Chunk>): (r: seq<Option<string>>)
    ensures |r| == |cs| && forall i :: 0 <= i < |cs| ==> r[i] == Some(cs[i].id)
    decreases |cs|
  {
    if cs == [] then [] else Ids(cs[..|cs| - 1]) + [Some(cs[|cs| - 1].id)]
  }

  function Models(cs: seq<Chunk>): (r: seq<Option<string>>)
    ensures |r| == |cs| && forall i :: 0 <= i < |cs| ==> r[i] == Some(cs[i].model)
    decreases |cs|
  {
    if cs == [] then [] else Models(cs[..|cs| - 1]) + [Some(cs[|cs| - 1].model)]
  }

  function Fingerprints(cs: seq<Chunk>): (r: seq<Option<string>>)
    ensures |r| == |cs| && forall i :: 0 <= i < |cs| ==> r[i] == cs[i].systemFingerprint
    decreases |cs|
  {
    if cs == [] then [] else Fingerprints(cs[..|cs| - 1]) + [cs[|cs| - 1].systemFingerprint]
  }

  /**
   * `v = v or x` over the values in order, starting from "": the first truthy value when there is
   * one; otherwise no value is truthy.
   */
  function FirstTruthy(vals: seq<Option<string>>): (r: Option<string>)
    decreases |vals|
  {
    if vals == [] then Some("")
    else
      var prev := FirstTruthy(vals[..|vals| - 1]);
      if Truthy(prev) then prev else vals[|vals| - 1]
  }

  /**
   * The value kept is the first truthy one when there is one; otherwise no value is truthy, and
   * when every value is present so is the result.
   */
  lemma {:induction false} FirstTruthyIsFirst(vals: seq<Option<string>>)
    ensures var r := FirstTruthy(vals);
      (Truthy(r) <==> exists k :: 0 <= k < |vals| && Truthy(vals[k])) &&
      (Truthy(r) ==> exists k :: 0 <= k < |vals| && vals[k] == r && forall j :: 0 <= j < k ==> !Truthy(vals[j])) &&
      ((forall k :: 0 <= k < |vals| ==> vals[k].Some?) ==> r.Some?)
    decreases |vals|
  {
    if vals != [] {
      var front := vals[..|vals| - 1];
      FirstTruthyIsFirst(front);
      var prev := FirstTruthy(front);
      if Truthy(prev) {
        var k :| 0 <= k < |front| && front[k] == prev && forall j :: 0 <= j < k ==> !Truthy(front[j]);
        assert vals[k] == prev;
      } else {
        assert forall j :: 0 <= j < |front| ==> !Truthy(vals[j]);
      }
    }
  }

  /** The id, model and system fingerprint carried across the chunks. */
  datatype Header = Header(id: string, model: string, fingerprint: Option<string>)

  /** `id = id or chunk.id`, and the same for the model and the fingerprint. */
  function Absorb(h: Header, c: Chunk): Header {
    Header(if h.id != "" then h.id else c.id,
           if h.model != "" then h.model else c.model,
           if Truthy(h.fingerprint) then h.fingerprint else c.systemFingerprint)
  }

  /** The header after the chunks, starting from empty values; None chunks are skipped. */
  function HeaderOf(chunks: seq<Option<Chunk>>): Header
    decreases |chunks|
  {
    if chunks == [] then Header("", "", Some(""))
    else
      var h := HeaderOf(chunks[..|chunks| - 1]);
      var c := chunks[|chunks| - 1];
      if c.Some? then Absorb(h, c.value) else h
  }

  /** The header holds the first truthy id, model and fingerprint of the chunks that are not None. */
  lemma {:induction false} HeaderIsFirstTruthy(chunks: seq<Option<Chunk>>)
    ensures var h := HeaderOf(chunks); var live := Live(chunks);
      Some(h.id) == FirstTruthy(Ids(live)) &&
      Some(h.model) == FirstTruthy(Models(live)) &&
      h.fingerprint == FirstTruthy(Fingerprints(live))
    decreases |chunks|
  {
    if chunks != [] {
      var front := chunks[..|chunks| - 1];
      HeaderIsFirstTruthy(front);
      var c := chunks[|chunks| - 1];
      if c.Some? {
        var live := Live(front);
        assert Live(chunks) == live + [c.value];
        ProjectionsAppend(live, c.value);
        FirstTruthyAppend(Ids(live), Some(c.value.id));
        FirstTruthyAppend(Models(live), Some(c.value.model));
        FirstTruthyAppend(Fingerprints(live), c.value.systemFingerprint);
      }
    }
  }

  lemma ProjectionsAppend(live: seq<Chunk>, c: Chunk)
    ensures Ids(live + [c]) == Ids(live) + [Some(c.id)]
    ensures Models(live + [c]) == Models(live) + [Some(c.model)]
    ensures Fingerprints(live + [c]) == Fingerprints(live) + [c.systemFingerprint]
  {
    assert (live + [c])[..|live|] == live;
  }

  lemma FirstTruthyAppend(vals: seq<Option<string>>, v: Option<string>)
    ensures FirstTruthy(vals + [v]) == if Truthy(FirstTruthy(vals)) then FirstTruthy(vals) else v
  {
    assert (vals + [v])[..|vals|] == vals;
  }

  // ---------------------------------------------------------------------------------------
  // The choice deltas the loop accumulates, flattened into events.

  /** A choice delta that is not skipped: the choice and its delta are both present. */
  datatype Event = Event(index: int, delta: Delta, finishReason: Option<string>)

  /** The events of one chunk's choices, in order; None choices and None deltas are skipped. */
  function ChoiceEvents(cs: seq<Option<ChoiceDelta>>): seq<Event>
    decreases |cs|
  {
    if cs == [] then []
    else
      var rest := ChoiceEvents(cs[..|cs| - 1]);
      var c := cs[|cs| - 1];
      if c.Some? && c.value.delta.Some? then rest + [Event(c.value.index, c.value.delta.value, c.value.finishReason)]
      else rest
  }

  /** The choices of a chunk, or none when the field is None. */
  function ChoicesOf(c: Chunk): seq<Option<ChoiceDelta>> {
    if c.choices.Some? then c.choices.value else []
  }

  /** The events of the whole stream, chunk by chunk; a None chunk has none. */
  function Events(chunks: seq<Option<Chunk>>): seq<Event>
    decreases |chunks|
  {
    if chunks == [] then []
    else
      var c := chunks[|chunks| - 1];
      Events(chunks[..|chunks| - 1]) + (if c.Some? then ChoiceEvents(ChoicesOf(c.value)) else [])
  }

  /** The accumulated entry of one choice index. */
  datatype ChoiceAcc = ChoiceAcc(role: string, content: string, finishReason: Option<string>)

  /** The tool calls by choice index, then by call index. */
  type Calls = map<int, map<int, ToolCall>>

  /** The two dictionaries the loop builds. */
  datatype Acc = Acc(choices: map<int, ChoiceAcc>, calls: Calls)

  const Empty: Acc := Acc(map[], map[])

  /** A new index takes the delta's role and content; a known one appends the content and takes the finish reason. */
  function AddChoice(choices: map<int, ChoiceAcc>, e: Event): map<int, ChoiceAcc> {
    if e.index !in choices then
      choices[e.index := ChoiceAcc(OrEmpty(e.delta.role), OrEmpty(e.delta.content), e.finishReason)]
    else
      choices[e.index := choices[e.index].(content := choices[e.index].content + OrEmpty(e.delta.content), finishReason := e.finishReason)]
  }

  function FragmentArguments(t: ToolCallDelta): string {
    if t.func.Some? then OrEmpty(t.func.value.arguments) else ""
  }

  function FragmentName(t: ToolCallDelta): string {
    if t.func.Some? then OrEmpty(t.func.value.name) else ""
  }

  /** One tool-call fragment of choice `ci`: a new call index is recorded whole, a known one gets the arguments appended. */
  function AddCall(calls: Calls, ci: int, t: ToolCallDelta): Calls {
    var inner := if ci in calls then calls[ci] else map[];
    var args := FragmentArguments(t);
    if t.index !in inner then calls[ci := inner[t.index := ToolCall(t.id, args, FragmentName(t))]]
    else calls[ci := inner[t.index := inner[t.index].(arguments := inner[t.index].arguments + args)]]
  }

  function AddCalls(calls: Calls, ci: int, ts: seq<ToolCallDelta>): Calls
    decreases |ts|
  {
    if ts == [] then calls else AddCall(AddCalls(calls, ci, ts[..|ts| - 1]), ci, ts[|ts| - 1])
  }

  function Step(acc: Acc, e: Event): Acc {
    Acc(AddChoice(acc.choices, e),
        if e.delta.toolCalls.Some? then AddCalls(acc.calls, e.index, e.delta.toolCalls.value) else acc.calls)
  }

  function Fold(acc: Acc, evs: seq<Event>): Acc
    decreases |evs|
  {
    if evs == [] then acc else Step(Fold(acc, evs[..|evs| - 1]), evs[|evs| - 1])
  }

  // ---------------------------------------------------------------------------------------
  // Assembling the completion.

  /** The least element of a non-empty set. */
  function Least(s: set<int>): (m: int)
    requires s != {}
    ensures m in s && forall x :: x in s ==> m <= x
    decreases |s|
  {
    LeastExists(s);
    var m :| m in s && forall x :: x in s ==> m <= x;
    m
  }

  lemma LeastExists(s: set<int>)
    requires s != {}
    ensures exists m :: m in s && forall x :: x in s ==> m <= x
  {
    var m := LeastOf(s);
  }

  lemma {:induction false} LeastOf(s: set<int>) returns (m: int)
    requires s != {}
    ensures m in s && forall x :: x in s ==> m <= x
    decreases |s|
  {
    if forall z :: z !in s {
      EmptyIfNoElement(s);
      assert false;
    }
    var x :| x in s;
    if s == {x} {
      m := x;
    } else {
      var y := LeastOf(s - {x});
      assert forall z :: z in s ==> z == x || z in s - {x};
      m := if x < y then x else y;
    }
  }

  lemma EmptyIfNoElement(s: set<int>)
    requires forall z :: z !in s
    ensures s == {}
  {
    assert forall z :: z in s <==> z in {};
  }

  /** Python's sorted() on a set of integer keys. */
  function SortedKeys(s: set<int>): (r: seq<int>)
    ensures forall i, j :: 0 <= i < j < |r| ==> r[i] < r[j]
    ensures forall x :: x in s <==> x in r
    decreases |s|
  {
    if s == {} then []
    else
      var m := Least(s);
      [m] + SortedKeys(s - {m})
  }

  /** The tool calls of one choice, by ascending call index. */
  function CallsInOrder(m: map<int, ToolCall>): seq<ToolCall>
  {
    CallsAt(SortedKeys(m.Keys), m)
  }

  function CallsAt(keys: seq<int>, m: map<int, ToolCall>): (r: seq<ToolCall>)
    requires forall i :: 0 <= i < |keys| ==> keys[i] in m
    ensures |r| == |keys| && forall i :: 0 <= i < |keys| ==> r[i] == m[keys[i]]
    decreases |keys|
  {
    if keys == [] then [] else [m[keys[0]]] + CallsAt(keys[1..], m)
  }

  /** The output choice of index `k`: its entry, with its tool calls attached when it has any. */
  function ChoiceFor(k: int, acc: Acc): Choice
    requires k in acc.choices
  {
    var entry := acc.choices[k];
    var toolCalls := if k in acc.calls then Some(CallsInOrder(acc.calls[k])) else None;
    Choice(k, Message(entry.role, entry.content, toolCalls), entry.finishReason)
  }

  /** The choices of the given indexes, in that order. */
  function ChoicesAt(keys: seq<int>, acc: Acc): (r: seq<Choice>)
    requires forall i :: 0 <= i < |keys| ==> keys[i] in acc.choices
    ensures |r| == |keys| && forall i :: 0 <= i < |keys| ==> r[i] == ChoiceFor(keys[i], acc)
    decreases |keys|
  {
    if keys == [] then [] else [ChoiceFor(keys[0], acc)] + ChoicesAt(keys[1..], acc)
  }

  /** The completion a stream is turned into, given the creation time. */
  function Assemble(chunks: seq<Option<Chunk>>, created: int): (c: Completion)
    ensures forall i, j :: 0 <= i < j < |c.choices| ==> c.choices[i].index < c.choices[j].index
  {
    var h := HeaderOf(chunks);
    var acc := Fold(Empty, Events(chunks));
    Completion(h.id, created, "chat.completion", h.model, ChoicesAt(SortedKeys(acc.choices.Keys), acc), h.fingerprint)
  }

  // ---------------------------------------------------------------------------------------
  // The loops.

  /**
   * to_chat_completion: a whole completion is returned as it is; a stream is folded chunk by
   * chunk. `finishReason` is the overall finish reason the function tracks: it starts as "" and
   * is only ever replaced when it is not "", so it stays "" (and is never part of the result).
   */
  method ToChatCompletion(response: Response, created: int) returns (c: Completion, finishReason: string)
    ensures response.Complete? ==> c == response.completion
    ensures response.Stream? ==> c == Assemble(response.chunks, created)
    ensures finishReason == ""
  {
    finishReason := "";
    if response.Complete? {
      return response.completion, finishReason;
    }
    var chunks := response.chunks;
    var id, model := "", "";
    var fingerprint: Option<string> := Some("");
    var choices: map<int, ChoiceAcc> := map[];
    var calls: Calls := map[];
    for i := 0 to |chunks|
      invariant Header(id, model, fingerprint) == HeaderOf(chunks[..i])
      invariant Acc(choices, calls) == Fold(Empty, Events(chunks[..i]))
      invariant finishReason == ""
    {
      var chunk := chunks[i];
      ChunkStep(chunks, i);
      if chunk.None? {
        continue;
      }
      id := if id != "" then id else chunk.value.id;
      model := if model != "" then model else chunk.value.model;
      fingerprint := if Truthy(fingerprint) then fingerprint else chunk.value.systemFingerprint;
      var cs := ChoicesOf(chunk.value);
      choices, calls, finishReason := AddChoiceDeltas(choices, calls, cs, finishReason);
      FoldAppend(Empty, Events(chunks[..i]), ChoiceEvents(cs));
    }
    assert chunks[..|chunks|] == chunks;
    c := Completion(id, created, "chat.completion", model, ChoicesAt(SortedKeys(choices.Keys), Acc(choices, calls)), fingerprint);
  }

  /** What one more chunk adds to the header and to the events. */
  lemma ChunkStep(chunks: seq<Option<Chunk>>, i: int)
    requires 0 <= i < |chunks|
    ensures chunks[i].None? ==> HeaderOf(chunks[..i + 1]) == HeaderOf(chunks[..i]) && Events(chunks[..i + 1]) == Events(chunks[..i])
    ensures chunks[i].Some? ==>
      HeaderOf(chunks[..i + 1]) == Absorb(HeaderOf(chunks[..i]), chunks[i].value) &&
      Events(chunks[..i + 1]) == Events(chunks[..i]) + ChoiceEvents(ChoicesOf(chunks[i].value))
  {
    assert chunks[..i + 1][..i] == chunks[..i];
    if chunks[i].None? {
      assert Events(chunks[..i + 1]) == Events(chunks[..i]) + [];
    }
  }

  /** The loop over one chunk's choices. */
  method AddChoiceDeltas(choices: map<int, ChoiceAcc>, calls: Calls, cs: seq<Option<ChoiceDelta>>, finishReason: string)
    returns (newChoices: map<int, ChoiceAcc>, newCalls: Calls, newFinishReason: string)
    ensures Acc(newChoices, newCalls) == Fold(Acc(choices, calls), ChoiceEvents(cs))
    ensures finishReason == "" ==> newFinishReason == ""
  {
    newChoices, newCalls, newFinishReason := choices, calls, finishReason;
    for j := 0 to |cs|
      invariant Acc(newChoices, newCalls) == Fold(Acc(choices, calls), ChoiceEvents(cs[..j]))
      invariant finishReason == "" ==> newFinishReason == ""
    {
      assert cs[..j + 1][..j] == cs[..j];
      var choice := cs[j];
      if choice.None? || choice.value.delta.None? {
        continue;
      }
      var ch := choice.value;
      var d := ch.delta.value;
      var e := Event(ch.index, d, ch.finishReason);
      assert ChoiceEvents(cs[..j + 1]) == ChoiceEvents(cs[..j]) + [e];
      assert (ChoiceEvents(cs[..j]) + [e])[..|ChoiceEvents(cs[..j])|] == ChoiceEvents(cs[..j]);
      if ch.finishReason.Some? && newFinishReason != "" {
        newFinishReason := ch.finishReason.value;
      }
      if ch.index !in newChoices {
        newChoices := newChoices[ch.index := ChoiceAcc(OrEmpty(d.role), OrEmpty(d.content), ch.finishReason)];
      } else {
        var entry := newChoices[ch.index];
        newChoices := newChoices[ch.index := entry.(content := entry.content + OrEmpty(d.content), finishReason := ch.finishReason)];
      }
      if d.toolCalls.None? {
        continue;
      }
      newCalls := AddToolCallDeltas(newCalls, ch.index, d.toolCalls.value);
    }
    assert cs[..|cs|] == cs;
  }

  /** The loop over one choice's tool-call fragments. */
  method AddToolCallDeltas(calls: Calls, ci: int, ts: seq<ToolCallDelta>) returns (r: Calls)
    ensures r == AddCalls(calls, ci, ts)
  {
    r := calls;
    for k := 0 to |ts|
      invariant r == AddCalls(calls, ci, ts[..k])
    {
      assert ts[..k + 1][..k] == ts[..k];
      var t := ts[k];
      if ci !in r {
        r := r[ci := map[]];
      }
      var arguments, name := "", "";
      if t.func.Some? {
        arguments := OrEmpty(t.func.value.arguments);
        name := OrEmpty(t.func.value.name);
      }
      if t.index !in r[ci] {
        r := r[ci := r[ci][t.index := ToolCall(t.id, arguments, name)]];
      } else {
        var call := r[ci][t.index];
        r := r[ci := r[ci][t.index := call.(arguments := call.arguments + arguments)]];
      }
    }
    assert ts[..|ts|] == ts;
  }

  /** Folding a concatenation is folding the second part from the state the first part left. */
  lemma {:induction false} FoldAppend(acc: Acc, a: seq<Event>, b: seq<Event>)
    ensures Fold(acc, a + b) == Fold(Fold(acc, a), b)
    decreases |b|
  {
    if b == [] {
      assert a + b == a;
    } else {
      FoldAppend(acc, a, b[..|b| - 1]);
      assert (a + b)[..|a + b| - 1] == a + b[..|b| - 1];
    }
  }

  // ---------------------------------------------------------------------------------------
  // What the accumulation means, stated over the events.

  /** The events of choice index `idx`, in order. */
  function EventsFor(evs: seq<Event>, idx: int): seq<Event>
    decreases |evs|
  {
    if evs == [] then []
    else
      EventsFor(evs[..|evs| - 1], idx) + EventAdded(evs[|evs| - 1], idx)
  }

  function EventAdded(e: Event, idx: int): seq<Event> {
    if e.index == idx then [e] else []
  }

  /** The contents of the events concatenated, a missing content reading as "". */
  function ConcatContents(es: seq<Event>): string
    decreases |es|
  {
    if es == [] then "" else ConcatContents(es[..|es| - 1]) + OrEmpty(es[|es| - 1].delta.content)
  }

  /**
   * The entry of `idx` is what the events `es` of that index make of it: present exactly when
   * there are some, with the role of the first, all contents in order and the finish reason of
   * the last.
   */
  predicate ChoiceMatches(choices: map<int, ChoiceAcc>, idx: int, es: seq<Event>) {
    (idx in choices <==> es != []) &&
    (es != [] ==> choices[idx] == ChoiceAcc(OrEmpty(es[0].delta.role), ConcatContents(es), es[|es| - 1].finishReason))
  }

  lemma AddChoiceMatches(choices: map<int, ChoiceAcc>, e: Event, idx: int, es: seq<Event>)
    requires ChoiceMatches(choices, idx, es)
    ensures ChoiceMatches(AddChoice(choices, e), idx, es + EventAdded(e, idx))
  {
    if e.index != idx {
      assert es + EventAdded(e, idx) == es;
    } else {
      var es2 := es + [e];
      assert es2[..|es|] == es;
      assert es2[0] == if es == [] then e else es[0];
    }
  }

  lemma {:induction false} FoldChoicesMatch(evs: seq<Event>, idx: int)
    ensures ChoiceMatches(Fold(Empty, evs).choices, idx, EventsFor(evs, idx))
    decreases |evs|
  {
    if evs != [] {
      var front := evs[..|evs| - 1];
      var e := evs[|evs| - 1];
      FoldChoicesMatch(front, idx);
      AddChoiceMatches(Fold(Empty, front).choices, e, idx, EventsFor(front, idx));
      assert Fold(Empty, evs).choices == AddChoice(Fold(Empty, front).choices, e);
    }
  }

  /**
   * In the completion of a stream there is a choice of index `idx` exactly when some choice delta
   * of that index was not skipped; its role is the first such delta's (or ""), its content the
   * concatenation of all their contents in order, and its finish reason the last one's.
   */
  lemma StreamedChoice(chunks: seq<Option<Chunk>>, created: int, idx: int)
    ensures ListedAs(Assemble(chunks, created).choices, idx, EventsFor(Events(chunks), idx))
  {
    var acc := Fold(Empty, Events(chunks));
    FoldChoicesMatch(Events(chunks), idx);
    ListedMatches(acc, idx, EventsFor(Events(chunks), idx));
    assert Assemble(chunks, created).choices == ChoicesAt(SortedKeys(acc.choices.Keys), acc);
  }

  /**
   * The choices `cs` hold one of index `idx` exactly when the events `es` are not empty; its role
   * is the first event's (or ""), its content all their contents in order, and its finish reason
   * the last one's.
   */
  predicate ListedAs(cs: seq<Choice>, idx: int, es: seq<Event>) {
    ((exists i :: 0 <= i < |cs| && cs[i].index == idx) <==> es != []) &&
    (forall i :: 0 <= i < |cs| && cs[i].index == idx ==>
      es != [] &&
      cs[i].message.role == OrEmpty(es[0].delta.role) &&
      cs[i].message.content == ConcatContents(es) &&
      cs[i].finishReason == es[|es| - 1].finishReason)
  }

  lemma ListedMatches(acc: Acc, idx: int, es: seq<Event>)
    requires ChoiceMatches(acc.choices, idx, es)
    ensures ListedAs(ChoicesAt(SortedKeys(acc.choices.Keys), acc), idx, es)
  {
    ListedIffEntry(acc, idx);
    ListedIsEntry(acc, idx);
  }

  /** A choice of index `idx` is listed exactly when there is an entry for `idx`. */
  lemma ListedIffEntry(acc: Acc, idx: int)
    ensures var r := ChoicesAt(SortedKeys(acc.choices.Keys), acc);
      (exists i :: 0 <= i < |r| && r[i].index == idx) <==> idx in acc.choices
  {
    ChoicesListedAreEntries(acc);
    if idx in acc.choices {
      var i := EntryListedAt(acc, idx);
    }
  }

  /** A listed choice of index `idx` carries the role, content and finish reason of its entry. */
  lemma ListedIsEntry(acc: Acc, idx: int)
    ensures var r := ChoicesAt(SortedKeys(acc.choices.Keys), acc);
      forall i :: 0 <= i < |r| && r[i].index == idx ==>
        idx in acc.choices && r[i].message.role == acc.choices[idx].role &&
        r[i].message.content == acc.choices[idx].content && r[i].finishReason == acc.choices[idx].finishReason
  {
    ChoicesListedAreEntries(acc);
  }

  /** Every listed choice is an accumulated entry, as ChoiceFor makes it. */
  lemma ChoicesListedAreEntries(acc: Acc)
    ensures var r := ChoicesAt(SortedKeys(acc.choices.Keys), acc);
      forall i :: 0 <= i < |r| ==> r[i].index in acc.choices && r[i] == ChoiceFor(r[i].index, acc)
  {
  }

  /** Every accumulated entry is listed: the position where it is. */
  lemma EntryListedAt(acc: Acc, idx: int) returns (i: int)
    requires idx in acc.choices
    ensures 0 <= i < |ChoicesAt(SortedKeys(acc.choices.Keys), acc)|
    ensures ChoicesAt(SortedKeys(acc.choices.Keys), acc)[i].index == idx
  {
    var keys := SortedKeys(acc.choices.Keys);
    assert idx in keys;
    i :| 0 <= i < |keys| && keys[i] == idx;
  }

  /** The fragments among `ts` with call index `k`, in order. */
  function FragmentsIn(ts: seq<ToolCallDelta>, k: int): seq<ToolCallDelta>
    decreases |ts|
  {
    if ts == [] then []
    else
      var t := ts[|ts| - 1];
      FragmentsIn(ts[..|ts| - 1], k) + (if t.index == k then [t] else [])
  }

  /** The tool-call fragments with call index `k` of the events of choice index `ci`, in order. */
  function CallFragments(evs: seq<Event>, ci: int, k: int): seq<ToolCallDelta>
    decreases |evs|
  {
    if evs == [] then []
    else
      var e := evs[|evs| - 1];
      CallFragments(evs[..|evs| - 1], ci, k) + EventFragments(e, ci, k)
  }

  /** The fragments with call index `k` that one event contributes to choice `ci`. */
  function EventFragments(e: Event, ci: int, k: int): seq<ToolCallDelta> {
    if e.index == ci && e.delta.toolCalls.Some? then FragmentsIn(e.delta.toolCalls.value, k) else []
  }

  function ConcatArguments(frs: seq<ToolCallDelta>): string
    decreases |frs|
  {
    if frs == [] then "" else ConcatArguments(frs[..|frs| - 1]) + FragmentArguments(frs[|frs| - 1])
  }

  /**
   * The call (`ci`, `k`) is what its fragments `frs` make of it: present exactly when there are
   * some, with the id and name of the first and all arguments concatenated in order.
   */
  predicate CallMatches(calls: Calls, ci: int, k: int, frs: seq<ToolCallDelta>) {
    ((ci in calls && k in calls[ci]) <==> frs != []) &&
    (frs != [] ==> calls[ci][k] == ToolCall(frs[0].id, ConcatArguments(frs), FragmentName(frs[0])))
  }

  lemma AddCallMatches(calls: Calls, cj: int, t: ToolCallDelta, ci: int, k: int, frs: seq<ToolCallDelta>)
    requires CallMatches(calls, ci, k, frs)
    ensures CallMatches(AddCall(calls, cj, t), ci, k, if cj == ci && t.index == k then frs + [t] else frs)
  {
    if cj != ci || t.index != k {
      OtherCallUntouched(calls, cj, t, ci, k, frs);
    } else if frs == [] {
      FirstFragment(calls, t, ci, frs);
    } else {
      LaterFragment(calls, t, ci, frs);
    }
  }

  /** A fragment of another call leaves the call (`ci`, `k`) as it was. */
  lemma OtherCallUntouched(calls: Calls, cj: int, t: ToolCallDelta, ci: int, k: int, frs: seq<ToolCallDelta>)
    requires CallMatches(calls, ci, k, frs)
    requires cj != ci || t.index != k
    ensures CallMatches(AddCall(calls, cj, t), ci, k, frs)
  {
    var r := AddCall(calls, cj, t);
    if cj != ci {
      assert (ci in r <==> ci in calls) && (ci in calls ==> r[ci] == calls[ci]);
    } else {
      var inner := if ci in calls then calls[ci] else map[];
      assert ci in r && (k in r[ci] <==> k in inner) && (k in inner ==> r[ci][k] == inner[k]);
    }
  }

  /** The first fragment of a call records it with the fragment's id, name and arguments. */
  lemma FirstFragment(calls: Calls, t: ToolCallDelta, ci: int, frs: seq<ToolCallDelta>)
    requires CallMatches(calls, ci, t.index, frs) && frs == []
    ensures CallMatches(AddCall(calls, ci, t), ci, t.index, frs + [t])
  {
    assert frs + [t] == [t] && [t][..0] == [];
    assert AddCall(calls, ci, t)[ci][t.index] == ToolCall(t.id, FragmentArguments(t), FragmentName(t));
  }

  /** A later fragment of a call appends its arguments. */
  lemma LaterFragment(calls: Calls, t: ToolCallDelta, ci: int, frs: seq<ToolCallDelta>)
    requires CallMatches(calls, ci, t.index, frs) && frs != []
    ensures CallMatches(AddCall(calls, ci, t), ci, t.index, frs + [t])
  {
    var frs2 := frs + [t];
    assert frs2[..|frs|] == frs && frs2[0] == frs[0];
    assert AddCall(calls, ci, t)[ci][t.index] == calls[ci][t.index].(arguments := calls[ci][t.index].arguments + FragmentArguments(t));
  }

  lemma {:induction false} AddCallsMatch(calls: Calls, cj: int, ts: seq<ToolCallDelta>, ci: int, k: int, frs: seq<ToolCallDelta>)
    requires CallMatches(calls, ci, k, frs)
    ensures CallMatches(AddCalls(calls, cj, ts), ci, k, frs + (if cj == ci then FragmentsIn(ts, k) else []))
    decreases |ts|
  {
    if ts == [] {
      assert frs + [] == frs;
    } else {
      var front := ts[..|ts| - 1];
      var t := ts[|ts| - 1];
      AddCallsMatch(calls, cj, front, ci, k, frs);
      var before := if cj == ci then FragmentsIn(front, k) else [];
      var added := if cj == ci && t.index == k then [t] else [];
      AddCallMatches(AddCalls(calls, cj, front), cj, t, ci, k, frs + before);
      assert (if cj == ci && t.index == k then (frs + before) + [t] else frs + before) == (frs + before) + added;
      assert frs + (if cj == ci then FragmentsIn(ts, k) else []) == (frs + before) + added by {
        assert (if cj == ci then FragmentsIn(ts, k) else []) == before + added;
      }
      CallMatchesTransport(AddCall(AddCalls(calls, cj, front), cj, t), AddCalls(calls, cj, ts), ci, k,
                           (frs + before) + added, frs + (if cj == ci then FragmentsIn(ts, k) else []));
    }
  }

  /** One event adds its fragments of choice `ci` and call index `k`. */
  lemma StepCallsMatch(acc: Acc, e: Event, ci: int, k: int, frs: seq<ToolCallDelta>)
    requires CallMatches(acc.calls, ci, k, frs)
    ensures CallMatches(Step(acc, e).calls, ci, k, frs + EventFragments(e, ci, k))
  {
    if e.delta.toolCalls.Some? {
      AddCallsMatch(acc.calls, e.index, e.delta.toolCalls.value, ci, k, frs);
      if e.index != ci {
        assert frs + EventFragments(e, ci, k) == frs + [];
      }
    } else {
      assert frs + EventFragments(e, ci, k) == frs;
    }
  }

  lemma CallMatchesTransport(c1: Calls, c2: Calls, ci: int, k: int, f1: seq<ToolCallDelta>, f2: seq<ToolCallDelta>)
    requires c1 == c2 && f1 == f2 && CallMatches(c1, ci, k, f1)
    ensures CallMatches(c2, ci, k, f2)
  {
  }

  lemma {:induction false} FoldCallsMatch(evs: seq<Event>, ci: int, k: int)
    ensures CallMatches(Fold(Empty, evs).calls, ci, k, CallFragments(evs, ci, k))
    decreases |evs|
  {
    if evs != [] {
      var front := evs[..|evs| - 1];
      var e := evs[|evs| - 1];
      FoldCallsMatch(front, ci, k);
      StepCallsMatch(Fold(Empty, front), e, ci, k, CallFragments(front, ci, k));
    }
  }

  /**
   * Over a whole stream, the tool call with call index `k` of choice `ci` exists exactly when some
   * fragment of it was streamed; it has the first fragment's id and name and the arguments of all
   * its fragments concatenated in order.
   */
  lemma StreamedToolCall(chunks: seq<Option<Chunk>>, ci: int, k: int)
    ensures CallMatches(Fold(Empty, Events(chunks)).calls, ci, k, CallFragments(Events(chunks), ci, k))
  {
    FoldCallsMatch(Events(chunks), ci, k);
  }

  /** A None chunk anywhere in the stream changes neither the header ... */
  lemma {:induction false} NoneChunkHeader(a: seq<Option<Chunk>>, b: seq<Option<Chunk>>)
    ensures HeaderOf(a + [None] + b) == HeaderOf(a + b)
    decreases |b|
  {
    var withNone := a + [None] + b;
    if b == [] {
      assert withNone[..|a|] == a && withNone[|a|] == None && a + b == a;
    } else {
      var front := b[..|b| - 1];
      NoneChunkHeader(a, front);
      assert withNone[..|withNone| - 1] == a + [None] + front && withNone[|withNone| - 1] == b[|b| - 1];
      assert (a + b)[..|a + b| - 1] == a + front && (a + b)[|a + b| - 1] == b[|b| - 1];
    }
  }

  /** ... nor the choice events. */
  lemma {:induction false} NoneChunkEvents(a: seq<Option<Chunk>>, b: seq<Option<Chunk>>)
    ensures Events(a + [None] + b) == Events(a + b)
    decreases |b|
  {
    var withNone := a + [None] + b;
    if b == [] {
      assert withNone[..|a|] == a && withNone[|a|] == None && a + b == a;
      assert Events(withNone) == Events(a) + [];
    } else {
      var front := b[..|b| - 1];
      NoneChunkEvents(a, front);
      assert withNone[..|withNone| - 1] == a + [None] + front && withNone[|withNone| - 1] == b[|b| - 1];
      assert (a + b)[..|a + b| - 1] == a + front && (a + b)[|a + b| - 1] == b[|b| - 1];
    }
  }

  /** A None chunk anywhere in the stream changes nothing in the assembled completion. */
  lemma NoneChunkSkipped(a: seq<Option<Chunk>>, b: seq<Option<Chunk>>, created: int)
    ensures Assemble(a + [None] + b, created) == Assemble(a + b, created)
  {
    NoneChunkHeader(a, b);
    NoneChunkEvents(a, b);
  }

  // ---------------------------------------------------------------------------------------
  // The judge.

  /** The judge model's ruling, parsed from its JSON reply. */
  type Ruling = map<string, DocTypes.Any>

  function MissingKey(key: string): string {
    "Failed to judge final answer. Judge response missing key: '" + key + "'"
  }

  /**
   * judge_final_answer: an empty expectation is answered at once with (None, True); otherwise the
   * judge (given the answer and the expectation) rules, and the result is its "correct" and
   * "reasoning" entries, "correct" being looked up first.
   */
  function JudgeFinalAnswer(finalAnswer: string, expected: string, judge: (string, string) -> Ruling)
    : (r: Result<(DocTypes.Any, DocTypes.Any), string>)
    ensures expected == "" ==> r == Ok((DocTypes.Nil, DocTypes.Bool(true)))
    ensures expected != "" ==>
      var ruling := judge(finalAnswer, expected);
      (r.Ok? <==> "correct" in ruling && "reasoning" in ruling) &&
      (r.Ok? ==> r.value == (ruling["correct"], ruling["reasoning"])) &&
      ("correct" !in ruling ==> r == Err(MissingKey("correct"))) &&
      ("correct" in ruling && "reasoning" !in ruling ==> r == Err(MissingKey("reasoning")))
  {
    if expected == "" then Ok((DocTypes.Nil, DocTypes.Bool(true)))
    else
      var ruling := judge(finalAnswer, expected);
      if "correct" !in ruling then Err(MissingKey("correct"))
      else if "reasoning" !in ruling then Err(MissingKey("reasoning"))
      else Ok((ruling["correct"], ruling["reasoning"]))
  }

  /** With an empty expectation the judge is never consulted: any two judges give the same answer. */
  lemma EmptyExpectationSkipsJudge(finalAnswer: string, judge1: (string, string) -> Ruling, judge2: (string, string) -> Ruling)
    ensures JudgeFinalAnswer(finalAnswer, "", judge1) == JudgeFinalAnswer(finalAnswer, "", judge2)
  {
  }

  /** run_test's check: the judgement succeeded and its first component is True. */
  predicate RunTestPasses(r: Result<(DocTypes.Any, DocTypes.Any), string>) {
    r.Ok? && r.value.0 == DocTypes.Bool(true)
  }

  /** As written, a question with an empty expected answer makes run_test fail: the match is None. */
  lemma EmptyExpectationFailsRunTest(finalAnswer: string, judge: (string, string) -> Ruling)
    ensures !RunTestPasses(JudgeFinalAnswer(finalAnswer, "", judge))
  {
  }

  /** judge_final_answer with the early result in the intended order: a match (True) and no reasoning. */
  function JudgeFinalAnswerCorrected(finalAnswer: string, expected: string, judge: (string, string) -> Ruling)
    : (r: Result<(DocTypes.Any, DocTypes.Any), string>)
    ensures expected != "" ==> r == JudgeFinalAnswer(finalAnswer, expected, judge)
    ensures expected == "" ==> RunTestPasses(r)
  {
    if expected == "" then Ok((DocTypes.Bool(true), DocTypes.Nil))
    else JudgeFinalAnswer(finalAnswer, expected, judge)
  }
}
