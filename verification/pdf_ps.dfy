/**
 * The mini PostScript interpreter the PDF reader uses for ToUnicode CMaps (ISO 32000-1, section
 * 9.10.3): an operand stack, a stack of open dictionaries, and the six operators it executes
 * itself (dict, currentdict, begin, end, def, pop); every other keyword is looked up in the open
 * dictionaries, top first, and handed to the caller's `do` when it is bound nowhere.
 *
 * Go dictionaries are shared references: a dictionary created by `dict`, opened by `begin` and
 * filled by `def` is the same map wherever it is referenced. The model keeps every dictionary in
 * a heap and refers to it by its index there.
 */
module PdfPs {
  import opened Wrappers

  /** A PDF object on the operand stack or in a dictionary. */
  datatype Obj =
    | Null
    | Bool(b: bool)
    | Int(i: int)
    | Str(s: string)
    | Name(n: string)
    | Arr(elems: seq<Obj>)
    | DictRef(ref: nat)

  /** Value.Name: the name of a name object, "" for anything else. */
  function NameOf(v: Obj): string {
    if v.Name? then v.n else ""
  }

  /** Pop on a list of values: the top value and the rest, or the zero value and no change when empty. */
  function PopSeq(s: seq<Obj>): (r: (Obj, seq<Obj>))
    ensures |s| == 0 ==> r == (Null, s)
    ensures |s| > 0 ==> r.1 + [r.0] == s
  {
    if |s| == 0 then (Null, s) else (s[|s| - 1], s[..|s| - 1])
  }

  /** Popping right after pushing gives the pushed value back and restores the stack. */
  lemma PushThenPop(s: seq<Obj>, v: Obj)
    ensures PopSeq(s + [v]) == (v, s)
  {
    assert (s + [v])[..|s|] == s;
  }

  /** The operand stack. */
  class Stack {
    var stack: seq<Obj>

    constructor ()
      ensures stack == []
    {
      stack := [];
    }

    function Len(): (n: int)
      reads this
      ensures n == |stack|
    {
      |stack|
    }

    method Push(v: Obj)
      modifies this
      ensures stack == old(stack) + [v]
    {
      stack := stack + [v];
    }

    /** Pop: the top value, removed; the zero value (null) from an empty stack, which stays empty. */
    method Pop() returns (v: Obj)
      modifies this
      ensures (v, stack) == PopSeq(old(stack))
      ensures |old(stack)| > 0 ==> |stack| == |old(stack)| - 1
    {
      var n := |stack|;
      if n == 0 {
        return Null;
      }
      v := stack[n - 1];
      stack := stack[..n - 1];
    }
  }

  /** A token as the lexer hands it over. */
  datatype Token =
    /**
     * A bare keyword. For the keywords the interpreter leaves to the object reader ("null", "[",
     * "]", "<<", ">>"), `asObject` is the object that reader produces from this token on.
     */
    | Keyword(kw: string, asObject: Obj)
    /** Any other token, already read as an object. */
    | Literal(obj: Obj)

  /** The interpreter's configuration: values whose definition under a non-name key is tolerated. */
  datatype InterpreterConfig = InterpreterConfig(ignoreDefOfNonNameVals: seq<string>)

  /** The options NewInterpreter accepts. */
  datatype InterpreterOption =
    | WithIgnoreDefOfNonNameVals(vals: seq<string>)
    | WithInterpreterConfig(config: InterpreterConfig)

  const DefaultConfig := InterpreterConfig([])

  /** The configuration after applying one option. */
  function ApplyOption(c: InterpreterConfig, opt: InterpreterOption): InterpreterConfig {
    match opt
    case WithIgnoreDefOfNonNameVals(vals) => InterpreterConfig(vals)
    case WithInterpreterConfig(config) => config
  }

  /** The configuration after applying the options in order. */
  function ApplyOptions(c: InterpreterConfig, opts: seq<InterpreterOption>): InterpreterConfig {
    if |opts| == 0 then c else ApplyOption(ApplyOptions(c, opts[..|opts| - 1]), opts[|opts| - 1])
  }

  /** The ignore list an option installs. */
  function OptionVals(opt: InterpreterOption): seq<string> {
    match opt
    case WithIgnoreDefOfNonNameVals(vals) => vals
    case WithInterpreterConfig(config) => config.ignoreDefOfNonNameVals
  }

  /** Every option replaces the whole configuration, so the last one decides; with none the list is empty. */
  lemma {:induction false} LastOptionWins(opts: seq<InterpreterOption>)
    ensures |opts| == 0 ==> ApplyOptions(DefaultConfig, opts).ignoreDefOfNonNameVals == []
    ensures |opts| > 0 ==> ApplyOptions(DefaultConfig, opts).ignoreDefOfNonNameVals == OptionVals(opts[|opts| - 1])
  {
  }

  class Interpreter {
    var config: InterpreterConfig

    /** NewInterpreter: the default configuration with the options applied in order. */
    constructor (opts: seq<InterpreterOption>)
      ensures config == ApplyOptions(DefaultConfig, opts)
    {
      var c := DefaultConfig;
      var i := 0;
      while i < |opts|
        invariant 0 <= i <= |opts|
        invariant c == ApplyOptions(DefaultConfig, opts[..i])
      {
        assert opts[..i + 1][..i] == opts[..i];
        c := ApplyOption(c, opts[i]);
        i := i + 1;
      }
      assert opts[..|opts|] == opts;
      config := c;
    }

    /**
     * Interpret: runs the token streams one after the other on a shared operand stack and
     * dictionary stack. A panic of the source ends the run with its message.
     */
    method Interpret(streams: seq<seq<Token>>, do: (seq<Obj>, string) -> seq<Obj>) returns (outcome: Outcome)
      ensures outcome == RunStreams(config.ignoreDefOfNonNameVals, do, Initial, streams)
    {
      var stk := new Stack();
      var dicts: seq<nat> := [];
      var heap: seq<map<string, Obj>> := [];
      var ignore := config.ignoreDefOfNonNameVals;
      var i := 0;
      while i < |streams|
        invariant 0 <= i <= |streams|
        invariant ValidState(PsState(stk.stack, dicts, heap))
        invariant RunStreams(ignore, do, Initial, streams) == RunStreams(ignore, do, PsState(stk.stack, dicts, heap), streams[i..])
        modifies stk
      {
        assert streams[i..][1..] == streams[i + 1..];
        var ran := ExecStream(ignore, do, stk, dicts, heap, streams[i]);
        if ran.Panicked? {
          return ran;
        }
        dicts, heap := ran.st.dicts, ran.st.heap;
        i := i + 1;
      }
      outcome := Running(PsState(stk.stack, dicts, heap));
    }
  }

  /** One token stream on the shared stack; a running outcome's operand stack is the one left in `stk`. */
  method ExecStream(ignore: seq<string>, do: (seq<Obj>, string) -> seq<Obj>, stk: Stack, dicts0: seq<nat>, heap0: seq<map<string, Obj>>, toks: seq<Token>)
    returns (outcome: Outcome)
    requires ValidState(PsState(stk.stack, dicts0, heap0))
    modifies stk
    ensures outcome == Run(ignore, do, PsState(old(stk.stack), dicts0, heap0), toks)
    ensures outcome.Running? ==> outcome.st.stack == stk.stack
  {
    var dicts, heap := dicts0, heap0;
    ghost var start := PsState(stk.stack, dicts, heap);
    var j := 0;
    while j < |toks|
      invariant 0 <= j <= |toks|
      invariant ValidState(PsState(stk.stack, dicts, heap))
      invariant Run(ignore, do, start, toks) == Run(ignore, do, PsState(stk.stack, dicts, heap), toks[j..])
      modifies stk
    {
      assert toks[j..][1..] == toks[j + 1..];
      var next := ExecToken(ignore, do, stk, dicts, heap, toks[j]);
      if next.Panicked? {
        return next;
      }
      dicts, heap := next.st.dicts, next.st.heap;
      j := j + 1;
    }
    assert toks[j..] == [];
    outcome := Running(PsState(stk.stack, dicts, heap));
  }

  /** One token: the operators act on the stack and the dictionaries, other keywords are looked up or handed to `do`. */
  method ExecToken(ignore: seq<string>, do: (seq<Obj>, string) -> seq<Obj>, stk: Stack, dicts0: seq<nat>, heap0: seq<map<string, Obj>>, tok: Token)
    returns (outcome: Outcome)
    requires ValidState(PsState(stk.stack, dicts0, heap0))
    modifies stk
    ensures outcome == Step(ignore, do, PsState(old(stk.stack), dicts0, heap0), tok)
    ensures outcome.Running? ==> outcome.st.stack == stk.stack
  {
    var dicts, heap := dicts0, heap0;
    if tok.Keyword? && tok.kw !in ObjectKeywords {
      var kw := tok.kw;
      if kw == "dict" {
        var _ := stk.Pop();
        stk.Push(DictRef(|heap|));
        heap := heap + [map[]];
      } else if kw == "currentdict" {
        if |dicts| == 0 {
          return Panicked("no current dictionary");
        }
        stk.Push(DictRef(dicts[|dicts| - 1]));
      } else if kw == "begin" {
        var d := stk.Pop();
        if !IsDict(d, heap) {
          return Panicked("cannot begin non-dict");
        }
        dicts := dicts + [d.ref];
      } else if kw == "end" {
        if |dicts| <= 0 {
          return Panicked("mismatched begin/end");
        }
        dicts := dicts[..|dicts| - 1];
      } else if kw == "def" {
        if |dicts| <= 0 {
          return Panicked("def without open dict");
        }
        var val := stk.Pop();
        var keyObj := stk.Pop();
        if !keyObj.Name? && NameOf(val) !in ignore {
          return Panicked("def of non-name");
        }
        var key := if keyObj.Name? then keyObj.n else "";
        var top := dicts[|dicts| - 1];
        heap := heap[top := heap[top][key := val]];
      } else if kw == "pop" {
        var _ := stk.Pop();
      } else {
        var found := LookupFrom(PsState(stk.stack, dicts, heap), kw, |dicts|);
        if found.Some? {
          stk.Push(found.value);
        } else {
          stk.stack := do(stk.stack, kw);
        }
      }
    } else {
      stk.Push(if tok.Keyword? then tok.asObject else tok.obj);
    }
    outcome := Running(PsState(stk.stack, dicts, heap));
  }

  /** The interpreter's state: operand stack, open dictionaries (as heap indexes) and the heap. */
  datatype PsState = PsState(stack: seq<Obj>, dicts: seq<nat>, heap: seq<map<string, Obj>>)

  /** Every open dictionary exists. */
  predicate ValidState(st: PsState) {
    forall i :: 0 <= i < |st.dicts| ==> st.dicts[i] < |st.heap|
  }

  const Initial := PsState([], [], [])

  /** How a run ends: still running with a state, or stopped by a panic. */
  datatype Outcome = Running(st: PsState) | Panicked(msg: string)

  /** The keywords left to the object reader. */
  const ObjectKeywords: set<string> := {"null", "[", "]", "<<", ">>"}

  /** The value is a reference to an existing dictionary. */
  predicate IsDict(v: Obj, heap: seq<map<string, Obj>>) {
    v.DictRef? && v.ref < |heap|
  }

  /** The binding of a name in the open dictionaries dicts[..n], searching from the top down. */
  function LookupFrom(st: PsState, kw: string, n: nat): (r: Option<Obj>)
    requires ValidState(st) && n <= |st.dicts|
    ensures r.Some? ==> exists i :: 0 <= i < n && kw in st.heap[st.dicts[i]] && r.value == st.heap[st.dicts[i]][kw] &&
                                    forall j :: i < j < n ==> kw !in st.heap[st.dicts[j]]
    ensures r.None? <==> forall i :: 0 <= i < n ==> kw !in st.heap[st.dicts[i]]
  {
    if n == 0 then None
    else if kw in st.heap[st.dicts[n - 1]] then Some(st.heap[st.dicts[n - 1]][kw])
    else LookupFrom(st, kw, n - 1)
  }

  /** The effect of one token. */
  function Step(ignore: seq<string>, do: (seq<Obj>, string) -> seq<Obj>, st: PsState, tok: Token): (r: Outcome)
    requires ValidState(st)
    ensures r.Running? ==> ValidState(r.st)
  {
    if tok.Literal? then Running(st.(stack := st.stack + [tok.obj]))
    else if tok.kw in ObjectKeywords then Running(st.(stack := st.stack + [tok.asObject]))
    else if tok.kw == "dict" then
      Running(PsState(PopSeq(st.stack).1 + [DictRef(|st.heap|)], st.dicts, st.heap + [map[]]))
    else if tok.kw == "currentdict" then
      if |st.dicts| == 0 then Panicked("no current dictionary")
      else Running(st.(stack := st.stack + [DictRef(st.dicts[|st.dicts| - 1])]))
    else if tok.kw == "begin" then
      var (d, rest) := PopSeq(st.stack);
      if !IsDict(d, st.heap) then Panicked("cannot begin non-dict")
      else Running(PsState(rest, st.dicts + [d.ref], st.heap))
    else if tok.kw == "end" then
      if |st.dicts| == 0 then Panicked("mismatched begin/end")
      else Running(st.(dicts := st.dicts[..|st.dicts| - 1]))
    else if tok.kw == "def" then
      if |st.dicts| == 0 then Panicked("def without open dict")
      else
        var (val, rest1) := PopSeq(st.stack);
        var (keyObj, rest2) := PopSeq(rest1);
        if !keyObj.Name? && NameOf(val) !in ignore then Panicked("def of non-name")
        else
          var key := if keyObj.Name? then keyObj.n else "";
          var top := st.dicts[|st.dicts| - 1];
          Running(PsState(rest2, st.dicts, st.heap[top := st.heap[top][key := val]]))
    else if tok.kw == "pop" then Running(st.(stack := PopSeq(st.stack).1))
    else
      var found := LookupFrom(st, tok.kw, |st.dicts|);
      if found.Some? then Running(st.(stack := st.stack + [found.value]))
      else Running(st.(stack := do(st.stack, tok.kw)))
  }

  /** One token stream, token by token; a panic stops the run. */
  function Run(ignore: seq<string>, do: (seq<Obj>, string) -> seq<Obj>, st: PsState, toks: seq<Token>): (r: Outcome)
    requires ValidState(st)
    ensures r.Running? ==> ValidState(r.st)
    decreases |toks|
  {
    if |toks| == 0 then Running(st)
    else
      match Step(ignore, do, st, toks[0])
      case Panicked(m) => Panicked(m)
      case Running(st') => Run(ignore, do, st', toks[1..])
  }

  /** Several streams read as one, with the state carried over. */
  function RunStreams(ignore: seq<string>, do: (seq<Obj>, string) -> seq<Obj>, st: PsState, streams: seq<seq<Token>>): Outcome
    requires ValidState(st)
    decreases |streams|
  {
    if |streams| == 0 then Running(st)
    else
      match Run(ignore, do, st, streams[0])
      case Panicked(m) => Panicked(m)
      case Running(st') => RunStreams(ignore, do, st', streams[1..])
  }

  /** The operators the interpreter executes itself. */
  const Operators: set<string> := {"dict", "currentdict", "begin", "end", "def", "pop"}

  /**
   * `/key value def` binds the name in the top dictionary, pops both operands, and afterwards the
   * keyword pushes that value.
   */
  lemma DefBinds(ignore: seq<string>, do: (seq<Obj>, string) -> seq<Obj>, st: PsState, rest: seq<Obj>, key: string, v: Obj, o: Obj)
    requires ValidState(st) && |st.dicts| > 0
    requires st.stack == rest + [Name(key), v]
    requires key !in Operators && key !in ObjectKeywords
    ensures Step(ignore, do, st, Keyword("def", Null)).Running?
    ensures Step(ignore, do, st, Keyword("def", Null)).st.stack == rest
    ensures LookupFrom(Step(ignore, do, st, Keyword("def", Null)).st, key, |st.dicts|) == Some(v)
    ensures Step(ignore, do, Step(ignore, do, st, Keyword("def", Null)).st, Keyword(key, o)) ==
      Running(Step(ignore, do, st, Keyword("def", Null)).st.(stack := rest + [v]))
  {
    assert (rest + [Name(key), v])[..|rest| + 1] == rest + [Name(key)];
    assert (rest + [Name(key)])[..|rest|] == rest;
  }

  /** A non-name key is tolerated only for values named in the ignore list, and then binds under "". */
  lemma DefNonNameKey(ignore: seq<string>, do: (seq<Obj>, string) -> seq<Obj>, st: PsState, rest: seq<Obj>, k: Obj, v: Obj)
    requires ValidState(st) && |st.dicts| > 0
    requires st.stack == rest + [k, v] && !k.Name?
    ensures Step(ignore, do, st, Keyword("def", Null)).Panicked? <==> NameOf(v) !in ignore
    ensures NameOf(v) in ignore ==>
      var top := st.dicts[|st.dicts| - 1];
      Step(ignore, do, st, Keyword("def", Null)).st.heap[top] == st.heap[top]["" := v]
  {
    assert (rest + [k, v])[..|rest| + 1] == rest + [k];
    assert (rest + [k])[..|rest|] == rest;
  }

  /**
   * `dict begin ... end`: dict leaves a new empty dictionary in place of its operand, begin opens
   * it, and end closes it again, leaving the dictionary stack as it was.
   */
  lemma DictBeginEnd(ignore: seq<string>, do: (seq<Obj>, string) -> seq<Obj>, st: PsState, rest: seq<Obj>, size: Obj)
    requires ValidState(st) && st.stack == rest + [size]
    ensures var s1 := Step(ignore, do, st, Keyword("dict", Null));
      s1.Running? && s1.st.stack == rest + [DictRef(|st.heap|)] && s1.st.heap[|st.heap|] == map[] &&
      var s2 := Step(ignore, do, s1.st, Keyword("begin", Null));
      s2.Running? && s2.st.stack == rest && s2.st.dicts == st.dicts + [|st.heap|] &&
      var s3 := Step(ignore, do, s2.st, Keyword("end", Null));
      s3.Running? && s3.st.dicts == st.dicts && s3.st.stack == rest
  {
    assert (rest + [size])[..|rest|] == rest;
    assert (rest + [DictRef(|st.heap|)])[..|rest|] == rest;
    assert (st.dicts + [|st.heap|])[..|st.dicts|] == st.dicts;
  }

  /** A keyword that is neither an operator nor bound anywhere goes to `do` with the whole stack. */
  lemma UnboundKeywordCallsDo(ignore: seq<string>, do: (seq<Obj>, string) -> seq<Obj>, st: PsState, kw: string, o: Obj)
    requires ValidState(st)
    requires kw !in Operators && kw !in ObjectKeywords
    requires forall i :: 0 <= i < |st.dicts| ==> kw !in st.heap[st.dicts[i]]
    ensures Step(ignore, do, st, Keyword(kw, o)) == Running(st.(stack := do(st.stack, kw)))
  {
  }

  /** The operators are executed even when a dictionary binds their name. */
  lemma OperatorsNotLookedUp(ignore: seq<string>, do: (seq<Obj>, string) -> seq<Obj>, st: PsState, o: Obj)
    requires ValidState(st) && |st.dicts| > 0
    requires "pop" in st.heap[st.dicts[|st.dicts| - 1]]
    ensures Step(ignore, do, st, Keyword("pop", o)) == Running(st.(stack := PopSeq(st.stack).1))
  {
  }

  /** The source's io.Reader errors. */
  datatype ReadError = EOF | UnexpectedEOF | NonSequential

  /**
   * seqReader: a stream that can only be read in order. `src` is what the wrapped reader yields
   * and `pos` how much of it has been read; `offset` is the reader's own count.
   */
  class SeqReader {
    const src: seq<int>
    var pos: int
    var offset: int

    predicate Valid() reads this {
      0 <= pos <= |src| && offset == pos
    }

    constructor (data: seq<int>)
      ensures Valid() && src == data && offset == 0
    {
      src := data;
      pos := 0;
      offset := 0;
    }

    /**
     * ReadAt: refuses any offset but the current one; otherwise reads as much of `buf` as the
     * stream can fill (io.ReadFull) and advances the offset by that count.
     */
    method ReadAt(buf: array<int>, off: int) returns (n: int, err: Option<ReadError>)
      requires Valid()
      modifies this, buf
      ensures Valid()
      ensures off != old(offset) ==> n == 0 && err == Some(NonSequential) && offset == old(offset) && buf[..] == old(buf[..])
      ensures off == old(offset) ==> n == (if |src| - old(pos) < buf.Length then |src| - old(pos) else buf.Length)
      ensures off == old(offset) ==> offset == old(offset) + n && buf[..n] == src[old(pos)..old(pos) + n]
      ensures off == old(offset) ==> (err.None? <==> n == buf.Length)
      ensures off == old(offset) && n < buf.Length ==> err == Some(if n == 0 then EOF else UnexpectedEOF)
    {
      if off != offset {
        return 0, Some(NonSequential);
      }
      n := buf.Length;
      if |src| - pos < n {
        n := |src| - pos;
      }
      var k := 0;
      while k < n
        invariant 0 <= k <= n
        invariant buf[..k] == src[pos..pos + k]
        modifies buf
      {
        buf[k] := src[pos + k];
        k := k + 1;
      }
      pos := pos + n;
      offset := offset + n;
      err := if n == buf.Length then None else if n == 0 then Some(EOF) else Some(UnexpectedEOF);
    }
  }
}
