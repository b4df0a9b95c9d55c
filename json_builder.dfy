/**
 * `json::Builder` (json_builder.cpp, json_builder.h): a fluent builder that
 * keeps the document under construction, an optional pending dictionary key
 * and a stack of pointers to the open nodes.
 *
 * The document is a `Json` value and every `Node*` on the stack is the path
 * from the root to the node it points at. Writing through the top pointer is
 * `Replace` at the top path. The exceptions the builder throws are `Failure`
 * results carrying the `logic_error` message. The typed context classes are
 * tags (`Ctx`) with the set of calls each of them offers.
 */
module JsonBuilder {
  import opened Wrappers

  /** The node kinds of `json::Node` that the builder handles. */
  datatype Json =
    | Null
    | Bool(b: bool)
    | Int(i: int)
    | Real(r: real)
    | String(s: string)
    | Array(items: seq<Json>)
    | Dict(entries: map<string, Json>)

  /** One step from a container to one of its children. */
  datatype Step = Field(key: string) | Index(i: nat)

  /** The position of a node in the document: what a `Node*` on the stack stands for. */
  type Path = seq<Step>

  /** The `std::logic_error` thrown by a call that is not allowed in the current state. */
  datatype LogicError = LogicError(message: string)

  const KeyMisuse: LogicError := LogicError("Incorrect cal of Key() method")
  const ValueWithoutKey: LogicError := LogicError("Start...() or Value() method can not be called in Dict without Key()")
  const ValueMisuse: LogicError := LogicError("Incorrect call of Start...() or Value() method")
  const EndMisuse: LogicError := LogicError("Incorrect call of End...() method")
  const BuildMisuse: LogicError := LogicError("Can not call Build() with unbuilded json")

  /** The node at `p`, if `p` leads to one. */
  function NodeAt(j: Json, p: Path): Option<Json>
    decreases |p|
  {
    if p == [] then Some(j)
    else match p[0]
      case Field(k) => if j.Dict? && k in j.entries then NodeAt(j.entries[k], p[1..]) else None
      case Index(i) => if j.Array? && i < |j.items| then NodeAt(j.items[i], p[1..]) else None
  }

  /** The document after writing `v` through the pointer at `p`. */
  function Replace(j: Json, p: Path, v: Json): (r: Json)
    requires NodeAt(j, p).Some?
    ensures NodeAt(r, p) == Some(v)
    decreases |p|
  {
    if p == [] then v
    else match p[0]
      case Field(k) => Dict(j.entries[k := Replace(j.entries[k], p[1..], v)])
      case Index(i) => Array(j.items[i := Replace(j.items[i], p[1..], v)])
  }

  /** Following `p + q` is following `p`, then `q` from where `p` ends. */
  lemma {:induction false} NodeAtAppend(j: Json, p: Path, q: Path)
    ensures NodeAt(j, p + q) == if NodeAt(j, p).Some? then NodeAt(NodeAt(j, p).value, q) else None
    decreases |p|
  {
    if p != [] {
      assert (p + q)[0] == p[0] && (p + q)[1..] == p[1..] + q;
      match p[0]
      case Field(k) =>
        if j.Dict? && k in j.entries {
          NodeAtAppend(j.entries[k], p[1..], q);
        }
      case Index(i) =>
        if j.Array? && i < |j.items| {
          NodeAtAppend(j.items[i], p[1..], q);
        }
    } else {
      assert p + q == q;
    }
  }

  /** Every ancestor of a node exists: a pointer into a container implies the container. */
  lemma PrefixLeadsSomewhere(j: Json, p: Path, i: nat)
    requires NodeAt(j, p).Some? && i <= |p|
    ensures NodeAt(j, p[..i]).Some?
  {
    assert p == p[..i] + p[i..];
    NodeAtAppend(j, p[..i], p[i..]);
  }

  /**
   * Writing through one pointer leaves every node that is neither above nor
   * below it unchanged.
   */
  lemma {:induction false} ReplaceElsewhere(j: Json, p: Path, v: Json, q: Path)
    requires NodeAt(j, p).Some?
    requires !(p <= q) && !(q <= p)
    ensures NodeAt(Replace(j, p, v), q) == NodeAt(j, q)
    decreases |p|
  {
    if p[0] == q[0] {
      assert p == [p[0]] + p[1..] && q == [q[0]] + q[1..];
      match p[0]
      case Field(k) => ReplaceElsewhere(j.entries[k], p[1..], v, q[1..]);
      case Index(i) => ReplaceElsewhere(j.items[i], p[1..], v, q[1..]);
    }
  }

  /** `root_`, `key_` and `nodes_stack_`. */
  datatype BuilderState = BuilderState(root: Json, key: Option<string>, stack: seq<Path>)

  /**
   * The open nodes form a chain from the root down: the bottom pointer is
   * the root itself, each pointer is a child of the one below it, and the
   * top one points at a node of the document.
   */
  ghost predicate StackWf(root: Json, stack: seq<Path>)
  {
    |stack| > 0 ==>
      var top := stack[|stack| - 1];
      && NodeAt(root, top).Some?
      && |top| == |stack| - 1
      && forall i :: 0 <= i < |stack| ==> stack[i] == top[..i]
  }

  ghost predicate Wf(s: BuilderState)
  {
    StackWf(s.root, s.stack)
  }

  function Top(s: BuilderState): Path
    requires |s.stack| > 0
  {
    s.stack[|s.stack| - 1]
  }

  /** `*nodes_stack_.top()` */
  function TopNode(s: BuilderState): Json
    requires Wf(s) && |s.stack| > 0
  {
    NodeAt(s.root, Top(s)).value
  }

  /** Every open node below the top is an ancestor of it, and a container. */
  lemma OpenNodesAreAncestors(s: BuilderState, i: nat)
    requires Wf(s) && i < |s.stack| - 1
    ensures s.stack[i] < Top(s)
    ensures var n := NodeAt(s.root, s.stack[i]); n.Some? && (n.value.Dict? || n.value.Array?)
  {
    var top := Top(s);
    PrefixLeadsSomewhere(s.root, top, i + 1);
    assert top[..i + 1] == s.stack[i] + [top[i]];
    NodeAtAppend(s.root, s.stack[i], [top[i]]);
  }

  lemma PushKeepsWf(root: Json, stack: seq<Path>, x: Step)
    requires StackWf(root, stack) && |stack| > 0
    requires NodeAt(root, stack[|stack| - 1] + [x]).Some?
    ensures StackWf(root, stack + [stack[|stack| - 1] + [x]])
  {
    var top := stack[|stack| - 1] + [x];
    var pushed := stack + [top];
    forall i | 0 <= i < |pushed| ensures pushed[i] == top[..i] {
      if i < |stack| {
        assert top[..i] == stack[|stack| - 1][..i];
      }
    }
  }

  lemma PopKeepsWf(root: Json, stack: seq<Path>)
    requires StackWf(root, stack) && |stack| > 0
    ensures StackWf(root, stack[..|stack| - 1])
  {
    var n := |stack|;
    if n > 1 {
      var top := stack[n - 1];
      PrefixLeadsSomewhere(root, top, n - 2);
      var popped := stack[..n - 1];
      forall i | 0 <= i < n - 1 ensures popped[i] == popped[n - 2][..i] {
        assert popped[n - 2] == top[..n - 2];
      }
    }
  }

  lemma ReplaceTopKeepsWf(root: Json, stack: seq<Path>, v: Json)
    requires StackWf(root, stack) && |stack| > 0
    ensures StackWf(Replace(root, stack[|stack| - 1], v), stack)
  {
  }

  /** `Builder::Builder`: a null root, no pending key, and the root as the only open node. */
  function Fresh(): (s: BuilderState)
    ensures Wf(s) && s.stack == [[]] && s.root.Null? && s.key.None?
  {
    BuilderState(Null, None, [[]])
  }

  /** `Builder::Key`: records the key when the top node is a dictionary waiting for one. */
  function KeyStep(s: BuilderState, k: string): (r: Result<BuilderState, LogicError>)
    requires Wf(s) && |s.stack| > 0
    ensures r.Success? <==> TopNode(s).Dict? && s.key.None?
    ensures r.Success? ==> r.value.key == Some(k) && r.value.root == s.root && r.value.stack == s.stack
    ensures r.Failure? ==> r.error == KeyMisuse
  {
    if TopNode(s).Dict? && s.key.None? then Success(s.(key := Some(k))) else Failure(KeyMisuse)
  }

  /**
   * `Builder::StartCollectionOrValue`: puts `v` under the pending key of a
   * dictionary top (never over an existing entry), at the end of an array top,
   * or in place of a null top; a dictionary or array start also opens the
   * entry it wrote.
   */
  function StartCollectionOrValueStep(s: BuilderState, v: Json, push: bool): (r: Result<BuilderState, LogicError>)
    requires Wf(s) && |s.stack| > 0
    ensures r.Success? <==> (TopNode(s).Dict? && s.key.Some?) || TopNode(s).Array? || TopNode(s).Null?
    ensures r.Failure? ==> r.error == (if TopNode(s).Dict? then ValueWithoutKey else ValueMisuse)
    ensures r.Success? ==> Wf(r.value) && |r.value.stack| > 0
    ensures r.Success? && TopNode(s).Dict? ==>
      var k := s.key.value;
      var entries := TopNode(s).entries;
      && r.value.key.None?
      && NodeAt(r.value.root, Top(s)) == Some(Dict(if k in entries then entries else entries[k := v]))
      && NodeAt(r.value.root, Top(s) + [Field(k)]) == Some(if k in entries then entries[k] else v)
      && r.value.stack == if push then s.stack + [Top(s) + [Field(k)]] else s.stack
    ensures r.Success? && TopNode(s).Array? ==>
      var items := TopNode(s).items;
      && r.value.key == s.key
      && NodeAt(r.value.root, Top(s)) == Some(Array(items + [v]))
      && NodeAt(r.value.root, Top(s) + [Index(|items|)]) == Some(v)
      && r.value.stack == if push then s.stack + [Top(s) + [Index(|items|)]] else s.stack
    ensures r.Success? && TopNode(s).Null? ==>
      && r.value.key == s.key
      && NodeAt(r.value.root, Top(s)) == Some(v)
      && r.value.stack == s.stack
  {
    var p := Top(s);
    var node := TopNode(s);
    if node.Dict? then
      if s.key.None? then Failure(ValueWithoutKey)
      else
        var k := s.key.value;
        var root := if k in node.entries then s.root else Replace(s.root, p, Dict(node.entries[k := v]));
        NodeAtAppend(root, p, [Field(k)]);
        ReplaceTopKeepsWf(s.root, s.stack, Dict(node.entries[k := v]));
        var stack := if push then s.stack + [p + [Field(k)]] else s.stack;
        if push then PushKeepsWf(root, s.stack, Field(k)); Success(BuilderState(root, None, stack))
        else Success(BuilderState(root, None, stack))
    else if node.Array? then
      var root := Replace(s.root, p, Array(node.items + [v]));
      NodeAtAppend(root, p, [Index(|node.items|)]);
      ReplaceTopKeepsWf(s.root, s.stack, Array(node.items + [v]));
      var stack := if push then s.stack + [p + [Index(|node.items|)]] else s.stack;
      if push then PushKeepsWf(root, s.stack, Index(|node.items|)); Success(BuilderState(root, s.key, stack))
      else Success(BuilderState(root, s.key, stack))
    else if node.Null? then
      ReplaceTopKeepsWf(s.root, s.stack, v);
      Success(s.(root := Replace(s.root, p, v)))
    else
      Failure(ValueMisuse)
  }

  /** A value or a start changes the document only at and below the top node. */
  lemma StartTouchesOnlyTop(s: BuilderState, v: Json, push: bool, q: Path)
    requires Wf(s) && |s.stack| > 0
    requires StartCollectionOrValueStep(s, v, push).Success?
    requires !(Top(s) <= q) && !(q <= Top(s))
    ensures NodeAt(StartCollectionOrValueStep(s, v, push).value.root, q) == NodeAt(s.root, q)
  {
    var node := TopNode(s);
    if node.Dict? {
      var k := s.key.value;
      if k !in node.entries {
        ReplaceElsewhere(s.root, Top(s), Dict(node.entries[k := v]), q);
      }
    } else if node.Array? {
      ReplaceElsewhere(s.root, Top(s), Array(node.items + [v]), q);
    } else {
      ReplaceElsewhere(s.root, Top(s), v, q);
    }
  }

  /** The two node kinds `EndCollection` can be asked to close. */
  datatype Kind = DictKind | ArrayKind

  predicate HasKind(j: Json, kind: Kind)
  {
    match kind
    case DictKind => j.Dict?
    case ArrayKind => j.Array?
  }

  /** `Builder::EndCollection`: closes the top node when it is of the requested kind. */
  function EndCollectionStep(s: BuilderState, kind: Kind): (r: Result<BuilderState, LogicError>)
    requires Wf(s) && |s.stack| > 0
    ensures r.Success? <==> HasKind(TopNode(s), kind)
    ensures r.Success? ==> Wf(r.value) && |r.value.stack| == |s.stack| - 1
    ensures r.Success? ==> r.value.root == s.root && r.value.key == s.key && r.value.stack <= s.stack
    ensures r.Failure? ==> r.error == EndMisuse
  {
    if HasKind(TopNode(s), kind) then
      PopKeepsWf(s.root, s.stack);
      Success(s.(stack := s.stack[..|s.stack| - 1]))
    else
      Failure(EndMisuse)
  }

  /** `Builder::Build`: the document, once it is not null and at most the root is open. */
  function BuildStep(s: BuilderState): (r: Result<Json, LogicError>)
    ensures r.Success? <==> !s.root.Null? && |s.stack| <= 1
    ensures r.Success? ==> r.value == s.root
    ensures r.Failure? ==> r.error == BuildMisuse
  {
    if s.root.Null? || |s.stack| > 1 then Failure(BuildMisuse) else Success(s.root)
  }

  /** The calls the contexts forward to the builder (every one but `Build`). */
  datatype Call =
    | KeyCall(key: string)
    | ValueCall(value: Json)
    | StartDictCall
    | StartArrayCall
    | EndDictCall
    | EndArrayCall

  /** What the builder does on a call. */
  function Apply(s: BuilderState, c: Call): (r: Result<BuilderState, LogicError>)
    requires Wf(s) && |s.stack| > 0
    ensures r.Success? ==> Wf(r.value)
  {
    match c
    case KeyCall(k) => KeyStep(s, k)
    case ValueCall(v) => StartCollectionOrValueStep(s, v, false)
    case StartDictCall => StartCollectionOrValueStep(s, Dict(map[]), true)
    case StartArrayCall => StartCollectionOrValueStep(s, Array([]), true)
    case EndDictCall => EndCollectionStep(s, DictKind)
    case EndArrayCall => EndCollectionStep(s, ArrayKind)
  }

  /** The static type a call returns: `Builder&` or one of the three contexts. */
  datatype Ctx = BuilderCtx | DictItemCtx | KeyItemCtx | ArrayItemCtx

  /** The member functions each context class declares. */
  predicate Offers(ctx: Ctx, c: Call)
  {
    match ctx
    case BuilderCtx => true
    case DictItemCtx => c.KeyCall? || c.EndDictCall?
    case KeyItemCtx => c.ValueCall? || c.StartDictCall? || c.StartArrayCall?
    case ArrayItemCtx => !c.KeyCall? && !c.EndDictCall?
  }

  /** The return type of each declared member function. */
  function Next(ctx: Ctx, c: Call): Ctx
    requires Offers(ctx, c)
  {
    match c
    case KeyCall(_) => KeyItemCtx
    case ValueCall(_) => if ctx == BuilderCtx then BuilderCtx else if ctx == KeyItemCtx then DictItemCtx else ArrayItemCtx
    case StartDictCall => DictItemCtx
    case StartArrayCall => ArrayItemCtx
    case EndDictCall => BuilderCtx
    case EndArrayCall => BuilderCtx
  }

  /**
   * The builder state each context stands for: a dictionary waiting for a key,
   * a dictionary with a new key pending, or an array, at the top.
   */
  ghost predicate InContext(s: BuilderState, ctx: Ctx)
  {
    && Wf(s)
    && match ctx
       case BuilderCtx => true
       case DictItemCtx => |s.stack| > 0 && TopNode(s).Dict? && s.key.None?
       case KeyItemCtx => |s.stack| > 0 && TopNode(s).Dict? && s.key.Some? && s.key.value !in TopNode(s).entries
       case ArrayItemCtx => |s.stack| > 0 && TopNode(s).Array? && s.key.None?
  }

  /**
   * Within the typed contexts every offered call succeeds and leads to the
   * state of the context it returns, provided a key is not given twice in one
   * dictionary.
   */
  lemma ContextCallsSucceed(s: BuilderState, ctx: Ctx, c: Call)
    requires InContext(s, ctx) && ctx != BuilderCtx && Offers(ctx, c)
    requires c.KeyCall? ==> c.key !in TopNode(s).entries
    ensures Apply(s, c).Success?
    ensures InContext(Apply(s, c).value, Next(ctx, c))
  {
    var r := Apply(s, c).value;
    match c
    case KeyCall(k) =>
    case ValueCall(v) =>
    case StartDictCall =>
    case StartArrayCall =>
    case EndDictCall =>
    case EndArrayCall =>
  }

  /** Starting a dictionary or an array on a fresh builder opens the root in that context. */
  lemma FreshBuilderStarts(k: string, v: Json)
    ensures KeyStep(Fresh(), k) == Failure(KeyMisuse)
    ensures BuildStep(Fresh()) == Failure(BuildMisuse)
    ensures var r := Apply(Fresh(), StartDictCall); r.Success? && InContext(r.value, DictItemCtx) && |r.value.stack| == 1
    ensures var r := Apply(Fresh(), StartArrayCall); r.Success? && InContext(r.value, ArrayItemCtx) && |r.value.stack| == 1
    ensures var r := Apply(Fresh(), ValueCall(v)); r.Success? && BuildStep(r.value) == if v.Null? then Failure(BuildMisuse) else Success(v)
  {
  }

  /**
   * `Build` accepts a document whose root container was never closed, and
   * one whose root was closed, which empties the stack.
   */
  lemma BuildWithRootOpenOrClosed()
    ensures var started := Apply(Fresh(), StartDictCall).value;
      && BuildStep(started) == Success(Dict(map[]))
      && Apply(started, EndDictCall).Success?
      && Apply(started, EndDictCall).value.stack == []
      && BuildStep(Apply(started, EndDictCall).value) == Success(Dict(map[]))
  {
  }

  /**
   * `{"a": 1, "b": [true]}` built through the contexts, root closed last.
   */
  lemma BuildExample()
    ensures
      var s1 := Apply(Fresh(), StartDictCall).value;
      var s2 := Apply(s1, KeyCall("a")).value;
      var s3 := Apply(s2, ValueCall(Int(1))).value;
      var s4 := Apply(s3, KeyCall("b")).value;
      var s5 := Apply(s4, StartArrayCall).value;
      var s6 := Apply(s5, ValueCall(Bool(true))).value;
      var s7 := Apply(s6, EndArrayCall).value;
      var s8 := Apply(s7, EndDictCall).value;
      BuildStep(s8) == Success(Dict(map["a" := Int(1), "b" := Array([Bool(true)])]))
  {
    var s1 := Apply(Fresh(), StartDictCall).value;
    var s2 := Apply(s1, KeyCall("a")).value;
    var s3 := Apply(s2, ValueCall(Int(1))).value;
    var s4 := Apply(s3, KeyCall("b")).value;
    var s5 := Apply(s4, StartArrayCall).value;
    var s6 := Apply(s5, ValueCall(Bool(true))).value;
    var s7 := Apply(s6, EndArrayCall).value;
    var s8 := Apply(s7, EndDictCall).value;
    assert s3.root == Dict(map["a" := Int(1)]);
    assert s4.key == Some("b") && s4.stack == [[]];
    assert s5.root == Dict(map["a" := Int(1), "b" := Array([])]);
    assert s5.stack == [[], [Field("b")]];
    assert TopNode(s5) == Array([]);
    assert [Field("b")][1..] == [] && [] + [Bool(true)] == [Bool(true)];
    assert s6.root == Replace(s5.root, [Field("b")], Array([Bool(true)]));
    assert s6.root == Dict(map["a" := Int(1), "b" := Array([Bool(true)])]);
  }

  /**
   * A key given a second time in one dictionary is accepted, but its value is
   * dropped: the first entry stays.
   */
  lemma RepeatedKeyKeepsFirstValue()
    ensures
      var s1 := Apply(Fresh(), StartDictCall).value;
      var s2 := Apply(s1, KeyCall("a")).value;
      var s3 := Apply(s2, ValueCall(Int(1))).value;
      var s4 := Apply(s3, KeyCall("a"));
      && s4.Success?
      && Apply(s4.value, ValueCall(Int(2))).Success?
      && BuildStep(Apply(s4.value, ValueCall(Int(2))).value) == Success(Dict(map["a" := Int(1)]))
  {
    var s1 := Apply(Fresh(), StartDictCall).value;
    var s2 := Apply(s1, KeyCall("a")).value;
    var s3 := Apply(s2, ValueCall(Int(1))).value;
    assert s3.root == Dict(map["a" := Int(1)]);
  }

  /**
   * `StartDict` under a key the dictionary already holds does not start a new
   * dictionary: `emplace` keeps the old entry and the builder opens that one,
   * so later keys land beside the entries it had: `{"a": {"x": 1, "y": 2}}`.
   */
  lemma RepeatedKeyReopensCollection()
    ensures
      var s1 := Apply(Fresh(), StartDictCall).value;
      var s2 := Apply(s1, KeyCall("a")).value;
      var s3 := Apply(s2, StartDictCall).value;
      var s4 := Apply(s3, KeyCall("x")).value;
      var s5 := Apply(s4, ValueCall(Int(1))).value;
      var s6 := Apply(s5, EndDictCall).value;
      var s7 := Apply(s6, KeyCall("a")).value;
      var s8 := Apply(s7, StartDictCall).value;
      var s9 := Apply(s8, KeyCall("y")).value;
      var s10 := Apply(s9, ValueCall(Int(2))).value;
      var s11 := Apply(s10, EndDictCall).value;
      && s8.stack == [[], [Field("a")]]
      && TopNode(s8) == Dict(map["x" := Int(1)])
      && BuildStep(s11) == Success(Dict(map["a" := Dict(map["x" := Int(1), "y" := Int(2)])]))
  {
    var s1 := Apply(Fresh(), StartDictCall).value;
    var s2 := Apply(s1, KeyCall("a")).value;
    var s3 := Apply(s2, StartDictCall).value;
    assert s2.stack == [[]] && [] + [Field("a")] == [Field("a")];
    assert s3.root == Dict(map["a" := Dict(map[])]);
    assert s3.stack == [[], [Field("a")]];
    assert [Field("a")][1..] == [];
    var s4 := Apply(s3, KeyCall("x")).value;
    var s5 := Apply(s4, ValueCall(Int(1))).value;
    assert s5.root == Replace(s4.root, [Field("a")], Dict(map["x" := Int(1)]));
    assert s5.root == Dict(map["a" := Dict(map["x" := Int(1)])]);
    var s6 := Apply(s5, EndDictCall).value;
    assert s6.stack == [[]];
    var s7 := Apply(s6, KeyCall("a")).value;
    var s8 := Apply(s7, StartDictCall).value;
    assert s8.root == s5.root;
    assert s8.stack == [[], [Field("a")]];
    var s9 := Apply(s8, KeyCall("y")).value;
    var s10 := Apply(s9, ValueCall(Int(2))).value;
    assert map["x" := Int(1)]["y" := Int(2)] == map["x" := Int(1), "y" := Int(2)];
    assert s10.root == Replace(s9.root, [Field("a")], Dict(map["x" := Int(1), "y" := Int(2)]));
    assert s10.root == Dict(map["a" := Dict(map["x" := Int(1), "y" := Int(2)])]);
  }

  /** `json::Builder`, with `nodes_stack_` as the paths of the open nodes. */
  class Builder {
    /** `root_` */
    var root: Json
    /** `key_` */
    var key: Option<string>
    /** `nodes_stack_`, bottom first */
    var nodesStack: seq<Path>

    function Snapshot(): BuilderState
      reads this
    {
      BuilderState(root, key, nodesStack)
    }

    ghost predicate Valid()
      reads this
    {
      Wf(Snapshot())
    }

    /** A call that throws leaves the builder as it was; one that returns has made the step. */
    ghost predicate Performed(step: Result<BuilderState, LogicError>, before: BuilderState, error: Option<LogicError>)
      reads this
    {
      match step
      case Success(after) => error == None && Snapshot() == after
      case Failure(e) => error == Some(e) && Snapshot() == before
    }

    constructor ()
      ensures Snapshot() == Fresh() && Valid()
    {
      root := Null;
      key := None;
      nodesStack := [[]];
    }

    method Key(k: string) returns (error: Option<LogicError>)
      requires Valid() && |nodesStack| > 0
      modifies this`key
      ensures Valid()
      ensures Performed(KeyStep(old(Snapshot()), k), old(Snapshot()), error)
    {
      var top := NodeAt(root, nodesStack[|nodesStack| - 1]).value;
      if top.Dict? && key.None? {
        key := Some(k);
        error := None;
      } else {
        error := Some(KeyMisuse);
      }
    }

    method StartCollectionOrValue(v: Json, push: bool) returns (error: Option<LogicError>)
      requires Valid() && |nodesStack| > 0
      modifies this
      ensures Valid()
      ensures Performed(StartCollectionOrValueStep(old(Snapshot()), v, push), old(Snapshot()), error)
    {
      ghost var expected := StartCollectionOrValueStep(Snapshot(), v, push);
      var top := nodesStack[|nodesStack| - 1];
      var node := NodeAt(root, top).value;
      if node.Dict? {
        if key.None? {
          return Some(ValueWithoutKey);
        }
        var k := key.value;
        if k !in node.entries {
          root := Replace(root, top, Dict(node.entries[k := v]));
        }
        if push {
          nodesStack := nodesStack + [top + [Field(k)]];
        }
        key := None;
      } else if node.Array? {
        root := Replace(root, top, Array(node.items + [v]));
        if push {
          nodesStack := nodesStack + [top + [Index(|node.items|)]];
        }
      } else if node.Null? {
        root := Replace(root, top, v);
      } else {
        return Some(ValueMisuse);
      }
      assert Snapshot() == expected.value;
      error := None;
    }

    method StartDict() returns (error: Option<LogicError>)
      requires Valid() && |nodesStack| > 0
      modifies this
      ensures Valid()
      ensures Performed(Apply(old(Snapshot()), StartDictCall), old(Snapshot()), error)
    {
      error := StartCollectionOrValue(Dict(map[]), true);
    }

    method StartArray() returns (error: Option<LogicError>)
      requires Valid() && |nodesStack| > 0
      modifies this
      ensures Valid()
      ensures Performed(Apply(old(Snapshot()), StartArrayCall), old(Snapshot()), error)
    {
      error := StartCollectionOrValue(Array([]), true);
    }

    method Value(v: Json) returns (error: Option<LogicError>)
      requires Valid() && |nodesStack| > 0
      modifies this
      ensures Valid()
      ensures Performed(Apply(old(Snapshot()), ValueCall(v)), old(Snapshot()), error)
    {
      error := StartCollectionOrValue(v, false);
    }

    method EndCollection(kind: Kind) returns (error: Option<LogicError>)
      requires Valid() && |nodesStack| > 0
      modifies this`nodesStack
      ensures Valid()
      ensures Performed(EndCollectionStep(old(Snapshot()), kind), old(Snapshot()), error)
    {
      var top := NodeAt(root, nodesStack[|nodesStack| - 1]).value;
      if HasKind(top, kind) {
        PopKeepsWf(root, nodesStack);
        nodesStack := nodesStack[..|nodesStack| - 1];
        error := None;
      } else {
        error := Some(EndMisuse);
      }
    }

    method EndDict() returns (error: Option<LogicError>)
      requires Valid() && |nodesStack| > 0
      modifies this`nodesStack
      ensures Valid()
      ensures Performed(Apply(old(Snapshot()), EndDictCall), old(Snapshot()), error)
    {
      error := EndCollection(DictKind);
    }

    method EndArray() returns (error: Option<LogicError>)
      requires Valid() && |nodesStack| > 0
      modifies this`nodesStack
      ensures Valid()
      ensures Performed(Apply(old(Snapshot()), EndArrayCall), old(Snapshot()), error)
    {
      error := EndCollection(ArrayKind);
    }

    method Build() returns (r: Result<Json, LogicError>)
      ensures r == BuildStep(Snapshot())
    {
      if root.Null? || |nodesStack| > 1 {
        r := Failure(BuildMisuse);
      } else {
        r := Success(root);
      }
    }
  }
}
