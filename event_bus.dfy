/**
 * `create_event_bus(interface)`: a per-interface singleton proxy holding an
 * ordered list of handlers. Calling an interface function on the proxy calls
 * it on every handler in connection order; coroutine functions are awaited
 * one after another.
 */
module EventBus {
  import opened Wrappers
  import opened Seqs

  /** What `inspect` sees for one attribute of the interface class. */
  datatype MemberKind = PlainFunction | CoroutineFunction | NotAFunction

  datatype Member = Member(name: string, kind: MemberKind)

  /**
   * The interface's members in the order `inspect.getmembers` lists them
   * (sorted by name); attribute names of a class are unique.
   */
  predicate UniqueNames(members: seq<Member>) {
    forall i, j :: 0 <= i < j < |members| ==> members[i].name != members[j].name
  }

  /** A connected object: whether it is an instance of the interface, and the methods it has. */
  datatype Handler = Handler(id: nat, isInstance: bool, methods: set<string>)

  datatype BusError = AssertionError | ValueError | AttributeError

  /** One handler method call made by a bus call. */
  datatype Call = Call(handler: nat, name: string)

  /** The calls a bus call made, and the error that ended it early, if any. */
  datatype Dispatch = Dispatch(calls: seq<Call>, error: Option<BusError>, awaited: bool)

  function NamesOfKind(members: seq<Member>, kind: MemberKind): (r: seq<string>)
    ensures forall n :: n in r <==> exists m :: m in members && m.kind == kind && m.name == n
  {
    if members == [] then []
    else (if members[0].kind == kind then [members[0].name] else []) + NamesOfKind(members[1..], kind)
  }

  /** The names of all functions, coroutine or not, in member order. */
  function FunctionNames(members: seq<Member>): (r: seq<string>)
    ensures forall n :: n in r <==> exists m :: m in members && m.kind != NotAFunction && m.name == n
  {
    if members == [] then []
    else (if members[0].kind != NotAFunction then [members[0].name] else []) + FunctionNames(members[1..])
  }

  /**
   * `methods` part-way through the second loop of `init`: plain functions,
   * and coroutine functions from index `from` on, in member order.
   */
  function Pending(members: seq<Member>, from: nat): seq<string>
  {
    if members == [] then []
    else
      var m := members[0];
      (if m.kind == PlainFunction || (m.kind == CoroutineFunction && from == 0) then [m.name] else [])
      + Pending(members[1..], if from == 0 then 0 else from - 1)
  }

  lemma {:induction false} PendingBounds(members: seq<Member>)
    ensures Pending(members, 0) == FunctionNames(members)
    ensures Pending(members, |members|) == NamesOfKind(members, PlainFunction)
    decreases |members|
  {
    if members != [] {
      PendingBounds(members[1..]);
    }
  }

  lemma {:induction false} PendingNames(members: seq<Member>, from: nat, n: string)
    requires n in Pending(members, from)
    ensures exists j :: 0 <= j < |members| && members[j].name == n && members[j].kind != NotAFunction
    decreases |members|
  {
    if members[0].name != n || members[0].kind == NotAFunction {
      var rest := Pending(members[1..], if from == 0 then 0 else from - 1);
      assert n in rest;
      PendingNames(members[1..], if from == 0 then 0 else from - 1, n);
      var j :| 0 <= j < |members[1..]| && members[1..][j].name == n && members[1..][j].kind != NotAFunction;
      assert members[j + 1] == members[1..][j];
    }
  }

  lemma PendingNamesAbsent(members: seq<Member>, from: nat, n: string)
    requires forall j :: 0 <= j < |members| ==> members[j].name != n
    ensures n !in Pending(members, from)
  {
    if n in Pending(members, from) {
      PendingNames(members, from, n);
    }
  }

  /** Moving the coroutine at index `i` out of `methods` is one `list.remove`. */
  lemma {:induction false} PendingStep(members: seq<Member>, i: nat)
    requires UniqueNames(members) && i < |members|
    ensures members[i].kind == CoroutineFunction ==>
      RemoveFirst(Pending(members, i), members[i].name) == Pending(members, i + 1)
    ensures members[i].kind != CoroutineFunction ==> Pending(members, i) == Pending(members, i + 1)
    decreases i
  {
    var rest := members[1..];
    assert UniqueNames(rest) by {
      forall a, b | 0 <= a < b < |rest| ensures rest[a].name != rest[b].name {
        assert rest[a] == members[a + 1] && rest[b] == members[b + 1];
      }
    }
    if i == 0 {
      if members[0].kind == CoroutineFunction {
        var n := members[0].name;
        PendingNamesAbsent(rest, 0, n);
      }
    } else {
      PendingStep(rest, i - 1);
      assert rest[i - 1] == members[i];
      var hd := if members[0].kind == PlainFunction then [members[0].name] else [];
      assert Pending(members, i) == hd + Pending(rest, i - 1);
      assert Pending(members, i + 1) == hd + Pending(rest, i);
      var x := Pending(rest, i - 1);
      if members[i].kind == CoroutineFunction {
        if hd == [] {
          assert hd + x == x;
          assert hd + Pending(rest, i) == Pending(rest, i);
        } else {
          assert members[0].name != members[i].name;
          assert (hd + x)[0] == members[0].name;
          assert (hd + x)[1..] == x;
        }
      }
    }
  }

  /** `init` puts every function name in exactly one of the two lists. */
  lemma Partition(members: seq<Member>, methods: seq<string>, asyncMethods: seq<string>, n: string)
    requires UniqueNames(members)
    requires methods == NamesOfKind(members, PlainFunction)
    requires asyncMethods == NamesOfKind(members, CoroutineFunction)
    ensures n in FunctionNames(members) <==> n in methods || n in asyncMethods
    ensures !(n in methods && n in asyncMethods)
  {
  }

  /** The calls one bus call makes on `handlers`, in order, stopping at the first handler without the method. */
  function DispatchTo(handlers: seq<Handler>, name: string): (r: (seq<Call>, Option<BusError>))
    ensures |r.0| <= |handlers|
  {
    if handlers == [] then ([], None)
    else if name !in handlers[0].methods then ([], Some(AssertionError))
    else
      var rest := DispatchTo(handlers[1..], name);
      ([Call(handlers[0].id, name)] + rest.0, rest.1)
  }

  /**
   * A bus call calls `name` on the handlers in connection order, one call
   * each, and stops with an assertion failure at the first handler that
   * lacks the method.
   */
  lemma {:induction false} DispatchToShape(handlers: seq<Handler>, name: string)
    ensures var r := DispatchTo(handlers, name);
      && (forall k :: 0 <= k < |r.0| ==> r.0[k] == Call(handlers[k].id, name))
      && (r.1.None? <==> forall k :: 0 <= k < |handlers| ==> name in handlers[k].methods)
      && (r.1.None? ==> |r.0| == |handlers|)
      && (r.1.Some? ==> |r.0| < |handlers| && r.1.value == AssertionError && name !in handlers[|r.0|].methods)
    decreases |handlers|
  {
    if handlers != [] && name in handlers[0].methods {
      DispatchToShape(handlers[1..], name);
      var r := DispatchTo(handlers, name);
      forall k | 0 <= k < |r.0| ensures r.0[k] == Call(handlers[k].id, name) {
        if k > 0 {
          assert handlers[1..][k - 1] == handlers[k];
        }
      }
      assert (forall k :: 0 <= k < |handlers[1..]| ==> name in handlers[1..][k].methods)
        <==> (forall k :: 0 <= k < |handlers| ==> name in handlers[k].methods) by {
        assert forall k :: 0 < k < |handlers| ==> handlers[1..][k - 1] == handlers[k];
      }
    }
  }

  /** A bus call reaches each of two handlers list's handlers in turn: first those connected first. */
  lemma {:induction false} DispatchConcat(h1: seq<Handler>, h2: seq<Handler>, name: string)
    requires DispatchTo(h1, name).1.None?
    ensures DispatchTo(h1 + h2, name) == (DispatchTo(h1, name).0 + DispatchTo(h2, name).0, DispatchTo(h2, name).1)
    decreases |h1|
  {
    if h1 != [] {
      var h := h1 + h2;
      assert name in h1[0].methods;
      assert DispatchTo(h1[1..], name).1.None?;
      assert h[0] == h1[0];
      assert h[1..] == h1[1..] + h2;
      DispatchConcat(h1[1..], h2, name);
      var tail1 := DispatchTo(h1[1..], name);
      var tail2 := DispatchTo(h2, name);
      assert DispatchTo(h1, name) == ([Call(h1[0].id, name)] + tail1.0, tail1.1);
      assert DispatchTo(h, name) == ([Call(h1[0].id, name)] + (tail1.0 + tail2.0), tail2.1);
      assert [Call(h1[0].id, name)] + (tail1.0 + tail2.0) == ([Call(h1[0].id, name)] + tail1.0) + tail2.0;
    } else {
      assert h1 + h2 == h2;
      assert DispatchTo(h1, name).0 + DispatchTo(h2, name).0 == DispatchTo(h2, name).0;
    }
  }

  /** The proxy instance of one interface. */
  class Proxy {
    var handlers: seq<Handler>
    var methods: seq<string>
    var asyncMethods: seq<string>

    /** `init`: list the functions, then move the coroutine functions to `asyncMethods`. */
    constructor (interface: seq<Member>)
      requires UniqueNames(interface)
      ensures handlers == []
      ensures methods == NamesOfKind(interface, PlainFunction)
      ensures asyncMethods == NamesOfKind(interface, CoroutineFunction)
    {
      handlers := [];
      var fs: seq<string> := [];
      for i := 0 to |interface|
        invariant fs == FunctionNames(interface[..i])
      {
        assert interface[..i + 1] == interface[..i] + [interface[i]];
        FunctionNamesAppend(interface[..i], interface[i]);
        if interface[i].kind != NotAFunction {
          fs := fs + [interface[i].name];
        }
      }
      assert interface[..|interface|] == interface;
      PendingBounds(interface);
      var asyncs: seq<string> := [];
      for i := 0 to |interface|
        invariant fs == Pending(interface, i)
        invariant asyncs == NamesOfKind(interface[..i], CoroutineFunction)
      {
        PendingStep(interface, i);
        assert interface[..i + 1] == interface[..i] + [interface[i]];
        NamesOfKindAppend(interface[..i], interface[i], CoroutineFunction);
        if interface[i].kind == CoroutineFunction {
          fs := RemoveFirst(fs, interface[i].name);
          asyncs := asyncs + [interface[i].name];
        }
      }
      methods := fs;
      asyncMethods := asyncs;
    }

    /** `connect`: append an instance of the interface; duplicates are kept. */
    method Connect(h: Handler) returns (err: Option<BusError>)
      modifies this
      ensures h.isInstance ==> err == None && handlers == old(handlers) + [h]
      ensures !h.isInstance ==> err == Some(AssertionError) && handlers == old(handlers)
      ensures methods == old(methods) && asyncMethods == old(asyncMethods)
    {
      if !h.isInstance {
        return Some(AssertionError);
      }
      handlers := handlers + [h];
      err := None;
    }

    /** `disconnect`: remove the first occurrence; a handler never connected is a `ValueError`. */
    method Disconnect(h: Handler) returns (err: Option<BusError>)
      modifies this
      ensures !h.isInstance ==> err == Some(AssertionError) && handlers == old(handlers)
      ensures h.isInstance && h !in old(handlers) ==> err == Some(ValueError) && handlers == old(handlers)
      ensures h.isInstance && h in old(handlers) ==> err == None && handlers == RemoveFirst(old(handlers), h)
      ensures methods == old(methods) && asyncMethods == old(asyncMethods)
    {
      if !h.isInstance {
        return Some(AssertionError);
      }
      if h !in handlers {
        return Some(ValueError);
      }
      handlers := RemoveFirst(handlers, h);
      err := None;
    }

    /**
     * `bus.name(...)`: call `name` on every handler in connection order.
     * Names the interface does not declare raise `AttributeError`.
     */
    method Invoke(name: string) returns (d: Dispatch)
      ensures name in methods ==> d == Dispatch(DispatchTo(handlers, name).0, DispatchTo(handlers, name).1, false)
      ensures name !in methods && name in asyncMethods ==>
        d == Dispatch(DispatchTo(handlers, name).0, DispatchTo(handlers, name).1, true)
      ensures name !in methods && name !in asyncMethods ==> d == Dispatch([], Some(AttributeError), false)
    {
      if name !in methods && name !in asyncMethods {
        return Dispatch([], Some(AttributeError), false);
      }
      var calls: seq<Call> := [];
      var err: Option<BusError> := None;
      var k := 0;
      assert handlers[k..] == handlers;
      assert calls + DispatchTo(handlers, name).0 == DispatchTo(handlers, name).0;
      while k < |handlers|
        invariant 0 <= k <= |handlers|
        invariant DispatchTo(handlers, name) == (calls + DispatchTo(handlers[k..], name).0, DispatchTo(handlers[k..], name).1)
      {
        if name !in handlers[k].methods {
          err := Some(AssertionError);
          break;
        }
        assert handlers[k..][1..] == handlers[k + 1..];
        var next := DispatchTo(handlers[k + 1..], name);
        assert DispatchTo(handlers[k..], name) == ([Call(handlers[k].id, name)] + next.0, next.1);
        assert calls + ([Call(handlers[k].id, name)] + next.0) == (calls + [Call(handlers[k].id, name)]) + next.0;
        calls := calls + [Call(handlers[k].id, name)];
        k := k + 1;
      }
      if err.None? {
        assert handlers[k..] == [];
      }
      d := Dispatch(calls, err, name !in methods);
    }
  }

  lemma {:induction false} FunctionNamesAppend(ms: seq<Member>, m: Member)
    ensures FunctionNames(ms + [m]) == FunctionNames(ms) + (if m.kind != NotAFunction then [m.name] else [])
    decreases |ms|
  {
    if ms == [] {
      assert [m][1..] == [];
    } else {
      FunctionNamesAppend(ms[1..], m);
      assert (ms + [m])[1..] == ms[1..] + [m];
    }
  }

  lemma {:induction false} NamesOfKindAppend(ms: seq<Member>, m: Member, kind: MemberKind)
    ensures NamesOfKind(ms + [m], kind) == NamesOfKind(ms, kind) + (if m.kind == kind then [m.name] else [])
    decreases |ms|
  {
    if ms == [] {
      assert [m][1..] == [];
    } else {
      NamesOfKindAppend(ms[1..], m, kind);
      assert (ms + [m])[1..] == ms[1..] + [m];
    }
  }

  /** With no handler connected a bus call, sync or async, calls nothing and succeeds. */
  lemma NoHandlersNoEffect(name: string)
    ensures DispatchTo([], name) == ([], None)
  {
  }

  /** Connecting a handler and disconnecting it leaves the same handlers connected. */
  lemma ConnectDisconnect(handlers: seq<Handler>, h: Handler)
    ensures multiset(RemoveFirst(handlers + [h], h)) == multiset(handlers)
    ensures h !in handlers ==> RemoveFirst(handlers + [h], h) == handlers
  {
    RemoveFirstAppended(handlers, h);
  }

  /** The class returned by `create_event_bus`: it hands out one proxy, made on first use. */
  class BusClass {
    const interface: seq<Member>
    var instance: Proxy?

    constructor (interface: seq<Member>)
      ensures this.interface == interface && instance == null
    {
      this.interface := interface;
      instance := null;
    }

    /** `__new__`: the first call creates and initialises the proxy; later calls return it. */
    method Instance() returns (p: Proxy)
      requires UniqueNames(interface)
      modifies this
      ensures instance == p
      ensures old(instance) != null ==> p == old(instance)
      ensures old(instance) == null ==>
        fresh(p) && p.handlers == [] &&
        p.methods == NamesOfKind(interface, PlainFunction) &&
        p.asyncMethods == NamesOfKind(interface, CoroutineFunction)
    {
      if instance == null {
        instance := new Proxy(interface);
      }
      p := instance;
    }
  }
}
