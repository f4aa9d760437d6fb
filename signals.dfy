/**
 * The signal/slot registry of DQMNet.h: `Signal<Args...>` keeps an ordered
 * vector of callback adapters (`SignalT<T, Args...>`), each binding a receiver
 * object of class T to one of its member functions.
 *
 * C++ dispatch is abstracted away: a receiver class T is a `TypeTag`, a
 * receiver pointer an `Address`, a pointer-to-member a `MethodId`. The
 * `dynamic_cast<SignalT<T, Args...>*>` done before every pointer comparison
 * succeeds exactly when the adapter was built for the same class T, so an
 * adapter matches a receiver when both the tag and the address agree.
 * `Signal<void>` is the instance of `Signal<A>` with `A := ()`.
 */
module Signals {

  type TypeTag = nat   // the receiver class T
  type Address = nat   // the receiver pointer T*
  type MethodId = nat  // the pointer-to-member function T::*Function

  /** `SignalT<T, Args...>`: getClass() is `receiver`, getFunction() is `callback`. */
  datatype Adapter = Adapter(receiverClass: TypeTag, receiver: Address, callback: MethodId)

  /** One invocation `(receiver->*callback)(args...)` made by `process`. */
  datatype Call<A> = Call(adapter: Adapter, args: A)

  /** What a lookup searches for: a receiver (isConnected(p), disconnect(p))
      or a receiver together with one of its methods (isConnected(p, f), disconnect(p, f)). */
  datatype Target =
    | ByReceiver(receiverClass: TypeTag, receiver: Address)
    | ByMethod(receiverClass: TypeTag, receiver: Address, callback: MethodId)

  /** The test inside the lookup loops: the cast succeeds and getClass() == pClass
      (and, for ByMethod, getFunction() == function). */
  predicate Matches(a: Adapter, target: Target)
    ensures Matches(a, target) <==>
              a.receiverClass == target.receiverClass && a.receiver == target.receiver &&
              (target.ByMethod? ==> a.callback == target.callback)
  {
    match target
    case ByReceiver(t, p) => a.receiverClass == t && a.receiver == p
    case ByMethod(t, p, f) => a.receiverClass == t && a.receiver == p && a.callback == f
  }

  predicate SameReceiver(a: Adapter, b: Adapter)
  {
    a.receiverClass == b.receiverClass && a.receiver == b.receiver
  }

  ghost predicate Connected(callbacks: seq<Adapter>, target: Target)
  {
    exists i :: 0 <= i < |callbacks| && Matches(callbacks[i], target)
  }

  /** The registry invariant that `connect` maintains: one adapter per receiver identity. */
  ghost predicate Unique(callbacks: seq<Adapter>)
  {
    forall i, j :: 0 <= i < j < |callbacks| ==> !SameReceiver(callbacks[i], callbacks[j])
  }

  /** Index of the first adapter matching `target`, or |callbacks| when none does. */
  function FirstMatch(callbacks: seq<Adapter>, target: Target): (i: nat)
    ensures i <= |callbacks|
    ensures forall j :: 0 <= j < i ==> !Matches(callbacks[j], target)
    ensures i < |callbacks| ==> Matches(callbacks[i], target)
    ensures i < |callbacks| <==> Connected(callbacks, target)
  {
    if callbacks == [] then 0
    else if Matches(callbacks[0], target) then 0
    else
      var k := FirstMatch(callbacks[1..], target);
      assert k < |callbacks| - 1 ==> Matches(callbacks[k + 1], target);
      assert Connected(callbacks, target) ==> Connected(callbacks[1..], target) by {
        if Connected(callbacks, target) {
          var w :| 0 <= w < |callbacks| && Matches(callbacks[w], target);
          assert w > 0 && Matches(callbacks[1..][w - 1], target);
        }
      }
      1 + k
  }

  /** `vector::erase` at position i. */
  function RemoveAt<T>(s: seq<T>, i: nat): (r: seq<T>)
    requires i < |s|
    ensures |r| == |s| - 1
    ensures forall j :: 0 <= j < i ==> r[j] == s[j]
    ensures forall j :: i <= j < |r| ==> r[j] == s[j + 1]
    ensures multiset(r) + multiset{s[i]} == multiset(s)
  {
    assert s == s[..i] + [s[i]] + s[i + 1..];
    s[..i] + s[i + 1..]
  }

  /** The calls `process(args...)` makes: every adapter once, in vector order. */
  function Fanout<A>(callbacks: seq<Adapter>, args: A): (calls: seq<Call<A>>)
    ensures |calls| == |callbacks|
  {
    if callbacks == [] then [] else [Call(callbacks[0], args)] + Fanout(callbacks[1..], args)
  }

  /** The k-th call of the fan-out goes to the k-th adapter, with the same arguments. */
  lemma {:induction false} FanoutAt<A>(callbacks: seq<Adapter>, args: A, k: nat)
    requires k < |callbacks|
    ensures Fanout(callbacks, args)[k] == Call(callbacks[k], args)
  {
    if k > 0 {
      FanoutAt(callbacks[1..], args, k - 1);
    }
  }

  /** A receiver connected last is called last, after all the earlier ones in their order. */
  lemma {:induction false} FanoutAppend<A>(callbacks: seq<Adapter>, a: Adapter, args: A)
    ensures Fanout(callbacks + [a], args) == Fanout(callbacks, args) + [Call(a, args)]
  {
    if callbacks != [] {
      assert (callbacks + [a])[1..] == callbacks[1..] + [a];
      FanoutAppend(callbacks[1..], a, args);
    }
  }

  /** Erasing adapter i removes exactly call i from the fan-out and keeps the order of the rest. */
  lemma FanoutRemoveAt<A>(callbacks: seq<Adapter>, i: nat, args: A)
    requires i < |callbacks|
    ensures Fanout(RemoveAt(callbacks, i), args) == RemoveAt(Fanout(callbacks, args), i)
  {
    var lhs := Fanout(RemoveAt(callbacks, i), args);
    var rhs := RemoveAt(Fanout(callbacks, args), i);
    forall k | 0 <= k < |lhs|
      ensures lhs[k] == rhs[k]
    {
      FanoutAt(RemoveAt(callbacks, i), args, k);
      FanoutAt(callbacks, args, if k < i then k else k + 1);
    }
  }

  /** A new receiver appended after a check that it is absent keeps the registry unique. */
  lemma AppendKeepsUnique(callbacks: seq<Adapter>, a: Adapter)
    requires Unique(callbacks)
    requires !Connected(callbacks, ByReceiver(a.receiverClass, a.receiver))
    ensures Unique(callbacks + [a])
  {
    var s := callbacks + [a];
    forall i, j | 0 <= i < j < |s|
      ensures !SameReceiver(s[i], s[j])
    {
      if j == |callbacks| {
        assert !Matches(callbacks[i], ByReceiver(a.receiverClass, a.receiver));
      }
    }
  }

  /** Erasing one adapter keeps the registry unique. */
  lemma RemoveAtKeepsUnique(callbacks: seq<Adapter>, i: nat)
    requires Unique(callbacks)
    requires i < |callbacks|
    ensures Unique(RemoveAt(callbacks, i))
  {
    var s := RemoveAt(callbacks, i);
    forall j, k | 0 <= j < k < |s|
      ensures !SameReceiver(s[j], s[k])
    {
      var j' := if j < i then j else j + 1;
      var k' := if k < i then k else k + 1;
      assert s[j] == callbacks[j'] && s[k] == callbacks[k'];
    }
  }

  /** In a unique registry, erasing the first adapter of a receiver disconnects it entirely. */
  lemma RemoveFirstMatchDisconnects(callbacks: seq<Adapter>, t: TypeTag, p: Address)
    requires Unique(callbacks)
    requires Connected(callbacks, ByReceiver(t, p))
    ensures !Connected(RemoveAt(callbacks, FirstMatch(callbacks, ByReceiver(t, p))), ByReceiver(t, p))
  {
    var i := FirstMatch(callbacks, ByReceiver(t, p));
    var s := RemoveAt(callbacks, i);
    forall k | 0 <= k < |s|
      ensures !Matches(s[k], ByReceiver(t, p))
    {
      var k' := if k < i then k else k + 1;
      assert s[k] == callbacks[k'];
      if k < i {
        assert !SameReceiver(callbacks[k'], callbacks[i]);
      } else {
        assert !SameReceiver(callbacks[i], callbacks[k']);
      }
    }
  }

  /** disconnect(p) undoes a successful connect(p, f): the registry is back as it was. */
  lemma DisconnectUndoesConnect(callbacks: seq<Adapter>, t: TypeTag, p: Address, f: MethodId)
    requires !Connected(callbacks, ByReceiver(t, p))
    ensures var s := callbacks + [Adapter(t, p, f)];
            FirstMatch(s, ByReceiver(t, p)) == |callbacks| &&
            RemoveAt(s, FirstMatch(s, ByReceiver(t, p))) == callbacks
  {
    var s := callbacks + [Adapter(t, p, f)];
    forall j | 0 <= j < |callbacks|
      ensures !Matches(s[j], ByReceiver(t, p))
    {
      assert s[j] == callbacks[j];
    }
    assert Matches(s[|callbacks|], ByReceiver(t, p));
    assert s[..|callbacks|] == callbacks;
  }

  /** With one adapter per receiver, isConnected(p, f) asks whether p's adapter carries f. */
  lemma ConnectedWithMethod(callbacks: seq<Adapter>, t: TypeTag, p: Address, f: MethodId)
    requires Unique(callbacks)
    ensures Connected(callbacks, ByMethod(t, p, f)) <==>
            Connected(callbacks, ByReceiver(t, p)) &&
            callbacks[FirstMatch(callbacks, ByReceiver(t, p))].callback == f
  {
    var i := FirstMatch(callbacks, ByReceiver(t, p));
    if Connected(callbacks, ByMethod(t, p, f)) {
      var k :| 0 <= k < |callbacks| && Matches(callbacks[k], ByMethod(t, p, f));
      assert Matches(callbacks[k], ByReceiver(t, p));
      assert Matches(callbacks[i], ByReceiver(t, p));
    }
    if Connected(callbacks, ByReceiver(t, p)) && callbacks[i].callback == f {
      assert Matches(callbacks[i], ByMethod(t, p, f));
    }
  }

  /** `Signal<Args...>`; the argument pack is the type A. */
  class Signal<A> {
    var callbacks: seq<Adapter>

    ghost predicate Valid()
      reads this
    {
      Unique(callbacks)
    }

    constructor()
      ensures Valid() && callbacks == []
    {
      callbacks := [];
    }

    /** The lookup loop shared by isConnected and disconnect: the position of the
        first adapter matching `target`, |callbacks| when there is none. */
    method Find(target: Target) returns (i: nat)
      ensures i == FirstMatch(callbacks, target)
      ensures i < |callbacks| <==> Connected(callbacks, target)
    {
      i := 0;
      while i < |callbacks|
        invariant i <= |callbacks|
        invariant forall j :: 0 <= j < i ==> !Matches(callbacks[j], target)
      {
        if Matches(callbacks[i], target) {
          return;
        }
        i := i + 1;
      }
    }

    /** isConnected(pClass) */
    method IsConnected(t: TypeTag, p: Address) returns (b: bool)
      ensures b <==> Connected(callbacks, ByReceiver(t, p))
    {
      var i := Find(ByReceiver(t, p));
      b := i < |callbacks|;
    }

    /** isConnected(pClass, function) */
    method IsConnectedWith(t: TypeTag, p: Address, f: MethodId) returns (b: bool)
      ensures b <==> Connected(callbacks, ByMethod(t, p, f))
    {
      var i := Find(ByMethod(t, p, f));
      b := i < |callbacks|;
    }

    /** hasConnection(): some receiver is connected exactly when the vector is non-empty. */
    predicate HasConnection()
      reads this
      ensures HasConnection() <==> exists t, p :: Connected(callbacks, ByReceiver(t, p))
    {
      assert callbacks != [] ==>
        Connected(callbacks, ByReceiver(callbacks[0].receiverClass, callbacks[0].receiver));
      callbacks != []
    }

    /** connect(pClass, function): refuses a receiver that is already connected,
        whatever the method; otherwise appends one adapter at the end. */
    method Connect(t: TypeTag, p: Address, f: MethodId) returns (ok: bool)
      requires Valid()
      modifies this
      ensures Valid()
      ensures ok <==> !old(Connected(callbacks, ByReceiver(t, p)))
      ensures callbacks == if ok then old(callbacks) + [Adapter(t, p, f)] else old(callbacks)
      ensures Connected(callbacks, ByReceiver(t, p))
      ensures ok ==> Connected(callbacks, ByMethod(t, p, f))
    {
      var connected := IsConnected(t, p);
      if connected {
        return false;
      }
      AppendKeepsUnique(callbacks, Adapter(t, p, f));
      callbacks := callbacks + [Adapter(t, p, f)];
      assert Matches(callbacks[|callbacks| - 1], ByMethod(t, p, f));
      ok := true;
    }

    /** The erase-in-place shared by both disconnect overloads. */
    method Erase(target: Target) returns (ok: bool)
      requires Valid()
      modifies this
      ensures Valid()
      ensures ok <==> old(Connected(callbacks, target))
      ensures ok ==> callbacks == RemoveAt(old(callbacks), FirstMatch(old(callbacks), target))
      ensures !ok ==> callbacks == old(callbacks)
    {
      var i := Find(target);
      if i < |callbacks| {
        RemoveAtKeepsUnique(callbacks, i);
        callbacks := RemoveAt(callbacks, i);
        return true;
      }
      return false;
    }

    /** disconnect(pClass): erases the first adapter of the receiver, keeping the
        order of the others; afterwards the receiver is not connected. */
    method Disconnect(t: TypeTag, p: Address) returns (ok: bool)
      requires Valid()
      modifies this
      ensures Valid()
      ensures ok <==> old(Connected(callbacks, ByReceiver(t, p)))
      ensures ok ==> callbacks == RemoveAt(old(callbacks), FirstMatch(old(callbacks), ByReceiver(t, p)))
      ensures !ok ==> callbacks == old(callbacks)
      ensures !Connected(callbacks, ByReceiver(t, p))
    {
      ghost var before := callbacks;
      ok := Erase(ByReceiver(t, p));
      if ok {
        RemoveFirstMatchDisconnects(before, t, p);
      }
    }

    /** disconnect(pClass, function): erases an adapter only if both the receiver
        and the method match; otherwise nothing changes. */
    method DisconnectWith(t: TypeTag, p: Address, f: MethodId) returns (ok: bool)
      requires Valid()
      modifies this
      ensures Valid()
      ensures ok <==> old(Connected(callbacks, ByMethod(t, p, f)))
      ensures ok ==> callbacks == RemoveAt(old(callbacks), FirstMatch(old(callbacks), ByMethod(t, p, f)))
      ensures !ok ==> callbacks == old(callbacks)
    {
      ok := Erase(ByMethod(t, p, f));
    }

    /** disconnectAll() (also run by ~Signal()). */
    method DisconnectAll()
      modifies this
      ensures Valid() && callbacks == [] && !HasConnection()
    {
      callbacks := [];
    }

    /** process(args...): calls every adapter once, in vector order, with the
        same arguments; the vector itself is not touched. */
    method Process(args: A) returns (calls: seq<Call<A>>)
      ensures calls == Fanout(callbacks, args)
      ensures |calls| == |callbacks|
      ensures forall k :: 0 <= k < |calls| ==> calls[k] == Call(callbacks[k], args)
    {
      calls := [];
      var i := 0;
      while i < |callbacks|
        invariant i <= |callbacks|
        invariant calls == Fanout(callbacks[..i], args)
      {
        FanoutAppend(callbacks[..i], callbacks[i], args);
        assert callbacks[..i + 1] == callbacks[..i] + [callbacks[i]];
        calls := calls + [Call(callbacks[i], args)];
        i := i + 1;
      }
      assert callbacks[..i] == callbacks;
      forall k | 0 <= k < |calls|
        ensures calls[k] == Call(callbacks[k], args)
      {
        FanoutAt(callbacks, args, k);
      }
    }
  }

  /** A client session on a Signal<int>: one object, two of its methods. */
  method ExampleSession(a: Address, onInt: MethodId, onOther: MethodId)
  {
    var sig := new Signal<int>();
    var ok := sig.Connect(0, a, onInt);
    assert ok;
    var calls := sig.Process(42);
    assert calls == [Call(Adapter(0, a, onInt), 42)];
    ok := sig.Connect(0, a, onOther);
    assert !ok;
    ok := sig.Disconnect(0, a);
    assert ok;
    ok := sig.Disconnect(0, a);
    assert !ok;
    calls := sig.Process(7);
    assert calls == [];
  }
}
