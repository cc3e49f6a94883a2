/** The event subscriber lists of event/event.go. */
module EventDispatcher {

  /** A Receiver, by identity. */
  type Receiver = nat

  type Lists = map<string, seq<Receiver>>

  function ListOf(lists: Lists, name: string): seq<Receiver> {
    if name in lists then lists[name] else []
  }

  /** The list after Register. */
  function Added(list: seq<Receiver>, who: Receiver): seq<Receiver> {
    if who in list then list else list + [who]
  }

  /** The list after the swap-with-last removal at idx. */
  function SwappedOut(list: seq<Receiver>, idx: nat): seq<Receiver>
    requires idx < |list|
  {
    list[idx := list[|list| - 1]][..|list| - 1]
  }

  predicate NoDuplicates(list: seq<Receiver>) {
    forall i, j :: 0 <= i < j < |list| ==> list[i] != list[j]
  }

  /** The list holds each member of the set once, in some order. */
  ghost predicate HoldsOnce(list: seq<Receiver>, members: set<Receiver>) {
    NoDuplicates(list) && forall r :: r in list <==> r in members
  }

  lemma SwapRemovesOne(list: seq<Receiver>, idx: nat, members: set<Receiver>)
    requires HoldsOnce(list, members) && idx < |list|
    ensures HoldsOnce(SwappedOut(list, idx), members - {list[idx]})
  {
    var shorter, n := SwappedOut(list, idx), |list| - 1;
    forall r ensures r in shorter <==> r in members - {list[idx]} {
      if r in shorter {
        var i :| 0 <= i < n && shorter[i] == r;
        assert r == list[if i == idx then n else i];
      }
      if r in members && r != list[idx] {
        var i :| 0 <= i <= n && list[i] == r;
        assert shorter[if i == n then idx else i] == r;
      }
    }
  }

  lemma AddsOne(list: seq<Receiver>, who: Receiver, members: set<Receiver>)
    requires HoldsOnce(list, members)
    ensures HoldsOnce(Added(list, who), members + {who})
  {
  }

  function SetOf(model: map<string, set<Receiver>>, name: string): set<Receiver> {
    if name in model then model[name] else {}
  }

  ghost predicate Agree(lists: Lists, model: map<string, set<Receiver>>) {
    forall name :: HoldsOnce(ListOf(lists, name), SetOf(model, name))
  }

  /** A change under one name keeps the agreement under all others. */
  lemma OthersKept(model: map<string, set<Receiver>>, model': map<string, set<Receiver>>,
                   lists: Lists, lists': Lists, name: string)
    requires Agree(lists, model)
    requires forall other :: other != name ==> SetOf(model', other) == SetOf(model, other)
    requires forall other :: other != name ==> ListOf(lists', other) == ListOf(lists, other)
    requires HoldsOnce(ListOf(lists', name), SetOf(model', name))
    ensures Agree(lists', model')
  {
    forall other ensures HoldsOnce(ListOf(lists', other), SetOf(model', other)) {
      assert HoldsOnce(ListOf(lists, other), SetOf(model, other));
    }
  }

  class SimpleDispatcher {
    var registered: Lists
    ghost var model: map<string, set<Receiver>>   // the plain set of subscribers of each event

    ghost function Subscribers(name: string): set<Receiver>
      reads this
    {
      SetOf(model, name)
    }

    ghost predicate Valid()
      reads this
    {
      Agree(registered, model)
    }

    constructor ()
      ensures Valid() && forall name :: Subscribers(name) == {}
    {
      registered := map[];
      model := map[];
    }

    method Register(name: string, who: Receiver)
      requires Valid()
      modifies this
      ensures Valid() && Subscribers(name) == old(Subscribers(name)) + {who}
      ensures forall other :: other != name ==>
                && Subscribers(other) == old(Subscribers(other))
                && ListOf(registered, other) == old(ListOf(registered, other))
    {
      var list := ListOf(registered, name);
      ghost var subscribers := Subscribers(name);
      AddsOne(list, who, subscribers);
      model := model[name := subscribers + {who}];
      for i := 0 to |list|
        invariant forall k :: 0 <= k < i ==> list[k] != who
        invariant registered == old(registered) && model == old(model)[name := subscribers + {who}]
      {
        if list[i] == who {
          OthersKept(old(model), model, old(registered), registered, name);
          return;
        }
      }
      registered := registered[name := list + [who]];
      OthersKept(old(model), model, old(registered), registered, name);
    }

    method Unregister(name: string, who: Receiver)
      requires Valid()
      modifies this
      ensures Valid() && Subscribers(name) == old(Subscribers(name)) - {who}
      ensures forall other :: other != name ==>
                && Subscribers(other) == old(Subscribers(other))
                && ListOf(registered, other) == old(ListOf(registered, other))
    {
      ghost var subscribers := Subscribers(name);
      assert HoldsOnce(ListOf(registered, name), subscribers);
      model := model[name := subscribers - {who}];
      if name !in registered {
        OthersKept(old(model), model, old(registered), registered, name);
        return;
      }
      var arr := registered[name];
      var idx := 0;
      while idx < |arr| && arr[idx] != who
        invariant 0 <= idx <= |arr|
        invariant forall k :: 0 <= k < idx ==> arr[k] != who
        invariant registered == old(registered) && model == old(model)[name := subscribers - {who}]
      {
        idx := idx + 1;
      }
      if idx == |arr| {
        assert subscribers - {who} == subscribers;
        OthersKept(old(model), model, old(registered), registered, name);
        return;
      }
      SwapRemovesOne(arr, idx, subscribers);
      registered := registered[name := arr[idx := arr[|arr| - 1]][..|arr| - 1]];
      OthersKept(old(model), model, old(registered), registered, name);
    }

    /** `calls` lists the receivers called, in order. */
    method Publish(name: string) returns (calls: seq<Receiver>)
      requires Valid()
      ensures multiset(calls) == multiset(Subscribers(name))
    {
      calls := [];
      var list := ListOf(registered, name);
      for i := 0 to |list|
        invariant calls == list[..i]
      {
        calls := calls + [list[i]];
      }
      assert calls == list;
      OnceEach(list, Subscribers(name));
    }
  }

  lemma {:induction false} OnceEach(list: seq<Receiver>, members: set<Receiver>)
    requires HoldsOnce(list, members)
    ensures multiset(list) == multiset(members)
    decreases |list|
  {
    if |list| == 0 {
      assert members == {};
    } else {
      var last, front := list[|list| - 1], list[..|list| - 1];
      assert list == front + [last];
      assert last in members;
      forall r ensures r in front <==> r in members - {last} {
        if r in front {
          assert r in list;
        }
        if r in members && r != last {
          assert r in list;
        }
      }
      OnceEach(front, members - {last});
      assert members == (members - {last}) + {last};
    }
  }
}
