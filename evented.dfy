/**
 * The listener registry of index.js, class `Evented`: a dictionary from an
 * event name to the list of callbacks registered under it. Callbacks are
 * compared by identity, as `indexOf` does; `C` stands for a callback's
 * identity. An emitted event calls foreign code, so `EmitEvent` reports the
 * callbacks it invokes, in order, instead of running them.
 */
module Events {

  /** `Array.prototype.indexOf`: the position of the first occurrence of `x`, or -1. */
  function IndexOf<C(==)>(s: seq<C>, x: C): (r: int)
    ensures -1 <= r < |s|
    ensures r == -1 <==> x !in s
    ensures 0 <= r ==> s[r] == x && x !in s[..r]
  {
    if s == [] then -1
    else if s[0] == x then 0
    else
      var r := IndexOf(s[1..], x);
      assert s[1..][..if r < 0 then 0 else r] == s[1..1 + if r < 0 then 0 else r];
      if r < 0 then -1 else r + 1
  }

  /**
   * `splice(indexOf(x), 1)` guarded by `index >= 0`: drops the first
   * occurrence of `x`, if any, so the list loses one copy of `x` and nothing
   * else.
   */
  function RemoveFirst<C(==)>(s: seq<C>, x: C): (r: seq<C>)
    ensures x !in s ==> r == s
    ensures x in s ==> |r| == |s| - 1 && multiset(r) == multiset(s) - multiset{x}
  {
    var i := IndexOf(s, x);
    if i >= 0 then
      assert s == s[..i] + [s[i]] + s[i + 1..];
      s[..i] + s[i + 1..]
    else s
  }

  /** The list registered under `name`; a name never registered has none. */
  function ListenersOf<C>(listeners: map<string, seq<C>>, name: string): seq<C> {
    if name in listeners then listeners[name] else []
  }

  /**
   * Removing a callback takes out exactly one copy of it, the first, and
   * keeps the order of the rest; a callback not in the list leaves it as it is.
   */
  lemma RemoveFirstTakesOneCopy<C>(s: seq<C>, x: C)
    ensures x !in s ==> RemoveFirst(s, x) == s
    ensures x in s ==> |RemoveFirst(s, x)| == |s| - 1
    ensures x in s ==> multiset(RemoveFirst(s, x)) == multiset(s) - multiset{x}
    ensures x in s ==> exists i :: 0 <= i < |s| && s[i] == x && x !in s[..i] && RemoveFirst(s, x) == s[..i] + s[i + 1..]
  {
    var i := IndexOf(s, x);
    if i >= 0 {
      assert s == s[..i] + [s[i]] + s[i + 1..];
      assert multiset(s) == multiset(s[..i]) + multiset{x} + multiset(s[i + 1..]);
    }
  }

  /** Adding a callback not yet in a list and removing it again gives back the list. */
  lemma {:induction false} RemoveUndoesAppend<C>(s: seq<C>, x: C)
    requires x !in s
    ensures RemoveFirst(s + [x], x) == s
  {
    assert IndexOf(s + [x], x) == |s| by {
      assert (s + [x])[..|s|] == s;
      assert (s + [x])[|s|] == x;
    }
    assert (s + [x])[..|s|] == s;
  }

  /** A duplicate registration survives one removal: the later copy is still there. */
  lemma DuplicateSurvivesOneRemoval<C>(s: seq<C>, x: C)
    ensures x in RemoveFirst(s + [x] + [x], x)
  {
    var t := s + [x] + [x];
    var i := IndexOf(t, x);
    assert t[|t| - 1] == x;
    assert i < |t| - 1 by {
      assert t[|s|] == x;
    }
    assert RemoveFirst(t, x)[|t| - 2] == x;
  }

  /** Writing back the value a key already has leaves a map as it is. */
  lemma MapUpdateSame<K, V>(m: map<K, V>, k: K)
    requires k in m
    ensures m[k := m[k]] == m
  {
  }

  class Evented<C(==)> {
    var listeners: map<string, seq<C>>

    constructor()
      ensures listeners == map[]
    {
      listeners := map[];
    }

    /**
     * `addEventListener`: creates the list for a new name, then appends the
     * callback, duplicates included; other names keep their lists.
     */
    method AddEventListener(name: string, callback: C)
      modifies this
      ensures listeners == old(listeners)[name := ListenersOf(old(listeners), name) + [callback]]
    {
      if name !in listeners {
        listeners := listeners[name := []];
      }
      listeners := listeners[name := listeners[name] + [callback]];
    }

    /**
     * `removeEventListener`: nothing happens for an unknown name; otherwise
     * the first occurrence of the callback, if any, is removed. An emptied
     * list stays registered.
     */
    method RemoveEventListener(name: string, callback: C)
      modifies this
      ensures name !in old(listeners) ==> listeners == old(listeners)
      ensures name in old(listeners) && IndexOf(old(listeners)[name], callback) < 0 ==> listeners == old(listeners)
      ensures name in old(listeners) ==> listeners == old(listeners)[name := RemoveFirst(old(listeners)[name], callback)]
    {
      if name in listeners {
        var list := listeners[name];
        var index := IndexOf(list, callback);
        if index >= 0 {
          listeners := listeners[name := list[..index] + list[index + 1..]];
        } else {
          MapUpdateSame(listeners, name);
        }
      }
    }

    /**
     * `emitEvent`: invokes the listeners of `name` one after the other, each
     * once, in registration order; an unknown name invokes nothing.
     */
    method EmitEvent(name: string) returns (invoked: seq<C>)
      ensures invoked == ListenersOf(listeners, name)
    {
      invoked := [];
      if name !in listeners {
        return;
      }
      var list := listeners[name];
      for i := 0 to |list|
        invariant invoked == list[..i]
      {
        invoked := invoked + [list[i]];
      }
      assert list[..|list|] == list;
    }
  }
}
