/**
 * The keyboard state of test/Main.js: the static arrays `KEY_PRESSED`,
 * `KEY_DOWN` and `KEY_UP` of class `Input`, kept free of duplicates by
 * `add`, `remove` and `removeAll`, and the keydown/keyup handlers that
 * update them. Keys are the `event.key` strings; the source compares them
 * with `==`, which on two strings is plain equality.
 */
module Keyboard {
  import opened Wrappers

  type Key = string

  predicate NoDuplicates(s: seq<Key>)
  {
    forall i, j :: 0 <= i < j < |s| ==> s[i] != s[j]
  }

  /** The smallest index holding `v`, or None when there is none. */
  function IndexOf(s: seq<Key>, v: Key): (r: Option<nat>)
    ensures r.None? <==> v !in s
    ensures r.Some? ==> r.value < |s| && s[r.value] == v && forall k :: 0 <= k < r.value ==> s[k] != v
  {
    if s == [] then None
    else if s[0] == v then Some(0)
    else match IndexOf(s[1..], v)
      case None => None
      case Some(k) => Some(k + 1)
  }

  /** The array after `add`: unchanged when the key is present, else the key appended. */
  function Added(s: seq<Key>, k: Key): seq<Key>
  {
    if k in s then s else s + [k]
  }

  /** The array after `remove`: the first occurrence of the key spliced out, if any. */
  function Removed(s: seq<Key>, k: Key): seq<Key>
  {
    match IndexOf(s, k)
    case None => s
    case Some(i) => s[..i] + s[i + 1..]
  }

  /** Every element except the key, in order. */
  function Without(s: seq<Key>, k: Key): seq<Key>
  {
    if s == [] then [] else (if s[0] == k then [] else [s[0]]) + Without(s[1..], k)
  }

  /** A duplicate-free array: its tail is duplicate-free and does not hold its head. */
  lemma TailDistinct(s: seq<Key>)
    requires s != [] && NoDuplicates(s)
    ensures NoDuplicates(s[1..]) && s[0] !in s[1..]
  {
    forall i, j | 0 <= i < j < |s[1..]| ensures s[1..][i] != s[1..][j] {
      assert s[1..][i] == s[i + 1] && s[1..][j] == s[j + 1];
    }
    forall j | 0 <= j < |s[1..]| ensures s[1..][j] != s[0] {
      assert s[1..][j] == s[j + 1];
    }
  }

  /** `Without` drops every occurrence of the key and keeps every other element. */
  lemma {:induction false} WithoutMembers(s: seq<Key>, k: Key)
    ensures k !in Without(s, k)
    ensures forall x :: x != k ==> (x in Without(s, k) <==> x in s)
  {
    if s != [] {
      WithoutMembers(s[1..], k);
      assert s == [s[0]] + s[1..];
    }
  }

  /** `Without` keeps a duplicate-free array duplicate-free. */
  lemma {:induction false} WithoutDistinct(s: seq<Key>, k: Key)
    requires NoDuplicates(s)
    ensures NoDuplicates(Without(s, k))
  {
    if s != [] {
      TailDistinct(s);
      WithoutDistinct(s[1..], k);
      WithoutMembers(s[1..], k);
      var rest := Without(s[1..], k);
      if s[0] != k {
        var w := Without(s, k);
        assert w == [s[0]] + rest;
        assert s[0] !in rest;
        forall i, j | 0 <= i < j < |w| ensures w[i] != w[j] {
          assert w[j] == rest[j - 1];
          if i > 0 {
            assert w[i] == rest[i - 1];
          }
        }
      }
    }
  }

  /** `Without` is the identity when the key is absent. */
  lemma {:induction false} WithoutAbsent(s: seq<Key>, k: Key)
    requires k !in s
    ensures Without(s, k) == s
  {
    if s != [] {
      assert s == [s[0]] + s[1..];
      WithoutAbsent(s[1..], k);
    }
  }

  /** `Without` distributes over concatenation. */
  lemma {:induction false} WithoutAppend(a: seq<Key>, b: seq<Key>, k: Key)
    ensures Without(a + b, k) == Without(a, k) + Without(b, k)
  {
    if a == [] {
      assert a + b == b;
    } else {
      assert (a + b)[1..] == a[1..] + b;
      WithoutAppend(a[1..], b, k);
    }
  }

  /** Dropping the key from `before + [k] + after` when neither part holds it. */
  lemma WithoutSplice(before: seq<Key>, after: seq<Key>, k: Key)
    requires k !in before && k !in after
    ensures Without(before + ([k] + after), k) == before + after
  {
    var middle := [k] + after;
    assert Without(middle, k) == after by {
      assert middle[0] == k && middle[1..] == after;
      WithoutAbsent(after, k);
    }
    WithoutAppend(before, middle, k);
    WithoutAbsent(before, k);
  }

  /** In a duplicate-free array, the first occurrence of the key is its only one. */
  lemma SplitAtFirst(s: seq<Key>, k: Key, i: nat)
    requires NoDuplicates(s) && IndexOf(s, k) == Some(i)
    ensures s == s[..i] + ([k] + s[i + 1..])
    ensures k !in s[..i] && k !in s[i + 1..]
  {
    var after := s[i + 1..];
    forall j | 0 <= j < |after| ensures after[j] != k {
      assert after[j] == s[i + 1 + j];
    }
  }

  /** On a duplicate-free array the splice of `remove` is `Without`. */
  lemma RemovedEqualsWithout(s: seq<Key>, k: Key)
    requires NoDuplicates(s)
    ensures Removed(s, k) == Without(s, k)
  {
    match IndexOf(s, k) {
      case None =>
        WithoutAbsent(s, k);
      case Some(i) =>
        var before, after := s[..i], s[i + 1..];
        SplitAtFirst(s, k, i);
        WithoutSplice(before, after, k);
        calc {
          Without(s, k);
          { assert s == before + ([k] + after); }
          Without(before + ([k] + after), k);
          before + after;
          Removed(s, k);
        }
    }
  }

  /**
   * On a duplicate-free array, `remove` is "every element except the key, in
   * order": exactly one element goes, the rest keep their order, and the key
   * is then absent.
   */
  lemma RemovedIsWithout(s: seq<Key>, k: Key)
    requires NoDuplicates(s)
    ensures Removed(s, k) == Without(s, k)
    ensures k !in Removed(s, k) && NoDuplicates(Removed(s, k))
    ensures k in s ==> |Removed(s, k)| == |s| - 1
    ensures forall x :: x != k ==> (x in Removed(s, k) <==> x in s)
  {
    RemovedEqualsWithout(s, k);
    WithoutMembers(s, k);
    WithoutDistinct(s, k);
  }

  /** `add` keeps the array free of duplicates and leaves the key present. */
  lemma AddedKeepsDistinct(s: seq<Key>, k: Key)
    requires NoDuplicates(s)
    ensures NoDuplicates(Added(s, k)) && k in Added(s, k)
    ensures forall x :: x in Added(s, k) <==> x in s || x == k
  {
  }

  /** Without the no-duplicates invariant, one `remove` can leave the key behind. */
  lemma RemoveLeavesDuplicate(k: Key)
    ensures Removed([k, k], k) == [k]
  {
    assert IndexOf([k, k], k) == Some(0);
  }

  // The three arrays as one value, and the two handlers as transitions.

  datatype KeyState = KeyState(pressed: seq<Key>, down: seq<Key>, up: seq<Key>)

  predicate Distinct(st: KeyState)
  {
    NoDuplicates(st.pressed) && NoDuplicates(st.down) && NoDuplicates(st.up)
  }

  /** The keydown handler. */
  function KeyDown(st: KeyState, key: Key, repeat: bool): KeyState
  {
    var down := if !repeat then Added(st.down, key) else Removed(st.down, key);
    KeyState(Added(st.pressed, key), down, st.up)
  }

  /** The keyup handler: `removeFromAllInput`, then `add` to `KEY_UP`. */
  function KeyUp(st: KeyState, key: Key): KeyState
  {
    KeyState(Removed(st.pressed, key), Removed(st.down, key), Added([], key))
  }

  /**
   * After keydown the key is pressed; it is down on a first press and no
   * longer down on an auto-repeat; `KEY_UP` is untouched; no array gains a duplicate.
   */
  lemma KeyDownEffect(st: KeyState, key: Key, repeat: bool)
    requires Distinct(st)
    ensures Distinct(KeyDown(st, key, repeat))
    ensures key in KeyDown(st, key, repeat).pressed
    ensures !repeat ==> key in KeyDown(st, key, repeat).down
    ensures repeat ==> key !in KeyDown(st, key, repeat).down
    ensures KeyDown(st, key, repeat).up == st.up
  {
    AddedKeepsDistinct(st.pressed, key);
    AddedKeepsDistinct(st.down, key);
    RemovedIsWithout(st.down, key);
  }

  /**
   * After keyup the key is neither pressed nor down, every other key keeps
   * its state, and `KEY_UP` holds exactly the released key.
   */
  lemma KeyUpEffect(st: KeyState, key: Key)
    requires Distinct(st)
    ensures Distinct(KeyUp(st, key))
    ensures key !in KeyUp(st, key).pressed && key !in KeyUp(st, key).down
    ensures forall x :: x != key ==> (x in KeyUp(st, key).pressed <==> x in st.pressed)
    ensures forall x :: x != key ==> (x in KeyUp(st, key).down <==> x in st.down)
    ensures KeyUp(st, key).up == [key]
  {
    RemovedIsWithout(st.pressed, key);
    RemovedIsWithout(st.down, key);
  }

  /** `hasValue`: scans for an element equal to `value`. */
  method HasValue(keys: seq<Key>, value: Key) returns (found: bool)
    ensures found <==> value in keys
  {
    var i := 0;
    while i < |keys|
      invariant 0 <= i <= |keys|
      invariant value !in keys[..i]
    {
      if keys[i] == value {
        return true;
      }
      i := i + 1;
    }
    assert keys[..i] == keys;
    return false;
  }

  /** `getValueIndex`: the first index holding `value`, `undefined` (None) when there is none. */
  method GetValueIndex(keys: seq<Key>, value: Key) returns (index: Option<nat>)
    ensures index == IndexOf(keys, value)
  {
    var i := 0;
    while i < |keys|
      invariant 0 <= i <= |keys|
      invariant value !in keys[..i]
    {
      if keys[i] == value {
        assert keys[..i + 1] == keys[..i] + [value];
        return Some(i);
      }
      assert keys[..i + 1] == keys[..i] + [keys[i]];
      i := i + 1;
    }
    assert keys[..i] == keys;
    return None;
  }

  /** A JavaScript array of keys, changed in place by `push` and `splice`. */
  class KeyArray {
    var items: seq<Key>

    constructor ()
      ensures items == []
    {
      items := [];
    }
  }

  /** The `Input` class: its three static arrays, gathered in one object. */
  class Input {
    const keyPressed: KeyArray
    const keyDown: KeyArray
    const keyUp: KeyArray

    /** The three arrays are distinct objects. */
    ghost predicate Valid()
      reads this
    {
      keyPressed != keyDown && keyPressed != keyUp && keyDown != keyUp
    }

    function State(): KeyState
      reads this, keyPressed, keyDown, keyUp
    {
      KeyState(keyPressed.items, keyDown.items, keyUp.items)
    }

    constructor ()
      ensures Valid() && State() == KeyState([], [], [])
      ensures fresh(keyPressed) && fresh(keyDown) && fresh(keyUp)
    {
      keyPressed := new KeyArray();
      keyDown := new KeyArray();
      keyUp := new KeyArray();
    }

    method GetKeyPress(key: Key) returns (pressed: bool)
      ensures pressed <==> key in keyPressed.items
    {
      pressed := HasValue(keyPressed.items, key);
    }

    method GetKeyDown(key: Key) returns (down: bool)
      ensures down <==> key in keyDown.items
    {
      down := HasValue(keyDown.items, key);
    }

    method GetKeyUp(key: Key) returns (up: bool)
      ensures up <==> key in keyUp.items
    {
      up := HasValue(keyUp.items, key);
    }

    /** `Input.add`: push the key unless it is already there; report whether it was pushed. */
    static method Add(keys: KeyArray, key: Key) returns (added: bool)
      modifies keys
      ensures added <==> key !in old(keys.items)
      ensures keys.items == Added(old(keys.items), key)
    {
      var present := HasValue(keys.items, key);
      if present {
        return false;
      }
      keys.items := keys.items + [key];
      return true;
    }

    /** `Input.remove`: splice out the first occurrence of the key; report whether there was one. */
    static method Remove(keys: KeyArray, key: Key) returns (removed: bool)
      modifies keys
      ensures removed <==> key in old(keys.items)
      ensures keys.items == Removed(old(keys.items), key)
    {
      var present := HasValue(keys.items, key);
      if !present {
        return false;
      }
      var index := GetValueIndex(keys.items, key);
      match index {
        case Some(i) =>
          keys.items := keys.items[..i] + keys.items[i + 1..];
        case None =>
      }
      return true;
    }

    /** `Input.removeAll`: empty the array; report whether it held anything. */
    static method RemoveAll(keys: KeyArray) returns (removed: bool)
      modifies keys
      ensures removed <==> old(keys.items) != []
      ensures keys.items == []
    {
      if |keys.items| <= 0 {
        return false;
      }
      keys.items := [];
      return true;
    }

    /** `Input.removeFromAllInput`. */
    method RemoveFromAllInput(key: Key)
      requires Valid()
      modifies keyPressed, keyDown, keyUp
      ensures State() == KeyState(Removed(old(keyPressed.items), key), Removed(old(keyDown.items), key), [])
    {
      var _ := Remove(keyDown, key);
      var _ := Remove(keyPressed, key);
      var _ := RemoveAll(keyUp);
    }

    /** The keydown listener registered by `initEvent`. */
    method OnKeyDown(key: Key, repeat: bool)
      requires Valid()
      modifies keyPressed, keyDown
      ensures State() == KeyDown(old(State()), key, repeat)
    {
      if !repeat {
        var _ := Add(keyDown, key);
      } else {
        var _ := Remove(keyDown, key);
      }
      var _ := Add(keyPressed, key);
    }

    /** The keyup listener registered by `initEvent`. */
    method OnKeyUp(key: Key)
      requires Valid()
      modifies keyPressed, keyDown, keyUp
      ensures State() == KeyUp(old(State()), key)
    {
      RemoveFromAllInput(key);
      var _ := Add(keyUp, key);
    }
  }
}
