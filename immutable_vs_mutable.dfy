/** The copy, compare and alias helpers of 13-immutable-vs-mutable/script.js. Arrays
    and objects are heap objects compared by reference (`===`); the helpers copy them,
    compare their contents, or share them. */
module ImmutableVsMutable {

  // ---------------------------------------------------------------------------
  // Arrays

  /** A JavaScript array: a growable list of elements held by reference. */
  class JsArray<T> {
    var elems: seq<T>

    /** An array literal such as `[1, 2, 3]`. */
    constructor (init: seq<T>)
      ensures elems == init
    {
      elems := init;
    }

    /** `arr.push(x)`, which returns the new length. */
    method Push(x: T) returns (newLength: nat)
      modifies this
      ensures elems == old(elems) + [x]
      ensures newLength == |elems|
    {
      elems := elems + [x];
      newLength := |elems|;
    }

    /** `arr[i] = x` for an index inside the array or just past its end; the latter
        appends. */
    method Put(i: nat, x: T)
      requires i <= |elems|
      modifies this
      ensures elems == if i < |old(elems)| then old(elems)[i := x] else old(elems) + [x]
    {
      if i < |elems| {
        elems := elems[i := x];
      } else {
        elems := elems + [x];
      }
    }
  }

  /** `equalArrays(a, b)`: the same reference, or the same length with strictly equal
      elements at every index. */
  method EqualArrays<T(==)>(a: JsArray<T>, b: JsArray<T>) returns (r: bool)
    ensures r <==> a.elems == b.elems
    ensures a == b ==> r
    ensures |a.elems| != |b.elems| ==> !r
  {
    if a == b {
      return true;
    }
    if |a.elems| != |b.elems| {
      return false;
    }
    var i := 0;
    while i < |a.elems|
      invariant 0 <= i <= |a.elems|
      invariant a.elems[..i] == b.elems[..i]
    {
      if a.elems[i] != b.elems[i] {
        return false;
      }
      assert a.elems[..i + 1] == a.elems[..i] + [a.elems[i]];
      assert b.elems[..i + 1] == b.elems[..i] + [b.elems[i]];
      i := i + 1;
    }
    assert a.elems == a.elems[..i] && b.elems == b.elems[..i];
    return true;
  }

  /** `arrX`, `arrY` with the same contents and `arrZ = arrX`: different references, yet
      `equalArrays` holds. */
  method EqualArraysExample() returns (sameXY: bool, equalXY: bool, sameXZ: bool)
    ensures !sameXY && equalXY && sameXZ
  {
    var arrX := new JsArray([1, 2, 3]);
    var arrY := new JsArray([1, 2, 3]);
    var arrZ := arrX;
    sameXY := arrX == arrY;
    equalXY := EqualArrays(arrX, arrY);
    sameXZ := arrX == arrZ;
  }

  // ---------------------------------------------------------------------------
  // Objects

  /** The values the comparison sees; `Obj` holds a reference to a plain object. */
  datatype Value = Undefined | Null | Bool(b: bool) | Num(n: int) | Str(s: string) | Obj(ref: JsObject)

  /** A plain object: its own enumerable keys in the order `Object.keys` lists them, and
      the value under each key. */
  class JsObject {
    var keys: seq<string>
    var values: map<string, Value>

    /** Every key is listed once and has a value. */
    predicate Valid()
      reads this
    {
      (forall i, j :: 0 <= i < j < |keys| ==> keys[i] != keys[j]) && values.Keys == set k | k in keys
    }

    /** An object literal with the given properties in order. */
    constructor (props: seq<(string, Value)>)
      requires forall i, j :: 0 <= i < j < |props| ==> props[i].0 != props[j].0
      ensures Valid()
      ensures keys == seq(|props|, i requires 0 <= i < |props| => props[i].0)
      ensures forall i :: 0 <= i < |props| ==> props[i].0 in values && values[props[i].0] == props[i].1
    {
      keys := seq(|props|, i requires 0 <= i < |props| => props[i].0);
      values := map i | 0 <= i < |props| :: props[i].0 := props[i].1;
      new;
      assert forall i :: 0 <= i < |props| ==> keys[i] == props[i].0;
    }
  }

  /** What the loop of `equalObjects` checks: as many keys, and every key of `a` is a
      key of `b` with a strictly equal value. */
  ghost predicate ShallowEqual(a: JsObject, b: JsObject)
    reads a, b
  {
    && |a.keys| == |b.keys|
    && forall k :: k in a.keys ==> k in b.keys && k in a.values && k in b.values && a.values[k] == b.values[k]
  }

  /** `equalObjects(a, b)`: true for the same value or reference; false unless both are
      non-null objects; otherwise the shallow key/value comparison. */
  method EqualObjects(a: Value, b: Value) returns (r: bool)
    requires a.Obj? ==> a.ref.Valid()
    requires b.Obj? ==> b.ref.Valid()
    ensures r <==> a == b || (a.Obj? && b.Obj? && ShallowEqual(a.ref, b.ref))
  {
    if a == b {
      return true;
    }
    // `typeof null` is 'object', so `null` passes this test and fails the next one.
    if !(a.Obj? || a.Null?) || !(b.Obj? || b.Null?) {
      return false;
    }
    if a.Null? || b.Null? {
      return false;
    }
    var keysA, keysB := a.ref.keys, b.ref.keys;
    if |keysA| != |keysB| {
      return false;
    }
    var i := 0;
    while i < |keysA|
      invariant 0 <= i <= |keysA|
      invariant forall j :: 0 <= j < i ==>
                  keysA[j] in keysB && a.ref.values[keysA[j]] == b.ref.values[keysA[j]]
    {
      var key := keysA[i];
      if key !in keysB {
        return false;
      }
      if a.ref.values[key] != b.ref.values[key] {
        return false;
      }
      i := i + 1;
    }
    return true;
  }

  /** For well-formed objects the comparison holds exactly when both have the same
      properties with the same values. */
  lemma ShallowEqualSameProperties(a: JsObject, b: JsObject)
    requires a.Valid() && b.Valid()
    ensures ShallowEqual(a, b) <==> a.values == b.values
  {
    if a.values == b.values {
      SamePropertiesShallowEqual(a, b);
    }
    if ShallowEqual(a, b) {
      ShallowEqualSamePropertiesOnly(a, b);
    }
  }

  lemma SamePropertiesShallowEqual(a: JsObject, b: JsObject)
    requires a.Valid() && b.Valid() && a.values == b.values
    ensures ShallowEqual(a, b)
  {
    DistinctCard(a.keys);
    DistinctCard(b.keys);
    assert (set k | k in a.keys) == (set k | k in b.keys);
    forall k | k in a.keys ensures k in b.keys && k in a.values && k in b.values {
      assert k in (set x | x in a.keys) && k in a.values.Keys;
      assert k in (set x | x in b.keys);
    }
  }

  lemma ShallowEqualSamePropertiesOnly(a: JsObject, b: JsObject)
    requires a.Valid() && b.Valid() && ShallowEqual(a, b)
    ensures a.values == b.values
  {
    DistinctCard(a.keys);
    DistinctCard(b.keys);
    var ka, kb := set k | k in a.keys, set k | k in b.keys;
    assert ka <= kb;
    SubsetSameSize(ka, kb);
    assert a.values.Keys == b.values.Keys;
    assert forall k :: k in a.values ==> a.values[k] == b.values[k];
  }

  /** A sequence without repeats has as many distinct elements as it has elements. */
  lemma {:induction false} DistinctCard<T>(s: seq<T>)
    requires forall i, j :: 0 <= i < j < |s| ==> s[i] != s[j]
    ensures |set x | x in s| == |s|
  {
    if s != [] {
      DistinctCard(s[1..]);
      assert (set x | x in s) == (set x | x in s[1..]) + {s[0]};
      assert s[0] !in s[1..];
    }
  }

  lemma SubsetSameSize<T>(a: set<T>, b: set<T>)
    requires a <= b && |a| == |b|
    ensures a == b
  {
    assert |b - a| == |b| - |a|;
  }

  /** `objX`, `objY` with the same properties and `objZ = objX`. */
  method EqualObjectsExample() returns (sameXY: bool, equalXY: bool, sameXZ: bool)
    ensures !sameXY && equalXY && sameXZ
  {
    var objX := new JsObject([("x", Num(1)), ("y", Num(2))]);
    var objY := new JsObject([("x", Num(1)), ("y", Num(2))]);
    var objZ := objX;
    sameXY := objX == objY;
    equalXY := EqualObjects(Obj(objX), Obj(objY));
    sameXZ := objX == objZ;
  }

  // ---------------------------------------------------------------------------
  // addItemBad, addItemGood

  /** Pushes into the caller's array and returns that same array. */
  method AddItemBad<T>(arr: JsArray<T>, item: T) returns (r: JsArray<T>)
    modifies arr
    ensures r == arr && arr.elems == old(arr.elems) + [item]
  {
    var _ := arr.Push(item);
    r := arr;
  }

  /** `[...arr, item]`: a new array; the argument is not touched. */
  method AddItemGood<T>(arr: JsArray<T>, item: T) returns (r: JsArray<T>)
    ensures fresh(r) && r.elems == arr.elems + [item]
  {
    r := new JsArray(arr.elems + [item]);
  }

  method AddItemExample() returns (originalBad: JsArray<int>, modifiedBad: JsArray<int>,
                                   originalGood: JsArray<int>, modifiedGood: JsArray<int>)
    ensures originalBad.elems == [1, 2, 3, 4] && modifiedBad == originalBad
    ensures originalGood.elems == [1, 2, 3] && modifiedGood.elems == [1, 2, 3, 4]
    ensures modifiedGood != originalGood
  {
    originalBad := new JsArray([1, 2, 3]);
    modifiedBad := AddItemBad(originalBad, 4);
    originalGood := new JsArray([1, 2, 3]);
    modifiedGood := AddItemGood(originalGood, 4);
  }

  // ---------------------------------------------------------------------------
  // Manual copy loop

  /** The manual copy: a new empty array, then one index write per element of the
      source, in order. */
  method CopyByLoop<T>(source: JsArray<T>) returns (manual: JsArray<T>)
    ensures fresh(manual) && manual.elems == source.elems
  {
    manual := new JsArray([]);
    var i := 0;
    while i < |source.elems|
      invariant 0 <= i <= |source.elems|
      invariant manual.elems == source.elems[..i]
    {
      manual.Put(i, source.elems[i]);
      assert source.elems[..i + 1] == source.elems[..i] + [source.elems[i]];
      i := i + 1;
    }
    assert source.elems[..i] == source.elems;
  }

  /** After the copy, a write to the source does not reach the copy. */
  method ManualCopyExample() returns (source: JsArray<string>, manual: JsArray<string>)
    ensures source.elems == ["CHANGED", "b", "c"]
    ensures manual.elems == ["a", "b", "c"]
  {
    source := new JsArray(["a", "b", "c"]);
    manual := CopyByLoop(source);
    source.Put(0, "CHANGED");
  }

  // ---------------------------------------------------------------------------
  // ShoppingCart

  class ShoppingCart {
    var items: JsArray<string>

    constructor ()
      ensures fresh(items) && items.elems == []
    {
      items := new JsArray([]);
    }

    /** `this.items = newItems`: the cart shares the caller's array. */
    method AddItemsMutating(newItems: JsArray<string>)
      modifies this
      ensures items == newItems
    {
      items := newItems;
    }

    /** `this.items = [...newItems]`: the cart gets its own copy. */
    method AddItemsSafe(newItems: JsArray<string>)
      modifies this
      ensures fresh(items) && items.elems == newItems.elems
    {
      items := new JsArray(newItems.elems);
    }
  }

  /** A push to the external array shows through the sharing cart but not the copying
      one. */
  method ShoppingCartExample() returns (cart1: ShoppingCart, cart2: ShoppingCart)
    ensures cart1.items.elems == ["apple", "banana", "orange"]
    ensures cart2.items.elems == ["apple", "banana"]
  {
    var externalItems := new JsArray(["apple", "banana"]);
    cart1 := new ShoppingCart();
    cart1.AddItemsMutating(externalItems);
    var _ := externalItems.Push("orange");

    var externalItems2 := new JsArray(["apple", "banana"]);
    cart2 := new ShoppingCart();
    cart2.AddItemsSafe(externalItems2);
    var _ := externalItems2.Push("orange");
  }
}
