/**
 What a key holds after a sequence of puts and appends, said about the whole sequence: the
 value of the last put followed by everything appended since, in order.  The services and
 the checker's key/value model are measured against this.
 */
module Writes {

  datatype Option<+T> = None | Some(value: T)

  /** A put, or else an append, of a text to a key. */
  datatype Write<K, T> = Write(key: K, put: bool, text: seq<T>)

  predicate PutAt<K(==), T>(w: seq<Write<K, T>>, key: K, i: int) {
    0 <= i < |w| && w[i].key == key && w[i].put
  }

  /** The position of the last put to the key, or -1. */
  function LastPut<K(==), T>(w: seq<Write<K, T>>, key: K): (i: int)
    ensures -1 <= i < |w| && (i >= 0 ==> PutAt(w, key, i))
    ensures forall j :: i < j < |w| ==> !PutAt(w, key, j)
  {
    if w == [] then -1
    else if PutAt(w, key, |w| - 1) then |w| - 1
    else
      var i := LastPut(w[..|w| - 1], key);
      assert forall j :: 0 <= j < |w| - 1 ==> (PutAt(w, key, j) <==> PutAt(w[..|w| - 1], key, j));
      i
  }

  /** The texts of all writes to the key from position i on, one after the other. */
  function TextFrom<K(==), T>(w: seq<Write<K, T>>, key: K, i: nat): seq<T>
    decreases |w| - i
  {
    if i >= |w| then [] else (if w[i].key == key then w[i].text else []) + TextFrom(w, key, i + 1)
  }

  predicate Written<K(==), T>(w: seq<Write<K, T>>, key: K) {
    exists i :: 0 <= i < |w| && w[i].key == key
  }

  /** The last put's text and the texts appended since, or nothing if there was no write. */
  function ValueAfter<K(==), T>(w: seq<Write<K, T>>, key: K): Option<seq<T>> {
    if !Written(w, key) then None
    else Some(TextFrom(w, key, if LastPut(w, key) >= 0 then LastPut(w, key) else 0))
  }

  // ----- One more write --------------------------------------------------------------

  lemma {:induction false} TextMore<K, T>(w: seq<Write<K, T>>, x: Write<K, T>, key: K, i: nat)
    requires i <= |w|
    ensures TextFrom(w + [x], key, i) == TextFrom(w, key, i) + if x.key == key then x.text else []
    decreases |w| - i
  {
    if i == |w| {
      assert TextFrom(w + [x], key, i + 1) == [];
    } else {
      TextMore(w, x, key, i + 1);
      assert (w + [x])[i] == w[i];
    }
  }

  lemma WrittenMore<K, T>(w: seq<Write<K, T>>, x: Write<K, T>, key: K)
    ensures Written(w + [x], key) <==> Written(w, key) || x.key == key
  {
    assert (w + [x])[|w|] == x;
    if Written(w, key) {
      var i :| 0 <= i < |w| && w[i].key == key;
      assert (w + [x])[i].key == key;
    }
  }

  lemma LastPutMore<K, T>(w: seq<Write<K, T>>, x: Write<K, T>, key: K)
    ensures LastPut(w + [x], key) == if x.key == key && x.put then |w| else LastPut(w, key)
  {
    assert (w + [x])[..|w|] == w;
  }

  /** Without a write to the key there is no text. */
  lemma {:induction false} NoText<K, T>(w: seq<Write<K, T>>, key: K, i: nat)
    requires !Written(w, key)
    ensures TextFrom(w, key, i) == []
    decreases |w| - i
  {
    if i < |w| {
      NoText(w, key, i + 1);
    }
  }

  /** What one more write does: another key's value stays, a put replaces the value, and an
      append comes behind it. */
  lemma ValueMore<K, T>(w: seq<Write<K, T>>, x: Write<K, T>, key: K)
    ensures var was := ValueAfter(w, key);
            ValueAfter(w + [x], key) ==
            if x.key != key then was
            else if x.put || was.None? then Some(x.text) else Some(was.value + x.text)
  {
    WrittenMore(w, x, key);
    LastPutMore(w, x, key);
    var i := LastPut(w, key);
    TextMore(w, x, key, if i >= 0 then i else 0);
    TextMore(w, x, key, |w|);
    var text := TextFrom(w, key, if i >= 0 then i else 0);
    assert text + [] == text && [] + x.text == x.text;
    if !Written(w, key) {
      NoText(w, key, 0);
      assert !PutAt(w, key, i);
    }
  }
}
