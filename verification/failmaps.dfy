/** Failure maps, the payload of a ValidationError, together with the two
    pieces of JavaScript library behaviour the engine relies on to build
    them: `Object.fromEntries` and the `toString` rendering of arrays. */
module FailMaps {

  /** A failure map: a leaf token, the `null` placeholder of an element that
      passed, an array of element maps, or an object of field maps. */
  datatype FailMap =
    | Text(text: string)
    | Nil
    | List(items: seq<FailMap>)
    | Fields(entries: seq<(string, FailMap)>)

  type Entry = (string, FailMap)

  function KeySet(es: seq<Entry>): set<string>
  {
    set i | 0 <= i < |es| :: es[i].0
  }

  predicate DistinctKeys(es: seq<Entry>)
  {
    forall i, j :: 0 <= i < j < |es| ==> es[i].0 != es[j].0
  }

  lemma KeySetConcat(a: seq<Entry>, b: seq<Entry>)
    ensures KeySet(a + b) == KeySet(a) + KeySet(b)
  {
    forall k | k in KeySet(a + b) ensures k in KeySet(a) + KeySet(b) {
      var i :| 0 <= i < |a + b| && (a + b)[i].0 == k;
      if i >= |a| { assert b[i - |a|].0 == k; }
    }
    forall k | k in KeySet(a) ensures k in KeySet(a + b) {
      var i :| 0 <= i < |a| && a[i].0 == k;
      assert (a + b)[i].0 == k;
    }
    forall k | k in KeySet(b) ensures k in KeySet(a + b) {
      var i :| 0 <= i < |b| && b[i].0 == k;
      assert (a + b)[i + |a|].0 == k;
    }
  }

  lemma KeySetSingle(x: Entry)
    ensures KeySet([x]) == {x.0}
  {
    assert [x][0] == x;
  }

  lemma DistinctConcat(a: seq<Entry>, b: seq<Entry>)
    requires DistinctKeys(a) && DistinctKeys(b) && KeySet(a) !! KeySet(b)
    ensures DistinctKeys(a + b)
  {
    forall i, j | 0 <= i < j < |a + b| ensures (a + b)[i].0 != (a + b)[j].0 {
      if i < |a| && j >= |a| {
        assert (a + b)[i].0 in KeySet(a);
        assert (a + b)[j].0 == b[j - |a|].0;
        assert b[j - |a|].0 in KeySet(b);
      }
    }
  }

  /** Defining one property on an object: an existing key keeps its position
      and takes the new value; a new key goes last. */
  function Put(acc: seq<Entry>, e: Entry): (r: seq<Entry>)
    ensures KeySet(r) == KeySet(acc) + {e.0}
    ensures DistinctKeys(acc) ==> DistinctKeys(r)
    ensures e.0 !in KeySet(acc) ==> r == acc + [e]
    ensures e in r
  {
    if acc == [] then [e]
    else if acc[0].0 == e.0 then
      PutHere(acc, e);
      [e] + acc[1..]
    else
      var rest := Put(acc[1..], e);
      PutLater(acc, e, rest);
      [acc[0]] + rest
  }

  /** The key of the first entry is the one redefined. */
  lemma PutHere(acc: seq<Entry>, e: Entry)
    requires acc != [] && acc[0].0 == e.0
    ensures KeySet([e] + acc[1..]) == KeySet(acc) + {e.0}
    ensures DistinctKeys(acc) ==> DistinctKeys([e] + acc[1..])
  {
    assert acc == [acc[0]] + acc[1..];
    KeySetConcat([acc[0]], acc[1..]);
    KeySetConcat([e], acc[1..]);
    KeySetSingle(e);
    KeySetSingle(acc[0]);
    if DistinctKeys(acc) {
      assert e.0 !in KeySet(acc[1..]);
      DistinctConcat([e], acc[1..]);
    }
  }

  /** The first entry stays in front of the rest, where the key is put. */
  lemma PutLater(acc: seq<Entry>, e: Entry, rest: seq<Entry>)
    requires acc != [] && acc[0].0 != e.0
    requires KeySet(rest) == KeySet(acc[1..]) + {e.0}
    requires DistinctKeys(acc[1..]) ==> DistinctKeys(rest)
    requires e.0 !in KeySet(acc[1..]) ==> rest == acc[1..] + [e]
    requires e in rest
    ensures KeySet([acc[0]] + rest) == KeySet(acc) + {e.0}
    ensures DistinctKeys(acc) ==> DistinctKeys([acc[0]] + rest)
    ensures e.0 !in KeySet(acc) ==> [acc[0]] + rest == acc + [e]
    ensures e in [acc[0]] + rest
  {
    assert acc == [acc[0]] + acc[1..];
    KeySetConcat([acc[0]], acc[1..]);
    KeySetConcat([acc[0]], rest);
    KeySetSingle(acc[0]);
    if DistinctKeys(acc) {
      assert acc[0].0 !in KeySet(acc[1..]);
      DistinctConcat([acc[0]], rest);
    }
  }

  /** Redefining a key of an object with distinct keys replaces its value in
      place and leaves every other entry where it was. */
  lemma {:induction false} PutReplaces(acc: seq<Entry>, e: Entry)
    requires DistinctKeys(acc) && e.0 in KeySet(acc)
    ensures |Put(acc, e)| == |acc|
    ensures forall i :: 0 <= i < |acc| ==> Put(acc, e)[i] == (if acc[i].0 == e.0 then e else acc[i])
  {
    assert acc == [acc[0]] + acc[1..];
    KeySetConcat([acc[0]], acc[1..]);
    assert KeySet([acc[0]]) == {acc[0].0};
    if acc[0].0 == e.0 {
      forall i | 1 <= i < |acc| ensures acc[i].0 != e.0 {
        assert acc[0].0 != acc[i].0;
      }
    } else {
      assert e.0 in KeySet(acc[1..]);
      PutReplaces(acc[1..], e);
      var rest := Put(acc[1..], e);
      assert Put(acc, e) == [acc[0]] + rest;
      forall i | 1 <= i < |acc| ensures Put(acc, e)[i] == (if acc[i].0 == e.0 then e else acc[i]) {
        assert Put(acc, e)[i] == rest[i - 1] && acc[1..][i - 1] == acc[i];
      }
    }
  }

  /** `Object.fromEntries`, folding the entries left to right into `acc`. */
  function PutAll(acc: seq<Entry>, es: seq<Entry>): (r: seq<Entry>)
    requires DistinctKeys(acc)
    ensures KeySet(r) == KeySet(acc) + KeySet(es)
    ensures DistinctKeys(r)
    ensures DistinctKeys(acc + es) ==> r == acc + es
    decreases |es|
  {
    if es == [] then
      assert acc + es == acc;
      acc
    else
      assert es == [es[0]] + es[1..];
      KeySetConcat([es[0]], es[1..]);
      assert acc + es == (acc + [es[0]]) + es[1..];
      KeySetConcat(acc, [es[0]]);
      KeySetConcat(acc, es);
      assert KeySet([es[0]]) == {es[0].0};
      assert DistinctKeys(acc + es) ==> es[0].0 !in KeySet(acc) by {
        if DistinctKeys(acc + es) {
          forall i | 0 <= i < |acc| ensures acc[i].0 != es[0].0 {
            assert (acc + es)[i] == acc[i] && (acc + es)[|acc|] == es[0];
          }
        }
      }
      PutAll(Put(acc, es[0]), es[1..])
  }

  /** `Object.fromEntries(es)`: the resulting object has each key once; when
      the keys are already distinct it is the entries themselves, in order. */
  function FromEntries(es: seq<Entry>): (r: seq<Entry>)
    ensures KeySet(r) == KeySet(es)
    ensures DistinctKeys(r)
    ensures DistinctKeys(es) ==> r == es
  {
    assert [] + es == es;
    PutAll([], es)
  }

  /** `String(m)`: a string is itself, null renders empty, an array joins its
      rendered elements with commas, and an object renders as
      "[object Object]". */
  function Render(m: FailMap): string
  {
    match m
    case Text(t) => t
    case Nil => ""
    case List(items) => Join(items)
    case Fields(_) => "[object Object]"
  }

  /** `Array.prototype.join(",")` over rendered elements. */
  function Join(items: seq<FailMap>): string
  {
    if items == [] then ""
    else if |items| == 1 then Render(items[0])
    else Render(items[0]) + "," + Join(items[1..])
  }

  /** Joining two non-empty arrays end to end puts exactly one comma between
      their joined halves. */
  lemma {:induction false} JoinConcat(a: seq<FailMap>, b: seq<FailMap>)
    requires a != [] && b != []
    ensures Join(a + b) == Join(a) + "," + Join(b)
  {
    assert (a + b)[0] == a[0];
    if |a| == 1 {
      assert (a + b)[1..] == b;
    } else {
      assert (a + b)[1..] == a[1..] + b;
      JoinConcat(a[1..], b);
    }
  }

  /** The strings of a Ruleset's failures as an array of tokens. */
  function Texts(ts: seq<string>): seq<FailMap>
  {
    seq(|ts|, i requires 0 <= i < |ts| => Text(ts[i]))
  }

  /** The `[key, map]` pairs an ObjectRule collects, as a JavaScript array of
      two-element arrays, which is what its message renders. */
  function Pairs(es: seq<Entry>): seq<FailMap>
  {
    seq(|es|, i requires 0 <= i < |es| => List([Text(es[i].0), es[i].1]))
  }
}
