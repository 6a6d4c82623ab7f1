/** Python's insertion-ordered `dict` from field names to answers, as a
    sequence of (key, value) entries: `user_data`, and the one-row table
    built from it (chatbot.py:88, 106-107, 110, 114).
 */
module Records {
  import opened Values

  type Record = seq<(string, Value)>

  /** The column names, in insertion order. */
  function Keys(d: Record): (ks: seq<string>)
    ensures |ks| == |d|
    ensures forall i :: 0 <= i < |d| ==> ks[i] == d[i].0
  {
    if d == [] then [] else [d[0].0] + Keys(d[1..])
  }

  /** `d.get(k)`: the value of the entry for `k`, the first one should the
      sequence hold several, and nothing when there is none. */
  function Get(d: Record, k: string): (r: Option<Value>)
    ensures r.Some? <==> k in Keys(d)
  {
    if d == [] then None
    else if d[0].0 == k then Some(d[0].1)
    else
      assert Keys(d) == [d[0].0] + Keys(d[1..]);
      Get(d[1..], k)
  }

  /** The value `Get` finds is the one stored in the first entry for the key. */
  lemma {:induction false} GetFirst(d: Record, k: string, i: nat)
    requires i < |d| && d[i].0 == k && k !in Keys(d)[..i]
    ensures Get(d, k) == Some(d[i].1)
  {
    if i > 0 {
      assert d[0].0 == Keys(d)[..i][0];
      assert Keys(d[1..])[..i - 1] == Keys(d)[1..i];
      GetFirst(d[1..], k, i - 1);
    }
  }

  /** `d[k] = v`: an existing key keeps its place and takes the new value,
      a new key goes at the end. */
  function Put(d: Record, k: string, v: Value): (r: Record)
    ensures Get(r, k) == Some(v)
    ensures forall k' :: k' != k ==> Get(r, k') == Get(d, k')
    ensures k in Keys(d) ==> Keys(r) == Keys(d)
    ensures k !in Keys(d) ==> r == d + [(k, v)]
  {
    if d == [] then [(k, v)]
    else
      assert d == [d[0]] + d[1..];
      if d[0].0 == k then
        Cons(d[0], d[1..]);
        Cons((k, v), d[1..]);
        [(k, v)] + d[1..]
      else
        var rest := Put(d[1..], k, v);
        PutBehind(d[0], d[1..], k, v, rest);
        [d[0]] + rest
  }

  /** `Put` past an entry for another key: what holds of `rest` against `d`
      holds of both with that entry in front. */
  lemma PutBehind(e: (string, Value), d: Record, k: string, v: Value, rest: Record)
    requires e.0 != k
    requires Get(rest, k) == Some(v)
    requires forall k' :: k' != k ==> Get(rest, k') == Get(d, k')
    requires k in Keys(d) ==> Keys(rest) == Keys(d)
    requires k !in Keys(d) ==> rest == d + [(k, v)]
    ensures Get([e] + rest, k) == Some(v)
    ensures forall k' :: k' != k ==> Get([e] + rest, k') == Get([e] + d, k')
    ensures k in Keys([e] + d) ==> Keys([e] + rest) == Keys([e] + d)
    ensures k !in Keys([e] + d) ==> [e] + rest == [e] + d + [(k, v)]
  {
    Cons(e, rest);
    Cons(e, d);
    assert k in Keys([e] + d) <==> k in Keys(d);
    if k !in Keys(d) {
      assert [e] + (d + [(k, v)]) == [e] + d + [(k, v)];
    }
  }

  /** An entry in front of a record: its key comes first, and it answers a
      lookup of that key before the rest is searched. */
  lemma Cons(e: (string, Value), d: Record)
    ensures Keys([e] + d) == [e.0] + Keys(d)
    ensures forall k :: Get([e] + d, k) == if e.0 == k then Some(e.1) else Get(d, k)
  {
    assert ([e] + d)[1..] == d;
  }

  /** The list `ks` with every name in `cols` taken out, order kept. */
  function Without(ks: seq<string>, cols: set<string>): seq<string>
  {
    if ks == [] then []
    else if ks[0] in cols then Without(ks[1..], cols)
    else [ks[0]] + Without(ks[1..], cols)
  }

  /** What is left are exactly the names of `ks` outside `cols`. */
  lemma {:induction false} WithoutMembers(ks: seq<string>, cols: set<string>)
    ensures forall k :: k in Without(ks, cols) <==> k in ks && k !in cols
  {
    if ks != [] {
      WithoutMembers(ks[1..], cols);
      assert forall k :: k in ks <==> k == ks[0] || k in ks[1..];
    }
  }

  /** Taking names out of a concatenation takes them out of each part. */
  lemma {:induction false} WithoutAppend(a: seq<string>, b: seq<string>, cols: set<string>)
    ensures Without(a + b, cols) == Without(a, cols) + Without(b, cols)
  {
    if a == [] {
      assert a + b == b;
    } else {
      assert (a + b)[1..] == a[1..] + b;
      WithoutAppend(a[1..], b, cols);
    }
  }

  /** A list with none of the names in `cols` is left as it is. */
  lemma {:induction false} WithoutNone(a: seq<string>, cols: set<string>)
    requires forall i :: 0 <= i < |a| ==> a[i] !in cols
    ensures Without(a, cols) == a
  {
    if a != [] {
      WithoutNone(a[1..], cols);
    }
  }

  /** `df.drop(columns=cols)` on a one-row table: the remaining columns in
      their original order, each with its original value. */
  function Drop(d: Record, cols: set<string>): (r: Record)
    ensures Keys(r) == Without(Keys(d), cols)
    ensures forall k :: Get(r, k) == if k in cols then None else Get(d, k)
  {
    if d == [] then []
    else
      var rest := Drop(d[1..], cols);
      assert Keys(d) == [d[0].0] + Keys(d[1..]);
      if d[0].0 in cols then rest
      else
        assert Keys([d[0]] + rest) == [d[0].0] + Keys(rest);
        [d[0]] + rest
  }
}
